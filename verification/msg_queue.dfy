/** The message queue as concurrent tasks see it: a send reserves a block, copies with interrupts on and then
    commits; a receive takes a block, copies with interrupts on and then recycles it. Any interleaving, byte by byte. */
module MsgQueue {
  import opened Base
  import opened TaskQueue

  type Blk = nat
  type byte = x: int | 0 <= x < 256

  /** Where a block is: `loc` is a history variable, one place per block. */
  datatype Place = Free | Queued | WithSender(t: Tid) | WithReceiver(t: Tid)

  /** A sender between its two critical sections: `done` bytes of msg are in the block. */
  datatype Sending = Sending(blk: Blk, msg: seq<byte>, done: nat)

  /** A receiver between its two critical sections: `idx` is the position of its message in the commit order. */
  datatype Receiving = Receiving(blk: Blk, idx: nat, want: nat, out: seq<byte>)

  /** What a receive returned: the message at `idx` was asked for `want` bytes of, and `out` came. */
  datatype Receipt = Receipt(idx: nat, want: nat, out: seq<byte>)

  /** `cnt` is cur_msg_cnt. `log` lists the committed messages in commit order; the first `taken` of them have been
      taken; `receipts` lists the receives that have returned. */
  datatype Queue = Queue(
    count: nat, maxSize: nat, prio: map<Tid, nat>, cnt: nat,
    free: seq<Blk>, msgs: seq<Blk>, mem: map<Blk, seq<byte>>, loc: map<Blk, Place>,
    senders: map<Tid, Sending>, receivers: map<Tid, Receiving>,
    log: seq<seq<byte>>, taken: nat, receipts: seq<Receipt>,
    waitS: seq<Tid>, waitR: seq<Tid>, wokenS: set<Tid>, wokenR: set<Tid>)

  // ----- the invariant -----

  ghost predicate BlockOk(q: Queue, b: Blk) {
    && b in q.mem && |q.mem[b]| == q.maxSize && b in q.loc
    && (b in q.free <==> q.loc[b] == Free)
    && (b in q.msgs <==> q.loc[b] == Queued)
    && (forall t :: q.loc[b] == WithSender(t) ==> t in q.senders && q.senders[t].blk == b)
    && (forall t :: q.loc[b] == WithReceiver(t) ==> t in q.receivers && q.receivers[t].blk == b)
  }

  /** The first bytes of the block are those of msg. */
  predicate Carries(q: Queue, b: Blk, msg: seq<byte>) {
    b in q.mem && |msg| <= |q.mem[b]| && q.mem[b][..|msg|] == msg
  }

  ghost predicate SenderOk(q: Queue, t: Tid)
    requires t in q.senders
  {
    var s := q.senders[t];
    && s.blk < q.count && s.blk in q.loc && q.loc[s.blk] == WithSender(t)
    && s.done <= |s.msg| <= q.maxSize
    && Carries(q, s.blk, s.msg[..s.done])
  }

  ghost predicate ReceiverOk(q: Queue, t: Tid)
    requires t in q.receivers
  {
    var r := q.receivers[t];
    && r.blk < q.count && r.blk in q.loc && q.loc[r.blk] == WithReceiver(t)
    && r.idx < q.taken <= |q.log|
    && |r.out| <= r.want <= q.maxSize
    && Carries(q, r.blk, q.log[r.idx])
    && Carries(q, r.blk, r.out)
  }

  /** No committed message is taken twice. */
  predicate TakenApart(q: Queue, t: Tid, u: Tid)
    requires t in q.receivers && u in q.receivers
  {
    q.receivers[t].idx != q.receivers[u].idx
  }

  /** The i-th message in the queue is the (taken + i)-th committed one. */
  ghost predicate MessageOk(q: Queue, i: nat)
    requires i < |q.msgs|
  {
    q.msgs[i] < q.count && q.taken + i < |q.log| && Carries(q, q.msgs[i], q.log[q.taken + i])
  }

  /** No stranded waiter: with somebody waiting, what is available is spoken for by tasks already woken. */
  ghost predicate NoneStranded(q: Queue) {
    && (q.waitR != [] ==> |q.msgs| <= |q.wokenR|)
    && (q.waitS != [] ==> |q.free| <= |q.wokenS|)
  }

  ghost predicate WaitersOk(q: Queue) {
    && NoDup(q.waitS) && NoDup(q.waitR)
    && (forall t :: t in q.waitS ==> t !in q.wokenS)
    && (forall t :: t in q.waitR ==> t !in q.wokenR)
  }

  ghost predicate Places(q: Queue) {
    forall b {:trigger BlockOk(q, b)} :: 0 <= b < q.count ==> BlockOk(q, b)
  }

  ghost predicate Flight(q: Queue) {
    && (forall t {:trigger SenderOk(q, t)} :: t in q.senders ==> SenderOk(q, t))
    && (forall t {:trigger ReceiverOk(q, t)} :: t in q.receivers ==> ReceiverOk(q, t))
    && (forall i {:trigger MessageOk(q, i)} :: 0 <= i < |q.msgs| ==> MessageOk(q, i))
    && (forall t, u {:trigger TakenApart(q, t, u)} :: t in q.receivers && u in q.receivers && t != u ==>
        TakenApart(q, t, u))
  }

  ghost predicate Tally(q: Queue) {
    && NoDup(q.free) && NoDup(q.msgs)
    && (forall b :: b in q.free ==> b < q.count)
    && |q.log| == q.taken + |q.msgs| && q.cnt == |q.msgs|
    && |q.free| + |q.msgs| + |q.senders| + |q.receivers| == q.count
    && WaitersOk(q) && NoneStranded(q)
  }

  ghost predicate Inv(q: Queue) {
    Places(q) && Flight(q) && Tally(q)
  }

  // ----- the steps; each is one critical section, or one byte copied outside -----

  datatype Op =
    | SendBegin(t: Tid, msg: seq<byte>, wait: bool)
    | CopyIn(t: Tid)
    | SendEnd(t: Tid)
    | RecvBegin(t: Tid, want: nat, wait: bool, inIsr: bool)
    | CopyOut(t: Tid)
    | RecvEnd(t: Tid)

  /** A task is in one call at a time; a woken task retries the call it was blocked in. */
  predicate Enabled(q: Queue, op: Op) {
    match op
    case SendBegin(t, msg, wait) => t !in q.senders && t !in q.receivers && t !in q.waitS && t !in q.waitR
    case CopyIn(t) => t in q.senders && q.senders[t].done < |q.senders[t].msg|
    case SendEnd(t) => t in q.senders && q.senders[t].done == |q.senders[t].msg|
    case RecvBegin(t, want, wait, inIsr) => t !in q.senders && t !in q.receivers && t !in q.waitS && t !in q.waitR
    case CopyOut(t) => t in q.receivers && |q.receivers[t].out| < q.receivers[t].want
    case RecvEnd(t) => t in q.receivers && |q.receivers[t].out| == q.receivers[t].want
  }

  /** First critical section of mrtk_mq_send_wait. */
  function Reserve(q: Queue, t: Tid, msg: seq<byte>, wait: bool): (Queue, Code) {
    var awake := q.(wokenS := q.wokenS - {t});
    if |msg| > q.maxSize then (q, ERROR)
    else if q.free == [] then
      if wait then (awake.(waitS := SortedInsert(q.waitS, q.prio, t)), EOK) else (awake, ERROR)
    else
      (awake.(free := q.free[1..], loc := q.loc[q.free[0] := WithSender(t)],
              senders := q.senders[t := Sending(q.free[0], msg, 0)]), EOK)
  }

  /** One byte of the sender's memcpy. */
  function PutByte(q: Queue, t: Tid): Queue
    requires t in q.senders && q.senders[t].done < |q.senders[t].msg|
  {
    var s := q.senders[t];
    if s.blk in q.mem && s.done < |q.mem[s.blk]| then
      q.(mem := q.mem[s.blk := q.mem[s.blk][s.done := s.msg[s.done]]],
          senders := q.senders[t := s.(done := s.done + 1)])
    else q
  }

  function WakeReceiver(q: Queue): Queue {
    if q.waitR == [] then q else q.(waitR := q.waitR[1..], wokenR := q.wokenR + {q.waitR[0]})
  }

  function WakeSender(q: Queue): Queue {
    if q.waitS == [] then q else q.(waitS := q.waitS[1..], wokenS := q.wokenS + {q.waitS[0]})
  }

  /** Second critical section of mrtk_mq_send_wait. */
  function Commit(q: Queue, t: Tid): Queue
    requires t in q.senders
  {
    var s := q.senders[t];
    WakeReceiver(q.(msgs := q.msgs + [s.blk], loc := q.loc[s.blk := Queued], senders := q.senders - {t},
        log := q.log + [s.msg],
                    cnt := q.cnt + 1))
  }

  /** First critical section of mrtk_mq_recv. */
  function Fetch(q: Queue, t: Tid, want: nat, wait: bool, inIsr: bool): (Queue, Code) {
    var awake := q.(wokenR := q.wokenR - {t});
    if want > q.maxSize then (q, ERROR)
    else if wait && inIsr then (q, E_IN_ISR)
    else if q.cnt == 0 || q.msgs == [] then
      if wait then (awake.(waitR := SortedInsert(q.waitR, q.prio, t)), EOK) else (awake, ERROR)
    else
      (awake.(msgs := q.msgs[1..], cnt := q.cnt - 1, loc := q.loc[q.msgs[0] := WithReceiver(t)], taken := q.taken + 1,
              receivers := q.receivers[t := Receiving(q.msgs[0], q.taken, want, [])]), EOK)
  }

  /** One byte of the receiver's memcpy. */
  function GetByte(q: Queue, t: Tid): Queue
    requires t in q.receivers
  {
    var r := q.receivers[t];
    if r.blk in q.mem && |r.out| < |q.mem[r.blk]| then
      q.(receivers := q.receivers[t := r.(out := r.out + [q.mem[r.blk][|r.out|]])])
    else q
  }

  /** Second critical section of mrtk_mq_recv: the block goes to the head of the free list. */
  function Recycle(q: Queue, t: Tid): Queue
    requires t in q.receivers
  {
    var r := q.receivers[t];
    WakeSender(q.(free := [r.blk] + q.free, loc := q.loc[r.blk := Free], receivers := q.receivers - {t},
                  receipts := q.receipts + [Receipt(r.idx, r.want, r.out)]))
  }

  function Step(q: Queue, op: Op): Queue
    requires Enabled(q, op)
  {
    match op
    case SendBegin(t, msg, wait) => Reserve(q, t, msg, wait).0
    case CopyIn(t) => PutByte(q, t)
    case SendEnd(t) => Commit(q, t)
    case RecvBegin(t, want, wait, inIsr) => Fetch(q, t, want, wait, inIsr).0
    case CopyOut(t) => GetByte(q, t)
    case RecvEnd(t) => Recycle(q, t)
  }

  /** mrtk_mq_init: every block free, in address order. */
  function Fresh(count: nat, maxSize: nat, prio: map<Tid, nat>, mem: map<Blk, seq<byte>>): Queue {
    var blocks: seq<Blk> := seq(count, i => i);
    Queue(count, maxSize, prio, 0, blocks, [], mem, map b | b in blocks :: Free, map[], map[], [], 0, [], [], [], {},
        {})
  }

  lemma FreshInv(count: nat, maxSize: nat, prio: map<Tid, nat>, mem: map<Blk, seq<byte>>)
    requires forall b: nat :: b < count ==> b in mem && |mem[b]| == maxSize
    ensures Inv(Fresh(count, maxSize, prio, mem))
  {
    var q := Fresh(count, maxSize, prio, mem);
    forall b | 0 <= b < count ensures BlockOk(q, b) {
      assert q.free[b] == b;
    }
  }

  // ----- every step keeps the invariant -----

  /** Nothing but the waiting lists changes. */
  lemma WaitStep(q: Queue, r: Queue)
    requires Inv(q) && r == q.(waitS := r.waitS, waitR := r.waitR, wokenS := r.wokenS, wokenR := r.wokenR)
    requires WaitersOk(r) && NoneStranded(r)
    ensures Inv(r)
  {
    forall b | 0 <= b < r.count ensures BlockOk(r, b) {
      assert BlockOk(q, b);
    }
    forall t | t in r.senders ensures SenderOk(r, t) {
      assert SenderOk(q, t);
    }
    forall t | t in r.receivers ensures ReceiverOk(r, t) {
      assert ReceiverOk(q, t);
    }
    forall i | 0 <= i < |r.msgs| ensures MessageOk(r, i) {
      assert MessageOk(q, i);
    }
    forall x, y | x in r.receivers && y in r.receivers && x != y ensures TakenApart(r, x, y) {
      assert TakenApart(q, x, y);
    }
  }

  lemma MapMinus<V>(m: map<Tid, V>, t: Tid)
    requires t in m
    ensures |m - {t}| == |m| - 1
  {
    assert (m - {t}).Keys == m.Keys - {t};
    assert |(m - {t}).Keys| == |m - {t}| && |m.Keys| == |m|;
  }

  lemma MapPlus<V>(m: map<Tid, V>, t: Tid, v: V)
    requires t !in m
    ensures |m[t := v]| == |m| + 1
  {
    assert m[t := v] - {t} == m;
    MapMinus(m[t := v], t);
  }

  lemma ReserveInv(q: Queue, t: Tid, msg: seq<byte>, wait: bool)
    requires Inv(q) && Enabled(q, SendBegin(t, msg, wait))
    ensures Inv(Reserve(q, t, msg, wait).0)
  {
    var r := Reserve(q, t, msg, wait).0;
    SetMinus(q.wokenS, t);
    if |msg| > q.maxSize {
    } else if q.free == [] {
      InsertMembers(q.waitS, q.prio, t);
      WaitStep(q, r);
    } else {
      ReserveBlock(q, t, msg, r);
    }
  }

  lemma ReservePlace(q: Queue, t: Tid, msg: seq<byte>, r: Queue, b: Blk)
    requires Inv(q) && t !in q.senders && q.free != [] && b < q.count
    requires r == q.(wokenS := q.wokenS - {t}, free := q.free[1..], loc := q.loc[q.free[0] := WithSender(t)],
                     senders := q.senders[t := Sending(q.free[0], msg, 0)])
    ensures BlockOk(r, b)
  {
    var f := q.free[0];
    assert q.free == [f] + q.free[1..] && f in q.free;
    assert BlockOk(q, f) && BlockOk(q, b) && f !in q.free[1..];
  }

  lemma CommitPlace(q: Queue, t: Tid, b: Blk)
    requires Inv(q) && t in q.senders && b < q.count
    ensures BlockOk(Commit(q, t), b)
  {
    assert SenderOk(q, t) && BlockOk(q, q.senders[t].blk) && BlockOk(q, b);
  }

  lemma RecyclePlace(q: Queue, t: Tid, b: Blk)
    requires Inv(q) && t in q.receivers && b < q.count
    ensures BlockOk(Recycle(q, t), b)
  {
    assert ReceiverOk(q, t) && BlockOk(q, q.receivers[t].blk) && BlockOk(q, b);
  }

  lemma ReserveBlock(q: Queue, t: Tid, msg: seq<byte>, r: Queue)
    requires Inv(q) && t !in q.senders && q.free != [] && |msg| <= q.maxSize
    requires r == q.(wokenS := q.wokenS - {t}, free := q.free[1..], loc := q.loc[q.free[0] := WithSender(t)],
                     senders := q.senders[t := Sending(q.free[0], msg, 0)])
    ensures Inv(r)
  {
    forall b | 0 <= b < r.count ensures BlockOk(r, b) {
      ReservePlace(q, t, msg, r, b);
    }
    ReserveFlight(q, t, msg, r);
    SetMinus(q.wokenS, t);
    MapPlus(q.senders, t, r.senders[t]);
    assert forall b :: b in q.free[1..] ==> b in q.free;
  }

  lemma ReserveFlight(q: Queue, t: Tid, msg: seq<byte>, r: Queue)
    requires Inv(q) && t !in q.senders && q.free != [] && |msg| <= q.maxSize
    requires r == q.(wokenS := q.wokenS - {t}, free := q.free[1..], loc := q.loc[q.free[0] := WithSender(t)],
                     senders := q.senders[t := Sending(q.free[0], msg, 0)])
    ensures Flight(r)
  {
    assert q.free[0] in q.free;
    assert BlockOk(q, q.free[0]);
    forall u | u in r.senders ensures SenderOk(r, u) {
      if u != t {
        assert SenderOk(q, u);
      }
    }
    forall u | u in r.receivers ensures ReceiverOk(r, u) {
      assert ReceiverOk(q, u);
    }
    forall i | 0 <= i < |r.msgs| ensures MessageOk(r, i) {
      assert MessageOk(q, i);
    }
    forall x, y | x in r.receivers && y in r.receivers && x != y ensures TakenApart(r, x, y) {
      assert TakenApart(q, x, y);
    }
  }

  lemma PutByteInv(q: Queue, t: Tid)
    requires Inv(q) && Enabled(q, CopyIn(t))
    ensures Inv(PutByte(q, t))
  {
    var r, s := PutByte(q, t), q.senders[t];
    assert SenderOk(q, t) && BlockOk(q, s.blk);
    forall b | 0 <= b < r.count ensures BlockOk(r, b) {
      assert BlockOk(q, b);
    }
    PutByteFlight(q, t);
  }

  lemma PutByteFlight(q: Queue, t: Tid)
    requires Inv(q) && Enabled(q, CopyIn(t))
    ensures Flight(PutByte(q, t))
  {
    var r, s := PutByte(q, t), q.senders[t];
    assert SenderOk(q, t) && BlockOk(q, s.blk);
    forall u | u in r.senders ensures SenderOk(r, u) {
      assert SenderOk(q, u);
      if u == t {
        assert s.msg[..s.done + 1] == s.msg[..s.done] + [s.msg[s.done]];
      }
    }
    forall u | u in r.receivers ensures ReceiverOk(r, u) {
      assert ReceiverOk(q, u);
    }
    forall i | 0 <= i < |r.msgs| ensures MessageOk(r, i) {
      assert MessageOk(q, i);
      assert BlockOk(q, q.msgs[i]);
    }
    forall x, y | x in r.receivers && y in r.receivers && x != y ensures TakenApart(r, x, y) {
      assert TakenApart(q, x, y);
    }
  }

  lemma CommitInv(q: Queue, t: Tid)
    requires Inv(q) && Enabled(q, SendEnd(t))
    ensures Inv(Commit(q, t))
  {
    var r := Commit(q, t);
    forall b | 0 <= b < r.count ensures BlockOk(r, b) {
      CommitPlace(q, t, b);
    }
    CommitFlight(q, t, r);
    CommitTally(q, t);
  }

  lemma CommitFlight(q: Queue, t: Tid, r: Queue)
    requires Inv(q) && Enabled(q, SendEnd(t))
    requires r == q.(msgs := q.msgs + [q.senders[t].blk], loc := q.loc[q.senders[t].blk := Queued],
        senders := q.senders - {t},
                     log := q.log + [q.senders[t].msg], cnt := r.cnt, waitR := r.waitR, wokenR := r.wokenR)
    ensures Flight(r)
  {
    var s := q.senders[t];
    assert SenderOk(q, t);
    assert s.msg[..s.done] == s.msg;
    forall u | u in r.senders ensures SenderOk(r, u) {
      assert SenderOk(q, u);
    }
    forall u | u in r.receivers ensures ReceiverOk(r, u) {
      assert ReceiverOk(q, u);
    }
    forall i | 0 <= i < |r.msgs| ensures MessageOk(r, i) {
      if i < |q.msgs| {
        assert MessageOk(q, i);
      }
    }
    forall x, y | x in r.receivers && y in r.receivers && x != y ensures TakenApart(r, x, y) {
      assert TakenApart(q, x, y);
    }
  }

  lemma CommitTally(q: Queue, t: Tid)
    requires Inv(q) && Enabled(q, SendEnd(t))
    ensures Tally(Commit(q, t))
  {
    var s := q.senders[t];
    assert SenderOk(q, t) && BlockOk(q, s.blk);
    MapMinus(q.senders, t);
    AppendNoDup(q.msgs, s.blk);
    WakeReceiverOk(q, Commit(q, t));
  }

  lemma WakeReceiverOk(q: Queue, r: Queue)
    requires WaitersOk(q) && NoneStranded(q) && |r.msgs| == |q.msgs| + 1 && r.free == q.free
    requires r.waitS == q.waitS && r.wokenS == q.wokenS
    requires if q.waitR == [] then r.waitR == [] && r.wokenR == q.wokenR
             else r.waitR == q.waitR[1..] && r.wokenR == q.wokenR + {q.waitR[0]}
    ensures WaitersOk(r) && NoneStranded(r)
  {
    if q.waitR != [] {
      assert q.waitR == [q.waitR[0]] + q.waitR[1..] && q.waitR[0] in q.waitR;
    }
  }

  lemma FetchInv(q: Queue, t: Tid, want: nat, wait: bool, inIsr: bool)
    requires Inv(q) && Enabled(q, RecvBegin(t, want, wait, inIsr))
    ensures Inv(Fetch(q, t, want, wait, inIsr).0)
  {
    var r := Fetch(q, t, want, wait, inIsr).0;
    SetMinus(q.wokenR, t);
    if want > q.maxSize || (wait && inIsr) {
    } else if q.msgs == [] {
      InsertMembers(q.waitR, q.prio, t);
      WaitStep(q, r);
    } else {
      FetchBlock(q, t, want, r);
    }
  }

  ghost predicate Fetched(q: Queue, t: Tid, want: nat, r: Queue) {
    && t !in q.receivers && q.msgs != [] && q.cnt > 0 && want <= q.maxSize
    && r == q.(wokenR := q.wokenR - {t}, msgs := q.msgs[1..], cnt := q.cnt - 1,
        loc := q.loc[q.msgs[0] := WithReceiver(t)],
               taken := q.taken + 1, receivers := q.receivers[t := Receiving(q.msgs[0], q.taken, want, [])])
  }

  lemma FetchBlock(q: Queue, t: Tid, want: nat, r: Queue)
    requires Inv(q) && Fetched(q, t, want, r)
    ensures Inv(r)
  {
    forall b | 0 <= b < r.count ensures BlockOk(r, b) {
      FetchPlace(q, t, want, r, b);
    }
    FetchFlight(q, t, want, r);
    SetMinus(q.wokenR, t);
    MapPlus(q.receivers, t, r.receivers[t]);
  }

  lemma FetchPlace(q: Queue, t: Tid, want: nat, r: Queue, b: Blk)
    requires Inv(q) && Fetched(q, t, want, r) && b < q.count
    ensures BlockOk(r, b)
  {
    var f := q.msgs[0];
    assert q.msgs == [f] + q.msgs[1..] && f in q.msgs;
    assert MessageOk(q, 0) && BlockOk(q, f) && BlockOk(q, b) && f !in q.msgs[1..];
  }

  lemma FetchFlight(q: Queue, t: Tid, want: nat, r: Queue)
    requires Inv(q) && Fetched(q, t, want, r)
    ensures Flight(r)
  {
    assert q.msgs[0] in q.msgs;
    assert MessageOk(q, 0) && BlockOk(q, q.msgs[0]);
    forall u | u in r.senders ensures SenderOk(r, u) {
      assert SenderOk(q, u);
    }
    forall u | u in r.receivers ensures ReceiverOk(r, u) {
      if u != t {
        assert ReceiverOk(q, u);
      }
    }
    forall i | 0 <= i < |r.msgs| ensures MessageOk(r, i) {
      assert MessageOk(q, i + 1);
    }
    forall x, y | x in r.receivers && y in r.receivers && x != y ensures TakenApart(r, x, y) {
      if x != t && y != t {
        assert TakenApart(q, x, y);
      } else {
        assert x != t ==> ReceiverOk(q, x);
        assert y != t ==> ReceiverOk(q, y);
      }
    }
  }

  lemma GetByteInv(q: Queue, t: Tid)
    requires Inv(q) && Enabled(q, CopyOut(t))
    ensures Inv(GetByte(q, t))
  {
    var r, s := GetByte(q, t), q.receivers[t];
    assert ReceiverOk(q, t) && BlockOk(q, s.blk);
    forall b | 0 <= b < r.count ensures BlockOk(r, b) {
      assert BlockOk(q, b);
    }
    forall u | u in r.senders ensures SenderOk(r, u) {
      assert SenderOk(q, u);
    }
    forall u | u in r.receivers ensures ReceiverOk(r, u) {
      assert ReceiverOk(q, u);
      if u == t {
        assert q.mem[s.blk][..|s.out| + 1] == q.mem[s.blk][..|s.out|] + [q.mem[s.blk][|s.out|]];
      }
    }
    forall i | 0 <= i < |r.msgs| ensures MessageOk(r, i) {
      assert MessageOk(q, i);
    }
    forall x, y | x in r.receivers && y in r.receivers && x != y ensures TakenApart(r, x, y) {
      assert TakenApart(q, x, y);
    }
  }

  lemma RecycleInv(q: Queue, t: Tid)
    requires Inv(q) && Enabled(q, RecvEnd(t))
    ensures Inv(Recycle(q, t))
  {
    var r := Recycle(q, t);
    forall b | 0 <= b < r.count ensures BlockOk(r, b) {
      RecyclePlace(q, t, b);
    }
    assert ReceiverOk(q, t);
    RecycleFlight(q, t, r);
    RecycleTally(q, t);
  }

  /** r is q after t has given its block back, but for the lists and the waiters. */
  ghost predicate GivenBack(q: Queue, t: Tid, r: Queue) {
    && t in q.receivers && q.receivers[t].blk in q.loc
    && r == q.(free := r.free, receipts := r.receipts, loc := q.loc[q.receivers[t].blk := Free],
               receivers := q.receivers - {t}, waitS := r.waitS, wokenS := r.wokenS)
  }

  lemma RecycleFlight(q: Queue, t: Tid, r: Queue)
    requires Inv(q) && GivenBack(q, t, r)
    ensures Flight(r)
  {
    forall u | u in r.senders ensures SenderOk(r, u) {
      RecycleSender(q, t, r, u);
    }
    forall u | u in r.receivers ensures ReceiverOk(r, u) {
      RecycleReceiver(q, t, r, u);
    }
    forall i | 0 <= i < |r.msgs| ensures MessageOk(r, i) {
      assert MessageOk(q, i);
    }
    forall x, y | x in r.receivers && y in r.receivers && x != y ensures TakenApart(r, x, y) {
      assert TakenApart(q, x, y);
    }
  }

  lemma RecycleSender(q: Queue, t: Tid, r: Queue, u: Tid)
    requires Inv(q) && GivenBack(q, t, r) && u in r.senders
    ensures SenderOk(r, u)
  {
    assert ReceiverOk(q, t) && SenderOk(q, u);
  }

  lemma RecycleReceiver(q: Queue, t: Tid, r: Queue, u: Tid)
    requires Inv(q) && GivenBack(q, t, r) && u in r.receivers
    ensures ReceiverOk(r, u)
  {
    assert ReceiverOk(q, t) && ReceiverOk(q, u);
  }

  lemma RecycleTally(q: Queue, t: Tid)
    requires Inv(q) && Enabled(q, RecvEnd(t))
    ensures Tally(Recycle(q, t))
  {
    var r, s := Recycle(q, t), q.receivers[t];
    assert ReceiverOk(q, t) && BlockOk(q, s.blk);
    MapMinus(q.receivers, t);
    PrependNoDup(q.free, s.blk);
    WakeSenderOk(q, r);
  }

  lemma PrependNoDup(q: seq<nat>, b: nat)
    requires NoDup(q) && b !in q
    ensures NoDup([b] + q) && forall x :: x in [b] + q <==> x == b || x in q
  {
  }

  lemma WakeSenderOk(q: Queue, r: Queue)
    requires WaitersOk(q) && NoneStranded(q) && |r.free| == |q.free| + 1 && r.msgs == q.msgs
    requires r.waitR == q.waitR && r.wokenR == q.wokenR
    requires if q.waitS == [] then r.waitS == [] && r.wokenS == q.wokenS
             else r.waitS == q.waitS[1..] && r.wokenS == q.wokenS + {q.waitS[0]}
    ensures WaitersOk(r) && NoneStranded(r)
  {
    if q.waitS != [] {
      assert q.waitS == [q.waitS[0]] + q.waitS[1..] && q.waitS[0] in q.waitS;
    }
  }

  lemma StepInv(q: Queue, op: Op)
    requires Inv(q) && Enabled(q, op)
    ensures Inv(Step(q, op))
  {
    match op
    case SendBegin(t, msg, wait) => ReserveInv(q, t, msg, wait);
    case CopyIn(t) => PutByteInv(q, t);
    case SendEnd(t) => CommitInv(q, t);
    case RecvBegin(t, want, wait, inIsr) => FetchInv(q, t, want, wait, inIsr);
    case CopyOut(t) => GetByteInv(q, t);
    case RecvEnd(t) => RecycleInv(q, t);
  }

  // ----- every interleaving -----

  predicate AllEnabled(q: Queue, ops: seq<Op>)
    decreases |ops|
  {
    ops == [] || (Enabled(q, ops[0]) && AllEnabled(Step(q, ops[0]), ops[1..]))
  }

  function Exec(q: Queue, ops: seq<Op>): Queue
    requires AllEnabled(q, ops)
    decreases |ops|
  {
    if ops == [] then q else Exec(Step(q, ops[0]), ops[1..])
  }

  lemma {:induction false} RunInv(q: Queue, ops: seq<Op>)
    requires Inv(q) && AllEnabled(q, ops)
    ensures Inv(Exec(q, ops))
    decreases |ops|
  {
    if ops != [] {
      StepInv(q, ops[0]);
      RunInv(Step(q, ops[0]), ops[1..]);
    }
  }

  // ----- what the invariant says to the callers -----

  ghost predicate HeldBySender(q: Queue, b: Blk) {
    exists t :: t in q.senders && q.senders[t].blk == b
  }

  ghost predicate HeldByReceiver(q: Queue, b: Blk) {
    exists t :: t in q.receivers && q.receivers[t].blk == b
  }

  /** Every block of the pool is in exactly one place. */
  lemma OnePlaceEach(q: Queue, b: Blk)
    requires Inv(q) && b < q.count
    ensures b in q.free || b in q.msgs || HeldBySender(q, b) || HeldByReceiver(q, b)
    ensures b in q.free ==> b !in q.msgs && !HeldBySender(q, b) && !HeldByReceiver(q, b)
    ensures b in q.msgs ==> !HeldBySender(q, b) && !HeldByReceiver(q, b)
    ensures HeldBySender(q, b) ==> !HeldByReceiver(q, b)
    ensures forall t, u :: t in q.senders && u in q.senders && q.senders[t].blk == b == q.senders[u].blk ==> t == u
    ensures forall t, u ::
              t in q.receivers && u in q.receivers && q.receivers[t].blk == b == q.receivers[u].blk ==> t == u
  {
    assert BlockOk(q, b);
    assert forall t :: t in q.senders && q.senders[t].blk == b ==> SenderOk(q, t);
    assert forall t :: t in q.receivers && q.receivers[t].blk == b ==> ReceiverOk(q, t);
  }

  function Min(a: nat, b: nat): nat {
    if a < b then a else b
  }

  // ----- every message once -----

  /** out starts with as many bytes of msg as were sent and asked for. */
  predicate Begins(out: seq<byte>, msg: seq<byte>, want: nat) {
    var n := Min(|msg|, want);
    n <= |out| && out[..n] == msg[..n]
  }

  ghost predicate ReceiptOk(q: Queue, i: nat)
    requires i < |q.receipts|
  {
    var c := q.receipts[i];
    c.idx < q.taken <= |q.log| && Begins(c.out, q.log[c.idx], c.want)
  }

  predicate ReceiptsApart(q: Queue, i: nat, j: nat)
    requires i < |q.receipts| && j < |q.receipts|
  {
    q.receipts[i].idx != q.receipts[j].idx
  }

  predicate NotReturned(q: Queue, i: nat, t: Tid)
    requires i < |q.receipts| && t in q.receivers
  {
    q.receipts[i].idx != q.receivers[t].idx
  }

  /** The k-th committed message has been returned, or a receiver is copying it. */
  ghost predicate Accounted(q: Queue, k: nat) {
    (exists i :: 0 <= i < |q.receipts| && q.receipts[i].idx == k)
    || exists t :: t in q.receivers && q.receivers[t].idx == k
  }

  ghost predicate Books(q: Queue) {
    && (forall i {:trigger ReceiptOk(q, i)} :: 0 <= i < |q.receipts| ==> ReceiptOk(q, i))
    && (forall i, j {:trigger ReceiptsApart(q, i, j)} :: 0 <= i < j < |q.receipts| ==> ReceiptsApart(q, i, j))
    && (forall i, t {:trigger NotReturned(q, i, t)} :: 0 <= i < |q.receipts| && t in q.receivers ==>
        NotReturned(q, i, t))
    && (forall k {:trigger Accounted(q, k)} :: 0 <= k < q.taken ==> Accounted(q, k))
  }

  /** Steps that return nothing and take nothing. */
  lemma SameBooks(q: Queue, r: Queue)
    requires Books(q) && q.taken <= |q.log| && q.log <= r.log && r.taken == q.taken && r.receipts == q.receipts
    requires r.receivers.Keys == q.receivers.Keys
    requires forall t :: t in q.receivers ==> r.receivers[t].idx == q.receivers[t].idx
    ensures Books(r)
  {
    forall i | 0 <= i < |r.receipts| ensures ReceiptOk(r, i) {
      assert ReceiptOk(q, i);
    }
    forall i, j | 0 <= i < j < |r.receipts| ensures ReceiptsApart(r, i, j) {
      assert ReceiptsApart(q, i, j);
    }
    forall i, t | 0 <= i < |r.receipts| && t in r.receivers ensures NotReturned(r, i, t) {
      assert NotReturned(q, i, t);
    }
    forall k | 0 <= k < r.taken ensures Accounted(r, k) {
      assert Accounted(q, k);
      if t :| t in q.receivers && q.receivers[t].idx == k {
        assert t in r.receivers;
      }
    }
  }

  lemma FetchBooks(q: Queue, t: Tid, want: nat, r: Queue)
    requires Inv(q) && Books(q) && Fetched(q, t, want, r)
    ensures Books(r)
  {
    assert MessageOk(q, 0);
    forall i | 0 <= i < |r.receipts| ensures ReceiptOk(r, i) {
      assert ReceiptOk(q, i);
    }
    forall i, j | 0 <= i < j < |r.receipts| ensures ReceiptsApart(r, i, j) {
      assert ReceiptsApart(q, i, j);
    }
    forall i, u | 0 <= i < |r.receipts| && u in r.receivers ensures NotReturned(r, i, u) {
      assert ReceiptOk(q, i);
      assert u != t ==> NotReturned(q, i, u);
    }
    forall k | 0 <= k < r.taken ensures Accounted(r, k) {
      FetchAccounts(q, t, want, r, k);
    }
  }

  lemma FetchAccounts(q: Queue, t: Tid, want: nat, r: Queue, k: nat)
    requires Books(q) && Fetched(q, t, want, r) && k < r.taken
    ensures Accounted(r, k)
  {
    if k == q.taken {
      assert t in r.receivers && r.receivers[t].idx == k;
    } else {
      assert Accounted(q, k);
      if u :| u in q.receivers && q.receivers[u].idx == k {
        assert u in r.receivers && r.receivers[u] == q.receivers[u];
      }
    }
  }

  /** The receive of t returns. */
  ghost predicate Returned(q: Queue, t: Tid, r: Queue) {
    && t in q.receivers && r.log == q.log && r.taken == q.taken && r.receivers == q.receivers - {t}
    && r.receipts == q.receipts + [Receipt(q.receivers[t].idx, q.receivers[t].want, q.receivers[t].out)]
  }

  lemma RecycleBooks(q: Queue, t: Tid, r: Queue)
    requires Inv(q) && Books(q) && Returned(q, t, r) && |q.receivers[t].out| == q.receivers[t].want
    ensures Books(r)
  {
    var n := |q.receipts|;
    forall i | 0 <= i < |r.receipts| ensures ReceiptOk(r, i) {
      if i < n {
        assert ReceiptOk(q, i);
      } else {
        OutBegins(q, t);
      }
    }
    forall i, j | 0 <= i < j < |r.receipts| ensures ReceiptsApart(r, i, j) {
      if j < n {
        assert ReceiptsApart(q, i, j);
      } else {
        assert NotReturned(q, i, t);
      }
    }
    forall i, u | 0 <= i < |r.receipts| && u in r.receivers ensures NotReturned(r, i, u) {
      if i < n {
        assert NotReturned(q, i, u);
      } else {
        assert TakenApart(q, t, u);
      }
    }
    forall k | 0 <= k < r.taken ensures Accounted(r, k) {
      RecycleAccounts(q, t, r, k);
    }
  }

  lemma RecycleAccounts(q: Queue, t: Tid, r: Queue, k: nat)
    requires Books(q) && Returned(q, t, r) && k < q.taken
    ensures Accounted(r, k)
  {
    assert Accounted(q, k);
    if i :| 0 <= i < |q.receipts| && q.receipts[i].idx == k {
      assert r.receipts[i].idx == k;
    } else {
      var u :| u in q.receivers && q.receivers[u].idx == k;
      if u == t {
        assert r.receipts[|q.receipts|].idx == k;
      } else {
        assert u in r.receivers && r.receivers[u] == q.receivers[u];
      }
    }
  }

  /** The buffer of a receive whose copy is complete. */
  lemma OutBegins(q: Queue, t: Tid)
    requires Inv(q) && t in q.receivers && |q.receivers[t].out| == q.receivers[t].want
    ensures var r := q.receivers[t]; r.idx < q.taken <= |q.log| && Begins(r.out, q.log[r.idx], r.want)
  {
    assert ReceiverOk(q, t);
    var r := q.receivers[t];
    var n, m := Min(|q.log[r.idx]|, r.want), q.mem[r.blk];
    assert r.out[..n] == m[..|r.out|][..n] == m[..n];
    assert q.log[r.idx][..n] == m[..|q.log[r.idx]|][..n] == m[..n];
  }

  /** When a receive is about to return, its buffer starts with the bytes of the message it took, whatever ran during
      the copies. */
  lemma ReceivedIsSent(q: Queue, ops: seq<Op>, t: Tid)
    requires Inv(q) && AllEnabled(q, ops) && Enabled(Exec(q, ops), RecvEnd(t))
    ensures var e := Exec(q, ops);
            var r := e.receivers[t];
            r.idx < e.taken <= |e.log| && Begins(r.out, e.log[r.idx], r.want)
  {
    RunInv(q, ops);
    OutBegins(Exec(q, ops), t);
  }

  lemma StepBooks(q: Queue, op: Op)
    requires Inv(q) && Books(q) && Enabled(q, op)
    ensures Books(Step(q, op))
  {
    var r := Step(q, op);
    match op
    case SendBegin(t, msg, wait) => SameBooks(q, r);
    case CopyIn(t) => SameBooks(q, r);
    case SendEnd(t) => SameBooks(q, r);
    case RecvBegin(t, want, wait, inIsr) =>
      if want <= q.maxSize && !(wait && inIsr) && q.msgs != [] {
        FetchBooks(q, t, want, r);
      } else {
        SameBooks(q, r);
      }
    case CopyOut(t) => SameBooks(q, r);
    case RecvEnd(t) => RecycleBooks(q, t, r);
  }

  lemma {:induction false} RunBooks(q: Queue, ops: seq<Op>)
    requires Inv(q) && Books(q) && AllEnabled(q, ops)
    ensures Books(Exec(q, ops))
    decreases |ops|
  {
    if ops != [] {
      StepInv(q, ops[0]);
      StepBooks(q, ops[0]);
      RunBooks(Step(q, ops[0]), ops[1..]);
    }
  }

  /** In order, none lost, none twice: over any run from a new queue no two receives returned the same message, every
      message taken has been returned or is being copied out, and each receive returned the first bytes of its message,
      as many as were sent and asked for. */
  lemma EachMessageOnce(count: nat, maxSize: nat, prio: map<Tid, nat>, mem: map<Blk, seq<byte>>, ops: seq<Op>)
    requires forall b: nat :: b < count ==> b in mem && |mem[b]| == maxSize
    requires AllEnabled(Fresh(count, maxSize, prio, mem), ops)
    ensures var e := Exec(Fresh(count, maxSize, prio, mem), ops);
            && (forall i, j :: 0 <= i < j < |e.receipts| ==> e.receipts[i].idx != e.receipts[j].idx)
            && (forall k :: 0 <= k < e.taken ==> Accounted(e, k))
            && (forall c :: c in e.receipts ==> c.idx < e.taken <= |e.log| && Begins(c.out, e.log[c.idx], c.want))
            && e.taken + e.cnt == |e.log|
  {
    var q := Fresh(count, maxSize, prio, mem);
    FreshInv(count, maxSize, prio, mem);
    RunInv(q, ops);
    RunBooks(q, ops);
    var e := Exec(q, ops);
    forall i, j | 0 <= i < j < |e.receipts| ensures e.receipts[i].idx != e.receipts[j].idx {
      assert ReceiptsApart(e, i, j);
    }
    forall c | c in e.receipts ensures c.idx < e.taken <= |e.log| && Begins(c.out, e.log[c.idx], c.want) {
      var i :| 0 <= i < |e.receipts| && e.receipts[i] == c;
      assert ReceiptOk(e, i);
    }
  }

  // ----- the histories are those of the calls -----

  /** The message a step commits, and the task whose receive takes one. */
  function CommittedBy(q: Queue, op: Op): seq<seq<byte>>
    requires Enabled(q, op)
  {
    if op.SendEnd? then [q.senders[op.t].msg] else []
  }

  function TakenBy(q: Queue, op: Op): seq<Tid>
    requires Enabled(q, op)
  {
    if op.RecvBegin? && op.want <= q.maxSize && !(op.wait && op.inIsr) && q.cnt > 0 then [op.t] else []
  }

  function Committed(q: Queue, ops: seq<Op>): seq<seq<byte>>
    requires AllEnabled(q, ops)
    decreases |ops|
  {
    if ops == [] then [] else CommittedBy(q, ops[0]) + Committed(Step(q, ops[0]), ops[1..])
  }

  function Takers(q: Queue, ops: seq<Op>): seq<Tid>
    requires AllEnabled(q, ops)
    decreases |ops|
  {
    if ops == [] then [] else TakenBy(q, ops[0]) + Takers(Step(q, ops[0]), ops[1..])
  }

  lemma StepRecorded(q: Queue, op: Op)
    requires Enabled(q, op) && q.cnt == |q.msgs|
    ensures Step(q, op).log == q.log + CommittedBy(q, op) && Step(q, op).taken == q.taken + |TakenBy(q, op)|
  {
    match op
    case SendBegin(t, msg, wait) => ReserveRecords(q, t, msg, wait);
    case CopyIn(t) => assert q.log + [] == q.log;
    case SendEnd(t) =>
    case RecvBegin(t, want, wait, inIsr) => FetchRecords(q, t, want, wait, inIsr);
    case CopyOut(t) => assert q.log + [] == q.log;
    case RecvEnd(t) => assert q.log + [] == q.log;
  }

  lemma ReserveRecords(q: Queue, t: Tid, msg: seq<byte>, wait: bool)
    ensures var r := Reserve(q, t, msg, wait).0; r.log == q.log + [] && r.taken == q.taken
  {
  }

  lemma FetchRecords(q: Queue, t: Tid, want: nat, wait: bool, inIsr: bool)
    requires q.cnt == |q.msgs|
    ensures var r := Fetch(q, t, want, wait, inIsr).0;
            && r.log == q.log + []
            && r.taken == q.taken + (if want <= q.maxSize && !(wait && inIsr) && q.cnt > 0 then 1 else 0)
  {
  }

  /** The log is the sequence of messages whose sends have committed, and one is taken per receive that
      succeeds. */
  lemma {:induction false} Recorded(q: Queue, ops: seq<Op>)
    requires Inv(q) && AllEnabled(q, ops)
    ensures Exec(q, ops).log == q.log + Committed(q, ops) && Exec(q, ops).taken == q.taken + |Takers(q, ops)|
    decreases |ops|
  {
    if ops == [] {
      assert q.log + [] == q.log;
    } else {
      StepInv(q, ops[0]);
      StepRecorded(q, ops[0]);
      Recorded(Step(q, ops[0]), ops[1..]);
      AssocLog(q.log, CommittedBy(q, ops[0]), Committed(Step(q, ops[0]), ops[1..]));
    }
  }

  lemma AssocLog(a: seq<seq<byte>>, b: seq<seq<byte>>, c: seq<seq<byte>>)
    ensures (a + b) + c == a + (b + c)
  {
  }

  /** A receive that succeeds takes the block at the head of the message list, and that block starts with the bytes of
      the oldest committed message not yet taken; a receive that does not succeed takes none. */
  lemma FetchTakesOldest(q: Queue, t: Tid, want: nat, wait: bool, inIsr: bool)
    requires Inv(q) && Enabled(q, RecvBegin(t, want, wait, inIsr))
    ensures var r := Fetch(q, t, want, wait, inIsr).0;
            if want <= q.maxSize && !(wait && inIsr) && q.taken < |q.log| then
              && t in r.receivers && r.receivers[t].idx == q.taken && r.taken == q.taken + 1
              && q.msgs != [] && r.receivers[t].blk == q.msgs[0] && Carries(r, q.msgs[0], q.log[q.taken])
            else r.receivers == q.receivers && r.taken == q.taken && r.mem == q.mem
  {
    if q.msgs != [] {
      assert MessageOk(q, 0);
    }
  }
}
