/** The message queue's control block and its pool: two linked lists threaded through the block headers. Every method
    is a step of the machine in MsgQueue, on the fields. */
module MsgQueueClass {
  import opened Base
  import opened TaskQueue
  import opened MsgQueue
  import opened Chain
  import P = PoolCarving

  const U16: nat := 0x1_0000

  /** block_size: the header and max_msg_size, in 32-bit arithmetic. */
  function BlockSize(msgSize: nat): nat {
    (P.HEADER + P.AlignUp(msgSize)) % P.U32
  }

  /** max_msg_cnt: a 16-bit field. */
  function BlockCount(msgSize: nat, poolSize: nat): nat
    requires BlockSize(msgSize) > 0
  {
    poolSize / BlockSize(msgSize) % U16
  }

  /** A message of the size asked for fits a block exactly when its size can be rounded; the blocks, headers included,
      lie in the pool, and there is no room for one more exactly when their number fits 16 bits. */
  lemma MessagesFit(msgSize: nat, poolSize: nat)
    requires msgSize < P.U32 && BlockSize(msgSize) > 0
    ensures var size, w, n := P.AlignUp(msgSize), BlockSize(msgSize), BlockCount(msgSize, poolSize);
            && (msgSize <= size <==> msgSize + 3 < P.U32) && size <= msgSize + 3
            && w == P.HEADER + size
            && n * w <= poolSize && ((n + 1) * w > poolSize <==> poolSize / w < U16)
  {
    RoundedSize(msgSize, P.AlignUp(msgSize), BlockSize(msgSize));
    CountFits(poolSize, BlockSize(msgSize), poolSize / BlockSize(msgSize), BlockCount(msgSize, poolSize));
  }

  lemma RoundedSize(msgSize: nat, size: nat, w: nat)
    requires msgSize < P.U32 && size == P.AlignUp(msgSize) && w == (P.HEADER + size) % P.U32 && w > 0
    ensures (msgSize <= size <==> msgSize + 3 < P.U32) && size <= msgSize + 3 && w == P.HEADER + size
  {
  }

  lemma CountFits(poolSize: nat, w: nat, q: nat, n: nat)
    requires w > 0 && q == poolSize / w && n == q % U16
    ensures n * w <= poolSize && ((n + 1) * w > poolSize <==> q < U16)
  {
    assert q * w <= poolSize < q * w + w;
    P.MulMono(n, q, w);
    if q < U16 {
      assert (n + 1) * w == q * w + w;
    } else {
      P.MulMono(n + 1, q, w);
    }
  }

  /** memcpy into the reserved block, and out of the taken one, with nothing in between. */
  function CopiedIn(q: Queue, t: Tid): Queue
    requires t in q.senders
    decreases |q.senders[t].msg| - q.senders[t].done
  {
    var s := q.senders[t];
    if s.done < |s.msg| && s.blk in q.mem && s.done < |q.mem[s.blk]| then CopiedIn(PutByte(q, t), t) else q
  }

  function CopiedOut(q: Queue, t: Tid): Queue
    requires t in q.receivers
    decreases q.receivers[t].want - |q.receivers[t].out|
  {
    var r := q.receivers[t];
    if |r.out| < r.want && r.blk in q.mem && |r.out| < |q.mem[r.blk]| then CopiedOut(GetByte(q, t), t) else q
  }

  /** What the class shows of two states is the same but for the given lists. */
  ghost predicate SameBut(q: Queue, r: Queue) {
    r.count == q.count && r.maxSize == q.maxSize && r.mem == q.mem
  }

  lemma ReserveShape(q: Queue, t: Tid, msg: seq<byte>, wait: bool)
    requires Inv(q) && Enabled(q, SendBegin(t, msg, wait))
    ensures var (r, code) := Reserve(q, t, msg, wait);
            && SameBut(q, r) && r.msgs == q.msgs && r.cnt == q.cnt && r.waitR == q.waitR
            && r == Step(q, SendBegin(t, msg, wait)) && q.cnt == |q.msgs|
            && if |msg| > q.maxSize || (q.free == [] && !wait) then
                 r.free == q.free && r.waitS == q.waitS && t !in r.senders && code == ERROR
               else if q.free == [] then
                 r.free == [] && r.waitS == SortedInsert(q.waitS, q.prio, t) && t !in r.senders && code == EOK
               else
                 && r.free == q.free[1..] && r.waitS == q.waitS && t in r.senders && r.senders[t].blk == q.free[0]
                 && code == EOK
  {
  }

  lemma CommitShape(q: Queue, t: Tid)
    requires Inv(q) && Enabled(q, SendEnd(t))
    ensures var (r, b) := (Step(q, SendEnd(t)), q.senders[t].blk);
            && SameBut(q, r) && r.free == q.free && r.msgs == q.msgs + [b] && r.cnt == q.cnt + 1
            && r.waitS == q.waitS && r.waitR == (if q.waitR == [] then [] else q.waitR[1..])
            && b < q.count && b !in q.free && b !in q.msgs
  {
    assert SenderOk(q, t) && BlockOk(q, q.senders[t].blk);
  }

  lemma FetchShape(q: Queue, t: Tid, want: nat, wait: bool, inIsr: bool)
    requires Inv(q) && Enabled(q, RecvBegin(t, want, wait, inIsr))
    ensures var (r, code) := Fetch(q, t, want, wait, inIsr);
            && SameBut(q, r) && r.free == q.free && r.waitS == q.waitS
            && r == Step(q, RecvBegin(t, want, wait, inIsr)) && q.cnt == |q.msgs|
            && if want > q.maxSize || (wait && inIsr) || (q.msgs == [] && !wait) then
                 && r.msgs == q.msgs && r.cnt == q.cnt && r.waitR == q.waitR && t !in r.receivers
                 && code == (if want <= q.maxSize && wait && inIsr then E_IN_ISR else ERROR)
               else if q.msgs == [] then
                 && r.msgs == [] && r.cnt == q.cnt && r.waitR == SortedInsert(q.waitR, q.prio, t)
                 && t !in r.receivers && code == EOK
               else
                 && r.msgs == q.msgs[1..] && r.cnt == q.cnt - 1 && r.waitR == q.waitR && t in r.receivers
                 && r.receivers[t].blk == q.msgs[0] && code == EOK
  {
  }

  lemma RecycleShape(q: Queue, t: Tid)
    requires Inv(q) && Enabled(q, RecvEnd(t))
    ensures var (r, b) := (Step(q, RecvEnd(t)), q.receivers[t].blk);
            && SameBut(q, r) && r.free == [b] + q.free && r.msgs == q.msgs && r.cnt == q.cnt
            && r.waitR == q.waitR && r.waitS == (if q.waitS == [] then [] else q.waitS[1..])
            && b < q.count && b !in q.free && b !in q.msgs
  {
    assert ReceiverOk(q, t) && BlockOk(q, q.receivers[t].blk);
  }

  class MessageQueue {
    const maxSize: nat
    const next: array<int>      // the header of each block
    const data: array2<byte>    // the payload of each block
    var head: int
    var tail: int
    var free: int
    var cnt: nat
    var waitS: seq<Tid>
    var waitR: seq<Tid>
    ghost var freeQ: seq<Blk>
    ghost var msgQ: seq<Blk>

    /** The two lists are linked through the headers, and the fields describe them. */
    ghost predicate Valid()
      reads this, next
    {
      && data.Length0 == next.Length && data.Length1 == maxSize
      && NoDup(freeQ) && NoDup(msgQ) && (forall b :: b in freeQ ==> b !in msgQ)
      && free == Start(freeQ) && Linked(next[..], freeQ)
      && head == Start(msgQ) && Linked(next[..], msgQ)
      && cnt == |msgQ|
      && (msgQ != [] ==> tail == msgQ[|msgQ| - 1])
    }

    /** The payload of block b. */
    ghost function Row(b: Blk): (r: seq<byte>)
      requires b < data.Length0
      reads data
      ensures |r| == data.Length1 && forall i :: 0 <= i < data.Length1 ==> r[i] == data[b, i]
    {
      seq(data.Length1, i requires 0 <= i < data.Length1 reads data => data[b, i])
    }

    ghost predicate RowShows(b: Blk, mem: map<Blk, seq<byte>>)
      requires b < data.Length0
      reads data
    {
      b in mem && mem[b] == Row(b)
    }

    ghost predicate Rows(mem: map<Blk, seq<byte>>)
      reads data
    {
      forall b {:trigger RowShows(b, mem)} :: 0 <= b < data.Length0 ==> RowShows(b, mem)
    }

    ghost predicate Lists(q: Queue)
      reads this
    {
      && q.count == next.Length && q.maxSize == maxSize && freeQ == q.free && msgQ == q.msgs && cnt == q.cnt
      && waitS == q.waitS && waitR == q.waitR
    }

    /** The fields show the state q of the machine. */
    ghost predicate Shows(q: Queue)
      reads this, next, data
    {
      Valid() && Lists(q) && Rows(q.mem)
    }

    constructor (msgSize: nat, poolSize: nat)
      requires BlockSize(msgSize) > 0
      ensures fresh(next) && fresh(data)
      ensures maxSize == P.AlignUp(msgSize) && next.Length == data.Length0 == BlockCount(msgSize, poolSize)
      ensures data.Length1 == maxSize
    {
      maxSize := P.AlignUp(msgSize);
      next := new int[BlockCount(msgSize, poolSize)];
      data := new byte[BlockCount(msgSize, poolSize), P.AlignUp(msgSize)];
      head, tail, free, cnt, waitS, waitR := NULL, NULL, NULL, 0, [], [];
      freeQ, msgQ := [], [];
    }

    /** mrtk_mq_init: a pool too small for a block is refused; otherwise the blocks are linked in address order. */
    method Init(ghost prio: map<Tid, nat>) returns (code: Code, ghost mem: map<Blk, seq<byte>>)
      requires data.Length0 == next.Length && data.Length1 == maxSize
      modifies this, next
      ensures code == if next.Length == 0 then EINVAL else EOK
      ensures code == EOK ==> Shows(Fresh(next.Length, maxSize, prio, mem))
    {
      mem := map b | 0 <= b < next.Length :: Row(b);
      var count := next.Length;
      if count == 0 {
        return EINVAL, mem;
      }
      head, tail, free, cnt, waitS, waitR := NULL, NULL, 0, 0, [], [];
      freeQ, msgQ := seq(count, i => i), [];
      var cur := 0;
      while cur < count - 1
        invariant 0 <= cur <= count - 1
        invariant forall i :: 0 <= i < cur ==> next[i] == i + 1
        modifies next
      {
        next[cur] := cur + 1;
        cur := cur + 1;
      }
      next[cur] := NULL;
      RangeLinked(next[..], freeQ);
      code := EOK;
      assert forall b :: 0 <= b < data.Length0 ==> RowShows(b, mem);
    }

    /** First half of mrtk_mq_send_wait: the block reserved, NULL when there is none. */
    method SendFirst(prio: map<Tid, nat>, t: Tid, msg: seq<byte>, wait: bool, ghost q: Queue)
      returns (code: Code, blk: int)
      requires Shows(q) && Inv(q) && q.prio == prio && Enabled(q, SendBegin(t, msg, wait))
      modifies this`free, this`freeQ, this`waitS
      ensures var r := Step(q, SendBegin(t, msg, wait));
              && Shows(r) && code == Reserve(q, t, msg, wait).1
              && blk == if t in r.senders then r.senders[t].blk else NULL
    {
      ReserveShape(q, t, msg, wait);
      if |msg| > maxSize {
        return ERROR, NULL;
      }
      if free == NULL {
        if !wait {
          return ERROR, NULL;
        }
        waitS := SortedInsert(waitS, prio, t);
        return EOK, NULL;
      }
      TailLinked(next[..], freeQ);
      blk := free;
      free := next[free];
      freeQ := freeQ[1..];
      code := EOK;
    }

    /** One byte of the sender's copy. */
    method CopyByteIn(blk: Blk, msg: seq<byte>, n: nat, t: Tid, ghost q: Queue)
      requires Shows(q) && Inv(q) && t in q.senders && q.senders[t] == Sending(blk, msg, n) && n < |msg|
      modifies data
      ensures Shows(Step(q, CopyIn(t)))
    {
      assert SenderOk(q, t) && BlockOk(q, blk);
      ghost var r := Step(q, CopyIn(t));
      assert RowShows(blk, q.mem);
      ghost var row := Row(blk);
      data[blk, n] := msg[n];
      assert Row(blk) == row[n := msg[n]];
      forall b | 0 <= b < data.Length0 ensures RowShows(b, r.mem) {
        assert old(RowShows(b, q.mem));
        assert b != blk ==> Row(b) == old(Row(b));
      }
    }

    /** The sender's memcpy, when nothing comes in between. */
    method CopyAllIn(blk: Blk, msg: seq<byte>, t: Tid, ghost q: Queue)
      requires Shows(q) && Inv(q) && t in q.senders && q.senders[t] == Sending(blk, msg, 0)
      modifies data
      ensures Shows(CopiedIn(q, t))
    {
      var n := 0;
      ghost var r := q;
      while n < |msg|
        invariant n <= |msg| && Shows(r) && Inv(r) && t in r.senders && r.senders[t] == Sending(blk, msg, n)
        invariant CopiedIn(r, t) == CopiedIn(q, t)
      {
        assert SenderOk(r, t) && BlockOk(r, blk);
        PutByteInv(r, t);
        CopyByteIn(blk, msg, n, t, r);
        r := Step(r, CopyIn(t));
        n := n + 1;
      }
    }

    /** Second half of mrtk_mq_send_wait: the block joins the message list, and the first receiver waiting wakes. */
    method SendSecond(blk: Blk, t: Tid, ghost q: Queue) returns (woken: Option<Tid>)
      requires Shows(q) && Inv(q) && Enabled(q, SendEnd(t)) && q.senders[t].blk == blk
      modifies this`cnt, this`head, this`tail, this`msgQ, this`waitR, next
      ensures Shows(Step(q, SendEnd(t)))
      ensures woken == if old(waitR) == [] then None else Some(old(waitR)[0])
    {
      CommitShape(q, t);
      LinkMessage(blk);
      woken := None;
      if waitR != [] {
        woken := Some(waitR[0]);
        waitR := waitR[1..];
      }
    }

    method LinkMessage(msg: Blk)
      requires Valid() && msg < next.Length && msg !in freeQ && msg !in msgQ
      modifies this`cnt, this`head, this`tail, this`msgQ, next
      ensures Valid() && msgQ == old(msgQ) + [msg]
    {
      ghost var n := next[..];
      AppendLinked(n, msgQ, msg);
      ghost var after := if msgQ == [] then n[msg := NULL] else n[tail := msg][msg := NULL];
      assert msgQ != [] ==> tail in msgQ;
      FrameLinked(n, after, freeQ);
      cnt := cnt + 1;
      if cnt == 1 {
        head, tail := msg, msg;
      } else {
        next[tail] := msg;
        tail := msg;
      }
      next[msg] := NULL;
      assert next[..] == after;
      msgQ := msgQ + [msg];
    }

    /** First half of mrtk_mq_recv: the message taken, NULL when there is none. */
    method RecvFirst(prio: map<Tid, nat>, t: Tid, want: nat, wait: bool, inIsr: bool, ghost q: Queue)
      returns (code: Code, blk: int)
      requires Shows(q) && Inv(q) && q.prio == prio && Enabled(q, RecvBegin(t, want, wait, inIsr))
      modifies this`cnt, this`head, this`msgQ, this`waitR
      ensures var r := Step(q, RecvBegin(t, want, wait, inIsr));
              && Shows(r) && code == Fetch(q, t, want, wait, inIsr).1
              && blk == if t in r.receivers then r.receivers[t].blk else NULL
    {
      FetchShape(q, t, want, wait, inIsr);
      if want > maxSize {
        return ERROR, NULL;
      }
      if wait && inIsr {
        return E_IN_ISR, NULL;
      }
      if cnt == 0 {
        if !wait {
          return ERROR, NULL;
        }
        waitR := SortedInsert(waitR, prio, t);
        return EOK, NULL;
      }
      TailLinked(next[..], msgQ);
      cnt := cnt - 1;
      blk := head;
      head := next[head];
      msgQ := msgQ[1..];
      code := EOK;
    }

    /** The receiver's memcpy, when nothing comes in between. */
    method CopyAllOut(blk: Blk, want: nat, t: Tid, ghost q: Queue) returns (buffer: seq<byte>)
      requires Shows(q) && Inv(q) && t in q.receivers && q.receivers[t].blk == blk && q.receivers[t].want == want
      requires q.receivers[t].out == []
      ensures var r := CopiedOut(q, t); Shows(r) && t in r.receivers && r.receivers[t].out == buffer && |buffer| == want
    {
      buffer := [];
      ghost var r := q;
      while |buffer| < want
        invariant |buffer| <= want && Shows(r) && Inv(r) && t in r.receivers
        invariant r.receivers[t].blk == blk && r.receivers[t].want == want && r.receivers[t].out == buffer
        invariant CopiedOut(r, t) == CopiedOut(q, t)
      {
        assert ReceiverOk(r, t) && BlockOk(r, blk);
        GetByteInv(r, t);
        assert RowShows(blk, r.mem);
        buffer := buffer + [data[blk, |buffer|]];
        r := Step(r, CopyOut(t));
      }
    }

    /** Second half of mrtk_mq_recv: the block goes back to the free list, and the first sender waiting wakes. */
    method RecvSecond(blk: Blk, t: Tid, ghost q: Queue) returns (woken: Option<Tid>)
      requires Shows(q) && Inv(q) && Enabled(q, RecvEnd(t)) && q.receivers[t].blk == blk
      modifies this`free, this`tail, this`freeQ, this`waitS, next
      ensures Shows(Step(q, RecvEnd(t)))
      ensures woken == if old(waitS) == [] then None else Some(old(waitS)[0])
    {
      RecycleShape(q, t);
      woken := FreeAndWake(blk, q, Step(q, RecvEnd(t)));
    }

    method FreeAndWake(blk: Blk, ghost q: Queue, ghost r: Queue) returns (woken: Option<Tid>)
      requires Shows(q) && SameBut(q, r) && r.free == [blk] + q.free && r.msgs == q.msgs && r.cnt == q.cnt
      requires r.waitR == q.waitR && r.waitS == if q.waitS == [] then [] else q.waitS[1..]
      requires blk < q.count && blk !in q.free && blk !in q.msgs
      modifies this`free, this`tail, this`freeQ, this`waitS, next
      ensures Shows(r) && woken == if old(waitS) == [] then None else Some(old(waitS)[0])
    {
      LinkFree(blk);
      woken := None;
      if waitS != [] {
        woken := Some(waitS[0]);
        waitS := waitS[1..];
      }
    }

    method LinkFree(msg: Blk)
      requires Valid() && msg < next.Length && msg !in freeQ && msg !in msgQ
      modifies this`free, this`tail, this`freeQ, next
      ensures Valid() && freeQ == [msg] + old(freeQ)
    {
      ghost var n := next[..];
      PushLinked(n, freeQ, msg);
      FrameLinked(n, n[msg := free], msgQ);
      next[msg] := free;
      assert next[..] == n[msg := free];
      free := msg;
      if head == NULL {
        tail := NULL;
      }
      freeQ := [msg] + freeQ;
    }
  }
}
