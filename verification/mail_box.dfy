/** The mailbox: a ring of words with blocked senders and receivers, seen through the sequence of mails sent. */
module MailBox {
  import opened Base
  import opened TaskQueue

  type Mail = x: int | 0 <= x < 0x1_0000_0000

  /** max_mail_cnt for an area of `size` bytes: a 16-bit field. */
  function Capacity(size: nat): nat {
    size / 4 * 4 / 4 % 0x1_0000
  }

  lemma CapacityIsExact(size: nat)
    ensures Capacity(size) == size / 4 <==> size < 0x4_0000
  {
    var n := size / 4;
    assert n * 4 / 4 == n;
    assert n < 0x1_0000 <==> size < 0x4_0000;
  }

  /** `sent` and `got` record every mail accepted and every mail delivered. */
  datatype Box = Box(
    max: nat, slots: seq<Mail>, inOff: nat, outOff: nat, cnt: nat, prio: map<Tid, nat>,
    waitS: seq<Tid>, waitR: seq<Tid>, wokenS: set<Tid>, wokenR: set<Tid>,
    sent: seq<Mail>, got: seq<Mail>)

  // ----- the invariant -----

  /** The slot i places after `off`. */
  function Slot(off: nat, i: nat, max: nat): nat {
    if off + i < max then off + i else off + i - max
  }

  predicate Pending(b: Box, i: nat) {
    && Slot(b.outOff, i, b.max) < |b.slots| && |b.got| + i < |b.sent|
    && b.slots[Slot(b.outOff, i, b.max)] == b.sent[|b.got| + i]
  }

  ghost predicate RingOk(b: Box) {
    && b.cnt <= b.max <= |b.slots|
    && (b.max > 0 ==> b.outOff < b.max && b.inOff == Slot(b.outOff, b.cnt, b.max) < b.max)
    && |b.sent| == |b.got| + b.cnt
    && b.got <= b.sent
    && (forall i {:trigger Pending(b, i)} :: 0 <= i < b.cnt ==> Pending(b, i))
  }

  /** With somebody waiting, what is available is spoken for by tasks already woken. */
  ghost predicate NoneStranded(b: Box) {
    && (b.waitR != [] ==> b.cnt <= |b.wokenR|)
    && (b.waitS != [] ==> b.max - b.cnt <= |b.wokenS|)
  }

  ghost predicate WaitersOk(b: Box) {
    && NoDup(b.waitS) && NoDup(b.waitR)
    && (forall t :: t in b.waitS ==> t !in b.wokenS)
    && (forall t :: t in b.waitR ==> t !in b.wokenR)
  }

  ghost predicate Inv(b: Box) {
    RingOk(b) && WaitersOk(b) && NoneStranded(b)
  }

  // ----- one pass of send and receive; no code means the task has been queued -----

  function WakeReceiver(b: Box): Box {
    if b.waitR == [] then b else b.(waitR := b.waitR[1..], wokenR := b.wokenR + {b.waitR[0]})
  }

  function WakeSender(b: Box): Box {
    if b.waitS == [] then b else b.(waitS := b.waitS[1..], wokenS := b.wokenS + {b.waitS[0]})
  }

  function Send(b: Box, t: Tid, mail: Mail, wait: bool, inIsr: bool): (Box, Option<Code>) {
    var awake := b.(wokenS := b.wokenS - {t});
    if wait && inIsr then (b, Some(E_IN_ISR))
    else if b.max == b.cnt then
      if wait then (awake.(waitS := SortedInsert(b.waitS, b.prio, t)), None) else (awake, Some(EFULL))
    else
      var slots := if b.inOff < |b.slots| then b.slots[b.inOff := mail] else b.slots;
      (WakeReceiver(awake.(slots := slots, inOff := if b.max == 0 then 0 else (b.inOff + 1) % b.max, cnt := b.cnt + 1,
                           sent := b.sent + [mail])), Some(EOK))
  }

  function Recv(b: Box, t: Tid, wait: bool, inIsr: bool): (Box, Option<Code>, Option<Mail>) {
    var awake := b.(wokenR := b.wokenR - {t});
    if wait && inIsr then (b, Some(E_IN_ISR), None)
    else if b.cnt == 0 || b.outOff >= |b.slots| then
      if wait then (awake.(waitR := SortedInsert(b.waitR, b.prio, t)), None, None) else (awake, Some(EEMPTY), None)
    else
      var mail := b.slots[b.outOff];
      (WakeSender(awake.(outOff := if b.max == 0 then 0 else (b.outOff + 1) % b.max, cnt := b.cnt - 1,
          got := b.got + [mail])),
       Some(EOK), Some(mail))
  }

  /** mrtk_mb_init */
  function Fresh(max: nat, slots: seq<Mail>, prio: map<Tid, nat>): Box {
    Box(max, slots, 0, 0, 0, prio, [], [], {}, {}, [], [])
  }

  // ----- every step keeps the invariant -----

  lemma NextSlot(off: nat, max: nat)
    requires off < max
    ensures (off + 1) % max == Slot(off, 1, max) < max
  {
    if off + 1 == max {
      assert (off + 1) % max == 0;
    }
  }

  lemma SendRing(b: Box, r: Box, mail: Mail)
    requires RingOk(b) && b.cnt < b.max
    requires r.max == b.max && r.slots == b.slots[b.inOff := mail] && r.inOff == Slot(b.inOff, 1, b.max)
    requires r.outOff == b.outOff && r.cnt == b.cnt + 1 && r.sent == b.sent + [mail] && r.got == b.got
    ensures RingOk(r)
  {
    forall i | 0 <= i < r.cnt ensures Pending(r, i) {
      if i < b.cnt {
        assert Pending(b, i);
        assert Slot(b.outOff, i, b.max) != b.inOff;
      }
    }
  }

  lemma RecvRing(b: Box, r: Box)
    requires RingOk(b) && b.cnt > 0
    requires r.max == b.max && r.slots == b.slots && r.inOff == b.inOff && r.outOff == Slot(b.outOff, 1, b.max)
    requires r.cnt == b.cnt - 1 && r.sent == b.sent && r.got == b.got + [b.slots[b.outOff]]
    ensures RingOk(r) && b.slots[b.outOff] == b.sent[|b.got|]
  {
    assert Pending(b, 0);
    forall i | 0 <= i < r.cnt ensures Pending(r, i) {
      assert Pending(b, i + 1);
    }
  }

  lemma WaitRing(b: Box, r: Box)
    requires RingOk(b) && r == b.(waitS := r.waitS, waitR := r.waitR, wokenS := r.wokenS, wokenR := r.wokenR)
    ensures RingOk(r)
  {
    forall i | 0 <= i < r.cnt ensures Pending(r, i) {
      assert Pending(b, i);
    }
  }

  lemma Popped(q: seq<Tid>, woken: set<Tid>)
    requires NoDup(q) && q != [] && forall t :: t in q ==> t !in woken
    ensures NoDup(q[1..]) && |woken + {q[0]}| == |woken| + 1
    ensures forall t :: t in q[1..] ==> t !in woken + {q[0]}
  {
    assert q == [q[0]] + q[1..] && q[0] in q;
  }

  lemma SendInv(b: Box, t: Tid, mail: Mail, wait: bool, inIsr: bool)
    requires Inv(b) && t !in b.waitS
    ensures Inv(Send(b, t, mail, wait, inIsr).0)
  {
    var r := Send(b, t, mail, wait, inIsr).0;
    SetMinus(b.wokenS, t);
    if b.max == b.cnt || (wait && inIsr) {
      InsertMembers(b.waitS, b.prio, t);
      WaitRing(b, r);
    } else {
      NextSlot(b.inOff, b.max);
      SendRing(b, r, mail);
      if b.waitR != [] {
        Popped(b.waitR, b.wokenR);
      }
    }
  }

  lemma RecvInv(b: Box, t: Tid, wait: bool, inIsr: bool)
    requires Inv(b) && t !in b.waitR
    ensures Inv(Recv(b, t, wait, inIsr).0)
  {
    var r := Recv(b, t, wait, inIsr).0;
    SetMinus(b.wokenR, t);
    if b.cnt == 0 || (wait && inIsr) {
      InsertMembers(b.waitR, b.prio, t);
      WaitRing(b, r);
    } else {
      NextSlot(b.outOff, b.max);
      RecvRing(b, r);
      if b.waitS != [] {
        Popped(b.waitS, b.wokenS);
      }
    }
  }

  /** What a send answers: E_IN_ISR for waiting in an interrupt, EFULL for a full box and no waiting, and no code, the
      task being queued, for a full box and waiting. Otherwise it is done and wakes the first receiver. */
  lemma SendAnswers(b: Box, t: Tid, mail: Mail, wait: bool, inIsr: bool)
    requires Inv(b) && t !in b.waitS
    ensures var (r, code) := Send(b, t, mail, wait, inIsr);
            && (code == Some(E_IN_ISR) <==> wait && inIsr)
            && (code == Some(EFULL) <==> b.cnt == b.max && !wait)
            && (code == None <==> b.cnt == b.max && wait && !inIsr)
            && (code != Some(EOK) ==> r.slots == b.slots && r.cnt == b.cnt && r.waitR == b.waitR)
            && (forall x :: x in r.waitS <==> x in b.waitS || (x == t && code == None))
            && (code != None ==> code in {Some(E_IN_ISR), Some(EFULL), Some(EOK)} && r.waitS == b.waitS)
            && (code == Some(EOK) ==> r.cnt == b.cnt + 1 && Woken(b.waitR, b.wokenR, r.waitR, r.wokenR))
  {
    InsertMembers(b.waitS, b.prio, t);
  }

  /** The dual: EEMPTY for an empty box and no waiting. */
  lemma RecvAnswers(b: Box, t: Tid, wait: bool, inIsr: bool)
    requires Inv(b) && t !in b.waitR
    ensures var (r, code, mail) := Recv(b, t, wait, inIsr);
            && (code == Some(E_IN_ISR) <==> wait && inIsr)
            && (code == Some(EEMPTY) <==> b.cnt == 0 && !wait)
            && (code == None <==> b.cnt == 0 && wait && !inIsr)
            && (code != Some(EOK) ==> mail == None && r.cnt == b.cnt && r.outOff == b.outOff && r.waitS == b.waitS)
            && (forall x :: x in r.waitR <==> x in b.waitR || (x == t && code == None))
            && (code != None ==> code in {Some(E_IN_ISR), Some(EEMPTY), Some(EOK)} && r.waitR == b.waitR)
            && (code == Some(EOK) ==> mail.Some? && r.cnt == b.cnt - 1 && Woken(b.waitS, b.wokenS, r.waitS, r.wokenS))
  {
    InsertMembers(b.waitR, b.prio, t);
    if b.cnt > 0 {
      assert Pending(b, 0);
    }
  }

  /** The head of q, if any, has moved to the woken. */
  predicate Woken(q: seq<Tid>, woken: set<Tid>, r: seq<Tid>, now: set<Tid>) {
    if q == [] then r == [] && now == woken else q == [q[0]] + r && now == woken + {q[0]}
  }

  // ----- every run -----

  datatype Op = DoSend(t: Tid, mail: Mail, wait: bool, inIsr: bool) | DoRecv(t: Tid, wait: bool, inIsr: bool)

  /** The running task is in no waiting queue; a woken task retries the call it was blocked in. */
  predicate Enabled(b: Box, op: Op) {
    op.t !in b.waitS && op.t !in b.waitR
  }

  function Step(b: Box, op: Op): Box {
    match op
    case DoSend(t, mail, wait, inIsr) => Send(b, t, mail, wait, inIsr).0
    case DoRecv(t, wait, inIsr) => Recv(b, t, wait, inIsr).0
  }

  predicate AllEnabled(b: Box, ops: seq<Op>)
    decreases |ops|
  {
    ops == [] || (Enabled(b, ops[0]) && AllEnabled(Step(b, ops[0]), ops[1..]))
  }

  function Exec(b: Box, ops: seq<Op>): Box
    decreases |ops|
  {
    if ops == [] then b else Exec(Step(b, ops[0]), ops[1..])
  }

  /** In every reachable state the ring holds the mails not yet delivered, oldest first; nobody is stranded. */
  lemma {:induction false} RunInv(b: Box, ops: seq<Op>)
    requires Inv(b) && AllEnabled(b, ops)
    ensures Inv(Exec(b, ops)) && Exec(b, ops).max == b.max
    decreases |ops|
  {
    if ops != [] {
      match ops[0] {
        case DoSend(t, mail, wait, inIsr) => SendInv(b, t, mail, wait, inIsr);
        case DoRecv(t, wait, inIsr) => RecvInv(b, t, wait, inIsr);
      }
      RunInv(Step(b, ops[0]), ops[1..]);
    }
  }

  ghost predicate QueuesByPriority(b: Box) {
    ByPriority(b.waitS, b.prio) && ByPriority(b.waitR, b.prio)
  }

  /** A queue keeps its tasks, gains t in its place, or loses its head. */
  predicate Moves(q: seq<Tid>, prio: map<Tid, nat>, t: Tid, r: seq<Tid>) {
    r == q || r == SortedInsert(q, prio, t) || (q != [] && r == q[1..])
  }

  lemma MovesByPriority(q: seq<Tid>, prio: map<Tid, nat>, t: Tid, r: seq<Tid>)
    requires ByPriority(q, prio) && Moves(q, prio, t, r)
    ensures ByPriority(r, prio)
  {
    InsertByPriority(q, prio, t);
  }

  lemma StepMoves(b: Box, op: Op)
    ensures var r := Step(b, op);
            r.prio == b.prio && Moves(b.waitS, b.prio, op.t, r.waitS) && Moves(b.waitR, b.prio, op.t, r.waitR)
  {
  }

  lemma StepByPriority(b: Box, op: Op, r: Box)
    requires QueuesByPriority(b) && r == Step(b, op)
    ensures QueuesByPriority(r) && r.prio == b.prio
  {
    StepMoves(b, op);
    MovesByPriority(b.waitS, b.prio, op.t, r.waitS);
    MovesByPriority(b.waitR, b.prio, op.t, r.waitR);
  }

  lemma {:induction false} RunByPriority(b: Box, ops: seq<Op>)
    requires QueuesByPriority(b)
    ensures QueuesByPriority(Exec(b, ops)) && Exec(b, ops).prio == b.prio
    decreases |ops|
  {
    if ops != [] {
      StepByPriority(b, ops[0], Step(b, ops[0]));
      RunByPriority(Step(b, ops[0]), ops[1..]);
    }
  }

  /** In every reachable state: when a send succeeds and somebody waits to receive, one task wakes, and nobody left
      waiting is more urgent than it; the same for a receive and the senders. */
  lemma WakesTheMostUrgent(max: nat, slots: seq<Mail>, prio: map<Tid, nat>, ops: seq<Op>, op: Op)
    requires max <= |slots| && AllEnabled(Fresh(max, slots, prio), ops)
    requires Enabled(Exec(Fresh(max, slots, prio), ops), op)
    ensures var b := Exec(Fresh(max, slots, prio), ops);
            var r := Step(b, op);
            && (op.DoSend? && AcceptedBy(b, op) != [] && b.waitR != [] ==>
                  exists w :: w in b.waitR && w !in r.waitR && w in r.wokenR &&
                    forall x :: x in b.waitR ==> (x in r.waitR || x == w) && Num(prio, w) <= Num(prio, x))
            && (op.DoRecv? && DeliveredBy(b, op) != [] && b.waitS != [] ==>
                  exists w :: w in b.waitS && w !in r.waitS && w in r.wokenS &&
                    forall x :: x in b.waitS ==> (x in r.waitS || x == w) && Num(prio, w) <= Num(prio, x))
  {
    var f := Fresh(max, slots, prio);
    var b := Exec(f, ops);
    RunInv(f, ops);
    RunByPriority(f, ops);
    if op.DoSend? {
      SendAnswers(b, op.t, op.mail, op.wait, op.inIsr);
      HeadLeaves(b.waitR, b.prio);
    } else {
      RecvAnswers(b, op.t, op.wait, op.inIsr);
      HeadLeaves(b.waitS, b.prio);
    }
  }

  lemma HeadLeaves(q: seq<Tid>, prio: map<Tid, nat>)
    requires NoDup(q) && ByPriority(q, prio)
    ensures q != [] ==>
              && q[0] in q && q[0] !in q[1..]
              && forall x :: x in q ==> (x in q[1..] || x == q[0]) && Num(prio, q[0]) <= Num(prio, x)
  {
    if q != [] {
      assert q == [q[0]] + q[1..];
    }
  }

  /** The mail a call gets accepted or delivers, read off its results. */
  function AcceptedBy(b: Box, op: Op): seq<Mail> {
    if op.DoSend? && Send(b, op.t, op.mail, op.wait, op.inIsr).1 == Some(EOK) then [op.mail] else []
  }

  function DeliveredBy(b: Box, op: Op): seq<Mail> {
    if op.DoRecv? then
      var mail := Recv(b, op.t, op.wait, op.inIsr).2;
      if mail.Some? then [mail.value] else []
    else []
  }

  function Accepted(b: Box, ops: seq<Op>): seq<Mail>
    decreases |ops|
  {
    if ops == [] then [] else AcceptedBy(b, ops[0]) + Accepted(Step(b, ops[0]), ops[1..])
  }

  function Delivered(b: Box, ops: seq<Op>): seq<Mail>
    decreases |ops|
  {
    if ops == [] then [] else DeliveredBy(b, ops[0]) + Delivered(Step(b, ops[0]), ops[1..])
  }

  lemma StepRecorded(b: Box, op: Op)
    ensures Step(b, op).sent == b.sent + AcceptedBy(b, op)
    ensures Step(b, op).got == b.got + DeliveredBy(b, op)
  {
  }

  lemma Assoc(a: seq<Mail>, b: seq<Mail>, c: seq<Mail>)
    ensures (a + b) + c == a + (b + c)
  {
  }

  lemma {:induction false} Recorded(b: Box, ops: seq<Op>)
    ensures Exec(b, ops).sent == b.sent + Accepted(b, ops)
    ensures Exec(b, ops).got == b.got + Delivered(b, ops)
    decreases |ops|
  {
    if ops == [] {
      assert b.sent + [] == b.sent && b.got + [] == b.got;
    } else {
      var next := Step(b, ops[0]);
      StepRecorded(b, ops[0]);
      Recorded(next, ops[1..]);
      Assoc(b.sent, AcceptedBy(b, ops[0]), Accepted(next, ops[1..]));
      Assoc(b.got, DeliveredBy(b, ops[0]), Delivered(next, ops[1..]));
    }
  }

  /** First in, first out, nothing lost, nothing twice: over any run from a new mailbox the receives deliver, in order,
      exactly the oldest mails accepted, and what remains is what the box counts. */
  lemma DeliveredInOrder(max: nat, slots: seq<Mail>, prio: map<Tid, nat>, ops: seq<Op>)
    requires max <= |slots| && AllEnabled(Fresh(max, slots, prio), ops)
    ensures var b := Fresh(max, slots, prio);
            && Delivered(b, ops) <= Accepted(b, ops)
            && |Accepted(b, ops)| == |Delivered(b, ops)| + Exec(b, ops).cnt
            && Exec(b, ops).cnt <= max
  {
    var b := Fresh(max, slots, prio);
    RunInv(b, ops);
    Recorded(b, ops);
    assert b.sent + Accepted(b, ops) == Accepted(b, ops) && b.got + Delivered(b, ops) == Delivered(b, ops);
  }
}

/** The mailbox's fields and its ring, updated in place. */
module MailBoxClass {
  import opened Base
  import opened TaskQueue
  import opened MailBox

  class Control {
    const max: nat
    const pool: array<Mail>
    var inOff: nat
    var outOff: nat
    var cnt: nat
    var waitS: seq<Tid>
    var waitR: seq<Tid>
    ghost var wokenS: set<Tid>
    ghost var wokenR: set<Tid>
    ghost var sent: seq<Mail>
    ghost var got: seq<Mail>

    ghost function View(prio: map<Tid, nat>): Box
      reads this, pool
    {
      Box(max, pool[..], inOff, outOff, cnt, prio, waitS, waitR, wokenS, wokenR, sent, got)
    }

    constructor (area: array<Mail>, size: nat)
      requires area.Length == size / 4
      ensures pool == area && forall prio :: View(prio) == Fresh(Capacity(size), area[..], prio)
    {
      max, pool := Capacity(size), area;
      inOff, outOff, cnt, waitS, waitR := 0, 0, 0, [], [];
      wokenS, wokenR, sent, got := {}, {}, [], [];
    }

    /** Next is the running task woken first; need asks for a reschedule. */
    method WakeFirstReceiver(prio: map<Tid, nat>, current: Tid) returns (need: bool)
      modifies this`waitR, this`wokenR
      ensures View(prio) == WakeReceiver(old(View(prio)))
      ensures need <==> old(waitR) != [] && Num(prio, old(waitR)[0]) < Num(prio, current)
    {
      need := false;
      if waitR != [] {
        var t := waitR[0];
        waitR, wokenR := waitR[1..], wokenR + {t};
        need := Num(prio, t) < Num(prio, current);
      }
    }

    method WakeFirstSender(prio: map<Tid, nat>, current: Tid) returns (need: bool)
      modifies this`waitS, this`wokenS
      ensures View(prio) == WakeSender(old(View(prio)))
      ensures need <==> old(waitS) != [] && Num(prio, old(waitS)[0]) < Num(prio, current)
    {
      need := false;
      if waitS != [] {
        var t := waitS[0];
        waitS, wokenS := waitS[1..], wokenS + {t};
        need := Num(prio, t) < Num(prio, current);
      }
    }

    /** One pass of mrtk_mb_send_wait by the running task t. */
    method SendMail(prio: map<Tid, nat>, t: Tid, mail: Mail, wait: bool, inIsr: bool)
      returns (code: Option<Code>, need: bool)
      requires RingOk(View(prio))
      modifies this`inOff, this`cnt, this`waitS, this`waitR, this`wokenS, this`wokenR, this`sent, pool
      ensures (View(prio), code) == Send(old(View(prio)), t, mail, wait, inIsr)
      ensures need <==> code == Some(EOK) && old(waitR) != [] && Num(prio, old(waitR)[0]) < Num(prio, t)
    {
      if wait && inIsr {
        return Some(E_IN_ISR), false;
      }
      wokenS := wokenS - {t};
      if max == cnt {
        if !wait {
          return Some(EFULL), false;
        }
        waitS := SortedInsert(waitS, prio, t);
        return None, false;
      }
      pool[inOff] := mail;
      inOff := (inOff + 1) % max;
      cnt := cnt + 1;
      sent := sent + [mail];
      need := WakeFirstReceiver(prio, t);
      code := Some(EOK);
    }

    /** One pass of mrtk_mb_recv by the running task t. */
    method RecvMail(prio: map<Tid, nat>, t: Tid, wait: bool, inIsr: bool)
      returns (code: Option<Code>, mail: Option<Mail>, need: bool)
      requires RingOk(View(prio))
      modifies this`outOff, this`cnt, this`waitS, this`waitR, this`wokenS, this`wokenR, this`got
      ensures (View(prio), code, mail) == Recv(old(View(prio)), t, wait, inIsr)
      ensures need <==> code == Some(EOK) && old(waitS) != [] && Num(prio, old(waitS)[0]) < Num(prio, t)
    {
      if wait && inIsr {
        return Some(E_IN_ISR), None, false;
      }
      wokenR := wokenR - {t};
      if cnt == 0 {
        if !wait {
          return Some(EEMPTY), None, false;
        }
        waitR := SortedInsert(waitR, prio, t);
        return None, None, false;
      }
      mail := Some(pool[outOff]);
      got := got + [pool[outOff]];
      outOff := (outOff + 1) % max;
      cnt := cnt - 1;
      need := WakeFirstSender(prio, t);
      code := Some(EOK);
    }
  }
}
