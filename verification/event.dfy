/** Event groups: who wakes on a send, with what, and which flags are cleared afterwards. A 32-bit flag word is the
    set of its bits: | is union, & intersection, & ~ difference. */
module Event {
  import opened Base
  import opened TaskQueue

  type Flags = set<nat>

  /** What a blocked task waits for: event_set and event_option. */
  datatype Want = Want(mask: Flags, all: bool, clear: bool)

  /** The option argument of a receive. */
  datatype Option3 = Option3(and: bool, or: bool, clear: bool)

  /** `queue` is suspend_taker, `got` what each task's recved pointer was given, `err` each last_error. */
  datatype Group = Group(flags: Flags, queue: seq<Tid>, want: map<Tid, Want>, got: map<Tid, Flags>, err: map<Tid, Code>)

  /** _mrtk_event_check_condition */
  predicate Met(current: Flags, w: Want) {
    if w.all then current * w.mask == w.mask else current * w.mask != {}
  }

  function WantOf(want: map<Tid, Want>, t: Tid): Want {
    if t in want then want[t] else Want({}, true, false)
  }

  ghost predicate Waiting(g: Group, t: Tid) {
    t in g.want && !Met(g.flags, g.want[t])
  }

  /** Nobody in the queue has its condition met. */
  ghost predicate Inv(g: Group) {
    NoDup(g.queue) && forall t {:trigger Waiting(g, t)} :: t in g.queue ==> Waiting(g, t)
  }

  lemma FewerMeetsLess(a: Flags, b: Flags, w: Want)
    requires a <= b && Met(a, w)
    ensures Met(b, w)
  {
    if w.all {
      assert w.mask <= a;
    } else {
      var x :| x in a * w.mask;
      assert x in b * w.mask;
    }
  }

  // ----- send -----

  /** The tasks of q that stay blocked under `now`, in queue order. */
  function Stay(want: map<Tid, Want>, q: seq<Tid>, now: Flags): seq<Tid> {
    if q == [] then [] else (if Met(now, WantOf(want, q[0])) then [] else [q[0]]) + Stay(want, q[1..], now)
  }

  /** total_clear_mask over the tasks of q that wake. */
  function ClearMask(want: map<Tid, Want>, q: seq<Tid>, now: Flags): Flags {
    if q == [] then {}
    else
      (if Met(now, WantOf(want, q[0])) && WantOf(want, q[0]).clear then WantOf(want, q[0]).mask else {})
      + ClearMask(want, q[1..], now)
  }

  function Deliver(want: map<Tid, Want>, q: seq<Tid>, now: Flags, got: map<Tid, Flags>): map<Tid, Flags> {
    if q == [] then got
    else
      Deliver(want, q[1..], now,
        if Met(now, WantOf(want, q[0])) then got[q[0] := now * WantOf(want, q[0]).mask] else got)
  }

  function MarkOk(want: map<Tid, Want>, q: seq<Tid>, now: Flags, err: map<Tid, Code>): map<Tid, Code> {
    if q == [] then err
    else MarkOk(want, q[1..], now, if Met(now, WantOf(want, q[0])) then err[q[0] := EOK] else err)
  }

  function Send(g: Group, bits: Flags): (Group, Code) {
    if bits == {} then (g, EINVAL)
    else
      var now := g.flags + bits;
      (g.(flags := now - ClearMask(g.want, g.queue, now), queue := Stay(g.want, g.queue, now),
          got := Deliver(g.want, g.queue, now, g.got), err := MarkOk(g.want, g.queue, now, g.err)), EOK)
  }

  lemma {:induction false} StayMembers(want: map<Tid, Want>, q: seq<Tid>, now: Flags)
    requires NoDup(q)
    ensures NoDup(Stay(want, q, now))
    ensures forall t :: t in Stay(want, q, now) <==> t in q && !Met(now, WantOf(want, t))
  {
    if q != [] {
      assert q == [q[0]] + q[1..] && q[0] !in q[1..];
      StayMembers(want, q[1..], now);
    }
  }

  /** Who stays keeps its place relative to the others. */
  lemma {:induction false} StayInOrder(want: map<Tid, Want>, q: seq<Tid>, prio: map<Tid, nat>, stamp: map<Tid, nat>,
      now: Flags)
    requires Sorted(q, prio, stamp) && NoDup(q)
    ensures Sorted(Stay(want, q, now), prio, stamp)
  {
    if q != [] {
      SortedTail(q, prio, stamp);
      StayInOrder(want, q[1..], prio, stamp, now);
      StayMembers(want, q[1..], now);
      var r, s := Stay(want, q, now), Stay(want, q[1..], now);
      forall i, j | 0 <= i < j < |r| ensures Ahead(prio, stamp, r[i], r[j]) {
        if !Met(now, WantOf(want, q[0])) && i == 0 {
          assert r[j] in s && r[j] in q[1..];
          var k :| 0 <= k < |q| - 1 && q[1..][k] == r[j];
          assert Ahead(prio, stamp, q[0], q[k + 1]);
        } else {
          var d := if Met(now, WantOf(want, q[0])) then 0 else 1;
          assert Ahead(prio, stamp, s[i - d], s[j - d]);
        }
      }
    }
  }

  lemma {:induction false} DeliverMembers(want: map<Tid, Want>, q: seq<Tid>, now: Flags, got: map<Tid, Flags>)
    requires NoDup(q)
    ensures var d := Deliver(want, q, now, got);
            && (forall t :: t in q && Met(now, WantOf(want, t)) ==> t in d && d[t] == now * WantOf(want, t).mask)
            && (forall t :: t !in q || !Met(now, WantOf(want, t)) ==>
                  (t in d <==> t in got) && (t in got ==> d[t] == got[t]))
  {
    if q != [] {
      assert q == [q[0]] + q[1..] && q[0] !in q[1..];
      DeliverMembers(want, q[1..], now,
        if Met(now, WantOf(want, q[0])) then got[q[0] := now * WantOf(want, q[0]).mask] else got);
    }
  }

  /** t wakes and asked for its flags to be cleared. */
  predicate Clears(want: map<Tid, Want>, q: seq<Tid>, now: Flags, t: Tid) {
    t in q && Met(now, WantOf(want, t)) && WantOf(want, t).clear
  }

  /** The clear mask is exactly the masks of the waking CLEAR tasks. */
  lemma {:induction false} ClearMaskIsExact(want: map<Tid, Want>, q: seq<Tid>, now: Flags, x: nat)
    ensures x in ClearMask(want, q, now) <==> exists t :: Clears(want, q, now, t) && x in WantOf(want, t).mask
  {
    if q != [] {
      assert q == [q[0]] + q[1..];
      ClearMaskIsExact(want, q[1..], now, x);
      if x in ClearMask(want, q, now) {
        if x in ClearMask(want, q[1..], now) {
          var t :| Clears(want, q[1..], now, t) && x in WantOf(want, t).mask;
          assert Clears(want, q, now, t);
        } else {
          assert Clears(want, q, now, q[0]);
        }
      }
      if t :| Clears(want, q, now, t) && x in WantOf(want, t).mask {
        assert t == q[0] || Clears(want, q[1..], now, t);
      }
    }
  }

  /** A send wakes exactly the tasks whose condition holds under old|new, hands each (old|new) & mask, and then takes
      away exactly the masks of those that asked for it; nobody left in the queue has its condition met. */
  lemma SendWakesExactly(g: Group, bits: Flags)
    requires Inv(g) && bits != {}
    ensures var (r, now) := (Send(g, bits).0, g.flags + bits);
            && Inv(r)
            && (forall t :: t in r.queue <==> t in g.queue && !Met(now, WantOf(g.want, t)))
            && (forall t :: t in g.queue && t !in r.queue ==> t in r.got && r.got[t] == now * WantOf(g.want, t).mask)
            && (forall x :: x in r.flags <==>
                  x in now && !exists t :: Clears(g.want, g.queue, now, t) && x in WantOf(g.want, t).mask)
  {
    var (r, now) := (Send(g, bits).0, g.flags + bits);
    StayMembers(g.want, g.queue, now);
    DeliverMembers(g.want, g.queue, now, g.got);
    forall t | t in r.queue ensures Waiting(r, t) {
      assert Waiting(g, t);
      if Met(r.flags, r.want[t]) {
        FewerMeetsLess(r.flags, now, r.want[t]);
      }
    }
    forall x
      ensures x in r.flags <==>
              x in now && !exists t :: Clears(g.want, g.queue, now, t) && x in WantOf(g.want, t).mask
    {
      ClearMaskIsExact(g.want, g.queue, now, x);
    }
  }

  /** Only who waits matters, not in what order: the flags left and the deliveries are the same. */
  lemma SendIgnoresQueueOrder(g: Group, h: Group, bits: Flags)
    requires NoDup(g.queue) && NoDup(h.queue) && h == g.(queue := h.queue)
    requires forall t :: t in g.queue <==> t in h.queue
    ensures var (r, s) := (Send(g, bits).0, Send(h, bits).0);
            r.flags == s.flags && r.got == s.got && forall t :: t in r.queue <==> t in s.queue
  {
    var now := g.flags + bits;
    StayMembers(g.want, g.queue, now);
    StayMembers(h.want, h.queue, now);
    DeliverMembers(g.want, g.queue, now, g.got);
    DeliverMembers(h.want, h.queue, now, h.got);
    assert Deliver(g.want, g.queue, now, g.got) == Deliver(h.want, h.queue, now, h.got);
    forall x ensures x in ClearMask(g.want, g.queue, now) <==> x in ClearMask(h.want, h.queue, now) {
      ClearMaskIsExact(g.want, g.queue, now, x);
      ClearMaskIsExact(h.want, h.queue, now, x);
      assert forall t :: Clears(g.want, g.queue, now, t) <==> Clears(h.want, h.queue, now, t);
    }
    assert ClearMask(g.want, g.queue, now) == ClearMask(h.want, h.queue, now);
  }

  /** What a task asks for, on the bits: every flag of the mask, or one of them. */
  ghost predicate Holds(now: Flags, mask: Flags, all: bool) {
    if all then forall x :: x in mask ==> x in now else exists x :: x in mask && x in now
  }

  lemma MetOnTheBits(now: Flags, w: Want)
    ensures Met(now, w) <==> Holds(now, w.mask, w.all)
  {
    if w.all {
      assert now * w.mask == w.mask <==> forall x :: x in w.mask ==> x in now;
    } else if x :| x in w.mask && x in now {
      assert x in now * w.mask;
    } else {
      assert now * w.mask == {};
    }
  }

  lemma {:induction false} MarkMembers(want: map<Tid, Want>, q: seq<Tid>, now: Flags, err: map<Tid, Code>)
    requires NoDup(q)
    ensures var e := MarkOk(want, q, now, err);
            && (forall t :: t in q && Met(now, WantOf(want, t)) ==> t in e && e[t] == EOK)
            && (forall t :: t !in q || !Met(now, WantOf(want, t)) ==>
                  (t in e <==> t in err) && (t in err ==> e[t] == err[t]))
  {
    if q != [] {
      assert q == [q[0]] + q[1..] && q[0] !in q[1..];
      MarkMembers(want, q[1..], now, if Met(now, WantOf(want, q[0])) then err[q[0] := EOK] else err);
    }
  }

  /** A send answers EINVAL exactly for no flags at all, and then does nothing. Otherwise a queued task leaves exactly
      when all, or one, of the flags it waits for are set by then, and its call returns EOK. */
  lemma SendAnswers(g: Group, bits: Flags, t: Tid)
    requires Inv(g) && t in g.queue
    ensures var ((r, code), w) := (Send(g, bits), WantOf(g.want, t));
            && code == (if bits == {} then EINVAL else EOK) && (bits == {} ==> r == g)
            && (bits != {} ==> (t !in r.queue <==> Holds(g.flags + bits, w.mask, w.all)))
            && (t !in r.queue ==> t in r.err && r.err[t] == EOK)
            && (t in r.queue ==> r.want == g.want)
            && (t in r.queue ==> (t in r.err <==> t in g.err) && (t in g.err ==> r.err[t] == g.err[t]))
  {
    assert Waiting(g, t);
    var now := g.flags + bits;
    StayMembers(g.want, g.queue, now);
    MarkMembers(g.want, g.queue, now, g.err);
    MetOnTheBits(now, g.want[t]);
  }

  // ----- receive and clear -----

  /** mrtk_event_recv: immediate success, refusal, or a place in the queue by priority. */
  function Recv(g: Group, t: Tid, mask: Flags, option: Option3, wait: bool, inIsr: bool, prio: map<Tid, nat>)
    : (Group, Code)
  {
    var w := Want(mask, option.and, option.clear);
    if mask == {} || (option.and && option.or) then (g, EINVAL)
    else if wait && inIsr then (g, E_IN_ISR)
    else if Met(g.flags, w) then
      (g.(got := g.got[t := g.flags * mask], flags := if w.clear then g.flags - mask else g.flags), EOK)
    else if !wait then (g, EEMPTY)
    else (g.(want := g.want[t := w], queue := SortedInsert(g.queue, prio, t)), EOK)
  }

  function Clear(g: Group): Group {
    g.(flags := {})
  }

  lemma RecvInv(g: Group, t: Tid, mask: Flags, option: Option3, wait: bool, inIsr: bool, prio: map<Tid, nat>)
    requires Inv(g) && t !in g.queue
    ensures Inv(Recv(g, t, mask, option, wait, inIsr, prio).0)
  {
    var r := Recv(g, t, mask, option, wait, inIsr, prio).0;
    InsertMembers(g.queue, prio, t);
    forall u | u in r.queue ensures Waiting(r, u) {
      if u != t {
        assert Waiting(g, u);
        if Met(r.flags, r.want[u]) {
          FewerMeetsLess(r.flags, g.flags, r.want[u]);
        }
      }
    }
  }

  /** What a receive answers: refusals change nothing; otherwise the flags asked for are there and are handed over,
      cleared when asked, or the task is queued with what it asked for. */
  lemma RecvAnswers(g: Group, t: Tid, mask: Flags, option: Option3, wait: bool, inIsr: bool, prio: map<Tid, nat>)
    requires Inv(g) && t !in g.queue
    ensures var ((r, code), met) := (Recv(g, t, mask, option, wait, inIsr, prio), Holds(g.flags, mask, option.and));
            && (code == EINVAL <==> mask == {} || (option.and && option.or))
            && (code == E_IN_ISR <==> code != EINVAL && wait && inIsr)
            && (code == EEMPTY <==> code != EINVAL && !wait && !met)
            && (code != EOK ==> code in {EINVAL, E_IN_ISR, EEMPTY} && r == g)
            && (t in r.queue <==> code == EOK && !met)
            && (forall x :: x != t ==> (x in r.queue <==> x in g.queue))
            && (code == EOK && met ==>
                  && t in r.got && (forall x :: x in r.got[t] <==> x in g.flags && x in mask)
                  && (forall x :: x in r.flags <==> x in g.flags && !(option.clear && x in mask)))
            && (code == EOK && !met ==> r.flags == g.flags && r.got == g.got)
  {
    MetOnTheBits(g.flags, Want(mask, option.and, option.clear));
    InsertMembers(g.queue, prio, t);
  }

  /** A receive that waits, and the next send: it returns exactly when all, or one, of the flags it asked for are set
      by then; it gets those of them, and takes them away when asked to. */
  lemma WaitThenSend(g: Group, t: Tid, mask: Flags, option: Option3, prio: map<Tid, nat>, bits: Flags)
    requires Inv(g) && t !in g.queue && bits != {}
    requires mask != {} && !(option.and && option.or) && !Holds(g.flags, mask, option.and)
    ensures var r := Send(Recv(g, t, mask, option, true, false, prio).0, bits).0;
            && (t !in r.queue <==> Holds(g.flags + bits, mask, option.and))
            && (t !in r.queue ==>
                  && t in r.err && r.err[t] == EOK
                  && t in r.got && (forall x :: x in r.got[t] <==> x in g.flags + bits && x in mask)
                  && (option.clear ==> forall x :: x in mask ==> x !in r.flags))
  {
    var w := Want(mask, option.and, option.clear);
    var q := Recv(g, t, mask, option, true, false, prio).0;
    RecvAnswers(g, t, mask, option, true, false, prio);
    RecvInv(g, t, mask, option, true, false, prio);
    assert Waiting(q, t);
    assert q.want[t] == w by {
      MetOnTheBits(g.flags, w);
    }
    SendAnswers(q, bits, t);
    SendWakesExactly(q, bits);
    if Holds(g.flags + bits, mask, option.and) && option.clear {
      MetOnTheBits(g.flags + bits, w);
      assert Clears(q.want, q.queue, q.flags + bits, t);
    }
  }

  /** Flags set before a clear count for nobody after it. */
  lemma ClearForgets(g: Group, bits: Flags, t: Tid)
    requires Inv(g) && t in g.queue && bits != {}
    ensures var r := Send(Clear(g), bits).0;
            && Clear(g).queue == g.queue
            && (t !in r.queue <==> Holds(bits, WantOf(g.want, t).mask, WantOf(g.want, t).all))
  {
    assert Waiting(g, t);
    ClearInv(g);
    assert {} + bits == bits;
    SendAnswers(Clear(g), bits, t);
  }

  lemma ClearInv(g: Group)
    requires Inv(g)
    ensures Inv(Clear(g))
  {
    forall t | t in g.queue ensures Waiting(Clear(g), t) {
      assert Waiting(g, t);
      if Met({}, g.want[t]) {
        FewerMeetsLess({}, g.flags, g.want[t]);
      }
    }
  }

  // ----- runs -----

  datatype Op =
    | DoSend(bits: Flags)
    | DoRecv(t: Tid, mask: Flags, option: Option3, wait: bool, inIsr: bool)
    | DoClear

  /** The running task is not blocked in this queue. */
  predicate Enabled(g: Group, op: Op) {
    op.DoRecv? ==> op.t !in g.queue
  }

  function Step(g: Group, op: Op, prio: map<Tid, nat>): Group {
    match op
    case DoSend(bits) => Send(g, bits).0
    case DoRecv(t, mask, option, wait, inIsr) => Recv(g, t, mask, option, wait, inIsr, prio).0
    case DoClear => Clear(g)
  }

  lemma StepInv(g: Group, op: Op, prio: map<Tid, nat>)
    requires Inv(g) && Enabled(g, op)
    ensures Inv(Step(g, op, prio))
  {
    match op
    case DoSend(bits) =>
      if bits != {} {
        SendWakesExactly(g, bits);
      }
    case DoRecv(t, mask, option, wait, inIsr) => RecvInv(g, t, mask, option, wait, inIsr, prio);
    case DoClear => ClearInv(g);
  }

  predicate AllEnabled(g: Group, ops: seq<Op>, prio: map<Tid, nat>)
    decreases |ops|
  {
    ops == [] || (Enabled(g, ops[0]) && AllEnabled(Step(g, ops[0], prio), ops[1..], prio))
  }

  function Exec(g: Group, ops: seq<Op>, prio: map<Tid, nat>): Group
    decreases |ops|
  {
    if ops == [] then g else Exec(Step(g, ops[0], prio), ops[1..], prio)
  }

  /** In every reachable state no blocked task has its condition met. */
  lemma {:induction false} RunInv(g: Group, ops: seq<Op>, prio: map<Tid, nat>)
    requires Inv(g) && AllEnabled(g, ops, prio)
    ensures Inv(Exec(g, ops, prio))
    decreases |ops|
  {
    if ops != [] {
      StepInv(g, ops[0], prio);
      RunInv(Step(g, ops[0], prio), ops[1..], prio);
    }
  }
}

/** The event group's fields, updated in place. */
module EventClass {
  import opened Base
  import opened TaskQueue
  import opened Event

  /** The traversal with `rest` still to come: what it has collected, together with what rest will add, is the whole. */
  ghost predicate Visited(want: map<Tid, Want>, q: seq<Tid>, now: Flags, got0: map<Tid, Flags>, err0: map<Tid, Code>,
                          left: seq<Tid>, rest: seq<Tid>, total: Flags, got: map<Tid, Flags>, err: map<Tid, Code>)
  {
    && Stay(want, q, now) == left + Stay(want, rest, now)
    && ClearMask(want, q, now) == total + ClearMask(want, rest, now)
    && Deliver(want, q, now, got0) == Deliver(want, rest, now, got)
    && MarkOk(want, q, now, err0) == MarkOk(want, rest, now, err)
  }

  lemma Begin(want: map<Tid, Want>, q: seq<Tid>, now: Flags, got: map<Tid, Flags>, err: map<Tid, Code>)
    ensures Visited(want, q, now, got, err, [], q, {}, got, err)
  {
    assert [] + Stay(want, q, now) == Stay(want, q, now);
    assert {} + ClearMask(want, q, now) == ClearMask(want, q, now);
  }

  /** One task further. */
  lemma Visit(want: map<Tid, Want>, q: seq<Tid>, now: Flags, got0: map<Tid, Flags>, err0: map<Tid, Code>,
              left: seq<Tid>, rest: seq<Tid>, total: Flags, got: map<Tid, Flags>, err: map<Tid, Code>)
    requires rest != [] && Visited(want, q, now, got0, err0, left, rest, total, got, err)
    ensures var t, w := rest[0], WantOf(want, rest[0]);
            if Met(now, w) then
              Visited(want, q, now, got0, err0, left, rest[1..], if w.clear then total + w.mask else total,
                      got[t := now * w.mask], err[t := EOK])
            else Visited(want, q, now, got0, err0, left + [t], rest[1..], total, got, err)
  {
    var w, stay, mask := WantOf(want, rest[0]), Stay(want, rest[1..], now), ClearMask(want, rest[1..], now);
    if Met(now, w) {
      assert [] + stay == stay;
      assert total + (w.mask + mask) == (total + w.mask) + mask;
    } else {
      assert left + ([rest[0]] + stay) == (left + [rest[0]]) + stay;
    }
    assert {} + mask == mask;
  }

  class EventGroup {
    var flags: Flags
    var queue: seq<Tid>
    var want: map<Tid, Want>
    var got: map<Tid, Flags>
    var err: map<Tid, Code>

    function View(): Group
      reads this
    {
      Group(flags, queue, want, got, err)
    }

    constructor ()
      ensures View() == Group({}, [], map[], map[], map[])
    {
      flags, queue, want, got, err := {}, [], map[], map[], map[];
    }

    /** One safe traversal that unlinks the waking tasks and collects what to clear; the flags change after it. A
        reschedule is asked for when somebody woke. */
    method SendEvent(bits: Flags) returns (code: Code, need: bool)
      modifies this
      ensures (View(), code) == Send(old(View()), bits)
      ensures need <==> |queue| < old(|queue|)
    {
      need := false;
      if bits == {} {
        return EINVAL, false;
      }
      flags := flags + bits;
      ghost var q, left, rest, got0, err0 := queue, [], queue, got, err;
      var i, total: Flags := 0, {};
      assert left + rest == queue;
      Begin(want, q, flags, got0, err0);
      while i < |queue|
        invariant queue == left + rest && i == |left|
        invariant flags == old(flags) + bits && want == old(want)
        invariant Visited(want, q, flags, got0, err0, left, rest, total, got, err)
        invariant |queue| <= |q| && (need <==> |queue| < |q|)
        decreases |rest|
      {
        var t := queue[i];
        assert t == rest[0];
        Visit(want, q, flags, got0, err0, left, rest, total, got, err);
        if Met(flags, WantOf(want, t)) {
          Wake(i, left, rest);
          need := true;
          if WantOf(want, t).clear {
            total := total + WantOf(want, t).mask;
          }
        } else {
          left, i := left + [t], i + 1;
          assert left + rest[1..] == queue;
        }
        rest := rest[1..];
      }
      assert rest == [] && queue == left && left + [] == left && total + {} == total;
      flags := flags - total;
      code := EOK;
    }

    /** The task at i leaves the queue with the flags it waited for. */
    method Wake(i: nat, ghost left: seq<Tid>, ghost rest: seq<Tid>)
      requires i < |queue| && i == |left| && queue == left + rest
      modifies this`queue, this`got, this`err
      ensures queue == left + rest[1..]
      ensures got == old(got)[rest[0] := flags * WantOf(want, rest[0]).mask] && err == old(err)[rest[0] := EOK]
    {
      var t := queue[i];
      got, err := got[t := flags * WantOf(want, t).mask], err[t := EOK];
      queue := queue[..i] + queue[i + 1..];
    }

    method RecvEvent(t: Tid, mask: Flags, option: Option3, wait: bool, inIsr: bool, prio: map<Tid, nat>)
      returns (code: Code)
      modifies this
      ensures (View(), code) == Recv(old(View()), t, mask, option, wait, inIsr, prio)
    {
      if mask == {} || (option.and && option.or) {
        return EINVAL;
      }
      if wait && inIsr {
        return E_IN_ISR;
      }
      if Met(flags, Want(mask, option.and, option.clear)) {
        got := got[t := flags * mask];
        if option.clear {
          flags := flags - mask;
        }
        return EOK;
      }
      if !wait {
        return EEMPTY;
      }
      want := want[t := Want(mask, option.and, option.clear)];
      queue := SortedInsert(queue, prio, t);
      code := EOK;
    }
  }
}
