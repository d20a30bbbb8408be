/** When a requested switch may happen: interrupt nesting, the scheduler lock, the request and the pended switch. */
module SchedGate {
  import opened TaskQueue

  const U8: nat := 0x100
  const U32: nat := 0x1_0000_0000

  /** g_interrupt_nest, g_schedule_lock_nest, g_need_schedule, g_mrtk_started, g_CurrentTCB, g_NextTCB, and whether the
      switch exception is pending. */
  datatype Gate = Gate(irq: nat, lock: nat, need: bool, started: bool, cur: Tid, next: Tid, pend: bool)

  // ----- the kernel's functions -----

  function InterruptEnter(g: Gate): Gate {
    g.(irq := (g.irq + 1) % U8)
  }

  /** Whether leaving pends the switch. */
  predicate LeavePends(g: Gate) {
    (g.irq - 1) % U8 == 0 && g.lock == 0 && g.need
  }

  function InterruptLeave(g: Gate): Gate {
    var h := g.(irq := (g.irq - 1) % U8);
    if LeavePends(g) then h.(pend := true, need := false) else h
  }

  function ScheduleLock(g: Gate): Gate {
    g.(lock := (g.lock + 1) % U32)
  }

  /** The critical section of mrtk_schedule_unlock, and whether it goes on to call mrtk_schedule. */
  function ScheduleUnlock(g: Gate): (Gate, bool) {
    var h := g.(lock := (g.lock - 1) % U32);
    if h.irq > 0 || h.lock > 0 then (h, false) else (h, h.need)
  }

  /** Whether mrtk_schedule only records the request. */
  predicate Defers(g: Gate) {
    !g.started || g.irq > 0 || g.lock > 0
  }

  /** mrtk_schedule; `best` is the task the ready lists select. */
  function ScheduleNow(g: Gate, best: Tid): Gate {
    if Defers(g) then g.(need := true) else g.(need := false, next := best, pend := g.pend || best != g.cur)
  }

  /** The switch exception: g_CurrentTCB = g_NextTCB. */
  function Switched(g: Gate): Gate {
    g.(cur := g.next, pend := false)
  }

  // ----- runs: brackets nest, a call of mrtk_schedule decided by an unlock comes later -----

  datatype Mark = Irq | Lock

  /** `open` are the brackets entered and not left, innermost first; `owed` counts unlocks that decided to call
      mrtk_schedule and have not yet; `waiting` says a request has not been acted on, `acts` counts the actions;
      `chosen` says that mrtk_schedule, and not only a leaving interrupt, pended the pending switch; `pended` lists,
      for each switch pended, the number of brackets then open. */
  datatype Sys = Sys(g: Gate, open: seq<Mark>, owed: nat, waiting: bool, acts: nat, chosen: bool, pended: seq<nat>)

  datatype Op =
    | Enter | Leave | DoLock | DoUnlock
    | Request(best: Tid) | Owed(best: Tid) | Rotate | Start(best: Tid) | Switch

  /** The switch is the least urgent exception: it is taken when no interrupt is active, before any task code. */
  predicate Executes(s: Sys) {
    Irq in s.open || !s.g.pend
  }

  predicate Enabled(s: Sys, op: Op) {
    match op
    case Enter => true
    case Leave => s.open != [] && s.open[0] == Irq
    case DoLock => Executes(s)
    case DoUnlock => Executes(s) && s.open != [] && s.open[0] == Lock
    case Request(best) => Executes(s)
    case Owed(best) => Executes(s) && s.open == [] && s.owed > 0
    case Rotate => Irq in s.open
    case Start(best) => s.open == [] && !s.g.started
    case Switch => s.g.pend && Irq !in s.open
  }

  function Schedule(s: Sys, best: Tid): Sys {
    var g := ScheduleNow(s.g, best);
    if Defers(s.g) then s.(g := g, waiting := true)
    else if best == s.g.cur then s.(g := g, waiting := false, acts := s.acts + 1)
    else s.(g := g, waiting := false, acts := s.acts + 1, chosen := true, pended := s.pended + [|s.open|])
  }

  function Step(s: Sys, op: Op): Sys
    requires Enabled(s, op)
  {
    match op
    case Enter => s.(g := InterruptEnter(s.g), open := [Irq] + s.open)
    case Leave =>
      var r := s.(g := InterruptLeave(s.g), open := s.open[1..]);
      if LeavePends(s.g) then r.(waiting := false, acts := s.acts + 1, pended := s.pended + [|s.open| - 1]) else r
    case DoLock => s.(g := ScheduleLock(s.g), open := [Lock] + s.open)
    case DoUnlock =>
      var (g, call) := ScheduleUnlock(s.g);
      s.(g := g, open := s.open[1..], owed := if call then s.owed + 1 else s.owed)
    case Request(best) => Schedule(s, best)
    case Owed(best) => Schedule(s.(owed := s.owed - 1), best)
    case Rotate => s.(g := s.g.(need := true), waiting := true)
    case Start(best) =>
      s.(g := s.g.(started := true, next := best, pend := true), waiting := false, acts := s.acts + 1,
         chosen := best != s.g.cur, pended := s.pended + [0])
    case Switch => s.(g := Switched(s.g), chosen := false)
  }

  // ----- the invariant -----

  function Depth(open: seq<Mark>, m: Mark): nat {
    if open == [] then 0 else (if open[0] == m then 1 else 0) + Depth(open[1..], m)
  }

  lemma {:induction false} DepthZero(open: seq<Mark>, m: Mark)
    ensures Depth(open, m) == 0 <==> m !in open
    ensures Depth(open, Irq) + Depth(open, Lock) == |open|
  {
    if open != [] {
      assert open == [open[0]] + open[1..];
      DepthZero(open[1..], m);
    }
  }

  /** The counters count, modulo their width. */
  predicate Counts(s: Sys) {
    s.g.irq == Depth(s.open, Irq) % U8 && s.g.lock == Depth(s.open, Lock) % U32
  }

  /** A request not acted on is recorded, and with no bracket open some unlock is about to call mrtk_schedule. */
  predicate Recorded(s: Sys) {
    (s.waiting ==> s.g.need) && (s.waiting && s.g.started && s.open == [] ==> s.owed > 0)
  }

  /** Once started, the task chosen last is the one running, unless the switch to it is pending. */
  predicate Settled(s: Sys) {
    (s.g.started ==> (s.chosen <==> s.g.cur != s.g.next)) && (s.chosen ==> s.g.pend && s.g.started)
  }

  predicate Inv(s: Sys) {
    Counts(s) && Recorded(s) && Settled(s)
  }

  /** No counter wraps. */
  predicate Shallow(s: Sys) {
    Depth(s.open, Irq) < U8 && Depth(s.open, Lock) < U32
  }

  /** Counting modulo the width commutes with counting. */
  lemma Up8(d: nat)
    ensures (d % U8 + 1) % U8 == (d + 1) % U8
  {
    var q, r := d / U8, d % U8;
    assert d + 1 == U8 * q + (r + 1);
    if r + 1 == U8 {
      assert d + 1 == U8 * (q + 1);
    }
  }

  lemma Up32(d: nat)
    ensures (d % U32 + 1) % U32 == (d + 1) % U32
  {
    var q, r := d / U32, d % U32;
    assert d + 1 == U32 * q + (r + 1);
    if r + 1 == U32 {
      assert d + 1 == U32 * (q + 1);
    }
  }

  lemma Down8(d: nat)
    requires d > 0
    ensures (d % U8 - 1) % U8 == (d - 1) % U8
  {
    Back8(d - 1);
  }

  lemma Back8(d: nat)
    ensures ((d + 1) % U8 - 1) % U8 == d % U8
  {
    var q, r := d / U8, d % U8;
    if r + 1 == U8 {
      assert d + 1 == U8 * (q + 1);
      assert (d + 1) % U8 == 0;
    } else {
      assert d + 1 == U8 * q + (r + 1);
      assert (d + 1) % U8 == r + 1;
    }
  }

  lemma Down32(d: nat)
    requires d > 0
    ensures (d % U32 - 1) % U32 == (d - 1) % U32
  {
    var q, r := (d - 1) / U32, (d - 1) % U32;
    assert d == U32 * q + (r + 1);
    if r + 1 == U32 {
      assert d == U32 * (q + 1);
    }
  }

  /** Opening or closing a bracket moves its own counter by one. */
  lemma PushCounts(s: Sys, m: Mark, r: Sys)
    requires Counts(s) && r.open == [m] + s.open
    requires r.g.irq == (if m == Irq then (s.g.irq + 1) % U8 else s.g.irq)
    requires r.g.lock == (if m == Lock then (s.g.lock + 1) % U32 else s.g.lock)
    ensures Counts(r)
  {
    assert r.open[1..] == s.open;
    Up8(Depth(s.open, m));
    Up32(Depth(s.open, m));
  }

  lemma PopCounts(s: Sys, r: Sys)
    requires Counts(s) && s.open != [] && r.open == s.open[1..]
    requires r.g.irq == (if s.open[0] == Irq then (s.g.irq - 1) % U8 else s.g.irq)
    requires r.g.lock == (if s.open[0] == Lock then (s.g.lock - 1) % U32 else s.g.lock)
    ensures Counts(r)
  {
    Down8(Depth(s.open, s.open[0]));
    Down32(Depth(s.open, s.open[0]));
  }

  lemma StepCounts(s: Sys, op: Op)
    requires Counts(s) && Enabled(s, op)
    ensures Counts(Step(s, op))
  {
    match op
    case Enter => PushCounts(s, Irq, Step(s, op));
    case Leave => PopCounts(s, Step(s, op));
    case DoLock => PushCounts(s, Lock, Step(s, op));
    case DoUnlock => PopCounts(s, Step(s, op));
    case Request(best) =>
    case Owed(best) =>
    case Rotate =>
    case Start(best) =>
    case Switch =>
  }

  /** Short of a wrap, a counter is zero exactly when no bracket of its kind is open. */
  lemma Plain(s: Sys)
    requires Counts(s) && Shallow(s)
    ensures s.g.irq == Depth(s.open, Irq) && s.g.lock == Depth(s.open, Lock)
    ensures s.open == [] <==> s.g.irq == 0 && s.g.lock == 0
  {
    DepthZero(s.open, Irq);
  }

  lemma StepRecorded(s: Sys, op: Op)
    requires Inv(s) && Enabled(s, op) && Shallow(s)
    ensures Recorded(Step(s, op))
  {
    Plain(s);
    if op.Leave? || op.DoUnlock? {
      PopRecorded(s, op);
    }
  }

  lemma PopRecorded(s: Sys, op: Op)
    requires Inv(s) && Enabled(s, op) && Shallow(s) && (op.Leave? || op.DoUnlock?)
    ensures Recorded(Step(s, op))
  {
    Plain(s);
    StepCounts(s, op);
    var r := Step(s, op);
    assert r.open == [] ==> r.g.irq == 0 && r.g.lock == 0;
  }

  lemma StepInv(s: Sys, op: Op)
    requires Inv(s) && Enabled(s, op) && Shallow(s)
    ensures Inv(Step(s, op))
  {
    StepCounts(s, op);
    StepRecorded(s, op);
    StepSettled(s, op);
  }

  lemma StepSettled(s: Sys, op: Op)
    requires Inv(s) && Enabled(s, op) && Shallow(s)
    ensures Settled(Step(s, op))
  {
    Plain(s);
    DepthZero(s.open, Irq);
  }

  predicate AllEnabled(s: Sys, ops: seq<Op>)
    decreases |ops|
  {
    Shallow(s) && (ops == [] || (Enabled(s, ops[0]) && AllEnabled(Step(s, ops[0]), ops[1..])))
  }

  function Exec(s: Sys, ops: seq<Op>): Sys
    requires AllEnabled(s, ops)
    decreases |ops|
  {
    if ops == [] then s else Exec(Step(s, ops[0]), ops[1..])
  }

  lemma {:induction false} RunInv(s: Sys, ops: seq<Op>)
    requires Inv(s) && AllEnabled(s, ops)
    ensures Inv(Exec(s, ops)) && Exec(s, ops).acts >= s.acts
    decreases |ops|
  {
    if ops != [] {
      StepInv(s, ops[0]);
      RunInv(Step(s, ops[0]), ops[1..]);
    }
  }

  // ----- no switch while nested -----

  predicate AllAtRest(pended: seq<nat>) {
    forall i :: 0 <= i < |pended| ==> pended[i] == 0
  }

  lemma StepAtRest(s: Sys, op: Op)
    requires Inv(s) && Enabled(s, op) && Shallow(s) && AllAtRest(s.pended)
    ensures AllAtRest(Step(s, op).pended)
  {
    Plain(s);
    DepthZero(s.open, Irq);
  }

  /** Every switch of a run is pended with no interrupt active and the scheduler unlocked. */
  lemma {:induction false} SwitchesAtRest(s: Sys, ops: seq<Op>)
    requires Inv(s) && AllEnabled(s, ops) && AllAtRest(s.pended)
    ensures AllAtRest(Exec(s, ops).pended)
    decreases |ops|
  {
    if ops != [] {
      StepInv(s, ops[0]);
      StepAtRest(s, ops[0]);
      SwitchesAtRest(Step(s, ops[0]), ops[1..]);
    }
  }

  /** The step pends a switch while brackets stay open. */
  predicate PendsInside(s: Sys, op: Op)
    requires Enabled(s, op)
  {
    var p := Step(s, op).pended;
    |p| > |s.pended| && p[|p| - 1] > 0
  }

  /** Exactly the counters that have wrapped let it happen: a leave with a multiple of 256 interrupts still active, or a
      call of mrtk_schedule among a multiple of 256, with a multiple of 2^32 locks. */
  lemma PendsInsideExactly(s: Sys, op: Op)
    requires Counts(s) && Enabled(s, op)
    ensures PendsInside(s, op) <==>
            match op
            case Leave =>
              && |s.open| > 1 && (Depth(s.open, Irq) - 1) % U8 == 0 && Depth(s.open, Lock) % U32 == 0
              && s.g.need
            case Request(best) =>
              && s.open != [] && Depth(s.open, Irq) % U8 == 0 && Depth(s.open, Lock) % U32 == 0
              && s.g.started && best != s.g.cur
            case _ => false
  {
    DepthZero(s.open, Irq);
    if op.Leave? {
      Down8(Depth(s.open, Irq));
    }
  }

  // ----- no request is lost -----

  lemma StepKeepsRequest(s: Sys, op: Op)
    requires Inv(s) && Enabled(s, op) && s.waiting
    ensures var r := Step(s, op); r.acts > s.acts || (r.waiting && r.g.need)
    ensures Step(s, op).acts >= s.acts
  {
  }

  /** A request stays recorded until it is acted on, and it has been acted on by the time no bracket is open and every
      unlock has made its call. */
  lemma {:induction false} RequestIsHonoured(s: Sys, ops: seq<Op>)
    requires Inv(s) && AllEnabled(s, ops) && s.waiting
    ensures var r := Exec(s, ops);
            && (r.acts > s.acts || (r.waiting && r.g.need))
            && (r.g.started && r.open == [] && r.owed == 0 ==> r.acts > s.acts)
    decreases |ops|
  {
    RunInv(s, ops);
    if ops != [] {
      var m := Step(s, ops[0]);
      StepInv(s, ops[0]);
      StepKeepsRequest(s, ops[0]);
      RunInv(m, ops[1..]);
      if m.acts == s.acts {
        RequestIsHonoured(m, ops[1..]);
      }
    }
  }

  // ----- where the switch pended by a leaving interrupt goes -----

  /** Every state of the run has at least n brackets open. */
  predicate Stays(s: Sys, ops: seq<Op>, n: nat)
    requires AllEnabled(s, ops)
    decreases |ops|
  {
    |s.open| >= n && (ops == [] || Stays(Step(s, ops[0]), ops[1..], n))
  }

  /** r has the choices of s, and s's pending switch. */
  predicate SameChoice(s: Sys, r: Sys) {
    r.g.cur == s.g.cur && r.g.next == s.g.next && r.chosen == s.chosen && r.g.started && (s.g.pend ==> r.g.pend)
  }

  /** In an interrupt nothing is chosen: requests are deferred and the switch has to wait. */
  lemma InsideStep(s: Sys, op: Op)
    requires Inv(s) && Enabled(s, op) && Shallow(s) && Irq in s.open && s.g.started
    ensures SameChoice(s, Step(s, op))
  {
    Plain(s);
    DepthZero(s.open, Irq);
  }

  /** The n outermost brackets. */
  function Outer(open: seq<Mark>, n: nat): seq<Mark>
    requires n <= |open|
  {
    open[|open| - n..]
  }

  lemma OuterStays(s: Sys, op: Op, n: nat)
    requires Enabled(s, op) && n <= |s.open| && n <= |Step(s, op).open|
    ensures Outer(Step(s, op).open, n) == Outer(s.open, n)
  {
    match op
    case Enter => OuterPush(Irq, s.open, n);
    case Leave => OuterPop(s.open, n);
    case DoLock => OuterPush(Lock, s.open, n);
    case DoUnlock => OuterPop(s.open, n);
    case Request(best) =>
    case Owed(best) =>
    case Rotate =>
    case Start(best) =>
    case Switch =>
  }

  lemma OuterPush(m: Mark, open: seq<Mark>, n: nat)
    requires n <= |open|
    ensures Outer([m] + open, n) == Outer(open, n)
  {
  }

  lemma OuterPop(open: seq<Mark>, n: nat)
    requires open != [] && n <= |open| - 1
    ensures Outer(open[1..], n) == Outer(open, n)
  {
  }

  lemma OuterIrq(open: seq<Mark>, n: nat)
    requires 0 < n <= |open| && Outer(open, n)[0] == Irq
    ensures Irq in open
  {
    assert open[|open| - n] == Irq;
  }

  lemma {:induction false} InsideRun(s: Sys, ops: seq<Op>, n: nat)
    requires Inv(s) && AllEnabled(s, ops) && s.g.started && 0 < n <= |s.open| && Outer(s.open, n)[0] == Irq
    requires Stays(s, ops, n)
    ensures var r := Exec(s, ops); SameChoice(s, r) && |r.open| >= n && Outer(r.open, n) == Outer(s.open, n)
    decreases |ops|
  {
    if ops != [] {
      var m := Step(s, ops[0]);
      OuterIrq(s.open, n);
      StepInv(s, ops[0]);
      InsideStep(s, ops[0]);
      OuterStays(s, ops[0], n);
      InsideRun(m, ops[1..], n);
    }
  }

  /** An interrupt, whatever happens in it, followed by the switch: the task chosen last runs. It is the interrupted one
      exactly when no switch chosen by mrtk_schedule was pending as the interrupt came; requests made in the interrupt
      choose nobody. */
  lemma InterruptThenSwitch(s: Sys, body: seq<Op>)
    requires Inv(s) && Shallow(s) && s.g.started && Irq !in s.open
    requires var e := Step(s, Enter);
             && AllEnabled(e, body) && Stays(e, body, |s.open| + 1)
             && var b := Exec(e, body);
             && Enabled(b, Leave) && |b.open| == |s.open| + 1 && Enabled(Step(b, Leave), Switch)
    ensures var r := Step(Step(Exec(Step(s, Enter), body), Leave), Switch);
            r.open == s.open && r.g.cur == s.g.next && !r.g.pend && (r.g.cur == s.g.cur <==> !s.chosen)
  {
    var e := Step(s, Enter);
    assert Outer(e.open, |s.open| + 1) == e.open;
    StepInv(s, Enter);
    InsideRun(e, body, |s.open| + 1);
    var b := Exec(e, body);
    assert Outer(b.open, |s.open| + 1) == b.open;
  }

  /** A request made in the only active interrupt is acted on as it leaves, and the switch then runs the task it was
      made for exactly when that task had been chosen before. */
  lemma DeferredToLeave(s: Sys, best: Tid)
    requires Inv(s) && s.g.started && s.open == [Irq]
    ensures var r := Step(Step(s, Request(best)), Leave);
            && r.acts == s.acts + 1 && !r.g.need && r.g.pend && Enabled(r, Switch)
            && (Step(r, Switch).g.cur == best <==> s.g.next == best)
  {
    Plain(s);
    assert s.g.irq == 1;
  }

  /** A request from task code, no bracket open, chooses the best task: it runs, or the switch to it is pending. */
  lemma RequestAtRestRunsBest(s: Sys, best: Tid)
    requires Inv(s) && s.g.started && s.open == [] && !s.g.pend
    ensures var r := Step(s, Request(best));
            && !r.g.need && r.acts == s.acts + 1 && r.g.next == best
            && if s.g.cur == best then r.g.cur == best && !r.g.pend
               else Enabled(r, Switch) && Step(r, Switch).g.cur == best
  {
  }

  /** An unlock decides to call mrtk_schedule exactly when it leaves no bracket open and a request is recorded; each
      call decided is made once. */
  lemma UnlockCalls(s: Sys, op: Op)
    requires Inv(s) && Shallow(s) && Enabled(s, op)
    ensures var r := Step(s, op);
            if op.DoUnlock? then
              r.owed == (if |s.open| == 1 && s.g.need then s.owed + 1 else s.owed) && r.g.need == s.g.need
            else if op.Owed? then r.owed == s.owed - 1
            else r.owed == s.owed
  {
    Plain(s);
    StepCounts(s, op);
    if op.DoUnlock? {
      DepthZero(s.open[1..], Irq);
      Plain(Step(s, op));
    }
  }

  /** A call of mrtk_schedule and a tick that rotates a level are acted on at once or recorded as a request. */
  lemma RequestsAreRecorded(s: Sys, op: Op)
    requires Enabled(s, op) && (op.Request? || op.Owed? || op.Rotate?)
    ensures var r := Step(s, op); r.acts == s.acts + 1 || (r.acts == s.acts && r.waiting && r.g.need)
    ensures op.Rotate? || Defers(s.g) ==> Step(s, op).waiting && Step(s, op).g.next == s.g.next
  {
  }

  /** The start of the scheduler is a switch to the best task. */
  lemma StartRunsBest(s: Sys, best: Tid)
    requires Enabled(s, Start(best))
    ensures var r := Step(s, Start(best));
            && r.acts == s.acts + 1 && r.pended == s.pended + [0] && Enabled(r, Switch)
            && Step(r, Switch).g.cur == best && !Step(r, Switch).g.pend && Step(r, Switch).g.started
  {
    DepthZero(s.open, Irq);
  }

  /** The state mrtk_schedule_init and mrtk_irq_init leave. */
  function Boot(t: Tid): Sys {
    Sys(Gate(0, 0, false, false, t, t, false), [], 0, false, 0, false, [])
  }

  lemma BootInv(t: Tid)
    ensures Inv(Boot(t)) && Shallow(Boot(t)) && AllAtRest(Boot(t).pended)
    ensures Defers(Boot(t).g) && !Boot(t).g.need && !Boot(t).g.pend && Boot(t).owed == 0
  {
  }
}

/** The global counters and flags, updated in place. */
module SchedGateClass {
  import opened TaskQueue
  import opened SchedGate

  class Counters {
    var irq: nat
    var lock: nat
    var need: bool
    var started: bool
    var cur: Tid
    var next: Tid
    var pend: bool

    function View(): Gate
      reads this
    {
      Gate(irq, lock, need, started, cur, next, pend)
    }

    method EnterInterrupt()
      modifies this`irq
      ensures View() == InterruptEnter(old(View()))
    {
      irq := (irq + 1) % U8;
    }

    method LeaveInterrupt() returns (pends: bool)
      modifies this`irq, this`need, this`pend
      ensures View() == InterruptLeave(old(View())) && pends == LeavePends(old(View()))
    {
      irq := (irq - 1) % U8;
      pends := irq == 0 && lock == 0 && need;
      if pends {
        pend := true;
        need := false;
      }
    }

    method LockScheduler()
      modifies this`lock
      ensures View() == ScheduleLock(old(View()))
    {
      lock := (lock + 1) % U32;
    }

    method UnlockScheduler() returns (call: bool)
      modifies this`lock
      ensures (View(), call) == ScheduleUnlock(old(View()))
    {
      lock := (lock - 1) % U32;
      if irq > 0 || lock > 0 {
        return false;
      }
      lock := 0;
      call := need;
    }

    /** mrtk_schedule; pends says whether a switch was pended. */
    method Reschedule(best: Tid) returns (pends: bool)
      modifies this`need, this`next, this`pend
      ensures View() == ScheduleNow(old(View()), best)
      ensures pends <==> !Defers(old(View())) && best != old(cur)
    {
      pends := false;
      if !started {
        need := true;
        return;
      }
      if irq > 0 || lock > 0 {
        need := true;
        return;
      }
      need := false;
      next := best;
      if next != cur {
        pend := true;
        pends := true;
      }
    }

    /** The switch exception. */
    method TakeSwitch()
      modifies this`cur, this`pend
      ensures View() == Switched(old(View()))
    {
      cur, pend := next, false;
    }
  }
}
