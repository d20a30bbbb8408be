/** What callers learn: the codes of take and release, how a blocked take ends, and that no run misses a preemption. */
module MutexOutcomes {
  import opened Base
  import opened PrioBitmap
  import opened TaskQueue
  import opened Mutex
  import opened MutexInv
  import opened MutexRuns
  import opened MutexTheorems
  import S = Schedule

  // ----- answers -----

  /** A take that answers at once: E_IN_ISR exactly for waiting in an interrupt, EEMPTY exactly for not waiting for a
      mutex of another task; both change nothing. EOK means that the caller owns the mutex, or is blocked
      on it and waits. */
  lemma TakeAnswers(k: Kernel, m: Mid, wait: bool, inIsr: bool)
    requires Inv(k) && Running(k) && m in k.owner
    ensures var t := k.s.cur.value;
            var (r, code) := Take(k, m, t, wait, inIsr);
            && (code == E_IN_ISR <==> wait && inIsr)
            && (code == EEMPTY <==> !wait && Owner(k, m).Some? && Owner(k, m) != Some(t))
            && (code != EOK ==> code in {E_IN_ISR, EEMPTY} && r == k)
            && (code == EOK && S.IsReady(r.s, t) ==> Owner(r, m) == Some(t) && Owner(k, m) in {None, Some(t)})
            && (code == EOK && !S.IsReady(r.s, t) ==> wait && t in List(r.waiters, m) && Owner(r, m) == Owner(k, m))
            && (forall n :: n != m ==> Owner(r, n) == Owner(k, n))
  {
    var t := k.s.cur.value;
    if Owner(k, m).Some? && Owner(k, m) != Some(t) {
      BlockLeaves(k, m, t, Owner(k, m).value);
    }
  }

  lemma BlockLeaves(k: Kernel, m: Mid, t: Tid, o: Tid)
    requires t in k.s.prio
    ensures var r := Block(k, m, t, o);
            r.owner == k.owner && t in List(r.waiters, m) && !S.IsReady(r.s, t)
  {
    var b := Boost(k, t, o);
    SuspendedNotReady(b.s, t);
    var q, p := List(b.waiters, m), S.Suspend(b.s, t).prio;
    InsertAt(q, InsertPos(q, p, Num(p, t)), t);
  }

  lemma SuspendedNotReady(s: S.Sched, t: Tid)
    ensures !S.IsReady(S.Suspend(s, t), t)
  {
  }

  /** A release answers E_IN_ISR exactly in an interrupt and ERROR exactly for a task that is not the owner; both change
      nothing. With EOK the caller keeps the mutex exactly when its count was not one. */
  lemma ReleaseAnswers(k: Kernel, m: Mid, inIsr: bool)
    requires Inv(k) && Running(k) && m in k.owner && Num(k.nest, m) < 256
    ensures var t := k.s.cur.value;
            var (r, code) := Release(k, m, t, inIsr);
            && (code == E_IN_ISR <==> inIsr)
            && (code == ERROR <==> !inIsr && Owner(k, m) != Some(t))
            && (code != EOK ==> code in {E_IN_ISR, ERROR} && r == k)
            && (code == EOK ==> (Owner(r, m) == Some(t) <==> Num(k.nest, m) != 1))
            && (forall n :: n != m ==> Owner(r, n) == Owner(k, n))
  {
    var t := k.s.cur.value;
    if Owner(k, m) == Some(t) {
      CountIsOne(Num(k.nest, m));
      OwnerFacts(k, m);
      if k.waiters[m] != [] {
        HandOffFields(k, m, t);
        assert k.waiters[m][0] in k.waiters[m];
      }
    }
  }

  lemma CountIsOne(n: nat)
    requires n < 256
    ensures (n + 255) % 256 == 0 <==> n == 1
  {
  }

  // ----- who else notices -----

  /** A task that is woken asks for a schedule exactly when it is strictly more urgent than the current one. */
  lemma WakeAsks(k: Kernel, t: Tid)
    requires Inv(k) && Enabled(k, Wake(t)) && k.s.cur.Some?
    ensures Step(k, Wake(t)).s.asked <==> k.s.asked || Num(k.s.prio, t) < Num(k.s.prio, k.s.cur.value)
  {
    WakeSched(k.s, t);
  }

  /** So does a hand-off, against the priority its caller is left with. */
  lemma HandOffAsks(k: Kernel, m: Mid, t: Tid)
    requires Inv(k) && m in k.owner && k.owner[m] == Some(t) && k.s.cur == Some(t) && S.IsReady(k.s, t)
    requires k.waiters[m] != []
    ensures var r := HandOff(k, m, t);
            r.s.asked <==> k.s.asked || Num(k.s.prio, k.waiters[m][0]) < Num(r.s.prio, t)
  {
    var s := S.PrioChange(k.s, t, Inherited(DropHeld(k, m, t), t));
    HandOffParts(k, m, t, s);
    RestoreThenWake(DropHeld(k, m, t), t, s, k.waiters[m][0]);
  }

  /** A detach asks exactly when the owner's priority changes or a waiter outranks the current task. */
  lemma DetachAsksExactly(k: Kernel, m: Mid)
    requires Inv(k) && m in k.owner && Strippable(k, m)
    ensures var r, o := Detach(k, m), k.owner[m];
            r.s.asked <==>
            || k.s.asked || (o.Some? && Num(r.s.prio, o.value) != Num(k.s.prio, o.value))
            || exists x :: x in k.waiters[m] && S.Outranks(r.s, x, k.s.cur)
  {
    var d := Strip(k, m);
    StripLoose(k, m);
    StripAsks(k, m);
    WakeLoose(d, m, {});
    var r := ForceRelease(d, m);
    assert Detach(k, m).s == r.s && r.s.prio == d.s.prio;
    assert forall x :: S.Outranks(r.s, x, k.s.cur) <==> S.Outranks(d.s, x, k.s.cur);
  }

  lemma StripAsks(k: Kernel, m: Mid)
    requires Inv(k) && m in k.owner
    ensures var d, o := Strip(k, m), k.owner[m];
            d.s.asked <==> k.s.asked || (o.Some? && Num(d.s.prio, o.value) != Num(k.s.prio, o.value))
  {
  }

  /** A take that blocks behind an owner at least as urgent moves nobody but its caller on the ready lists. */
  lemma NoBoostMovesNobody(k: Kernel, m: Mid, t: Tid, o: Tid, q: nat)
    requires Inv(k) && t in k.held && S.IsReady(k.s, t) && Num(k.s.prio, o) <= Num(k.s.prio, t) && q < LEVELS
    ensures var r := Block(k, m, t, o);
            && r.s.prio == k.s.prio
            && S.Level(r.s, q) == if q == Num(k.s.prio, t) then Without(S.Level(k.s, q), t) else S.Level(k.s, q)
  {
    assert Boost(k, t, o) == k && S.TaskOk(k.s, t);
  }

  /** A hand-off leaves its caller behind every task of the priority it is left with, though it be the one it had. */
  lemma HandOffYields(k: Kernel, m: Mid, t: Tid, x: Tid)
    requires Inv(k) && m in k.owner && k.owner[m] == Some(t) && S.IsReady(k.s, t) && k.waiters[m] != []
    requires var p := Num(HandOff(k, m, t).s.prio, t); x in S.Level(k.s, p) && x != t
    ensures var r := HandOff(k, m, t); S.InOrder(S.Level(r.s, Num(r.s.prio, t)), x, t)
  {
    var p := Inherited(DropHeld(k, m, t), t);
    RestoredInRange(k, m, t);
    HandOffSched(k, m, t);
    HandOffParts(k, m, t, S.PrioChange(k.s, t, p));
    ChangeThenWake(k.s, t, p, x, k.waiters[m][0]);
  }

  lemma RestoredInRange(k: Kernel, m: Mid, t: Tid)
    requires Inv(k) && m in k.owner && k.owner[m] == Some(t)
    ensures t in k.s.prio && Inherited(DropHeld(k, m, t), t) < LEVELS
  {
    OwnerFacts(k, m);
    InheritedIsBest(DropHeld(k, m, t), t);
  }

  lemma ChangeThenWake(s: S.Sched, t: Tid, p: nat, x: Tid, w: Tid)
    requires S.Inv(s) && t in s.prio && S.IsReady(s, t) && p < LEVELS && x in S.Level(s, p) && x != t
    ensures S.InOrder(S.Level(S.AskFor(S.MakeReady(S.PrioChange(s, t, p), w), w), p), x, t)
  {
    S.ChangedArrivesLast(s, t, p, x);
    S.InsertInOrder(S.PrioChange(s, t, p), w, p, x, t);
  }

  // ----- how a blocked take ends -----

  ghost predicate SameCode(k: Kernel, r: Kernel, t: Tid) {
    (t in r.err <==> t in k.err) && (t in k.err ==> r.err[t] == k.err[t])
  }

  /** Still on the queue. */
  ghost predicate Waiting(k: Kernel, r: Kernel, m: Mid, t: Tid) {
    t in List(r.waiters, m) && !S.IsReady(r.s, t) && SameCode(k, r, t)
  }

  /** Runs again as the owner, with EOK. */
  ghost predicate Owns(r: Kernel, m: Mid, t: Tid) {
    t !in List(r.waiters, m) && S.IsReady(r.s, t) && Owner(r, m) == Some(t) && t in r.err && r.err[t] == EOK
  }

  /** Runs again with EDELETED, the mutex not being its own. */
  ghost predicate SentAway(r: Kernel, m: Mid, t: Tid) {
    t !in List(r.waiters, m) && S.IsReady(r.s, t) && Owner(r, m) != Some(t) && t in r.err && r.err[t] == EDELETED
  }

  ghost predicate Outcome(k: Kernel, r: Kernel, m: Mid, t: Tid) {
    Waiting(k, r, m, t) || Owns(r, m, t) || SentAway(r, m, t) || t !in r.held
  }

  lemma StillWaits(k: Kernel, r: Kernel, m: Mid, t: Tid)
    requires Inv(r) && t in List(r.waiters, m) && SameCode(k, r, t)
    ensures Waiting(k, r, m, t)
  {
    WaiterFacts(r, m, t);
  }

  /** On one queue only. */
  lemma OneQueue(k: Kernel, m: Mid, n: Mid, t: Tid)
    requires Inv(k) && t in List(k.waiters, m) && m != n
    ensures t !in List(k.waiters, n)
  {
    WaiterFacts(k, m, t);
    assert n in k.owner ==> WaitsOnce(k, m, n);
  }

  lemma TakeOutcome(k: Kernel, n: Mid, wait: bool, inIsr: bool, m: Mid, t: Tid)
    requires Inv(k) && Enabled(k, TakeMutex(n, wait, inIsr)) && t in List(k.waiters, m)
    ensures var r := Step(k, TakeMutex(n, wait, inIsr)); t in List(r.waiters, m) && SameCode(k, r, t)
  {
    var c := k.s.cur.value;
    WaiterFacts(k, m, t);
    if wait && !inIsr && Contended(k, n) {
      BoostIsPlain(k, c, Owner(k, n).value);
      EnqueueOutcome(Boost(k, c, Owner(k, n).value), n, c, m, t);
    }
  }

  lemma EnqueueOutcome(b: Kernel, n: Mid, c: Tid, m: Mid, t: Tid)
    requires t in List(b.waiters, m) && t != c
    ensures t in List(Enqueue(b, n, c).waiters, m) && SameCode(b, Enqueue(b, n, c), t)
  {
    var q, p := List(b.waiters, n), S.Suspend(b.s, c).prio;
    InsertAt(q, InsertPos(q, p, Num(p, c)), c);
  }

  lemma HandOffOutcome(k: Kernel, n: Mid, c: Tid, m: Mid, t: Tid)
    requires Inv(k) && n in k.owner && k.owner[n] == Some(c) && S.IsReady(k.s, c) && k.waiters[n] != []
    requires t in List(k.waiters, m)
    ensures var r := HandOff(k, n, c); (t in List(r.waiters, m) && SameCode(k, r, t)) || Owns(r, m, t)
  {
    HandOffFields(k, n, c);
    HandOffSched(k, n, c);
    HandOffOthers(k, n, c);
    assert MutexOk(k, n);
    if m != n {
      OneQueue(k, m, n, t);
    }
    HeadOrTail(k.waiters[n], t);
  }

  lemma HeadOrTail(q: seq<Tid>, t: Tid)
    requires NoDup(q) && q != []
    ensures t in q <==> t == q[0] || t in q[1..]
    ensures q[0] !in q[1..]
  {
    assert q == [q[0]] + q[1..];
  }

  lemma HandOffOthers(k: Kernel, n: Mid, c: Tid)
    requires List(k.waiters, n) != []
    ensures var r := HandOff(k, n, c);
            && (forall m :: m != n ==> List(r.waiters, m) == List(k.waiters, m))
            && (forall x :: x != k.waiters[n][0] ==> SameCode(k, r, x))
  {
  }

  lemma ReleaseOutcome(k: Kernel, n: Mid, inIsr: bool, m: Mid, t: Tid)
    requires Inv(k) && Enabled(k, ReleaseMutex(n, inIsr)) && t in List(k.waiters, m)
    ensures var r := Step(k, ReleaseMutex(n, inIsr)); (t in List(r.waiters, m) && SameCode(k, r, t)) || Owns(r, m, t)
  {
    var c := k.s.cur.value;
    if Owner(k, n) == Some(c) && k.waiters[n] != [] {
      HandOffOutcome(k, n, c, m, t);
    }
  }

  lemma DetachOutcome(k: Kernel, n: Mid, m: Mid, t: Tid)
    requires Inv(k) && n in k.owner && Strippable(k, n) && t in List(k.waiters, m)
    ensures var r := Detach(k, n); (t in List(r.waiters, m) && SameCode(k, r, t)) || SentAway(r, m, t)
  {
    if n == m {
      DetachWakesAll(k, m, t);
    } else {
      OneQueue(k, m, n, t);
      StripLoose(k, n);
      StripCodes(k, n);
      WakeLoose(Strip(k, n), n, {});
      assert Detach(k, n).err == ForceRelease(Strip(k, n), n).err;
    }
  }

  lemma StripCodes(k: Kernel, n: Mid)
    ensures Strip(k, n).err == k.err
  {
  }

  // ----- a task dies and its mutexes are released by force -----

  /** One mutex of the dead task x, seen by t. */
  lemma ForcedOne(k: Kernel, n: Mid, x: Tid, t: Tid)
    requires InvBut(k, {x}) && x in k.held && k.held[x] != [] && n == k.held[x][0]
    ensures var r := ForceRelease(DropHeld(k, n, x), n);
            && (S.IsReady(r.s, t) <==> S.IsReady(k.s, t) || t in List(k.waiters, n))
            && (if t in List(k.waiters, n) then t in r.err && r.err[t] == EDELETED else SameCode(k, r, t))
            && List(r.waiters, n) == [] && Owner(r, n) == None
            && r.s.cur == k.s.cur && r.s.prio == k.s.prio
            && (r.s.asked <==> k.s.asked || exists w :: w in List(k.waiters, n) && S.Outranks(k.s, w, k.s.cur))
  {
    assert HolderOk(k, x) && n in k.held[x];
    DropLoose(k, n, x, {x});
    assert {x} + {x} == {x};
    WakeLoose(DropHeld(k, n, x), n, {x});
  }

  /** What the forced releases leave of a task blocked on m, or on nothing. */
  ghost predicate Forced(k: Kernel, ms: seq<Mid>, m: Mid, t: Tid, d: Kernel) {
    if t in List(k.waiters, m) && m in ms then
      t !in List(d.waiters, m) && S.IsReady(d.s, t) && t in d.err && d.err[t] == EDELETED && Owner(d, m) == None
    else
      && (t in List(d.waiters, m) <==> t in List(k.waiters, m))
      && SameCode(k, d, t) && (S.IsReady(d.s, t) <==> S.IsReady(k.s, t))
      && (m !in ms || Owner(k, m) == None ==> Owner(d, m) == Owner(k, m))
  }

  lemma {:induction false} ForcedAll(k: Kernel, ms: seq<Mid>, x: Tid, m: Mid, t: Tid)
    requires InvBut(k, {x}) && x in k.held && k.held[x] == ms
    requires forall n :: n != m ==> t !in List(k.waiters, n)
    ensures Forced(k, ms, m, t, ReleaseAll(k, ms, x))
    decreases |ms|
  {
    if ms != [] {
      var r := ForceRelease(DropHeld(k, ms[0], x), ms[0]);
      ReleaseOne(k, ms[0], x);
      ForcedOne(k, ms[0], x, t);
      assert HolderOk(k, x);
      ForcedAll(r, ms[1..], x, m, t);
      ForcedMore(k, ms, x, m, t, r, ReleaseAll(r, ms[1..], x));
    }
  }

  lemma ForcedMore(k: Kernel, ms: seq<Mid>, x: Tid, m: Mid, t: Tid, r: Kernel, d: Kernel)
    requires ms != [] && NoDup(ms) && FreedOne(k, ms[0], x, r) && Forced(r, ms[1..], m, t, d)
    requires forall n :: n != m ==> t !in List(k.waiters, n)
    requires S.IsReady(r.s, t) <==> S.IsReady(k.s, t) || t in List(k.waiters, ms[0])
    requires if t in List(k.waiters, ms[0]) then t in r.err && r.err[t] == EDELETED else SameCode(k, r, t)
    requires List(r.waiters, ms[0]) == [] && Owner(r, ms[0]) == None
    ensures Forced(k, ms, m, t, d)
  {
    assert ms == [ms[0]] + ms[1..];
    assert m in ms[1..] ==> m != ms[0];
  }

  lemma CleanUpOutcome(k: Kernel, x: Tid, m: Mid, t: Tid)
    requires Inv(k) && Enabled(k, CleanUp(x)) && t in List(k.waiters, m)
    ensures Outcome(k, Step(k, CleanUp(x)), m, t)
  {
    var d, r := ReleaseAll(k, k.held[x], x), Step(k, CleanUp(x));
    if t != x {
      Weaken(k, x);
      forall n | n != m ensures t !in List(k.waiters, n) {
        OneQueue(k, m, n, t);
      }
      ForcedAll(k, k.held[x], x, m, t);
      ReleaseAllInv(k, k.held[x], x);
      CleanUpInv(k, x);
      BuryLeaves(d, x, m, t);
      if t in List(r.waiters, m) {
        StillWaits(k, r, m, t);
      }
    }
  }

  /** The rest of a cleanup, seen by another task. */
  lemma BuryLeaves(d: Kernel, x: Tid, m: Mid, t: Tid)
    requires t != x && InvBut(d, {x})
    ensures var r := Bury(d, x);
            && (t in List(r.waiters, m) <==> t in List(d.waiters, m)) && r.err == d.err && Owner(r, m) == Owner(d, m)
            && (S.IsReady(r.s, t) <==> S.IsReady(d.s, t))
  {
    if m in d.waiters {
      assert MutexOk(d, m);
    }
    UnlinkMembers(d, x, m);
  }

  /** One step of the kernel, whatever it is, leaves a blocked task blocked, makes it the owner with EOK, sends it away
      with EDELETED, or is its death. */
  lemma WaitEnds(k: Kernel, op: Op, m: Mid, t: Tid)
    requires Inv(k) && Enabled(k, op) && t in List(k.waiters, m)
    ensures Inv(Step(k, op)) && Outcome(k, Step(k, op), m, t)
  {
    var r := Step(k, op);
    StepInv(k, op);
    WaiterFacts(k, m, t);
    match op {
      case CleanUp(x) => CleanUpOutcome(k, x, m, t);
      case TakeMutex(n, wait, inIsr) => TakeOutcome(k, n, wait, inIsr, m, t);
      case ReleaseMutex(n, inIsr) => ReleaseOutcome(k, n, inIsr, m, t);
      case DetachMutex(n) => DetachOutcome(k, n, m, t);
      case _ => OtherOutcome(k, op, m, t);
    }
    if t in List(r.waiters, m) && SameCode(k, r, t) {
      StillWaits(k, r, m, t);
    }
  }

  lemma OtherOutcome(k: Kernel, op: Op, m: Mid, t: Tid)
    requires op.NewTask? || op.Wake? || op.Sleep? || op.Dispatch? || op.NewMutex?
    requires Inv(k) && Enabled(k, op) && t in List(k.waiters, m)
    ensures t in List(Step(k, op).waiters, m) && SameCode(k, Step(k, op), t)
  {
    WaiterFacts(k, m, t);
  }

  /** The take has returned: with EOK as the owner, or with EDELETED; or its task is dead. */
  ghost predicate Returned(r: Kernel, m: Mid, t: Tid) {
    Owns(r, m, t) || SentAway(r, m, t) || t !in r.held
  }

  /** Along every run a task blocked in a take is still blocked, or there was a first state in which the take returned:
      with EOK to the owner and to nobody else. */
  lemma {:induction false} TakeReturns(k: Kernel, ops: seq<Op>, m: Mid, t: Tid)
    requires Inv(k) && AllEnabled(k, ops) && t in List(k.waiters, m)
    ensures t in List(Exec(k, ops).waiters, m) || exists n: nat :: n <= |ops| && Returned(Exec(k, ops[..n]), m, t)
    decreases |ops|
  {
    if ops != [] {
      var r := Step(k, ops[0]);
      WaitEnds(k, ops[0], m, t);
      if t in List(r.waiters, m) {
        TakeReturns(r, ops[1..], m, t);
        if t !in List(Exec(k, ops).waiters, m) {
          var n: nat :| n <= |ops| - 1 && Returned(Exec(r, ops[1..][..n]), m, t);
          FirstStep(k, ops, n);
        }
      } else {
        FirstStep(k, ops, 0);
      }
    }
  }

  lemma FirstStep(k: Kernel, ops: seq<Op>, n: nat)
    requires n < |ops|
    ensures Exec(k, ops[..n + 1]) == Exec(Step(k, ops[0]), ops[1..][..n])
  {
    assert ops[..n + 1][1..] == ops[1..][..n];
  }

  // ----- preemption over runs -----

  /** A schedule has been asked for, or the running task is the most urgent, or nothing runs and nothing can. */
  ghost predicate Alert(k: Kernel) {
    k.s.asked || CurrentIsBest(k) || (k.s.cur.None? && forall t :: !S.IsReady(k.s, t))
  }

  lemma {:induction false} WakeQueueAsks(s: S.Sched, err: map<Tid, Code>, q: seq<Tid>)
    ensures s.asked ==> WakeQueue(s, err, q).0.asked
    decreases |q|
  {
    if q != [] {
      WakeQueueAsks(S.AskFor(S.MakeReady(s, q[0]), q[0]), err[q[0] := EDELETED], q[1..]);
    }
  }

  lemma {:induction false} ReleaseAllAsks(k: Kernel, ms: seq<Mid>, x: Tid)
    ensures k.s.asked ==> ReleaseAll(k, ms, x).s.asked
    decreases |ms|
  {
    if ms != [] {
      var d := DropHeld(k, ms[0], x);
      WakeQueueAsks(d.s, d.err, List(d.waiters, ms[0]));
      ReleaseAllAsks(ForceRelease(d, ms[0]), ms[1..], x);
    }
  }

  /** Only a dispatch takes a request back. */
  lemma AskedStays(k: Kernel, op: Op)
    requires k.s.asked && !op.Dispatch?
    ensures Step(k, op).s.asked
  {
    match op
    case CleanUp(t) =>
      ReleaseAllAsks(k, List(k.held, t), t);
      BurySched(ReleaseAll(k, List(k.held, t), t), t);
    case DetachMutex(m) => DetachAsks(k, m);
    case TakeMutex(m, wait, inIsr) =>
      if k.s.cur.Some? {
        TakeAsks(k, m, k.s.cur.value, wait, inIsr);
      }
    case ReleaseMutex(m, inIsr) =>
      if k.s.cur.Some? {
        ReleaseAsks(k, m, k.s.cur.value, inIsr);
      }
    case _ =>
  }

  lemma DetachAsks(k: Kernel, m: Mid)
    requires k.s.asked
    ensures Detach(k, m).s.asked
  {
    var s := Strip(k, m);
    WakeQueueAsks(s.s, s.err, List(s.waiters, m));
  }

  lemma TakeAsks(k: Kernel, m: Mid, t: Tid, wait: bool, inIsr: bool)
    requires k.s.asked
    ensures Take(k, m, t, wait, inIsr).0.s.asked
  {
  }

  lemma ReleaseAsks(k: Kernel, m: Mid, t: Tid, inIsr: bool)
    requires k.s.asked
    ensures Release(k, m, t, inIsr).0.s.asked
  {
    if List(k.waiters, m) == [] {
      assert Unlock(k, m, t).s.asked;
    } else {
      assert HandOff(k, m, t).s.asked;
    }
  }

  /** A dispatch takes it back, and the most urgent task runs. */
  lemma DispatchAlert(k: Kernel)
    requires Inv(k) && Enabled(k, Dispatch)
    ensures var r := Step(k, Dispatch); !r.s.asked && CurrentIsBest(r)
  {
    DispatchInv(k);
    var r := Step(k, Dispatch);
    var any :| any in k.held && S.IsReady(k.s, any);
    S.SelectIsMostUrgent(k.s, any);
    forall t | t in r.s.prio && S.IsReady(r.s, t) ensures Num(r.s.prio, r.s.cur.value) <= Num(r.s.prio, t) {
      S.SelectIsMostUrgent(k.s, t);
    }
  }

  /** Who becomes READY by the forced releases does not outrank the current task, or a schedule is asked for. */
  ghost predicate Calm(k: Kernel, d: Kernel) {
    && d.s.prio == k.s.prio && d.s.cur == k.s.cur
    && (!d.s.asked ==> forall t :: S.IsReady(d.s, t) ==> S.IsReady(k.s, t) || !S.Outranks(k.s, t, k.s.cur))
    && (forall t :: S.IsReady(k.s, t) ==> S.IsReady(d.s, t))
  }

  lemma {:induction false} ReleaseAllCalm(k: Kernel, ms: seq<Mid>, x: Tid)
    requires InvBut(k, {x}) && x in k.held && k.held[x] == ms
    ensures Calm(k, ReleaseAll(k, ms, x))
    decreases |ms|
  {
    if ms != [] {
      var r := ForceRelease(DropHeld(k, ms[0], x), ms[0]);
      ReleaseOne(k, ms[0], x);
      ReleaseAllCalm(r, ms[1..], x);
      ReleaseAllAsks(r, ms[1..], x);
      forall t ensures S.IsReady(r.s, t) <==> S.IsReady(k.s, t) || t in List(k.waiters, ms[0]) {
        ForcedOne(k, ms[0], x, t);
      }
      ForcedOne(k, ms[0], x, x);
    }
  }

  lemma CleanUpAlert(k: Kernel, x: Tid)
    requires Inv(k) && x in k.held && CurrentIsBest(k) && k.s.cur != Some(x)
    ensures Alert(Step(k, CleanUp(x)))
  {
    Weaken(k, x);
    ReleaseAllCalm(k, k.held[x], x);
    ReleaseAllInv(k, k.held[x], x);
    CalmCleanUp(k, x, ReleaseAll(k, k.held[x], x));
  }

  lemma CalmCleanUp(k: Kernel, x: Tid, d: Kernel)
    requires Inv(k) && x in k.held && CurrentIsBest(k) && k.s.cur != Some(x)
    requires d.held == k.held[x := []] && Calm(k, d)
    ensures Alert(Bury(d, x))
  {
    var r, c := Bury(d, x), k.s.cur.value;
    BurySched(d, x);
    if !r.s.asked {
      forall t | t in r.s.prio && S.IsReady(r.s, t) ensures Num(r.s.prio, c) <= Num(r.s.prio, t) {
      }
    }
  }

  lemma BurySched(d: Kernel, x: Tid)
    ensures var r := Bury(d, x);
            && r.s.prio == d.s.prio - {x} && r.held == d.held - {x}
            && r.s.cur == (if d.s.cur == Some(x) then None else d.s.cur)
            && (r.s.asked <==> d.s.asked || r.s.cur.None?)
            && (forall t :: S.IsReady(r.s, t) <==> S.IsReady(d.s, t) && t != x)
  {
    ForgetSched(d.s, x);
  }

  lemma ForgetSched(s: S.Sched, x: Tid)
    ensures var r := S.Forget(s, x);
            && r.prio == s.prio - {x} && r.cur == s.cur && r.asked == s.asked
            && (forall t :: S.IsReady(r, t) <==> S.IsReady(s, t) && t != x)
  {
  }

  lemma BestAlert(k: Kernel, op: Op)
    requires Inv(k) && Enabled(k, op) && CurrentIsBest(k)
    ensures Alert(Step(k, op))
  {
    match op
    case CleanUp(t) =>
      if k.s.cur != Some(t) {
        CleanUpAlert(k, t);
      } else {
        CurrentDies(k, t);
      }
    case Dispatch => DispatchAlert(k);
    case TakeMutex(m, wait, inIsr) => TakeKeepsPreemption(k, m, wait, inIsr);
    case ReleaseMutex(m, inIsr) => ReleaseKeepsPreemption(k, m, inIsr);
    case DetachMutex(m) => DetachKeepsPreemption(k, m);
    case _ => OtherAlert(k, op, Step(k, op));
  }

  lemma OtherAlert(k: Kernel, op: Op, r: Kernel)
    requires op.NewTask? || op.Wake? || op.Sleep? || op.NewMutex?
    requires Inv(k) && Enabled(k, op) && CurrentIsBest(k) && r == Step(k, op)
    ensures Alert(r)
  {
    match op
    case NewTask(t, p) => NewTaskSched(k, t, p);
    case Wake(t) => WakeSched(k.s, t);
    case Sleep(t) => SleepSched(k.s, t);
    case NewMutex(m) =>
  }

  lemma NewTaskSched(k: Kernel, t: Tid, p: nat)
    requires Inv(k) && t !in k.orig
    ensures var r := Step(k, NewTask(t, p));
            && r.s.cur == k.s.cur && k.s.cur != Some(t) && r.held == k.held[t := []] && r.s.prio == k.s.prio[t := p]
            && (forall x :: S.IsReady(r.s, x) <==> S.IsReady(k.s, x))
  {
  }

  lemma SleepSched(s: S.Sched, t: Tid)
    ensures var r := S.Suspend(s, t);
            && r.prio == s.prio && r.cur == s.cur && (forall x :: S.IsReady(r, x) <==> S.IsReady(s, x) && x != t)
  {
  }

  lemma CurrentDies(k: Kernel, t: Tid)
    requires Inv(k) && t in k.held && (k.s.cur == Some(t) || k.s.cur == None)
    ensures Step(k, CleanUp(t)).s.asked
  {
    Weaken(k, t);
    ReleaseAllInv(k, k.held[t], t);
    BurySched(ReleaseAll(k, k.held[t], t), t);
  }

  lemma IdleAlert(k: Kernel, op: Op)
    requires Inv(k) && Enabled(k, op) && k.s.cur.None? && forall t :: !S.IsReady(k.s, t)
    ensures Alert(Step(k, op))
  {
    match op
    case Wake(t) => WakeSched(k.s, t);
    case CleanUp(t) => CurrentDies(k, t);
    case DetachMutex(m) => IdleDetach(k, m);
    case NewTask(t, p) => NewTaskSched(k, t, p);
    case _ =>
  }

  lemma IdleDetach(k: Kernel, m: Mid)
    requires Inv(k) && m in k.owner && Strippable(k, m) && k.s.cur.None? && forall t :: !S.IsReady(k.s, t)
    ensures Alert(Detach(k, m))
  {
    StripSched(k, m);
    DetachSched(k, m);
    var r := Detach(k, m);
    if !r.s.asked {
      forall t ensures !S.IsReady(r.s, t) {
        assert t in k.waiters[m] ==> S.Outranks(Strip(k, m).s, t, None);
      }
    }
  }

  lemma StepAlert(k: Kernel, op: Op)
    requires Inv(k) && Enabled(k, op) && Alert(k)
    ensures Alert(Step(k, op))
  {
    if op.Dispatch? {
      DispatchAlert(k);
    } else if k.s.asked {
      AskedStays(k, op);
    } else if CurrentIsBest(k) {
      BestAlert(k, op);
    } else {
      IdleAlert(k, op);
    }
  }

  lemma {:induction false} RunAlert(k: Kernel, ops: seq<Op>)
    requires Inv(k) && AllEnabled(k, ops) && Alert(k)
    ensures Alert(Exec(k, ops))
    decreases |ops|
  {
    if ops != [] {
      StepInv(k, ops[0]);
      StepAlert(k, ops[0]);
      RunAlert(Step(k, ops[0]), ops[1..]);
    }
  }

  /** No run misses a preemption: in every reachable state in which a READY task is more urgent than the running one, or
      the running one is not READY or gone, a schedule has been asked for. */
  lemma NoMissedPreemption(ops: seq<Op>, t: Tid)
    requires AllEnabled(Boot(), ops)
    ensures var k := Exec(Boot(), ops);
            t in k.s.prio && S.IsReady(k.s, t) && !k.s.asked ==>
              Running(k) && Num(k.s.prio, k.s.cur.value) <= Num(k.s.prio, t)
  {
    BootInv();
    RunAlert(Boot(), ops);
  }
}
