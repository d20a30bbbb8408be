/** Runs of the kernel: the invariant in every reachable state, and what follows from it. */
module MutexRuns {
  import opened Base
  import opened PrioBitmap
  import opened TaskQueue
  import opened Mutex
  import opened MutexInv
  import S = Schedule

  /** NewTask and Wake cover mrtk_task_init, start and resume; Sleep covers mrtk_task_suspend and delay. */
  datatype Op =
    | NewTask(t: Tid, p: nat)
    | Wake(t: Tid)
    | Sleep(t: Tid)
    | CleanUp(t: Tid)
    | Dispatch
    | NewMutex(m: Mid)
    | TakeMutex(m: Mid, wait: bool, inIsr: bool)
    | ReleaseMutex(m: Mid, inIsr: bool)
    | DetachMutex(m: Mid)

  /** Task context: the current task exists and is READY. */
  predicate Running(k: Kernel) {
    k.s.cur.Some? && k.s.cur.value in k.held && S.IsReady(k.s, k.s.cur.value)
  }

  /** Callers' duties. A step that changes the priority of a mutex's owner finds that owner READY. */
  ghost predicate Enabled(k: Kernel, op: Op) {
    match op
    case NewTask(t, p) => t !in k.orig && p < LEVELS
    case Wake(t) => t in k.held && !S.IsReady(k.s, t) && forall m :: t !in List(k.waiters, m)
    case Sleep(t) => t in k.held && S.IsReady(k.s, t)
    case CleanUp(t) => t in k.held && Mourned(k, t)
    case Dispatch => exists t :: t in k.held && S.IsReady(k.s, t)
    case NewMutex(m) => m !in k.owner
    case TakeMutex(m, wait, inIsr) =>
      Running(k) && m in k.owner &&
      (wait && !inIsr && Contended(k, m) ==> Boostable(k, k.s.cur.value, Owner(k, m).value))
    case ReleaseMutex(m, inIsr) => Running(k) && m in k.owner
    case DetachMutex(m) => m in k.owner && Strippable(k, m)
  }

  /** o does not owe its priority to the waiter t alone. */
  ghost predicate Replaced(k: Kernel, o: Tid, t: Tid) {
    || Num(k.s.prio, o) == Num(k.orig, o) || Num(k.s.prio, o) < Num(k.s.prio, t)
    || exists w :: w != t && Waits(k, o, w) && Num(k.s.prio, w) == Num(k.s.prio, o)
  }

  /** The owner of the mutex t is blocked on, if any, keeps its priority without t. */
  ghost predicate Mourned(k: Kernel, t: Tid) {
    forall m {:trigger List(k.waiters, m)} :: t in List(k.waiters, m) && Owner(k, m).Some? ==>
        Replaced(k, Owner(k, m).value, t)
  }

  predicate Contended(k: Kernel, m: Mid) {
    Owner(k, m).Some? && Owner(k, m) != k.s.cur
  }

  function Step(k: Kernel, op: Op): Kernel {
    match op
    case NewTask(t, p) =>
      k.(s := k.s.(prio := k.s.prio[t := p], state := k.s.state[t := S.INIT]), orig := k.orig[t := p],
          held := k.held[t := []])
    case Wake(t) => k.(s := S.AskFor(S.MakeReady(k.s, t), t))
    case Sleep(t) => k.(s := S.Suspend(k.s, t).(asked := k.s.asked || k.s.cur == Some(t)))
    case CleanUp(t) => Cleanup(k, t)
    case Dispatch => if k.s.bitmap < 0x1_0000_0000 then k.(s := S.Dispatched(k.s)) else k
    case NewMutex(m) =>
      k.(owner := k.owner[m := None], locked := k.locked[m := false], nest := k.nest[m := 0],
          waiters := k.waiters[m := []])
    case TakeMutex(m, wait, inIsr) =>
      if k.s.cur.Some? then Take(k, m, k.s.cur.value, wait, inIsr).0 else k
    case ReleaseMutex(m, inIsr) =>
      if k.s.cur.Some? then Release(k, m, k.s.cur.value, inIsr).0 else k
    case DetachMutex(m) => Detach(k, m)
  }

  /** What mrtk_schedule_init leaves: no task, no mutex. */
  function Boot(): Kernel {
    Kernel(S.Sched(map[], map[], seq(LEVELS, i => []), 0, None, false), map[], map[], map[], map[], map[], map[],
        map[], map[], 0)
  }

  lemma BootInv()
    ensures Inv(Boot())
  {
    forall p | 0 <= p < LEVELS ensures S.LevelOk(Boot().s, p) {
      if Bit(0, p) {
        BitMeansPositive(0, p);
      }
    }
  }

  // ----- each step -----

  ghost predicate SameRecord(k: Kernel, r: Kernel, x: Tid) {
    SameTask(k, r, x) && List(r.held, x) == List(k.held, x) && Num(r.orig, x) == Num(k.orig, x)
  }

  /** A step that changes nothing but one task, which neither waits nor holds. */
  lemma OneTaskInv(k: Kernel, r: Kernel, t: Tid)
    requires InvBut(k, {t}) && S.Inv(r.s) && Known(r)
    requires r.owner == k.owner && r.locked == k.locked && r.nest == k.nest && r.waiters == k.waiters
    requires r.clock == k.clock
    requires List(k.held, t) == [] && List(r.held, t) == []
    requires forall x :: x != t ==> (x in r.held <==> x in k.held)
    requires forall x :: x in k.held && x != t ==> SameRecord(k, r, x)
    requires forall m :: t !in List(k.waiters, m)
    requires t in r.orig ==> Num(r.s.prio, t) == Num(r.orig, t)
    ensures Inv(r)
  {
    forall m | m in r.owner ensures MutexOk(r, m) {
      OneTaskMutex(k, r, t, m);
    }
    forall x | x in r.held ensures HolderOk(r, x) {
      if x != t {
        assert HolderOk(k, x) && SameRecord(k, r, x);
      }
    }
    forall a, b | a in r.owner && b in r.owner && a != b ensures WaitsOnce(r, a, b) {
      assert WaitsOnce(k, a, b);
    }
    forall x | x in r.orig ensures Exact(r, x) {
      if x != t {
        assert x in k.held;
        OneTaskExact(k, r, t, x);
      }
    }
  }

  lemma OneTaskMutex(k: Kernel, r: Kernel, t: Tid, m: Mid)
    requires InvBut(k, {t}) && Known(r) && m in r.owner
    requires r.owner == k.owner && r.locked == k.locked && r.nest == k.nest && r.waiters == k.waiters
    requires r.clock == k.clock
    requires List(k.held, t) == []
    requires forall x :: x in k.held && x != t ==> SameRecord(k, r, x)
    requires forall m :: t !in List(k.waiters, m)
    ensures MutexOk(r, m)
  {
    assert MutexOk(k, m);
    assert t !in List(k.waiters, m);
    assert forall w :: w in k.waiters[m] && WaiterOk(k, w) ==> SameRecord(k, r, w);
    QueueFrame(k, r, k.waiters[m]);
    if k.owner[m].Some? {
      assert SameRecord(k, r, k.owner[m].value);
    }
  }

  lemma OneTaskExact(k: Kernel, r: Kernel, t: Tid, x: Tid)
    requires InvBut(k, {t}) && x in k.held && x != t && r.waiters == k.waiters
    requires forall y :: y in k.held && y != t ==> SameRecord(k, r, y)
    requires forall m :: t !in List(k.waiters, m)
    ensures Exact(r, x)
  {
    assert Exact(k, x) && SameRecord(k, r, x);
    WaitsFrame(k, r, x);
    forall w | Waits(k, x, w) ensures Num(r.s.prio, w) == Num(k.s.prio, w) {
      var m :| m in List(k.held, x) && w in List(k.waiters, m);
      assert HolderOk(k, x) && MutexOk(k, m);
      assert WaiterOk(k, w);
      assert t !in List(k.waiters, m);
    }
    SameBest(k, r, x, Num(k.s.prio, x));
  }

  lemma Weaken(k: Kernel, t: Tid)
    requires Inv(k)
    ensures InvBut(k, {t})
  {
  }

  /** A task that is not READY joins. */
  lemma UnreadySched(s: S.Sched, t: Tid, p: nat, r: S.Sched)
    requires S.Inv(s) && t !in s.prio && p < LEVELS && r == s.(prio := s.prio[t := p], state := s.state[t := S.INIT])
    ensures S.Inv(r)
  {
    forall x | x in r.prio ensures S.TaskOk(r, x) {
      if x != t {
        assert S.TaskOk(s, x);
      }
    }
    forall q | 0 <= q < LEVELS ensures S.LevelOk(r, q) {
      assert S.LevelOk(s, q);
      assert forall x :: x in r.queue[q] ==> S.Listed(s, x, q) && S.Listed(r, x, q);
    }
  }

  lemma NewTaskInv(k: Kernel, t: Tid, p: nat)
    requires Inv(k) && Enabled(k, NewTask(t, p))
    ensures Inv(Step(k, NewTask(t, p)))
  {
    var r := Step(k, NewTask(t, p));
    Weaken(k, t);
    UnreadySched(k.s, t, p, r.s);
    forall m ensures t !in List(k.waiters, m) {
      if t in List(k.waiters, m) {
        WaiterFacts(k, m, t);
      }
    }
    OneTaskInv(k, r, t);
  }

  lemma QueuedIsBlocked(k: Kernel, ex: set<Tid>, m: Mid, t: Tid)
    requires InvBut(k, ex) && t in List(k.waiters, m)
    ensures !S.IsReady(k.s, t)
  {
    assert MutexOk(k, m);
    assert WaiterOk(k, t);
  }

  /** A step that changes states, ready lists and flags only, and wakes nobody who is queued. */
  lemma SchedFrameInv(k: Kernel, r: Kernel)
    requires Inv(k) && r == k.(s := r.s) && S.Inv(r.s) && Known(r) && r.s.prio == k.s.prio
    requires forall w :: WaiterOk(k, w) && Queued(k, w) ==> !S.IsReady(r.s, w)
    ensures Inv(r)
  {
    forall m | m in r.owner ensures MutexOk(r, m) {
      assert MutexOk(k, m);
      forall w | w in k.waiters[m] && WaiterOk(k, w) ensures SameTask(k, r, w) {
        assert w in List(k.waiters, m);
        assert Queued(k, w);
      }
      QueueFrame(k, r, k.waiters[m]);
    }
    forall x | x in r.held ensures HolderOk(r, x) {
      assert HolderOk(k, x);
    }
    OnceFrame(k, r);
    forall x | x in r.orig ensures Exact(r, x) {
      assert Exact(k, x);
      WaitsFrame(k, r, x);
    }
  }

  ghost predicate Queued(k: Kernel, t: Tid) {
    exists m :: t in List(k.waiters, m)
  }

  lemma WakeInv(k: Kernel, t: Tid)
    requires Inv(k) && Enabled(k, Wake(t))
    ensures Inv(Step(k, Wake(t)))
  {
    WakeSched(k.s, t);
    SchedFrameInv(k, Step(k, Wake(t)));
  }

  lemma SleepInv(k: Kernel, t: Tid)
    requires Inv(k) && Enabled(k, Sleep(t))
    ensures Inv(Step(k, Sleep(t)))
  {
    var r := Step(k, Sleep(t));
    S.SuspendInv(k.s, t);
    S.FlagsInv(S.Suspend(k.s, t), r.s);
    SchedFrameInv(k, r);
  }

  /** r is k after the mutexes ms of t have been released by force. */
  ghost predicate Freed(k: Kernel, ms: seq<Mid>, t: Tid, r: Kernel) {
    && r.s.cur == k.s.cur && r.s.prio == k.s.prio && r.orig == k.orig && r.held == k.held[t := []]
    && (forall n, x :: x in List(r.waiters, n) ==> x in List(k.waiters, n))
    && (forall n :: n !in ms ==> List(r.waiters, n) == List(k.waiters, n) && Owner(r, n) == Owner(k, n))
  }

  lemma {:induction false} ReleaseAllInv(k: Kernel, ms: seq<Mid>, t: Tid)
    requires InvBut(k, {t}) && t in k.held && k.held[t] == ms
    ensures InvBut(ReleaseAll(k, ms, t), {t}) && Freed(k, ms, t, ReleaseAll(k, ms, t))
    decreases |ms|
  {
    if ms != [] {
      var m := ForceRelease(DropHeld(k, ms[0], t), ms[0]);
      ReleaseOne(k, ms[0], t);
      ReleaseAllInv(m, ms[1..], t);
      FreedMore(k, ms, t, m, ReleaseAll(m, ms[1..], t));
    } else {
      assert k.held[t := []] == k.held;
    }
  }

  /** The first of t's mutexes released by force. */
  ghost predicate FreedOne(k: Kernel, m: Mid, t: Tid, r: Kernel) {
    && List(k.held, t) != [] && r.held == k.held[t := List(k.held, t)[1..]]
    && r.s.cur == k.s.cur && r.s.prio == k.s.prio && r.orig == k.orig
    && (forall n, x :: x in List(r.waiters, n) ==> x in List(k.waiters, n))
    && (forall n :: n != m ==> List(r.waiters, n) == List(k.waiters, n) && Owner(r, n) == Owner(k, n))
  }

  lemma FreedMore(k: Kernel, ms: seq<Mid>, t: Tid, m: Kernel, r: Kernel)
    requires ms != [] && List(k.held, t) == ms && FreedOne(k, ms[0], t, m) && Freed(m, ms[1..], t, r)
    ensures Freed(k, ms, t, r)
  {
    assert ms == [ms[0]] + ms[1..];
  }

  lemma ReleaseOne(k: Kernel, m: Mid, t: Tid)
    requires InvBut(k, {t}) && t in k.held && k.held[t] != [] && m == k.held[t][0]
    ensures var r := ForceRelease(DropHeld(k, m, t), m);
            InvBut(r, {t}) && t in r.held && r.held[t] == k.held[t][1..] && FreedOne(k, m, t, r)
  {
    assert HolderOk(k, t) && m in k.held[t];
    DropLoose(k, m, t, {t});
    assert {t} + {t} == {t};
    var d := DropHeld(k, m, t);
    WakeLoose(d, m, {t});
    ReleasedIsFreed(k, m, t, d, ForceRelease(d, m));
  }

  lemma ReleasedIsFreed(k: Kernel, m: Mid, t: Tid, d: Kernel, r: Kernel)
    requires Known(k) && t in k.held && k.held[t] != [] && m == k.held[t][0] && d == DropHeld(k, m, t)
    requires m in d.waiters && ForceReleased(d, m, r)
    ensures t in r.held && r.held[t] == k.held[t][1..] && FreedOne(k, m, t, r)
  {
  }

  // ----- a task dies while it is blocked -----

  lemma {:induction false} WithoutSorted(q: seq<Tid>, prio: map<Tid, nat>, stamp: map<Tid, nat>, t: Tid)
    requires Sorted(q, prio, stamp) && NoDup(q)
    ensures Sorted(Without(q, t), prio, stamp)
  {
    if q != [] && q[0] != t {
      SortedTail(q, prio, stamp);
      WithoutSorted(q[1..], prio, stamp, t);
      WithoutMembers(q[1..], t);
      var r, w := Without(q, t), Without(q[1..], t);
      forall i, j | 0 <= i < j < |r| ensures Ahead(prio, stamp, r[i], r[j]) {
        if i == 0 {
          HeadAhead(q, prio, stamp, r[j]);
        } else {
          assert Ahead(prio, stamp, w[i - 1], w[j - 1]);
        }
      }
    } else if q != [] {
      SortedTail(q, prio, stamp);
    }
  }

  lemma HeadAhead(q: seq<Tid>, prio: map<Tid, nat>, stamp: map<Tid, nat>, x: Tid)
    requires q != [] && Sorted(q, prio, stamp) && x in q[1..]
    ensures Ahead(prio, stamp, q[0], x)
  {
    var j :| 0 <= j < |q| - 1 && q[1..][j] == x;
    assert Ahead(prio, stamp, q[0], q[j + 1]);
  }

  lemma UnlinkMembers(d: Kernel, t: Tid, m: Mid)
    requires m in d.waiters ==> NoDup(d.waiters[m])
    ensures forall x :: x in List(Unlink(d.waiters, t), m) <==> x in List(d.waiters, m) && x != t
  {
    if m in d.waiters {
      WithoutMembers(d.waiters[m], t);
    }
  }

  lemma UnlinkMutex(d: Kernel, t: Tid, m: Mid)
    requires InvBut(d, {t}) && m in d.owner
    requires Known(d.(waiters := Unlink(d.waiters, t)))
    ensures MutexOk(d.(waiters := Unlink(d.waiters, t)), m)
  {
    var e := d.(waiters := Unlink(d.waiters, t));
    assert MutexOk(d, m);
    WithoutSorted(d.waiters[m], d.s.prio, d.stamp, t);
    WithoutMembers(d.waiters[m], t);
    forall w | w in e.waiters[m] ensures WaiterOk(e, w) {
      assert WaiterOk(d, w);
    }
  }

  lemma UnlinkWaits(d: Kernel, t: Tid, x: Tid)
    requires InvBut(d, {t}) && x in d.held
    ensures forall w :: Waits(d.(waiters := Unlink(d.waiters, t)), x, w) <==> Waits(d, x, w) && w != t
  {
    var e := d.(waiters := Unlink(d.waiters, t));
    assert HolderOk(d, x);
    forall m | m in d.held[x] ensures forall w :: w in List(e.waiters, m) <==> w in List(d.waiters, m) && w != t {
      assert MutexOk(d, m);
      UnlinkMembers(d, t, m);
    }
    forall w | Waits(d, x, w) && w != t ensures Waits(e, x, w) {
      var m :| m in List(d.held, x) && w in List(d.waiters, m);
      assert w in List(e.waiters, m);
    }
    forall w | Waits(e, x, w) ensures Waits(d, x, w) && w != t {
      var m :| m in List(e.held, x) && w in List(e.waiters, m);
      assert m in d.held[x];
    }
  }

  lemma UnlinkExact(d: Kernel, t: Tid, x: Tid)
    requires InvBut(d, {t}) && x in d.held && x != t && Mourned(d, t)
    ensures Exact(d.(waiters := Unlink(d.waiters, t)), x)
  {
    var e, p := d.(waiters := Unlink(d.waiters, t)), Num(d.s.prio, x);
    UnlinkWaits(d, t, x);
    assert Exact(d, x) && HolderOk(d, x);
    if p != Num(d.orig, x) {
      var w :| Waits(d, x, w) && Num(d.s.prio, w) == p;
      if w == t {
        var m :| m in List(d.held, x) && t in List(d.waiters, m);
        assert Owner(d, m) == Some(x);
        assert Replaced(d, x, t);
        var v :| v != t && Waits(d, x, v) && Num(d.s.prio, v) == p;
        assert Waits(e, x, v);
      } else {
        assert Waits(e, x, w);
      }
    }
  }

  lemma UnlinkInv(d: Kernel, t: Tid)
    requires InvBut(d, {t}) && t in d.held && Mourned(d, t)
    ensures var e := d.(waiters := Unlink(d.waiters, t)); InvBut(e, {t}) && forall m :: t !in List(e.waiters, m)
  {
    var e := d.(waiters := Unlink(d.waiters, t));
    assert Known(e);
    forall m | m in e.owner ensures MutexOk(e, m) {
      UnlinkMutex(d, t, m);
    }
    forall x | x in e.held ensures HolderOk(e, x) {
      assert HolderOk(d, x);
    }
    forall a, b | a in e.owner && b in e.owner && a != b ensures WaitsOnce(e, a, b) {
      UnlinkOnce(d, t, a, b);
    }
    forall x | x in e.orig && x !in {t} ensures Exact(e, x) {
      UnlinkExact(d, t, x);
    }
    forall m ensures t !in List(e.waiters, m) {
      if m in d.owner {
        assert MutexOk(d, m);
        UnlinkMembers(d, t, m);
      }
    }
  }

  lemma UnlinkOnce(d: Kernel, t: Tid, a: Mid, b: Mid)
    requires InvBut(d, {t}) && a in d.owner && b in d.owner && a != b
    ensures WaitsOnce(d.(waiters := Unlink(d.waiters, t)), a, b)
  {
    assert WaitsOnce(d, a, b) && MutexOk(d, a) && MutexOk(d, b);
    UnlinkMembers(d, t, a);
    UnlinkMembers(d, t, b);
  }

  /** Releasing t's mutexes changes nothing around the mutex t is blocked on. */
  lemma StillMourned(k: Kernel, t: Tid, r: Kernel)
    requires Inv(k) && t in k.held && Mourned(k, t) && Freed(k, k.held[t], t, r)
    ensures Mourned(r, t)
  {
    forall m | t in List(r.waiters, m) && Owner(r, m).Some? ensures Replaced(r, Owner(r, m).value, t) {
      QueueApart(k, t, m);
      var o := Owner(k, m).value;
      assert Replaced(k, o, t);
      if w :| w != t && Waits(k, o, w) && Num(k.s.prio, w) == Num(k.s.prio, o) {
        WaitsApart(k, t, r, o, w);
      }
    }
  }

  lemma QueueApart(k: Kernel, t: Tid, m: Mid)
    requires Inv(k) && t in k.held && t in List(k.waiters, m)
    ensures m !in k.held[t] && m in k.owner && k.owner[m].Some? && k.owner[m] != Some(t) && k.owner[m].value in k.held
  {
    WaiterFacts(k, m, t);
    OwnerFacts(k, m);
    assert HolderOk(k, t);
  }

  lemma WaitsApart(k: Kernel, t: Tid, r: Kernel, o: Tid, w: Tid)
    requires Inv(k) && t in k.held && Freed(k, k.held[t], t, r) && o != t && o in k.held
    ensures Waits(r, o, w) <==> Waits(k, o, w)
  {
    assert HolderOk(k, o) && HolderOk(k, t);
    if Waits(k, o, w) {
      var m :| m in List(k.held, o) && w in List(k.waiters, m);
      assert m in List(r.held, o) && w in List(r.waiters, m);
    }
    if Waits(r, o, w) {
      var m :| m in List(r.held, o) && w in List(r.waiters, m);
      assert m in List(k.held, o) && w in List(k.waiters, m);
    }
  }

  lemma CleanUpInv(k: Kernel, t: Tid)
    requires Inv(k) && Enabled(k, CleanUp(t))
    ensures Inv(Step(k, CleanUp(t)))
  {
    var d, r := ReleaseAll(k, k.held[t], t), Step(k, CleanUp(t));
    Weaken(k, t);
    ReleaseAllInv(k, k.held[t], t);
    StillMourned(k, t, d);
    UnlinkInv(d, t);
    var e := d.(waiters := Unlink(d.waiters, t));
    if S.IsReady(d.s, t) {
      NotQueuedBut(d, t);
      UnlinkNothing(d.waiters, t);
    }
    ForgetTaskInv(e, t, r.s);
  }

  lemma NotQueuedBut(k: Kernel, t: Tid)
    requires InvBut(k, {t}) && S.IsReady(k.s, t)
    ensures forall m :: t !in List(k.waiters, m)
  {
    forall m ensures t !in List(k.waiters, m) {
      if t in List(k.waiters, m) {
        QueuedIsBlocked(k, {t}, m, t);
      }
    }
  }

  lemma ForgetTaskInv(d: Kernel, t: Tid, s: S.Sched)
    requires InvBut(d, {t}) && t in d.held && d.held[t] == [] && forall m :: t !in List(d.waiters, m)
    requires s == S.Forget(d.s, t).(cur := s.cur, asked := s.asked) && s.cur != Some(t)
    requires s.cur.Some? ==> s.cur == d.s.cur
    ensures Inv(d.(s := s, orig := d.orig - {t}, held := d.held - {t}))
  {
    var r := d.(s := s, orig := d.orig - {t}, held := d.held - {t});
    ForgottenSched(d.s, t, s);
    assert Known(r);
    OneTaskInv(d, r, t);
  }

  lemma ForgottenSched(s: S.Sched, t: Tid, r: S.Sched)
    requires S.Inv(s) && t in s.prio
    requires r == S.Forget(s, t).(cur := r.cur, asked := r.asked)
    ensures S.Inv(r) && r.prio == s.prio - {t} && r.state == s.state - {t}
  {
    S.ForgetInv(s, t);
    S.FlagsInv(S.Forget(s, t), r);
  }

  lemma DispatchInv(k: Kernel)
    requires Inv(k) && Enabled(k, Dispatch)
    ensures Inv(Step(k, Dispatch)) && Running(Step(k, Dispatch))
  {
    var t :| t in k.held && S.IsReady(k.s, t);
    S.SelectIsMostUrgent(k.s, t);
    S.FlagsInv(k.s, Step(k, Dispatch).s);
    SchedFrameInv(k, Step(k, Dispatch));
  }

  lemma NewMutexInv(k: Kernel, m: Mid)
    requires Inv(k) && m !in k.owner
    ensures Inv(Step(k, NewMutex(m)))
  {
    var r := Step(k, NewMutex(m));
    assert forall n :: List(r.waiters, n) == List(k.waiters, n);
    forall n | n in r.owner ensures MutexOk(r, n) {
      if n != m {
        assert MutexOk(k, n);
        QueueFrame(k, r, k.waiters[n]);
      }
    }
    forall x | x in r.held ensures HolderOk(r, x) {
      assert HolderOk(k, x);
    }
    forall a, b | a in r.owner && b in r.owner && a != b ensures WaitsOnce(r, a, b) {
      assert a != m && b != m ==> WaitsOnce(k, a, b);
    }
    forall x | x in r.orig ensures Exact(r, x) {
      assert Exact(k, x);
      assert forall w :: Waits(r, x, w) <==> Waits(k, x, w);
    }
  }

  lemma TakeInv(k: Kernel, m: Mid, wait: bool, inIsr: bool)
    requires Inv(k) && Enabled(k, TakeMutex(m, wait, inIsr))
    ensures Inv(Step(k, TakeMutex(m, wait, inIsr)))
  {
    var t := k.s.cur.value;
    assert MutexOk(k, m);
    if wait && inIsr {
    } else if Owner(k, m) == Some(t) {
      NestInv(k, m, (Num(k.nest, m) + 1) % 256);
    } else if Owner(k, m).None? {
      GrantInv(k, m, t);
    } else if wait {
      BlockInv(k, m, t, Owner(k, m).value);
    }
  }

  lemma ReleaseStepInv(k: Kernel, m: Mid, inIsr: bool)
    requires Inv(k) && Enabled(k, ReleaseMutex(m, inIsr))
    ensures Inv(Step(k, ReleaseMutex(m, inIsr)))
  {
    var t, n := k.s.cur.value, (Num(k.nest, m) + 255) % 256;
    if !inIsr && Owner(k, m) == Some(t) {
      OwnedReleaseInv(k, m, t, n);
    }
  }

  lemma OwnedReleaseInv(k: Kernel, m: Mid, t: Tid, n: nat)
    requires Inv(k) && m in k.owner && k.owner[m] == Some(t) && S.IsReady(k.s, t) && n == (Num(k.nest, m) + 255) % 256
    ensures Inv(Release(k, m, t, false).0)
  {
    var r := Release(k, m, t, false).0;
    if n > 0 {
      assert r == k.(nest := k.nest[m := n]);
      NestInv(k, m, n);
    } else {
      LastReleaseInv(k, m, t, r);
    }
  }

  lemma LastReleaseInv(k: Kernel, m: Mid, t: Tid, r: Kernel)
    requires Inv(k) && m in k.owner && k.owner[m] == Some(t) && S.IsReady(k.s, t)
    requires r == if List(k.waiters, m) == [] then Unlock(k, m, t) else HandOff(k, m, t)
    ensures Inv(r)
  {
    if List(k.waiters, m) == [] {
      UnlockInv(k, m, t);
    } else {
      HandOffInv(k, m, t);
    }
  }

  lemma StepInv(k: Kernel, op: Op)
    requires Inv(k) && Enabled(k, op)
    ensures Inv(Step(k, op))
  {
    match op
    case NewTask(t, p) => NewTaskInv(k, t, p);
    case Wake(t) => WakeInv(k, t);
    case Sleep(t) => SleepInv(k, t);
    case CleanUp(t) => CleanUpInv(k, t);
    case Dispatch => DispatchInv(k);
    case NewMutex(m) => NewMutexInv(k, m);
    case TakeMutex(m, wait, inIsr) => TakeInv(k, m, wait, inIsr);
    case ReleaseMutex(m, inIsr) => ReleaseStepInv(k, m, inIsr);
    case DetachMutex(m) => DetachInv(k, m);
  }

  // ----- runs -----

  function Exec(k: Kernel, ops: seq<Op>): Kernel
    decreases |ops|
  {
    if ops == [] then k else Exec(Step(k, ops[0]), ops[1..])
  }

  ghost predicate AllEnabled(k: Kernel, ops: seq<Op>)
    decreases |ops|
  {
    ops == [] || (Enabled(k, ops[0]) && AllEnabled(Step(k, ops[0]), ops[1..]))
  }

  /** Exact inheritance, ownership and queue order hold in every reachable state. */
  lemma {:induction false} RunInv(k: Kernel, ops: seq<Op>)
    requires Inv(k) && AllEnabled(k, ops)
    ensures Inv(Exec(k, ops))
    decreases |ops|
  {
    if ops != [] {
      StepInv(k, ops[0]);
      RunInv(Step(k, ops[0]), ops[1..]);
    }
  }
}
