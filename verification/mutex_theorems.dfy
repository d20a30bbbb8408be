/** What the mutex invariant buys: no unbounded inversion, no missed preemption, direct hand-off, balanced nesting. */
module MutexTheorems {
  import opened Base
  import opened PrioBitmap
  import opened TaskQueue
  import opened Mutex
  import opened MutexInv
  import opened MutexRuns
  import S = Schedule

  // ----- no unbounded inversion -----

  /** w is blocked on a mutex that o owns. */
  ghost predicate Follows(k: Kernel, w: Tid, o: Tid) {
    exists m :: w in List(k.waiters, m) && Owner(k, m) == Some(o)
  }

  /** Each task of c is blocked on the next. */
  ghost predicate Blocking(k: Kernel, c: seq<Tid>) {
    c != [] && forall i {:trigger Follows(k, c[i], c[i + 1])} :: 0 <= i < |c| - 1 ==> Follows(k, c[i], c[i + 1])
  }

  /** The owner of a contended mutex is at least as urgent as each waiter, and when it is READY so is whatever
      mrtk_schedule selects. */
  lemma OwnerCoversWaiter(k: Kernel, m: Mid, w: Tid)
    requires Inv(k) && w in List(k.waiters, m)
    ensures Owner(k, m).Some?
    ensures var o := Owner(k, m).value;
            && o in k.s.prio && Num(k.s.prio, o) <= Num(k.s.prio, w)
            && (S.IsReady(k.s, o) ==>
                && o in S.Level(k.s, Num(k.s.prio, o))
                && S.Level(k.s, HighestPrio(k.s.bitmap)) != []
                && Num(k.s.prio, S.Select(k.s)) <= Num(k.s.prio, w))
  {
    WaiterFacts(k, m, w);
    OwnerFacts(k, m);
    var o := k.owner[m].value;
    assert Exact(k, o) && Waits(k, o, w);
    assert S.TaskOk(k.s, o);
    if S.IsReady(k.s, o) {
      S.SelectIsMostUrgent(k.s, o);
    }
  }

  lemma {:induction false} ChainCovers(k: Kernel, c: seq<Tid>)
    requires Inv(k) && Blocking(k, c)
    ensures forall i :: 0 <= i < |c| ==> Num(k.s.prio, c[i]) <= Num(k.s.prio, c[0])
    ensures |c| > 1 ==> c[|c| - 1] in k.s.prio
  {
    if |c| > 1 {
      var d := c[..|c| - 1];
      forall i | 0 <= i < |d| - 1 ensures Follows(k, d[i], d[i + 1]) {
        assert Follows(k, c[i], c[i + 1]);
      }
      ChainCovers(k, d);
      var j := |c| - 2;
      var w := c[j];
      assert Follows(k, c[j], c[j + 1]);
      var m :| w in List(k.waiters, m) && Owner(k, m) == Some(c[|c| - 1]);
      OwnerCoversWaiter(k, m, w);
      assert forall i :: 0 <= i < |d| ==> c[i] == d[i];
    }
  }

  /** In every reachable state, along any chain of tasks blocked on mutexes: nobody in it is less urgent than the first,
      and when it ends in a READY task, that task is on a ready list and what mrtk_schedule selects is never less
      urgent than the first. */
  lemma NoInversion(ops: seq<Op>, c: seq<Tid>)
    requires AllEnabled(Boot(), ops) && Blocking(Exec(Boot(), ops), c) && |c| > 1
    ensures var k, w, o := Exec(Boot(), ops), c[0], c[|c| - 1];
            && (forall i :: 0 <= i < |c| ==> Num(k.s.prio, c[i]) <= Num(k.s.prio, w))
            && k.s.bitmap < 0x1_0000_0000
            && (S.IsReady(k.s, o) ==>
                && o in S.Level(k.s, Num(k.s.prio, o))
                && S.Level(k.s, HighestPrio(k.s.bitmap)) != []
                && Num(k.s.prio, S.Select(k.s)) <= Num(k.s.prio, w))
  {
    BootInv();
    RunInv(Boot(), ops);
    var k, o := Exec(Boot(), ops), c[|c| - 1];
    ChainCovers(k, c);
    if S.IsReady(k.s, o) {
      assert S.TaskOk(k.s, o);
      S.SelectIsMostUrgent(k.s, o);
    }
  }

  lemma {:induction false} Pigeons(q: seq<Tid>, s: set<Tid>)
    requires NoDup(q) && forall x :: x in q ==> x in s
    ensures |q| <= |s|
    decreases |q|
  {
    if q != [] {
      assert q == [q[0]] + q[1..] && q[0] !in q[1..];
      Pigeons(q[1..], s - {q[0]});
    }
  }

  /** Following the owners from w for n steps, or until one is on no wait queue. */
  lemma {:induction false} FollowOwners(k: Kernel, w: Tid, n: nat) returns (c: seq<Tid>)
    requires Inv(k) && w in k.held
    ensures Blocking(k, c) && c[0] == w && (!Queued(k, c[|c| - 1]) || |c| == n + 1)
    ensures forall x :: x in c ==> x in k.held
  {
    if n == 0 {
      c := [w];
    } else {
      c := FollowOwners(k, w, n - 1);
      var last := c[|c| - 1];
      if Queued(k, last) {
        var m :| last in List(k.waiters, m);
        WaiterFacts(k, m, last);
        OwnerFacts(k, m);
        var o := k.owner[m].value;
        assert Follows(k, last, o);
        var d := c + [o];
        forall i | 0 <= i < |d| - 1 ensures Follows(k, d[i], d[i + 1]) {
          assert i < |c| - 1 ==> Follows(k, c[i], c[i + 1]);
        }
        c := d;
      }
    }
  }

  /** Every blocked task leads to one that is on no wait queue, READY or asleep, unless the mutexes are deadlocked. */
  lemma ChainEnds(k: Kernel, w: Tid) returns (c: seq<Tid>)
    requires Inv(k) && w in k.held
    ensures Blocking(k, c) && c[0] == w && (!Queued(k, c[|c| - 1]) || !NoDup(c))
  {
    c := FollowOwners(k, w, |k.held|);
    if NoDup(c) {
      Pigeons(c, k.held.Keys);
    }
  }

  // ----- the guards are exact -----

  /** A take keeps the invariant exactly when it does not boost an owner that is not READY. */
  lemma TakeExactly(k: Kernel, m: Mid, wait: bool, inIsr: bool)
    requires Inv(k) && Running(k) && m in k.owner
    ensures Inv(Step(k, TakeMutex(m, wait, inIsr))) <==> Enabled(k, TakeMutex(m, wait, inIsr))
  {
    if Enabled(k, TakeMutex(m, wait, inIsr)) {
      TakeInv(k, m, wait, inIsr);
    } else {
      OwnerFacts(k, m);
      BlockedBoostBreaks(k, m, k.s.cur.value, Owner(k, m).value);
    }
  }

  /** A detach keeps it exactly when it does not change the priority of an owner that is not READY. */
  lemma DetachExactly(k: Kernel, m: Mid)
    requires Inv(k) && m in k.owner
    ensures Inv(Detach(k, m)) <==> Enabled(k, DetachMutex(m))
  {
    if Strippable(k, m) {
      DetachInv(k, m);
    } else {
      StripBreaks(k, m);
    }
  }

  /** The death of a task, whatever its state, keeps it exactly when nobody owed its priority to that task alone. */
  lemma DeathExactly(k: Kernel, t: Tid)
    requires Inv(k) && t in k.held
    ensures Inv(Step(k, CleanUp(t))) <==> Enabled(k, CleanUp(t))
  {
    if Mourned(k, t) {
      CleanUpInv(k, t);
    } else {
      var m :| t in List(k.waiters, m) && Owner(k, m).Some? && !Replaced(k, Owner(k, m).value, t);
      Weaken(k, t);
      ReleaseAllInv(k, k.held[t], t);
      QueueApart(k, t, m);
      var d := ReleaseAll(k, k.held[t], t);
      CleanedShape(k, t, m, d);
      OwedTo(k, t, m, d, Step(k, CleanUp(t)));
    }
  }

  /** f is d without the task t, on every queue too. */
  ghost predicate Gone(d: Kernel, t: Tid, f: Kernel) {
    && f.held == d.held - {t} && f.waiters == Unlink(d.waiters, t) && f.orig == d.orig - {t}
    && f.s.prio == d.s.prio - {t}
  }

  lemma CleanedShape(k: Kernel, t: Tid, m: Mid, d: Kernel)
    requires Inv(k) && t in k.held && t in List(k.waiters, m) && m !in k.held[t]
    requires d == ReleaseAll(k, k.held[t], t) && InvBut(d, {t}) && Freed(k, k.held[t], t, d)
    ensures Gone(d, t, Step(k, CleanUp(t)))
  {
    assert t in List(d.waiters, m);
    BuryGone(d, t, m);
  }

  lemma BuryGone(d: Kernel, t: Tid, m: Mid)
    requires InvBut(d, {t}) && t in List(d.waiters, m)
    ensures Gone(d, t, Bury(d, t))
  {
    QueuedIsBlocked(d, {t}, m, t);
  }

  lemma OwedTo(k: Kernel, t: Tid, m: Mid, d: Kernel, f: Kernel)
    requires Inv(k) && t in k.held && t in List(k.waiters, m) && Owner(k, m).Some? && Owner(k, m) != Some(t)
    requires Owner(k, m).value in k.held && !Replaced(k, Owner(k, m).value, t)
    requires InvBut(d, {t}) && Freed(k, k.held[t], t, d) && Gone(d, t, f)
    ensures !Exact(f, Owner(k, m).value)
  {
    var o := Owner(k, m).value;
    var e := d.(waiters := Unlink(d.waiters, t));
    UnlinkWaits(d, t, o);
    WaitsFrame(e, f, o);
    forall w | Waits(f, o, w) ensures w != t && Waits(k, o, w) && Num(f.s.prio, w) == Num(k.s.prio, w) {
      assert Waits(e, o, w);
      WaitsApart(k, t, d, o, w);
    }
  }

  /** mrtk_task_resume keeps it exactly when the task is on no wait queue. */
  lemma ResumeExactly(k: Kernel, t: Tid)
    requires Inv(k) && t in k.held && !S.IsReady(k.s, t)
    ensures Inv(Step(k, Wake(t))) <==> !Queued(k, t)
  {
    if !Queued(k, t) {
      WakeInv(k, t);
    } else {
      var m :| t in List(k.waiters, m);
      WaiterFacts(k, m, t);
      var r := Step(k, Wake(t));
      assert S.IsReady(r.s, t);
      assert Inv(r) ==> MutexOk(r, m);
      assert MutexOk(r, m) ==> WaiterOk(r, t);
    }
  }

  // ----- preemption is not missed -----

  /** No READY task is more urgent than the current one. */
  ghost predicate CurrentIsBest(k: Kernel) {
    Running(k) && forall t :: t in k.s.prio && S.IsReady(k.s, t) ==> Num(k.s.prio, k.s.cur.value) <= Num(k.s.prio, t)
  }

  lemma TakeKeepsPreemption(k: Kernel, m: Mid, wait: bool, inIsr: bool)
    requires Inv(k) && CurrentIsBest(k) && Enabled(k, TakeMutex(m, wait, inIsr))
    ensures var r := Step(k, TakeMutex(m, wait, inIsr)); CurrentIsBest(r) || r.s.asked
  {
  }

  /** Of two queues' bests, the one without the released mutex is never more urgent. */
  lemma DropLowers(k: Kernel, m: Mid, t: Tid)
    requires Inv(k) && m in k.owner && k.owner[m] == Some(t)
    ensures var p := Inherited(DropHeld(k, m, t), t);
            && Num(k.s.prio, t) <= p
            && (Num(k.s.prio, t) < p ==> k.waiters[m] != [] && Num(k.s.prio, k.waiters[m][0]) <= Num(k.s.prio, t))
  {
    var d := DropHeld(k, m, t);
    var p := Inherited(d, t);
    OwnerFacts(k, m);
    assert Exact(k, t) && MutexOk(k, m);
    InheritedIsBest(d, t);
    DropWaits(k, m, t, t, {});
    if Num(k.s.prio, t) < p {
      var w :| Waits(k, t, w) && Num(k.s.prio, w) == Num(k.s.prio, t);
      assert w in k.waiters[m];
      SortedTail(k.waiters[m], k.s.prio, k.stamp);
    }
  }

  lemma HandOffParts(k: Kernel, m: Mid, t: Tid, s: S.Sched)
    requires Inv(k) && m in k.owner && k.owner[m] == Some(t) && k.waiters[m] != [] && S.IsReady(k.s, t)
    requires s == S.PrioChange(k.s, t, Inherited(DropHeld(k, m, t), t))
    ensures var w, d, r := k.waiters[m][0], DropHeld(k, m, t), HandOff(k, m, t);
            && r.s == S.AskFor(S.MakeReady(s, w), w) && r.held.Keys == k.held.Keys
            && Known(d) && t in d.held && d.s == k.s && S.IsReady(k.s, t)
            && w in k.s.prio && !S.IsReady(k.s, w) && w != t
  {
    OwnerFacts(k, m);
    WaiterFacts(k, m, k.waiters[m][0]);
  }

  lemma RestoreThenWake(d: Kernel, t: Tid, s: S.Sched, w: Tid)
    requires S.Inv(d.s) && Known(d) && t in d.held && S.IsReady(d.s, t) && s == S.PrioChange(d.s, t, Inherited(d, t))
    requires w in d.s.prio && !S.IsReady(d.s, w) && w != t
    ensures var r := S.AskFor(S.MakeReady(s, w), w);
            && r.cur == d.s.cur && r.prio.Keys == d.s.prio.Keys && Num(r.prio, t) == Inherited(d, t)
            && (forall x :: S.IsReady(r, x) <==> S.IsReady(d.s, x) || x == w)
            && (forall x :: x != t ==> Num(r.prio, x) == Num(d.s.prio, x))
            && (r.asked <==> d.s.asked || S.Outranks(s, w, s.cur)) && Num(s.prio, t) == Inherited(d, t)
            && Num(s.prio, w) == Num(d.s.prio, w) && s.cur == d.s.cur
  {
    RestoredSched(d, t, s);
    WakeSched(s, w);
  }

  lemma HandOffSched(k: Kernel, m: Mid, t: Tid)
    requires Inv(k) && m in k.owner && k.owner[m] == Some(t) && k.waiters[m] != [] && S.IsReady(k.s, t)
    ensures var w, p, r := k.waiters[m][0], Inherited(DropHeld(k, m, t), t), HandOff(k, m, t);
            && r.s.cur == k.s.cur && r.held.Keys == k.held.Keys
            && (forall x :: S.IsReady(r.s, x) <==> S.IsReady(k.s, x) || x == w)
            && Num(r.s.prio, t) == p && r.s.prio.Keys == k.s.prio.Keys
            && (forall x :: x != t ==> Num(r.s.prio, x) == Num(k.s.prio, x))
            && (Num(k.s.prio, w) < p && k.s.cur == Some(t) ==> r.s.asked)
  {
    var d := DropHeld(k, m, t);
    var s := S.PrioChange(d.s, t, Inherited(d, t));
    HandOffParts(k, m, t, s);
    RestoreThenWake(d, t, s, k.waiters[m][0]);
  }

  lemma HandOffKeepsPreemption(k: Kernel, m: Mid)
    requires Inv(k) && CurrentIsBest(k) && m in k.owner && k.owner[m] == k.s.cur && k.waiters[m] != []
    ensures var r := HandOff(k, m, k.s.cur.value); CurrentIsBest(r) || r.s.asked
  {
    var t, w := k.s.cur.value, k.waiters[m][0];
    DropLowers(k, m, t);
    HandOffSched(k, m, t);
    OwnerCoversWaiter(k, m, w);
    StillBest(k, t, w, HandOff(k, m, t));
  }

  /** w becomes READY and t, which runs, keeps its priority. */
  lemma StillBest(k: Kernel, t: Tid, w: Tid, r: Kernel)
    requires CurrentIsBest(k) && k.s.cur == Some(t) && r.s.cur == k.s.cur && r.held.Keys == k.held.Keys
    requires (forall x :: S.IsReady(r.s, x) <==> S.IsReady(k.s, x) || x == w) && r.s.prio.Keys == k.s.prio.Keys
    requires forall x :: x != t ==> Num(r.s.prio, x) == Num(k.s.prio, x)
    requires !r.s.asked ==> Num(r.s.prio, t) == Num(k.s.prio, t) <= Num(k.s.prio, w)
    ensures CurrentIsBest(r) || r.s.asked
  {
  }

  lemma UnlockKeepsPreemption(k: Kernel, m: Mid)
    requires Inv(k) && CurrentIsBest(k) && m in k.owner && k.owner[m] == k.s.cur && k.waiters[m] == []
    ensures CurrentIsBest(Unlock(k, m, k.s.cur.value))
  {
    UncontendedRestoreIsNoOp(k, m, k.s.cur.value);
  }

  lemma ReleaseCases(k: Kernel, m: Mid, t: Tid, inIsr: bool)
    ensures var r := Release(k, m, t, inIsr).0;
            || (r.s == k.s && r.held == k.held)
            || (Owner(k, m) == Some(t) && List(k.waiters, m) == [] && r == Unlock(k, m, t))
            || (Owner(k, m) == Some(t) && List(k.waiters, m) != [] && r == HandOff(k, m, t))
  {
  }

  lemma ReleaseKeepsPreemption(k: Kernel, m: Mid, inIsr: bool)
    requires Inv(k) && CurrentIsBest(k) && Enabled(k, ReleaseMutex(m, inIsr))
    ensures var r := Step(k, ReleaseMutex(m, inIsr)); CurrentIsBest(r) || r.s.asked
  {
    var t := k.s.cur.value;
    ReleaseCases(k, m, t, inIsr);
    if Owner(k, m) == Some(t) {
      if k.waiters[m] == [] {
        UnlockKeepsPreemption(k, m);
      } else {
        HandOffKeepsPreemption(k, m);
      }
    }
  }

  /** What a detach does to the scheduler once the owner has lost the mutex. */
  lemma DetachSched(k: Kernel, m: Mid)
    requires Inv(k) && m in k.owner && Strippable(k, m)
    ensures var (d, r), q := (Strip(k, m), Detach(k, m)), k.waiters[m];
            && r.s.prio == d.s.prio && r.s.cur == d.s.cur && r.held == d.held
            && (forall x :: S.IsReady(r.s, x) <==> S.IsReady(d.s, x) || x in q)
            && (!r.s.asked ==> !d.s.asked && forall x :: x in q ==> !S.Outranks(d.s, x, d.s.cur))
  {
    StripLoose(k, m);
    WakeLoose(Strip(k, m), m, {});
  }

  lemma DetachKeepsPreemption(k: Kernel, m: Mid)
    requires Inv(k) && CurrentIsBest(k) && m in k.owner && Strippable(k, m)
    ensures var r := Detach(k, m); CurrentIsBest(r) || r.s.asked
  {
    var d, r := Strip(k, m), Detach(k, m);
    DetachSched(k, m);
    StripSched(k, m);
    if !r.s.asked {
      forall x | x in r.s.prio && S.IsReady(r.s, x) ensures Num(r.s.prio, r.s.cur.value) <= Num(r.s.prio, x) {
        assert x in k.waiters[m] ==> !S.Outranks(d.s, x, d.s.cur);
      }
    }
  }

  lemma StripSched(k: Kernel, m: Mid)
    requires Inv(k) && m in k.owner
    ensures Strip(k, m).s.asked || Strip(k, m).s == k.s
    ensures Strip(k, m).s.prio.Keys == k.s.prio.Keys && Strip(k, m).held.Keys == k.held.Keys
  {
    assert MutexOk(k, m);
  }

  // ----- hand-off -----

  lemma HandOffFields(k: Kernel, m: Mid, t: Tid)
    requires List(k.waiters, m) != []
    ensures var r, w := HandOff(k, m, t), k.waiters[m][0];
            && Owner(r, m) == Some(w) && m in r.locked && r.locked[m] && Num(r.nest, m) == 1 && m in List(r.held, w)
            && w in r.err && r.err[w] == EOK && List(r.waiters, m) == k.waiters[m][1..]
  {
  }

  /** The head of a queue is ahead of everybody else in it. */
  lemma HeadIsAhead(q: seq<Tid>, prio: map<Tid, nat>, stamp: map<Tid, nat>, x: Tid)
    requires Sorted(q, prio, stamp) && x in q && x != q[0]
    ensures Ahead(prio, stamp, q[0], x)
  {
    var j :| 0 <= j < |q| && q[j] == x;
    assert Ahead(prio, stamp, q[0], q[j]);
  }

  lemma LastContendedRelease(k: Kernel, m: Mid, t: Tid)
    requires Owner(k, m) == Some(t) && Num(k.nest, m) == 1 && List(k.waiters, m) != []
    ensures Release(k, m, t, false) == (HandOff(k, m, t), EOK)
  {
  }

  /** A release of a contended mutex never unlocks it: the most urgent, longest waiting task owns it and is READY. */
  lemma HandOffGoesToTheHead(k: Kernel, m: Mid, t: Tid)
    requires Inv(k) && m in k.owner && k.owner[m] == Some(t) && k.nest[m] == 1 && k.waiters[m] != []
    requires S.IsReady(k.s, t)
    ensures var (r, code), w := Release(k, m, t, false), k.waiters[m][0];
            && code == EOK && Owner(r, m) == Some(w) && m in r.locked && r.locked[m] && Num(r.nest, m) == 1
            && m in List(r.held, w) && S.IsReady(r.s, w) && w in r.err && r.err[w] == EOK
            && List(r.waiters, m) == k.waiters[m][1..]
    ensures forall x :: x in k.waiters[m] && x != k.waiters[m][0] ==> Ahead(k.s.prio, k.stamp, k.waiters[m][0], x)
  {
    LastContendedRelease(k, m, t);
    HandOffFields(k, m, t);
    HandOffSched(k, m, t);
    assert MutexOk(k, m);
    forall x | x in k.waiters[m] && x != k.waiters[m][0] ensures Ahead(k.s.prio, k.stamp, k.waiters[m][0], x) {
      HeadIsAhead(k.waiters[m], k.s.prio, k.stamp, x);
    }
  }

  /** Detaching wakes every waiter with EDELETED and leaves no trace of the mutex. */
  lemma DetachWakesAll(k: Kernel, m: Mid, w: Tid)
    requires Inv(k) && w in List(k.waiters, m) && Strippable(k, m)
    ensures var r := Detach(k, m);
            && S.IsReady(r.s, w) && w in r.err && r.err[w] == EDELETED
            && m !in r.owner && m !in r.waiters && forall x :: m !in List(r.held, x)
  {
    StripLoose(k, m);
    DetachInv(k, m);
    WakeLoose(Strip(k, m), m, {});
    var r := Detach(k, m);
    forall x ensures m !in List(r.held, x) {
      assert x in r.held ==> HolderOk(r, x);
    }
  }

  // ----- undo -----

  lemma {:induction false} AppendThenWithout(q: seq<nat>, m: nat)
    requires m !in q
    ensures Without(q + [m], m) == q
  {
    if q != [] {
      assert (q + [m])[1..] == q[1..] + [m];
      AppendThenWithout(q[1..], m);
    }
  }

  lemma UpdateBack<V>(f: map<nat, V>, x: nat, v: V, old_: V)
    requires x in f && f[x] == old_
    ensures f[x := v][x := old_] == f
  {
  }

  lemma UnlockUndoesGrant(k: Kernel, m: Mid, t: Tid)
    requires Inv(k) && m in k.owner && k.owner[m].None? && t in k.held && S.IsReady(k.s, t)
    ensures Unlock(Grant(k, m, t), m, t) == k
  {
    var g := Grant(k, m, t);
    GrantInv(k, m, t);
    assert MutexOk(k, m) && HolderOk(k, t);
    AppendThenWithout(k.held[t], m);
    UncontendedRestoreIsNoOp(g, m, t);
    UpdateBack(k.held, t, k.held[t] + [m], k.held[t]);
    UpdateBack(k.owner, m, Some(t), None);
    UpdateBack(k.locked, m, true, false);
    UpdateBack(k.nest, m, 1, 0);
  }

  /** Release undoes an uncontended take: the whole kernel state is as before. */
  lemma ReleaseUndoesTake(k: Kernel, m: Mid, t: Tid)
    requires Inv(k) && m in k.owner && k.owner[m].None? && t in k.held && S.IsReady(k.s, t)
    ensures Release(Take(k, m, t, true, false).0, m, t, false) == (k, EOK)
  {
    var g := Grant(k, m, t);
    assert MutexOk(k, m);
    assert Take(k, m, t, true, false).0 == g;
    assert Release(g, m, t, false) == (Unlock(g, m, t), EOK);
    UnlockUndoesGrant(k, m, t);
  }

  // ----- nesting -----

  function TakeTimes(k: Kernel, m: Mid, t: Tid, n: nat): Kernel {
    if n == 0 then k else Take(TakeTimes(k, m, t, n - 1), m, t, true, false).0
  }

  function ReleaseTimes(k: Kernel, m: Mid, t: Tid, n: nat): Kernel {
    if n == 0 then k else Release(ReleaseTimes(k, m, t, n - 1), m, t, false).0
  }

  function WithNest(k: Kernel, m: Mid, n: nat): Kernel {
    k.(nest := k.nest[m := n])
  }

  lemma WithNestTwice(k: Kernel, m: Mid, a: nat, b: nat)
    ensures WithNest(WithNest(k, m, a), m, b) == WithNest(k, m, b)
    ensures m in k.nest && k.nest[m] == a ==> WithNest(k, m, a) == k
  {
    if m in k.nest && k.nest[m] == a {
      assert k.nest[m := a] == k.nest;
    }
  }

  lemma TakeAgain(g: Kernel, m: Mid, t: Tid)
    requires Owner(g, m) == Some(t) && m in g.nest && g.nest[m] < 256
    ensures Take(g, m, t, true, false).0 == WithNest(g, m, (g.nest[m] + 1) % 256)
  {
  }

  lemma {:induction false} NestAfterTakes(k: Kernel, m: Mid, t: Tid, n: nat)
    requires Owner(k, m).None? && n > 0
    ensures TakeTimes(k, m, t, n) == WithNest(Grant(k, m, t), m, n % 256)
  {
    var g := Grant(k, m, t);
    if n == 1 {
      assert TakeTimes(k, m, t, 0) == k;
      WithNestTwice(g, m, 1, 1);
    } else {
      NestAfterTakes(k, m, t, n - 1);
      var h := WithNest(g, m, (n - 1) % 256);
      TakeAgain(h, m, t);
      WithNestTwice(g, m, (n - 1) % 256, n % 256);
      NextCount(n);
    }
  }

  lemma NextCount(n: nat)
    requires n > 0
    ensures ((n - 1) % 256 + 1) % 256 == n % 256
  {
  }

  lemma ReleaseOnce(g: Kernel, m: Mid, t: Tid)
    requires Owner(g, m) == Some(t) && m in g.nest && g.nest[m] < 256
    ensures g.nest[m] != 1 ==> Release(g, m, t, false).0 == WithNest(g, m, (g.nest[m] + 255) % 256)
    ensures g.nest[m] == 1 && List(g.waiters, m) == [] ==> Owner(Release(g, m, t, false).0, m).None?
  {
    assert (g.nest[m] + 255) % 256 == 0 <==> g.nest[m] == 1;
  }

  lemma CountDown(v: nat)
    requires 2 <= v <= 256
    ensures v % 256 != 1 && (v % 256 + 255) % 256 == (v - 1) % 256
  {
  }

  /** From nest c, the lock survives exactly the releases before the one that counts to zero modulo 256. */
  lemma {:induction false} OwnedDuringReleases(g: Kernel, m: Mid, t: Tid, c: nat, j: nat)
    requires Owner(g, m) == Some(t) && m in g.nest && 1 <= c <= 256 && j < c && g.nest[m] == c % 256
    ensures ReleaseTimes(g, m, t, j) == WithNest(g, m, (c - j) % 256)
  {
    if j > 0 {
      OwnedDuringReleases(g, m, t, c, j - 1);
      CountDown(c - j + 1);
      var h := WithNest(g, m, (c - j + 1) % 256);
      ReleaseOnce(h, m, t);
      WithNestTwice(g, m, (c - j + 1) % 256, (c - j) % 256);
    } else {
      WithNestTwice(g, m, c % 256, c % 256);
    }
  }

  /** n takes are undone by n releases and by no fewer. */
  ghost predicate Balanced(k: Kernel, m: Mid, t: Tid, n: nat) {
    var g := TakeTimes(k, m, t, n);
    && (forall j: nat :: j < n ==> Owner(ReleaseTimes(g, m, t, j), m) == Some(t))
    && Owner(ReleaseTimes(g, m, t, n), m).None?
  }

  lemma FreedAtLast(g: Kernel, m: Mid, t: Tid, c: nat)
    requires Owner(g, m) == Some(t) && m in g.nest && 1 <= c <= 256 && g.nest[m] == c % 256 && List(g.waiters, m) == []
    ensures forall j: nat :: j < c ==> Owner(ReleaseTimes(g, m, t, j), m) == Some(t)
    ensures Owner(ReleaseTimes(g, m, t, c), m).None?
  {
    forall j: nat | j < c ensures Owner(ReleaseTimes(g, m, t, j), m) == Some(t) {
      OwnedDuringReleases(g, m, t, c, j);
    }
    OwnedDuringReleases(g, m, t, c, c - 1);
    var h := WithNest(g, m, 1);
    assert ReleaseTimes(g, m, t, c - 1) == h;
    assert Owner(h, m) == Some(t) && h.nest[m] == 1 && List(h.waiters, m) == [];
    ReleaseOnce(h, m, t);
  }

  lemma AfterTakes(k: Kernel, m: Mid, t: Tid, n: nat)
    requires Inv(k) && m in k.owner && k.owner[m].None? && n > 0
    ensures var g := TakeTimes(k, m, t, n);
            Owner(g, m) == Some(t) && m in g.nest && g.nest[m] == n % 256 && List(g.waiters, m) == []
  {
    assert MutexOk(k, m);
    NestAfterTakes(k, m, t, n);
  }

  /** The 8-bit nest counter balances takes and releases exactly up to depth 256. */
  lemma NestingBalances(k: Kernel, m: Mid, t: Tid, n: nat)
    requires Inv(k) && m in k.owner && k.owner[m].None? && n > 0
    ensures Balanced(k, m, t, n) <==> n <= 256
  {
    var g, c := TakeTimes(k, m, t, n), if n % 256 == 0 then 256 else n % 256;
    AfterTakes(k, m, t, n);
    LastCount(n, c);
    FreedAtLast(g, m, t, c);
    if n > 256 {
      assert Owner(ReleaseTimes(g, m, t, c), m).None?;
    }
  }

  lemma LastCount(n: nat, c: nat)
    requires n > 0 && c == if n % 256 == 0 then 256 else n % 256
    ensures 1 <= c <= 256 && c % 256 == n % 256 && c <= n && (c == n <==> n <= 256)
  {
  }
}
