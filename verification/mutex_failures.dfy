/** Inputs on which the mutex protocol fails, reached from boot by steps that are all in order. */
module MutexFailures {
  import opened Base
  import opened PrioBitmap
  import opened TaskQueue
  import opened Mutex
  import opened MutexInv
  import opened MutexRuns
  import opened MutexTheorems
  import opened StrayRead
  import S = Schedule

  // ----- reaching a state, and what it looks like -----

  ghost predicate ReachedBy(ops: seq<Op>, k: Kernel) {
    var b := Boot();
    AllEnabled(b, ops) && Exec(b, ops) == k
  }

  ghost predicate Reached(k: Kernel) {
    exists ops :: ReachedBy(ops, k)
  }

  lemma {:induction false} OneMore(k: Kernel, ops: seq<Op>, op: Op)
    requires AllEnabled(k, ops) && Enabled(Exec(k, ops), op)
    ensures AllEnabled(k, ops + [op]) && Exec(k, ops + [op]) == Step(Exec(k, ops), op)
    decreases |ops|
  {
    if ops == [] {
      assert [] + [op] == [op] && [op][1..] == [];
      assert Exec(Step(k, op), []) == Step(k, op);
    } else {
      assert (ops + [op])[1..] == ops[1..] + [op];
      OneMore(Step(k, ops[0]), ops[1..], op);
    }
  }

  lemma ReachedStep(k: Kernel, op: Op)
    requires Reached(k) && Enabled(k, op)
    ensures Reached(Step(k, op)) && Inv(k) && Inv(Step(k, op))
  {
    var b := Boot();
    var ops :| ReachedBy(ops, k);
    OneMore(b, ops, op);
    assert ReachedBy(ops + [op], Step(k, op));
    ReachedInv(k);
    StepInv(k, op);
  }

  lemma ReachedInv(k: Kernel)
    requires Reached(k)
    ensures Inv(k)
  {
    var b := Boot();
    var ops :| ReachedBy(ops, k);
    BootInv();
    RunInv(b, ops);
  }

  datatype Picture = Picture(
    prio: map<Tid, nat>, orig: map<Tid, nat>, ready: set<Tid>, held: map<Tid, seq<Mid>>,
    owner: map<Mid, Option<Tid>>, waiters: map<Mid, seq<Tid>>, cur: Option<Tid>)

  ghost predicate Looks(k: Kernel, p: Picture) {
    && k.s.prio == p.prio && k.orig == p.orig && (forall t :: S.IsReady(k.s, t) <==> t in p.ready)
    && k.held == p.held && k.owner == p.owner && k.waiters == p.waiters && k.s.cur == p.cur
  }

  const NOTHING: Picture := Picture(map[], map[], {}, map[], map[], map[], None)

  lemma Booted() returns (k: Kernel)
    ensures Reached(k) && Looks(k, NOTHING)
  {
    k := Boot();
    assert ReachedBy([], k);
  }

  lemma AddMutex(k: Kernel, p: Picture, m: Mid) returns (r: Kernel)
    requires Reached(k) && Looks(k, p) && m !in p.owner
    ensures Reached(r) && Looks(r, p.(owner := p.owner[m := None], waiters := p.waiters[m := []]))
  {
    ReachedStep(k, NewMutex(m));
    r := Step(k, NewMutex(m));
  }

  /** A task is created, started, and gets the processor because it is the most urgent. */
  lemma AddTask(k: Kernel, p: Picture, t: Tid, pr: nat) returns (r: Kernel)
    requires Reached(k) && Looks(k, p) && t !in p.orig && pr < LEVELS
    requires forall x :: x in p.ready ==> x in p.prio && pr < p.prio[x]
    ensures Reached(r) && r.err == k.err
    ensures Looks(r, WithTask(p, t, pr).(ready := p.ready + {t}, cur := Some(t)))
  {
    var n := CreateTask(k, p, t, pr);
    ReachedInv(n);
    forall m ensures t !in List(n.waiters, m) {
      NewIsNotQueued(k, n, t, m);
    }
    var w := WakeTask(n, WithTask(p, t, pr), t);
    r := Switch(w, WithTask(p, t, pr).(ready := p.ready + {t}), t);
  }

  lemma WakeTask(k: Kernel, p: Picture, t: Tid) returns (r: Kernel)
    requires Reached(k) && Looks(k, p) && t in p.held && t !in p.ready && forall m :: t !in List(k.waiters, m)
    ensures Reached(r) && Looks(r, p.(ready := p.ready + {t})) && r.err == k.err
  {
    ReachedStep(k, Wake(t));
    WakeSched(k.s, t);
    r := Step(k, Wake(t));
  }

  function WithTask(p: Picture, t: Tid, pr: nat): Picture {
    p.(prio := p.prio[t := pr], orig := p.orig[t := pr], held := p.held[t := []])
  }

  lemma CreateTask(k: Kernel, p: Picture, t: Tid, pr: nat) returns (r: Kernel)
    requires Reached(k) && Looks(k, p) && t !in p.orig && pr < LEVELS
    ensures Reached(r) && r.err == k.err && Looks(r, WithTask(p, t, pr)) && t !in k.held && Inv(k)
    ensures r.waiters == k.waiters
  {
    ReachedStep(k, NewTask(t, pr));
    r := Step(k, NewTask(t, pr));
  }

  lemma NewIsNotQueued(k: Kernel, n: Kernel, t: Tid, m: Mid)
    requires Inv(k) && t !in k.held && n.waiters == k.waiters
    ensures t !in List(n.waiters, m)
  {
    if t in List(k.waiters, m) {
      WaiterFacts(k, m, t);
    }
  }

  lemma Switch(k: Kernel, p: Picture, t: Tid) returns (r: Kernel)
    requires Reached(k) && Looks(k, p) && t in p.ready && t in p.held && t in p.prio
    requires forall x :: x in p.ready && x != t ==> x in p.prio && p.prio[t] < p.prio[x]
    ensures Reached(r) && Looks(r, p.(cur := Some(t))) && r.err == k.err
  {
    ReachedStep(k, Dispatch);
    S.SelectIsMostUrgent(k.s, t);
    r := Step(k, Dispatch);
  }

  lemma TakeFree(k: Kernel, p: Picture, t: Tid, m: Mid) returns (r: Kernel)
    requires Reached(k) && Looks(k, p) && p.cur == Some(t) && t in p.held && t in p.ready && m in p.owner
    requires p.owner[m].None?
    ensures Reached(r)
    ensures Looks(r, p.(owner := p.owner[m := Some(t)], held := p.held[t := p.held[t] + [m]]))
  {
    ReachedStep(k, TakeMutex(m, true, false));
    r := Step(k, TakeMutex(m, true, false));
  }

  /** The running task blocks behind a READY owner that is less urgent. */
  lemma TakeHeld(k: Kernel, p: Picture, t: Tid, m: Mid, o: Tid) returns (r: Kernel)
    requires Reached(k) && Looks(k, p) && p.cur == Some(t) && t in p.held && t in p.ready && t in p.prio
    requires m in p.owner && p.owner[m] == Some(o) && o in p.ready && o != t && o in p.prio && p.prio[t] < p.prio[o]
    requires m in p.waiters && p.waiters[m] == []
    ensures Reached(r) && t in r.err && r.err[t] == EOK
    ensures Looks(r, p.(prio := p.prio[o := p.prio[t]], ready := p.ready - {t}, waiters := p.waiters[m := [t]]))
  {
    ReachedInv(k);
    OwnerFacts(k, m);
    ReachedStep(k, TakeMutex(m, true, false));
    r := Block(k, m, t, o);
    BlockShape(k, m, t, o);
    BlockLooks(k, p, t, m, o, r);
    assert r == Step(k, TakeMutex(m, true, false));
  }

  lemma BlockLooks(k: Kernel, p: Picture, t: Tid, m: Mid, o: Tid, r: Kernel)
    requires Looks(k, p) && Blocked(k, m, t, o, r) && t in p.prio && o in p.prio && p.prio[t] < p.prio[o]
    requires m in p.waiters && p.waiters[m] == [] && p.cur == Some(t)
    ensures Looks(r, p.(prio := p.prio[o := p.prio[t]], ready := p.ready - {t}, waiters := p.waiters[m := [t]]))
  {
    forall x | x in r.s.prio ensures r.s.prio[x] == p.prio[o := p.prio[t]][x] {
      assert Num(r.s.prio, x) == r.s.prio[x];
      assert x != o ==> Num(r.s.prio, x) == Num(k.s.prio, x);
    }
    assert r.s.prio == p.prio[o := p.prio[t]];
    assert SortedInsert([], r.s.prio, t) == [t];
  }

  // ----- a blocked owner is boosted -----

  /** An owner that is itself blocked goes to a ready list while SUSPEND, leaves the queue it was on, and is what
      mrtk_schedule selects next when the taker was alone at its priority. */
  lemma BlockedOwnerRuns(k: Kernel, m: Mid, t: Tid, o: Tid)
    requires Inv(k) && CurrentIsBest(k) && k.s.cur == Some(t) && m in k.owner && k.owner[m] == Some(o) && o != t
    requires !Boostable(k, t, o) && S.Level(k.s, Num(k.s.prio, t)) == [t]
    ensures var r := Block(k, m, t, o);
            && !S.IsReady(r.s, o) && (forall n :: n != m ==> o !in List(r.waiters, n))
            && r.s.bitmap < 0x1_0000_0000 && S.Level(r.s, HighestPrio(r.s.bitmap)) != []
            && S.Select(r.s) == o
  {
    var p, b, r := Num(k.s.prio, t), Boost(k, t, o), Block(k, m, t, o);
    OwnerFacts(k, m);
    assert S.TaskOk(k.s, t) && S.TaskOk(k.s, o) && S.LevelOk(k.s, p);
    BoostedLevel(k.s, t, o, p);
    LowestLevel(k, t, o, p, r.s);
    forall n | n != m ensures o !in List(r.waiters, n) {
      BlockUnlinks(k, m, t, o, n);
    }
  }

  lemma BlockUnlinks(k: Kernel, m: Mid, t: Tid, o: Tid, n: Mid)
    requires Inv(k) && Boosts(k, t, o) && n != m
    ensures o !in List(Block(k, m, t, o).waiters, n)
  {
    if n in k.waiters {
      assert MutexOk(k, n);
      WithoutMembers(k.waiters[n], o);
    }
  }

  lemma BoostedLevel(s: S.Sched, t: Tid, o: Tid, p: nat)
    requires S.Inv(s) && t in s.prio && o in s.prio && o != t && s.prio[t] == p < s.prio[o] && !S.IsReady(s, o)
    requires p < |s.queue| && s.queue[p] == [t]
    ensures var b := S.PrioChange(s, o, p); |b.queue| == LEVELS && b.queue[p] == [t, o] && b.prio == s.prio[o := p]
    ensures var r := S.Suspend(S.PrioChange(s, o, p), t);
            && |r.queue| == LEVELS && r.queue[p] == [o] && r.state == s.state[t := S.SUSPEND]
            && r.bitmap == SetBit(S.Remove(s, o).bitmap, p)
  {
    assert S.TaskOk(s, o);
    var b := S.PrioChange(s, o, p);
    assert b.queue[p] == [t] + [o];
    assert Without([t, o], t) == [o];
  }

  /** No level below p has its bit set. */
  lemma LowestLevel(k: Kernel, t: Tid, o: Tid, p: nat, r: S.Sched)
    requires Inv(k) && CurrentIsBest(k) && k.s.cur == Some(t) && t in k.s.prio && k.s.prio[t] == p < LEVELS
    requires o in k.s.prio
    requires |r.queue| == LEVELS && r.queue[p] == [o] && r.bitmap == SetBit(S.Remove(k.s, o).bitmap, p)
    ensures r.bitmap < 0x1_0000_0000 && HighestPrio(r.bitmap) == p
  {
    assert S.TaskOk(k.s, o);
    S.BitmapWidth(k.s.bitmap, k.s.prio[o]);
    S.BitmapWidth(S.Remove(k.s, o).bitmap, p);
    SetBitSets(S.Remove(k.s, o).bitmap, p, p);
    BitMeansPositive(r.bitmap, p);
    HighestPrioIsLowestBit(r.bitmap);
    forall h: nat | h < p ensures !Bit(r.bitmap, h) {
      SetBitSets(S.Remove(k.s, o).bitmap, p, h);
      ClearBitClears(k.s.bitmap, k.s.prio[o], h);
      NoneBelow(k, t, h);
    }
  }

  lemma NoneBelow(k: Kernel, t: Tid, h: nat)
    requires Inv(k) && CurrentIsBest(k) && k.s.cur == Some(t) && t in k.s.prio && h < k.s.prio[t] <= LEVELS
    ensures !Bit(k.s.bitmap, h)
  {
    assert S.LevelOk(k.s, h);
    if k.s.queue[h] != [] {
      HeadIsListed(k.s, h);
    }
  }

  lemma HeadIsListed(s: S.Sched, h: nat)
    requires S.Inv(s) && h < LEVELS && s.queue[h] != []
    ensures S.Listed(s, s.queue[h][0], h)
  {
    assert S.LevelOk(s, h) && s.queue[h][0] in s.queue[h];
  }

  const START: Picture := Picture(map[0 := 20], map[0 := 20], {0}, map[0 := [0]], map[0 := Some(0), 1 := None],
      map[0 := [], 1 := []], Some(0))

  /** Two mutexes A and B; the task L of priority 20 has taken A. */
  lemma Start() returns (k: Kernel)
    ensures Reached(k) && Looks(k, START)
  {
    k := Booted();
    k := AddMutex(k, NOTHING, 0);
    var p := NOTHING.(owner := map[0 := None], waiters := map[0 := []]);
    k := AddMutex(k, p, 1);
    k := FirstTask(k);
  }

  const MUTEXES: Picture := Picture(map[], map[], {}, map[], map[0 := None, 1 := None], map[0 := [], 1 := []], None)

  lemma FirstTask(k: Kernel) returns (r: Kernel)
    requires Reached(k) && Looks(k, MUTEXES)
    ensures Reached(r) && Looks(r, START)
  {
    r := AddTask(k, MUTEXES, 0, 20);
    var p := START.(owner := MUTEXES.owner, held := map[0 := []]);
    assert p == WithTask(MUTEXES, 0, 20).(ready := {} + {0}, cur := Some(0));
    r := FirstTakes(r, p);
  }

  lemma FirstTakes(k: Kernel, p: Picture) returns (r: Kernel)
    requires Reached(k) && Looks(k, p) && p == START.(owner := MUTEXES.owner, held := map[0 := []])
    ensures Reached(r) && Looks(r, START)
  {
    r := TakeFree(k, p, 0, 0);
    FirstHolds(p);
  }

  lemma FirstHolds(p: Picture)
    requires p == START.(owner := MUTEXES.owner, held := map[0 := []])
    ensures p.(owner := p.owner[0 := Some(0)], held := p.held[0 := p.held[0] + [0]]) == START
  {
    assert [] + [0] == [0] && p.owner[0 := Some(0)] == START.owner && p.held[0 := [0]] == START.held;
  }

  const SECOND: Picture :=
    Picture(map[0 := 20, 1 := 10], map[0 := 20, 1 := 10], {0, 1}, map[0 := [0], 1 := [1]],
            map[0 := Some(0), 1 := Some(1)], map[0 := [], 1 := []], Some(1))

  /** M of priority 10 takes B. */
  lemma SecondTask(k: Kernel) returns (r: Kernel)
    requires Reached(k) && Looks(k, START)
    ensures Reached(r) && Looks(r, SECOND)
  {
    r := AddTask(k, START, 1, 10);
    var p := SECOND.(owner := START.owner, held := map[0 := [0], 1 := []]);
    assert p == WithTask(START, 1, 10).(ready := {0} + {1}, cur := Some(1));
    r := SecondTakes(r, p);
  }

  lemma SecondTakes(k: Kernel, p: Picture) returns (r: Kernel)
    requires Reached(k) && Looks(k, p) && p == SECOND.(owner := START.owner, held := map[0 := [0], 1 := []])
    ensures Reached(r) && Looks(r, SECOND)
  {
    r := TakeFree(k, p, 1, 1);
    SecondHolds(p);
  }

  lemma SecondHolds(p: Picture)
    requires p == SECOND.(owner := START.owner, held := map[0 := [0], 1 := []])
    ensures p.(owner := p.owner[1 := Some(1)], held := p.held[1 := p.held[1] + [1]]) == SECOND
  {
    assert [] + [1] == [1] && p.owner[1 := Some(1)] == SECOND.owner && p.held[1 := [1]] == SECOND.held;
  }

  const NESTED: Picture :=
    Picture(map[0 := 10, 1 := 10, 2 := 5], map[0 := 20, 1 := 10, 2 := 5], {0, 2}, map[0 := [0], 1 := [1], 2 := []],
            map[0 := Some(0), 1 := Some(1)], map[0 := [1], 1 := []], Some(2))

  /** M blocks on A, and H of priority 5 starts. */
  lemma ThirdTask(k: Kernel) returns (r: Kernel)
    requires Reached(k) && Looks(k, SECOND)
    ensures Reached(r) && Looks(r, NESTED) && 1 in r.err && r.err[1] == EOK
  {
    r := SecondBlocks(k);
    r := AddTask(r, SECOND.(prio := map[0 := 10, 1 := 10], ready := {0}, waiters := map[0 := [1], 1 := []]), 2, 5);
    assert {0} + {2} == {0, 2};
  }

  lemma SecondBlocks(k: Kernel) returns (r: Kernel)
    requires Reached(k) && Looks(k, SECOND)
    ensures Reached(r) && 1 in r.err && r.err[1] == EOK
    ensures Looks(r, SECOND.(prio := map[0 := 10, 1 := 10], ready := {0}, waiters := map[0 := [1], 1 := []]))
  {
    r := TakeHeld(k, SECOND, 1, 0, 0);
    SecondWaits();
  }

  lemma SecondWaits()
    ensures SECOND.(prio := SECOND.prio[0 := SECOND.prio[1]], ready := SECOND.ready - {1},
                    waiters := SECOND.waiters[0 := [1]])
            == SECOND.(prio := map[0 := 10, 1 := 10], ready := {0}, waiters := map[0 := [1], 1 := []])
  {
    assert {0, 1} - {1} == {0};
  }

  /** L(20) takes A; M(10) takes B and blocks on A; H(5) takes B. M is put on a ready list, SUSPEND and off A's queue;
      it runs next, and its take of A returns EOK although L owns A. */
  lemma NestedBlockingFails() returns (k: Kernel)
    ensures Reached(k) && Running(k) && k.s.cur == Some(2)
    ensures var r := Step(k, TakeMutex(1, true, false));
            && !Inv(r) && !S.IsReady(r.s, 1) && 1 !in List(r.waiters, 0)
            && 1 in r.err && r.err[1] == EOK && Owner(r, 0) == Some(0)
            && r.s.bitmap < 0x1_0000_0000 && S.Level(r.s, HighestPrio(r.s.bitmap)) != [] && S.Select(r.s) == 1
  {
    k := Start();
    k := SecondTask(k);
    k := ThirdTask(k);
    ReachedInv(k);
    BoostBlockedOwner(k);
  }

  lemma BoostBlockedOwner(k: Kernel)
    requires Inv(k) && Looks(k, NESTED) && 1 in k.err && k.err[1] == EOK
    ensures var r := Step(k, TakeMutex(1, true, false));
            && !Inv(r) && !S.IsReady(r.s, 1) && 1 !in List(r.waiters, 0)
            && 1 in r.err && r.err[1] == EOK && Owner(r, 0) == Some(0)
            && r.s.bitmap < 0x1_0000_0000 && S.Level(r.s, HighestPrio(r.s.bitmap)) != [] && S.Select(r.s) == 1
  {
    AloneAtItsLevel(k, 2, 5);
    BlockOnBlocked(k);
    TakeIsBlock(k, 1, 2, 1);
  }

  lemma BlockOnBlocked(k: Kernel)
    requires Inv(k) && Looks(k, NESTED) && S.Level(k.s, 5) == [2]
    ensures var r := Block(k, 1, 2, 1);
            && !S.Inv(r.s) && !S.IsReady(r.s, 1) && 1 !in List(r.waiters, 0)
            && r.s.bitmap < 0x1_0000_0000 && S.Level(r.s, HighestPrio(r.s.bitmap)) != [] && S.Select(r.s) == 1
  {
    BlockedBoostBreaks(k, 1, 2, 1);
    BlockedOwnerRuns(k, 1, 2, 1);
  }

  lemma TakeIsBlock(k: Kernel, m: Mid, t: Tid, o: Tid)
    requires k.s.cur == Some(t) && Owner(k, m) == Some(o) && o != t
    ensures var r := Step(k, TakeMutex(m, true, false));
            r == Block(k, m, t, o) && r.err == k.err[t := EOK] && r.owner == k.owner
  {
  }

  lemma AloneAtItsLevel(k: Kernel, t: Tid, p: nat)
    requires Inv(k) && t in k.s.prio && k.s.prio[t] == p && S.IsReady(k.s, t)
    requires forall x :: S.IsReady(k.s, x) && x != t ==> Num(k.s.prio, x) != p
    ensures S.Level(k.s, p) == [t]
  {
    assert S.TaskOk(k.s, t) && S.LevelOk(k.s, p);
    var q := k.s.queue[p];
    forall i | 0 <= i < |q| ensures q[i] == t {
      assert q[i] in q;
      assert S.Listed(k.s, q[i], p);
    }
    assert q[0] == t;
    if |q| > 1 {
      FirstTwoDiffer(q);
    }
  }

  lemma FirstTwoDiffer(q: seq<Tid>)
    requires NoDup(q) && |q| > 1
    ensures q[0] != q[1]
  {
  }

  // ----- the stray read -----

  const HOLDER: Picture :=
    Picture(map[0 := 5, 1 := 5], map[0 := 20, 1 := 5], {0}, map[0 := [0, 1], 1 := []],
            map[0 := Some(0), 1 := Some(0)], map[0 := [1], 1 := []], Some(0))

  /** L(20) takes A and B; H(5) blocks on A and L inherits 5; L releases B. The restored priority should stay 5; with a
      stray byte of zero the scan as written gives 20, while H still waits. */
  lemma StrayReadLosesInheritance() returns (k: Kernel)
    ensures Reached(k) && Running(k) && k.s.cur == Some(0)
    ensures var d := DropHeld(k, 1, 0);
            && 1 in List(k.waiters, 0) && Num(k.s.prio, 1) == 5
            && Inherited(d, 0) == 5
            && StrayBest(Num(d.orig, 0), Visited(List(d.held, 0), d.waiters), d.s.prio, 0) == 20
  {
    k := Start();
    k := TakeFree(k, START, 0, 1);
    assert [0] + [1] == [0, 1];
    k := Inherit(k);
    StrayHere(k);
  }

  lemma Inherit(k: Kernel) returns (r: Kernel)
    requires Reached(k) && Looks(k, START.(owner := HOLDER.owner, held := map[0 := [0, 1]]))
    ensures Reached(r) && Looks(r, HOLDER)
  {
    var b := START.(owner := HOLDER.owner, held := map[0 := [0, 1]]);
    r := AddTask(k, b, 1, 5);
    var p := HOLDER.(prio := map[0 := 20, 1 := 5], ready := {0, 1}, waiters := START.waiters, cur := Some(1));
    assert p == WithTask(b, 1, 5).(ready := {0} + {1}, cur := Some(1));
    r := Behind(r, p);
  }

  lemma Behind(k: Kernel, p: Picture) returns (r: Kernel)
    requires Reached(k) && Looks(k, p)
    requires p == HOLDER.(prio := map[0 := 20, 1 := 5], ready := {0, 1}, waiters := START.waiters, cur := Some(1))
    ensures Reached(r) && Looks(r, HOLDER)
  {
    r := TakeHeld(k, p, 1, 0, 0);
    assert {0, 1} - {1} == {0};
    r := Switch(r, HOLDER.(cur := Some(1)), 0);
  }

  lemma StrayHere(k: Kernel)
    requires Looks(k, HOLDER)
    ensures var d := DropHeld(k, 1, 0);
            && Inherited(d, 0) == 5
            && StrayBest(Num(d.orig, 0), Visited(List(d.held, 0), d.waiters), d.s.prio, 0) == 20
  {
    var d := DropHeld(k, 1, 0);
    assert Without([0, 1], 1) == [0] + Without([1], 1);
    assert [0, 1][1..] == [1];
    assert List(d.held, 0) == [0] && [0][1..] == [];
    assert List(d.waiters, 0) == [1] && [1][1..] == [];
    assert Visited([0], d.waiters) == [1] + Visited([], d.waiters) == [1];
    assert StrayBest(20, [1], d.s.prio, 0) == StrayBest(20, [], d.s.prio, 0);
    assert Best(20, [1], d.s.prio) == Best(5, [], d.s.prio) == 5;
    assert BestHeld(20, [0], d.waiters, d.s.prio) == BestHeld(5, [], d.waiters, d.s.prio);
  }

  // ----- set_priority -----

  /** mrtk_task_set_priority: orig_prio stays. */
  function SetPriority(k: Kernel, t: Tid, p: nat): Kernel {
    if S.IsReady(k.s, t) then k.(s := S.PrioChange(k.s, t, p)) else k.(s := k.s.(prio := k.s.prio[t := p]))
  }

  /** It gives the task that priority and keeps the scheduler's lists, bitmap and states in agreement. */
  lemma SetPrioritySched(k: Kernel, t: Tid, p: nat)
    requires Inv(k) && t in k.held && p < LEVELS
    ensures var r := SetPriority(k, t, p);
            && S.Inv(r.s) && Num(r.s.prio, t) == p && (forall x :: S.IsReady(r.s, x) <==> S.IsReady(k.s, x))
            && (forall x :: x != t ==> Num(r.s.prio, x) == Num(k.s.prio, x))
  {
    if S.IsReady(k.s, t) {
      S.PrioChangeInv(k.s, t, p);
    } else {
      UnreadyChange(k.s, t, p, SetPriority(k, t, p).s);
    }
  }

  lemma UnreadyChange(s: S.Sched, t: Tid, p: nat, r: S.Sched)
    requires S.Inv(s) && t in s.prio && !S.IsReady(s, t) && p < LEVELS && r == s.(prio := s.prio[t := p])
    ensures S.Inv(r)
  {
    forall x | x in r.prio ensures S.TaskOk(r, x) {
      assert S.TaskOk(s, x);
    }
    forall q | 0 <= q < LEVELS ensures S.LevelOk(r, q) {
      assert S.LevelOk(s, q);
      assert forall x :: x in r.queue[q] ==> S.Listed(s, x, q) && S.Listed(r, x, q);
    }
  }

  /** It keeps exact inheritance exactly when it changes nothing. */
  lemma SetPriorityExactly(k: Kernel, t: Tid, p: nat)
    requires Inv(k) && t in k.held && p < LEVELS
    ensures Inv(SetPriority(k, t, p)) <==> p == Num(k.s.prio, t)
  {
    var r := SetPriority(k, t, p);
    if p == Num(k.s.prio, t) {
      SamePriority(k, t, p);
    } else {
      NotExact(k, t, p, r);
    }
  }

  lemma SamePriority(k: Kernel, t: Tid, p: nat)
    requires Inv(k) && t in k.held && p == Num(k.s.prio, t)
    ensures Inv(SetPriority(k, t, p))
  {
    SamePrioritySched(k, t, p, S.PrioChange(k.s, t, p));
    if S.IsReady(k.s, t) {
      SchedFrameInv(k, k.(s := S.PrioChange(k.s, t, p)));
    }
  }

  lemma SamePrioritySched(k: Kernel, t: Tid, p: nat, r: S.Sched)
    requires Inv(k) && t in k.held && p == Num(k.s.prio, t) && r == S.PrioChange(k.s, t, p)
    ensures k.s.prio[t := p] == k.s.prio
    ensures S.IsReady(k.s, t) ==> S.Inv(r) && r.prio == k.s.prio && r.state == k.s.state && r.cur == k.s.cur
  {
    assert S.TaskOk(k.s, t);
    if S.IsReady(k.s, t) {
      S.PrioChangeInv(k.s, t, p);
    }
  }

  lemma NotExact(k: Kernel, t: Tid, p: nat, r: Kernel)
    requires Inv(k) && t in k.held && p != Num(k.s.prio, t)
    requires r == k.(s := r.s) && r.s.prio == k.s.prio[t := p]
    ensures !Exact(r, t)
  {
    forall w | Waits(k, t, w) ensures w != t {
      var m :| m in List(k.held, t) && w in List(k.waiters, m);
      assert HolderOk(k, t) && MutexOk(k, m);
    }
    WaitsFrame(k, r, t);
    assert Exact(k, t);
    if IsBest(r, t, p) {
      SameBest(r, k, t, p);
      BestIsUnique(k, t, p, Num(k.s.prio, t));
    }
  }
}
