/** Every mutex operation keeps the invariant, exact inheritance included. */
module MutexInv {
  import opened Base
  import opened PrioBitmap
  import opened TaskQueue
  import opened Mutex
  import S = Schedule

  // ----- frames -----

  lemma SortedFrame(q: seq<Tid>, prio: map<Tid, nat>, stamp: map<Tid, nat>, prio': map<Tid, nat>, stamp': map<Tid, nat>)
    requires Sorted(q, prio, stamp)
    requires forall x :: x in q ==> Num(prio', x) == Num(prio, x) && Num(stamp', x) == Num(stamp, x)
    ensures Sorted(q, prio', stamp')
  {
    forall i, j | 0 <= i < j < |q| ensures Ahead(prio', stamp', q[i], q[j]) {
      assert Ahead(prio, stamp, q[i], q[j]);
      assert q[i] in q && q[j] in q;
    }
  }

  /** Same waiters at the same priorities: the same best. */
  lemma SameBest(k: Kernel, r: Kernel, t: Tid, p: nat)
    requires IsBest(k, t, p) && Num(r.orig, t) == Num(k.orig, t)
    requires forall w :: Waits(r, t, w) <==> Waits(k, t, w)
    requires forall w :: Waits(k, t, w) ==> Num(r.s.prio, w) == Num(k.s.prio, w)
    ensures IsBest(r, t, p)
  {
  }

  /** A queue is untouched when its tasks are. */
  lemma QueueFrame(k: Kernel, r: Kernel, q: seq<Tid>)
    requires QueueOk(k, q)
    requires forall w :: w in q && WaiterOk(k, w) ==> SameTask(k, r, w)
    requires r.clock >= k.clock
    ensures QueueOk(r, q)
  {
    forall w | w in q ensures WaiterOk(r, w) {
      assert WaiterOk(k, w);
    }
    forall x | x in q ensures Num(r.s.prio, x) == Num(k.s.prio, x) && Num(r.stamp, x) == Num(k.stamp, x) {
      assert WaiterOk(k, x);
    }
    SortedFrame(q, k.s.prio, k.stamp, r.s.prio, r.stamp);
  }

  /** The task's record is the same in both states. */
  ghost predicate SameTask(k: Kernel, r: Kernel, w: Tid) {
    && w in r.held && (S.IsReady(r.s, w) <==> S.IsReady(k.s, w))
    && Num(r.s.prio, w) == Num(k.s.prio, w) && Num(r.stamp, w) == Num(k.stamp, w)
  }

  lemma WaitsFrame(k: Kernel, r: Kernel, x: Tid)
    requires List(r.held, x) == List(k.held, x) && forall n :: List(r.waiters, n) == List(k.waiters, n)
    ensures forall w :: Waits(r, x, w) <==> Waits(k, x, w)
  {
    forall w ensures Waits(r, x, w) <==> Waits(k, x, w) {
      if n :| n in List(k.held, x) && w in List(k.waiters, n) {
        assert w in List(r.waiters, n);
      }
      if n :| n in List(r.held, x) && w in List(r.waiters, n) {
        assert w in List(k.waiters, n);
      }
    }
  }

  lemma OnceFrame(k: Kernel, r: Kernel)
    requires Inv(k) && forall n :: n in r.owner ==> n in k.owner && List(r.waiters, n) == List(k.waiters, n)
    ensures forall a, b {:trigger WaitsOnce(r, a, b)} :: a in r.owner && b in r.owner && a != b ==> WaitsOnce(r, a, b)
  {
    forall a, b | a in r.owner && b in r.owner && a != b ensures WaitsOnce(r, a, b) {
      assert WaitsOnce(k, a, b);
    }
  }

  /** The facts about a task blocked on m. */
  lemma WaiterFacts(k: Kernel, m: Mid, w: Tid)
    requires Inv(k) && w in List(k.waiters, m)
    ensures WaiterOk(k, w) && m in k.owner && k.owner[m].Some? && w != k.owner[m].value
  {
    assert MutexOk(k, m);
    assert WaiterOk(k, w);
  }

  // ----- take -----

  lemma GrantMutex(k: Kernel, m: Mid, t: Tid, n: Mid)
    requires Inv(k) && m in k.owner && k.owner[m].None? && t in k.held && S.IsReady(k.s, t) && n in k.owner
    requires Known(Grant(k, m, t))
    ensures MutexOk(Grant(k, m, t), n)
  {
    assert MutexOk(k, n);
    QueueFrame(k, Grant(k, m, t), k.waiters[n]);
  }

  lemma GrantExact(k: Kernel, m: Mid, t: Tid, x: Tid)
    requires Inv(k) && m in k.owner && k.owner[m].None? && x in k.orig
    ensures Exact(Grant(k, m, t), x)
  {
    assert MutexOk(k, m) && Exact(k, x);
    GrantWaits(k, m, t, x);
  }

  lemma GrantLists(k: Kernel, m: Mid, t: Tid)
    requires Inv(k) && m in k.owner && k.owner[m].None? && t in k.held && S.IsReady(k.s, t)
    ensures var r := Grant(k, m, t);
            Known(r) && (forall x {:trigger HolderOk(r, x)} :: x in r.held ==> HolderOk(r, x))
  {
    var r := Grant(k, m, t);
    assert MutexOk(k, m) && HolderOk(k, t);
    AppendNoDup(k.held[t], m);
    forall x | x in r.held ensures HolderOk(r, x) {
      assert HolderOk(k, x);
    }
  }

  lemma GrantInv(k: Kernel, m: Mid, t: Tid)
    requires Inv(k) && m in k.owner && k.owner[m].None? && t in k.held && S.IsReady(k.s, t)
    ensures Inv(Grant(k, m, t))
  {
    var r := Grant(k, m, t);
    GrantLists(k, m, t);
    forall n | n in r.owner ensures MutexOk(r, n) {
      GrantMutex(k, m, t, n);
    }
    OnceFrame(k, r);
    forall x | x in r.orig ensures Exact(r, x) {
      GrantExact(k, m, t, x);
    }
  }

  lemma GrantWaits(k: Kernel, m: Mid, t: Tid, x: Tid)
    requires List(k.waiters, m) == []
    ensures forall w :: Waits(Grant(k, m, t), x, w) <==> Waits(k, x, w)
  {
    var r := Grant(k, m, t);
    forall w | Waits(k, x, w) ensures Waits(r, x, w) {
      var n :| n in List(k.held, x) && w in List(k.waiters, n);
      assert n in List(r.held, x);
    }
    forall w | Waits(r, x, w) ensures Waits(k, x, w) {
      var n :| n in List(r.held, x) && w in List(k.waiters, n);
      assert n != m;
      assert n in List(k.held, x);
    }
  }

  lemma NestMutex(k: Kernel, r: Kernel, m: Mid, n: nat, x: Mid)
    requires Inv(k) && m in k.owner && k.owner[m].Some? && x in k.owner
    requires r == k.(nest := k.nest[m := n])
    ensures MutexOk(r, x)
  {
    assert MutexOk(k, x);
    QueueFrame(k, r, k.waiters[x]);
  }

  lemma NestInv(k: Kernel, m: Mid, n: nat)
    requires Inv(k) && m in k.owner && k.owner[m].Some?
    ensures Inv(k.(nest := k.nest[m := n]))
  {
    var r := k.(nest := k.nest[m := n]);
    forall x | x in r.owner ensures MutexOk(r, x) {
      NestMutex(k, r, m, n, x);
    }
    forall x | x in r.held ensures HolderOk(r, x) {
      assert HolderOk(k, x);
    }
    OnceFrame(k, r);
    forall x | x in r.orig ensures Exact(r, x) {
      assert Exact(k, x);
      WaitsFrame(k, r, x);
    }
  }

  // ----- the node leaves a queue -----

  lemma {:induction false} WithoutAbsent(q: seq<nat>, t: nat)
    requires t !in q
    ensures Without(q, t) == q
  {
    if q != [] {
      WithoutAbsent(q[1..], t);
    }
  }

  /** A task on no queue leaves none. */
  lemma UnlinkNothing(waiters: map<Mid, seq<Tid>>, t: Tid)
    requires forall m :: t !in List(waiters, m)
    ensures Unlink(waiters, t) == waiters
  {
    forall m | m in waiters ensures Without(waiters[m], t) == waiters[m] {
      assert t !in List(waiters, m);
      WithoutAbsent(waiters[m], t);
    }
  }

  // ----- blocking take -----

  /** The owner can take the boost: it is READY, or its priority need not change. */
  predicate Boostable(k: Kernel, t: Tid, o: Tid) {
    Boosts(k, t, o) ==> S.IsReady(k.s, o)
  }

  /** A boost of a READY owner touches no queue. */
  lemma BoostIsPlain(k: Kernel, t: Tid, o: Tid)
    requires Inv(k) && Boostable(k, t, o)
    ensures Boost(k, t, o) == k.(s := if Boosts(k, t, o) then S.PrioChange(k.s, o, Num(k.s.prio, t)) else k.s)
  {
    if Boosts(k, t, o) {
      NotQueued(k, o);
      UnlinkNothing(k.waiters, o);
    }
  }

  /** r is k after the boost of o and the suspension of t on m. */
  ghost predicate Blocked(k: Kernel, m: Mid, t: Tid, o: Tid, r: Kernel) {
    && r == k.(s := r.s, err := r.err, stamp := k.stamp[t := k.clock], clock := k.clock + 1,
               waiters := k.waiters[m := SortedInsert(List(k.waiters, m), r.s.prio, t)])
    && S.Inv(r.s) && r.s.cur == k.s.cur && r.s.prio.Keys == k.s.prio.Keys
    && (forall x :: x != o ==> Num(r.s.prio, x) == Num(k.s.prio, x))
    && Num(r.s.prio, o) == (if Boosts(k, t, o) then Num(k.s.prio, t) else Num(k.s.prio, o))
    && (forall x :: S.IsReady(r.s, x) <==> S.IsReady(k.s, x) && x != t)
  }

  lemma BlockShape(k: Kernel, m: Mid, t: Tid, o: Tid)
    requires MayBlock(k, m, t, o)
    ensures Blocked(k, m, t, o, Block(k, m, t, o))
  {
    OwnerFacts(k, m);
    BoostIsPlain(k, t, o);
    var b, r := Boost(k, t, o), Block(k, m, t, o);
    BlockSched(k, t, o, b.s);
    BlockFields(k, b, m, t);
    S.FlagsInv(S.Suspend(b.s, t), r.s);
  }

  lemma BlockFields(k: Kernel, b: Kernel, m: Mid, t: Tid)
    requires b == k.(s := b.s)
    ensures var r := Enqueue(b, m, t);
            && r.s == S.Suspend(b.s, t).(asked := r.s.asked)
            && r == k.(s := r.s, err := r.err, stamp := k.stamp[t := k.clock], clock := k.clock + 1,
                       waiters := k.waiters[m := SortedInsert(List(k.waiters, m), r.s.prio, t)])
  {
  }

  lemma BlockSched(k: Kernel, t: Tid, o: Tid, b: S.Sched)
    requires Inv(k) && t in k.held && o in k.held && t != o && S.IsReady(k.s, t) && Boostable(k, t, o)
    requires b == if Boosts(k, t, o) then S.PrioChange(k.s, o, Num(k.s.prio, t)) else k.s
    ensures var s, p := S.Suspend(b, t), Num(k.s.prio, t);
            && S.Inv(s) && s.cur == k.s.cur
            && s.prio.Keys == k.s.prio.Keys
            && (forall x :: x != o ==> Num(s.prio, x) == Num(k.s.prio, x))
            && Num(s.prio, o) == (if p < Num(k.s.prio, o) then p else Num(k.s.prio, o))
            && (forall x :: S.IsReady(s, x) <==> S.IsReady(k.s, x) && x != t)
  {
    assert S.TaskOk(k.s, t);
    if Boosts(k, t, o) {
      S.PrioChangeInv(k.s, o, Num(k.s.prio, t));
    }
    S.SuspendInv(b, t);
  }

  /** A task that blocks on m while o owns it. */
  ghost predicate MayBlock(k: Kernel, m: Mid, t: Tid, o: Tid) {
    && Inv(k) && m in k.owner && k.owner[m] == Some(o)
    && t in k.held && S.IsReady(k.s, t) && t != o && Boostable(k, t, o)
  }

  lemma BlockWaits(k: Kernel, m: Mid, t: Tid, o: Tid, r: Kernel, x: Tid)
    requires MayBlock(k, m, t, o) && Blocked(k, m, t, o, r) && x in k.held
    ensures forall w :: Waits(r, x, w) <==> Waits(k, x, w) || (x == o && w == t)
  {
    OwnerFacts(k, m);
    NotQueued(k, t);
    assert MutexOk(k, m) && HolderOk(k, x);
    InsertMembers(List(k.waiters, m), r.s.prio, t);
    InsertedWaits(k, r, m, t, o, x);
  }

  lemma InsertedWaits(k: Kernel, r: Kernel, m: Mid, t: Tid, o: Tid, x: Tid)
    requires List(r.held, x) == List(k.held, x) && (m in List(k.held, x) <==> x == o)
    requires forall n :: n != m ==> List(r.waiters, n) == List(k.waiters, n)
    requires forall w :: w in List(r.waiters, m) <==> w in List(k.waiters, m) || w == t
    ensures forall w :: Waits(r, x, w) <==> Waits(k, x, w) || (x == o && w == t)
  {
    forall w | Waits(k, x, w) ensures Waits(r, x, w) {
      var n :| n in List(k.held, x) && w in List(k.waiters, n);
      assert w in List(r.waiters, n);
    }
    if x == o {
      assert m in List(r.held, x) && t in List(r.waiters, m);
    }
    forall w | Waits(r, x, w) ensures Waits(k, x, w) || (x == o && w == t) {
      var n :| n in List(r.held, x) && w in List(r.waiters, n);
      assert w in List(k.waiters, n) || (n == m && w == t);
    }
  }

  lemma BlockExact(k: Kernel, m: Mid, t: Tid, o: Tid, r: Kernel, x: Tid)
    requires MayBlock(k, m, t, o) && Blocked(k, m, t, o, r) && x in k.held
    ensures Exact(r, x)
  {
    BlockWaits(k, m, t, o, r, x);
    assert Exact(k, x);
    forall w | Waits(k, x, w) ensures Num(r.s.prio, w) == Num(k.s.prio, w) {
      WaitingIsBlocked(k, x, w);
    }
    if x != o {
      SameBest(k, r, x, Num(k.s.prio, x));
    } else {
      assert Waits(r, o, t);
    }
  }

  lemma OwnerFacts(k: Kernel, m: Mid)
    requires Inv(k) && m in k.owner && k.owner[m].Some?
    ensures k.owner[m].value in k.held && m in k.held[k.owner[m].value] && k.owner[m].value !in k.waiters[m]
  {
    assert MutexOk(k, m);
  }

  /** A READY task is on no wait queue. */
  lemma NotQueued(k: Kernel, t: Tid)
    requires Inv(k) && S.IsReady(k.s, t)
    ensures forall m :: t !in List(k.waiters, m)
  {
    forall m ensures t !in List(k.waiters, m) {
      if t in List(k.waiters, m) {
        WaiterFacts(k, m, t);
      }
    }
  }

  lemma WaitingIsBlocked(k: Kernel, x: Tid, w: Tid)
    requires Inv(k) && Waits(k, x, w)
    ensures WaiterOk(k, w)
  {
    var n :| n in List(k.held, x) && w in List(k.waiters, n);
    WaiterFacts(k, n, w);
  }

  lemma BlockQueue(k: Kernel, m: Mid, t: Tid, o: Tid, r: Kernel, n: Mid)
    requires MayBlock(k, m, t, o) && Blocked(k, m, t, o, r) && n in k.owner
    requires n in r.waiters && n in k.waiters
    ensures QueueOk(r, r.waiters[n])
  {
    var q := k.waiters[n];
    NotQueued(k, t);
    assert MutexOk(k, n);
    assert t !in List(k.waiters, n);
    assert forall w :: w in q && WaiterOk(k, w) ==> SameTask(k, r, w);
    QueueFrame(k, r, q);
    if n == m {
      InsertMembers(q, r.s.prio, t);
      assert forall w :: w in q ==> WaiterOk(r, w) && WaiterOk(k, w);
      InsertSorted(q, r.s.prio, r.stamp, t);
      assert WaiterOk(r, t);
    }
  }

  lemma BlockOnce(k: Kernel, m: Mid, t: Tid, o: Tid, r: Kernel, a: Mid, b: Mid)
    requires MayBlock(k, m, t, o) && Blocked(k, m, t, o, r) && a in k.owner && b in k.owner && a != b
    ensures WaitsOnce(r, a, b)
  {
    NotQueued(k, t);
    assert WaitsOnce(k, a, b) && MutexOk(k, m);
    assert t !in List(k.waiters, a) && t !in List(k.waiters, b) && t !in List(k.waiters, m);
    InsertMembers(List(k.waiters, m), r.s.prio, t);
  }

  lemma BlockMutex(k: Kernel, m: Mid, t: Tid, o: Tid, r: Kernel, n: Mid)
    requires MayBlock(k, m, t, o) && Blocked(k, m, t, o, r) && n in k.owner && Known(r)
    ensures MutexOk(r, n)
  {
    NotQueued(k, t);
    assert MutexOk(k, n);
    BlockQueue(k, m, t, o, r, n);
    if n == m {
      assert t !in List(k.waiters, m);
      InsertMembers(k.waiters[m], r.s.prio, t);
    }
  }

  lemma BlockLists(k: Kernel, m: Mid, t: Tid, o: Tid, r: Kernel)
    requires MayBlock(k, m, t, o) && Blocked(k, m, t, o, r)
    ensures Known(r) && (forall x {:trigger HolderOk(r, x)} :: x in r.held ==> HolderOk(r, x))
  {
    OwnerFacts(k, m);
    forall x | x in r.held ensures HolderOk(r, x) {
      assert HolderOk(k, x);
    }
  }

  lemma BlockInv(k: Kernel, m: Mid, t: Tid, o: Tid)
    requires MayBlock(k, m, t, o)
    ensures Inv(Block(k, m, t, o))
  {
    BlockShape(k, m, t, o);
    BlockedInv(k, m, t, o, Block(k, m, t, o));
  }

  lemma BlockedInv(k: Kernel, m: Mid, t: Tid, o: Tid, r: Kernel)
    requires MayBlock(k, m, t, o) && Blocked(k, m, t, o, r)
    ensures Inv(r)
  {
    BlockLists(k, m, t, o, r);
    forall n | n in r.owner ensures MutexOk(r, n) {
      BlockMutex(k, m, t, o, r, n);
    }
    forall a, b | a in r.owner && b in r.owner && a != b ensures WaitsOnce(r, a, b) {
      BlockOnce(k, m, t, o, r, a, b);
    }
    forall x | x in r.orig ensures Exact(r, x) {
      BlockExact(k, m, t, o, r, x);
    }
  }

  /** A boost of an owner that is not READY puts it on a ready list as it is. */
  lemma BlockedBoostBreaks(k: Kernel, m: Mid, t: Tid, o: Tid)
    requires Inv(k) && t in k.held && o in k.held && t != o && S.IsReady(k.s, t) && !Boostable(k, t, o)
    ensures Stray(Block(k, m, t, o).s, o, Num(k.s.prio, t)) && !S.Inv(Block(k, m, t, o).s)
  {
    var p := Num(k.s.prio, t);
    assert S.TaskOk(k.s, t);
    S.ListedUnready(k.s, o, p);
    StillListed(Boost(k, t, o).s, t, o, p);
    StrayBreaks(Block(k, m, t, o).s, o, p);
  }

  lemma StillListed(s: S.Sched, t: Tid, o: Tid, p: nat)
    requires p < |s.queue| && o in s.queue[p] && t != o
    ensures |S.Suspend(s, t).queue| == |s.queue| && o in S.Suspend(s, t).queue[p]
  {
    OthersStay(s.queue[p], t, o);
  }

  lemma {:induction false} OthersStay(q: seq<nat>, t: nat, o: nat)
    requires o in q && t != o
    ensures o in Without(q, t)
  {
    if q[0] != t && q[0] != o {
      OthersStay(q[1..], t, o);
    }
  }

  // ----- a mutex taken off its owner's list -----

  /** The invariant, but m is on nobody's held list, whatever its owner field says. */
  ghost predicate Loose(k: Kernel, m: Mid, ex: set<Tid>) {
    && S.Inv(k.s)
    && Known(k)
    && m in k.owner && QueueOk(k, k.waiters[m])
    && (forall n {:trigger MutexOk(k, n)} :: n in k.owner && n != m ==> MutexOk(k, n))
    && (forall t {:trigger HolderOk(k, t)} :: t in k.held ==> HolderOk(k, t) && m !in k.held[t])
    && (forall a, b {:trigger WaitsOnce(k, a, b)} :: a in k.owner && b in k.owner && a != b ==> WaitsOnce(k, a, b))
    && (forall t {:trigger Exact(k, t)} :: t in k.orig && t !in ex ==> Exact(k, t))
  }

  lemma DropWaits(k: Kernel, m: Mid, t: Tid, x: Tid, ex: set<Tid>)
    requires InvBut(k, ex) && m in k.owner && k.owner[m] == Some(t) && x in k.held
    ensures forall w :: Waits(DropHeld(k, m, t), x, w) <==> Waits(k, x, w) && !(x == t && w in List(k.waiters, m))
  {
    var d := DropHeld(k, m, t);
    assert MutexOk(k, m) && HolderOk(k, t) && HolderOk(k, x);
    WithoutMembers(k.held[t], m);
    forall w | Waits(k, x, w) && !(x == t && w in List(k.waiters, m)) ensures Waits(d, x, w) {
      var n :| n in List(k.held, x) && w in List(k.waiters, n);
      assert n in List(d.held, x);
    }
    forall w | Waits(d, x, w) ensures Waits(k, x, w) && !(x == t && w in List(k.waiters, m)) {
      var n :| n in List(d.held, x) && w in List(k.waiters, n);
      assert n in List(k.held, x);
      assert n != m ==> WaitsOnce(k, m, n);
    }
  }

  lemma DropLoose(k: Kernel, m: Mid, t: Tid, ex: set<Tid>)
    requires InvBut(k, ex) && m in k.owner && k.owner[m] == Some(t)
    ensures Loose(DropHeld(k, m, t), m, ex + {t})
  {
    var d := DropHeld(k, m, t);
    assert MutexOk(k, m) && HolderOk(k, t);
    WithoutMembers(k.held[t], m);
    assert forall w :: w in k.held ==> SameTask(k, d, w);
    QueueFrame(k, d, k.waiters[m]);
    forall n | n in d.owner && n != m ensures MutexOk(d, n) {
      assert MutexOk(k, n);
      QueueFrame(k, d, k.waiters[n]);
    }
    forall x | x in d.held ensures HolderOk(d, x) && m !in d.held[x] {
      assert HolderOk(k, x);
    }
    forall a, b | a in d.owner && b in d.owner && a != b ensures WaitsOnce(d, a, b) {
      assert WaitsOnce(k, a, b);
    }
    forall x | x in d.orig && x !in ex + {t} ensures Exact(d, x) {
      assert Exact(k, x);
      DropWaits(k, m, t, x, ex);
    }
  }

  /** The scheduler with t at its inherited priority. */
  ghost predicate Restored(d: Kernel, t: Tid, s: S.Sched) {
    || (S.IsReady(d.s, t) && s == S.PrioChange(d.s, t, Inherited(d, t)))
    || (s == d.s && Num(d.s.prio, t) == Inherited(d, t))
  }

  lemma RestoredSched(d: Kernel, t: Tid, s: S.Sched)
    requires S.Inv(d.s) && Known(d) && t in d.held && Restored(d, t, s)
    ensures S.Inv(s) && s.cur == d.s.cur && s.prio.Keys == d.s.prio.Keys && s.state == d.s.state
    ensures !S.IsReady(d.s, t) ==> s == d.s
    ensures Num(s.prio, t) == Inherited(d, t) && forall x :: x != t ==> Num(s.prio, x) == Num(d.s.prio, x)
  {
    InheritedIsBest(d, t);
    assert S.TaskOk(d.s, t);
    if S.IsReady(d.s, t) {
      S.PrioChangeInv(d.s, t, Inherited(d, t));
    }
  }

  lemma RestoredExact(d: Kernel, m: Mid, t: Tid, s: S.Sched, x: Tid)
    requires Loose(d, m, {t}) && t in d.held && Restored(d, t, s) && x in d.held
    ensures Exact(d.(s := s), x)
  {
    var r := d.(s := s);
    RestoredSched(d, t, s);
    InheritedIsBest(d, t);
    if x != t {
      assert Exact(d, x);
    }
    LooseWaiters(d, m, {t}, x);
    assert forall w :: Waits(r, x, w) <==> Waits(d, x, w);
    SameBest(d, r, x, Num(s.prio, x));
  }

  /** Back to exact inheritance for t by the restored priority. */
  lemma RestoreLoose(d: Kernel, m: Mid, t: Tid, s: S.Sched)
    requires Loose(d, m, {t}) && t in d.held && Restored(d, t, s)
    ensures Loose(d.(s := s), m, {})
  {
    var r := d.(s := s);
    RestoredSched(d, t, s);
    assert forall w :: WaiterOk(d, w) ==> SameTask(d, r, w);
    QueueFrame(d, r, d.waiters[m]);
    forall n | n in r.owner && n != m ensures MutexOk(r, n) {
      assert MutexOk(d, n);
      QueueFrame(d, r, d.waiters[n]);
    }
    forall x | x in r.held ensures HolderOk(r, x) && m !in r.held[x] {
      assert HolderOk(d, x);
    }
    forall a, b | a in r.owner && b in r.owner && a != b ensures WaitsOnce(r, a, b) {
      assert WaitsOnce(d, a, b);
    }
    forall x | x in r.orig ensures Exact(r, x) {
      RestoredExact(d, m, t, s, x);
    }
  }

  lemma LooseWaiters(d: Kernel, m: Mid, ex: set<Tid>, x: Tid)
    requires Loose(d, m, ex) && x in d.held
    ensures forall w :: Waits(d, x, w) ==> WaiterOk(d, w)
  {
    forall w | Waits(d, x, w) ensures WaiterOk(d, w) {
      var n :| n in List(d.held, x) && w in List(d.waiters, n);
      assert HolderOk(d, x);
      assert MutexOk(d, n);
    }
  }

  // ----- release without waiters -----

  /** Under exact inheritance the restore in the uncontended release changes nothing. */
  lemma UncontendedRestoreIsNoOp(k: Kernel, m: Mid, t: Tid)
    requires Inv(k) && m in k.owner && k.owner[m] == Some(t) && k.waiters[m] == []
    ensures Inherited(DropHeld(k, m, t), t) == Num(k.s.prio, t)
    ensures Unlock(k, m, t).s == k.s
  {
    var d := DropHeld(k, m, t);
    OwnerFacts(k, m);
    DropWaits(k, m, t, t, {});
    assert Exact(k, t);
    SameBest(k, d, t, Num(k.s.prio, t));
    InheritedIsBest(d, t);
    BestIsUnique(d, t, Num(k.s.prio, t), Inherited(d, t));
  }

  /** A loose mutex without waiters becomes an unlocked one. */
  lemma LooseUnlock(d: Kernel, m: Mid, ex: set<Tid>)
    requires Loose(d, m, ex) && d.waiters[m] == []
    ensures InvBut(d.(owner := d.owner[m := None], locked := d.locked[m := false], nest := d.nest[m := 0]), ex)
  {
    var r := d.(owner := d.owner[m := None], locked := d.locked[m := false], nest := d.nest[m := 0]);
    forall n | n in r.owner ensures MutexOk(r, n) {
      if n != m {
        assert MutexOk(d, n);
      }
      QueueFrame(d, r, d.waiters[n]);
    }
    forall x | x in r.held ensures HolderOk(r, x) {
      assert HolderOk(d, x);
    }
    forall a, b | a in r.owner && b in r.owner && a != b ensures WaitsOnce(r, a, b) {
      assert WaitsOnce(d, a, b);
    }
    forall x | x in r.orig && x !in ex ensures Exact(r, x) {
      assert Exact(d, x);
      assert forall w :: Waits(r, x, w) <==> Waits(d, x, w);
    }
  }

  lemma UnlockInv(k: Kernel, m: Mid, t: Tid)
    requires Inv(k) && m in k.owner && k.owner[m] == Some(t) && k.waiters[m] == []
    ensures Inv(Unlock(k, m, t))
  {
    var d := DropHeld(k, m, t);
    OwnerFacts(k, m);
    UncontendedRestoreIsNoOp(k, m, t);
    DropLoose(k, m, t, {});
    RestoreLoose(d, m, t, d.s);
    LooseUnlock(d, m, {});
  }

  // ----- hand-off -----

  /** The head of a loose mutex's queue wakes and becomes its owner. */
  function GrantHead(d: Kernel, m: Mid): Kernel
    requires List(d.waiters, m) != []
  {
    var w := List(d.waiters, m)[0];
    Grant(d.(s := S.AskFor(S.MakeReady(d.s, w), w),
             waiters := d.waiters[m := List(d.waiters, m)[1..]], err := d.err[w := EOK]), m, w)
  }

  lemma WakeSched(s: S.Sched, w: Tid)
    requires S.Inv(s) && w in s.prio && !S.IsReady(s, w)
    ensures var r := S.AskFor(S.MakeReady(s, w), w);
            && S.Inv(r) && r.prio == s.prio && r.cur == s.cur && r.state.Keys == s.state.Keys
            && (r.asked <==> s.asked || S.Outranks(s, w, s.cur))
            && forall x :: S.IsReady(r, x) <==> S.IsReady(s, x) || x == w
  {
    S.MakeReadyInv(s, w);
    S.FlagsInv(S.MakeReady(s, w), S.AskFor(S.MakeReady(s, w), w));
  }

  lemma HeadFacts(d: Kernel, m: Mid, ex: set<Tid>)
    requires Loose(d, m, ex) && d.waiters[m] != []
    ensures var w, q := d.waiters[m][0], d.waiters[m];
            && WaiterOk(d, w) && w !in q[1..] && QueueOk(d, q[1..])
            && (forall x :: x in q ==> Num(d.s.prio, w) <= Num(d.s.prio, x))
            && (forall n :: n != m ==> w !in List(d.waiters, n))
            && (forall x :: x in q <==> x == w || x in q[1..])
  {
    var q, w := d.waiters[m], d.waiters[m][0];
    SortedTail(q, d.s.prio, d.stamp);
    assert w in q && q == [w] + q[1..];
    assert WaiterOk(d, w);
    forall n | n != m ensures w !in List(d.waiters, n) {
      assert n in d.owner ==> WaitsOnce(d, m, n);
    }
  }

  lemma GrantHeadWaits(d: Kernel, m: Mid, ex: set<Tid>, x: Tid)
    requires Loose(d, m, ex) && d.waiters[m] != [] && x in d.held
    ensures var w, r := d.waiters[m][0], GrantHead(d, m);
            forall y :: Waits(r, x, y) <==> Waits(d, x, y) || (x == w && y in d.waiters[m][1..])
  {
    var w, r := d.waiters[m][0], GrantHead(d, m);
    HeadFacts(d, m, ex);
    assert HolderOk(d, x) && WaiterOk(d, w);
    forall y | Waits(d, x, y) ensures Waits(r, x, y) {
      var n :| n in List(d.held, x) && y in List(d.waiters, n);
      assert n in List(r.held, x) && y in List(r.waiters, n);
    }
    forall y | x == w && y in d.waiters[m][1..] ensures Waits(r, x, y) {
      assert m in List(r.held, x) && y in List(r.waiters, m);
    }
    forall y | Waits(r, x, y) ensures Waits(d, x, y) || (x == w && y in d.waiters[m][1..]) {
      var n :| n in List(r.held, x) && y in List(r.waiters, n);
      assert n != m ==> n in List(d.held, x) && y in List(d.waiters, n);
    }
  }

  lemma GrantHeadExact(d: Kernel, m: Mid, ex: set<Tid>, x: Tid)
    requires Loose(d, m, ex) && d.waiters[m] != [] && x in d.held && x !in ex && d.waiters[m][0] !in ex
    ensures Exact(GrantHead(d, m), x)
  {
    var w, r := d.waiters[m][0], GrantHead(d, m);
    HeadFacts(d, m, ex);
    WakeSched(d.s, w);
    assert Exact(d, x) && Exact(d, w);
    GrantHeadWaits(d, m, ex, x);
  }

  lemma GrantHeadMutex(d: Kernel, m: Mid, ex: set<Tid>, n: Mid)
    requires Loose(d, m, ex) && d.waiters[m] != [] && n in d.owner
    requires Known(GrantHead(d, m))
    ensures MutexOk(GrantHead(d, m), n)
  {
    var w, r := d.waiters[m][0], GrantHead(d, m);
    HeadFacts(d, m, ex);
    WakeSched(d.s, w);
    var q := r.waiters[n];
    if n != m {
      assert MutexOk(d, n);
      assert w !in List(d.waiters, n);
    }
    assert forall x :: x in q && WaiterOk(d, x) ==> SameTask(d, r, x);
    QueueFrame(d, r, q);
  }

  lemma GrantHeadLists(d: Kernel, m: Mid, ex: set<Tid>)
    requires Loose(d, m, ex) && d.waiters[m] != [] && d.waiters[m][0] !in ex
    requires Known(GrantHead(d, m))
    ensures var r := GrantHead(d, m);
            && (forall x {:trigger HolderOk(r, x)} :: x in r.held ==> HolderOk(r, x))
            && (forall a, b {:trigger WaitsOnce(r, a, b)} :: a in r.owner && b in r.owner && a != b ==>
                WaitsOnce(r, a, b))
  {
    var w, r := d.waiters[m][0], GrantHead(d, m);
    HeadFacts(d, m, ex);
    forall x | x in r.held ensures HolderOk(r, x) {
      assert HolderOk(d, x) && HolderOk(d, w);
    }
    forall a, b | a in r.owner && b in r.owner && a != b ensures WaitsOnce(r, a, b) {
      assert WaitsOnce(d, a, b);
    }
  }

  lemma GrantHeadInv(d: Kernel, m: Mid, ex: set<Tid>)
    requires Loose(d, m, ex) && d.waiters[m] != [] && d.waiters[m][0] !in ex
    ensures InvBut(GrantHead(d, m), ex)
  {
    var w, r := d.waiters[m][0], GrantHead(d, m);
    HeadFacts(d, m, ex);
    WakeSched(d.s, w);
    assert Known(r);
    forall n | n in r.owner ensures MutexOk(r, n) {
      GrantHeadMutex(d, m, ex, n);
    }
    GrantHeadLists(d, m, ex);
    forall x | x in r.orig && x !in ex ensures Exact(r, x) {
      GrantHeadExact(d, m, ex, x);
    }
  }

  lemma HandOffInv(k: Kernel, m: Mid, t: Tid)
    requires Inv(k) && m in k.owner && k.owner[m] == Some(t) && k.waiters[m] != [] && S.IsReady(k.s, t)
    ensures Inv(HandOff(k, m, t))
  {
    var d := DropHeld(k, m, t);
    var s := S.PrioChange(d.s, t, Inherited(d, t));
    OwnerFacts(k, m);
    DropLoose(k, m, t, {});
    RestoreLoose(d, m, t, s);
    GrantHeadInv(d.(s := s), m, {});
  }

  // ----- waking everybody -----

  lemma {:induction false} WakeQueueEffect(s: S.Sched, err: map<Tid, Code>, q: seq<Tid>)
    requires S.Inv(s) && NoDup(q)
    requires forall x :: x in q ==> x in s.prio && !S.IsReady(s, x)
    ensures var (r, e) := WakeQueue(s, err, q);
            && S.Inv(r) && r.prio == s.prio && r.cur == s.cur && r.state.Keys == s.state.Keys
            && (r.asked <==> s.asked || exists x :: x in q && S.Outranks(s, x, s.cur))
            && (forall x :: S.IsReady(r, x) <==> S.IsReady(s, x) || x in q)
            && (forall x :: x in q ==> x in e && e[x] == EDELETED)
            && (forall x :: x !in q ==> (x in e <==> x in err) && (x in err ==> e[x] == err[x]))
    decreases |q|
  {
    if q != [] {
      WakeSched(s, q[0]);
      assert q[0] in q && q[0] !in q[1..];
      assert q == [q[0]] + q[1..];
      var s' := S.AskFor(S.MakeReady(s, q[0]), q[0]);
      WakeQueueEffect(s', err[q[0] := EDELETED], q[1..]);
      assert forall x :: S.Outranks(s', x, s'.cur) <==> S.Outranks(s, x, s.cur);
      if x :| x in q && S.Outranks(s, x, s.cur) {
        assert x == q[0] || x in q[1..];
      }
      if x :| x in q[1..] && S.Outranks(s', x, s'.cur) {
        assert x in q;
      }
    }
  }

  /** After WakeAll the queue of a loose mutex may be emptied: nobody is blocked on it any more. */
  lemma WakeLoose(d: Kernel, m: Mid, ex: set<Tid>)
    requires Loose(d, m, ex)
    ensures InvBut(ForceRelease(d, m), ex) && ForceReleased(d, m, ForceRelease(d, m))
  {
    ForceReleaseFields(d, m, ex);
    ReleasedInv(d, m, ex, ForceRelease(d, m));
  }

  lemma ReleasedInv(d: Kernel, m: Mid, ex: set<Tid>, r: Kernel)
    requires Loose(d, m, ex) && ForceReleased(d, m, r) && S.Inv(r.s)
    ensures InvBut(r, ex)
  {
    forall n | n in r.owner ensures MutexOk(r, n) {
      ForceReleaseMutex(d, m, ex, r, n);
    }
    forall x | x in r.held ensures HolderOk(r, x) {
      assert HolderOk(d, x);
    }
    forall a, b | a in r.owner && b in r.owner && a != b ensures WaitsOnce(r, a, b) {
      assert WaitsOnce(d, a, b);
      assert forall w :: w in List(r.waiters, a) ==> w in List(d.waiters, a);
      assert forall w :: w in List(r.waiters, b) ==> w in List(d.waiters, b);
    }
    forall x | x in r.orig && x !in ex ensures Exact(r, x) {
      assert Exact(d, x);
      WakeLooseWaits(d, r, m, ex, x);
    }
  }

  /** A forced release unlocks m, wakes its queue with EDELETED, and touches nothing else. */
  ghost predicate ForceReleased(d: Kernel, m: Mid, r: Kernel)
    requires m in d.waiters
  {
    && r == d.(s := r.s, err := r.err, owner := d.owner[m := None], locked := d.locked[m := false],
               nest := d.nest[m := 0], waiters := d.waiters[m := []])
    && r.s.prio == d.s.prio && r.s.cur == d.s.cur && r.s.state.Keys == d.s.state.Keys
    && (r.s.asked <==> d.s.asked || exists x :: x in d.waiters[m] && S.Outranks(d.s, x, d.s.cur))
    && (forall x :: S.IsReady(r.s, x) <==> S.IsReady(d.s, x) || x in d.waiters[m])
    && (forall x :: x in d.waiters[m] ==> x in r.err && r.err[x] == EDELETED)
    && (forall x :: x !in d.waiters[m] ==> (x in r.err <==> x in d.err) && (x in d.err ==> r.err[x] == d.err[x]))
  }

  lemma ForceReleaseFields(d: Kernel, m: Mid, ex: set<Tid>)
    requires Loose(d, m, ex)
    ensures S.Inv(ForceRelease(d, m).s) && ForceReleased(d, m, ForceRelease(d, m))
  {
    assert forall x :: x in d.waiters[m] ==> WaiterOk(d, x);
    WakeQueueEffect(d.s, d.err, d.waiters[m]);
  }

  lemma ForceReleaseMutex(d: Kernel, m: Mid, ex: set<Tid>, r: Kernel, n: Mid)
    requires Loose(d, m, ex) && ForceReleased(d, m, r) && Known(r) && n in r.owner
    ensures MutexOk(r, n)
  {
    if n != m {
      assert MutexOk(d, n) && WaitsOnce(d, n, m);
      forall x | x in d.waiters[n] && WaiterOk(d, x) ensures SameTask(d, r, x) {
        assert x in List(d.waiters, n);
        assert x !in List(d.waiters, m);
      }
      QueueFrame(d, r, d.waiters[n]);
    }
  }

  lemma WakeLooseWaits(d: Kernel, r: Kernel, m: Mid, ex: set<Tid>, x: Tid)
    requires Loose(d, m, ex) && x in d.held && r.held == d.held && r.waiters == d.waiters[m := []]
    ensures forall w :: Waits(r, x, w) <==> Waits(d, x, w)
  {
    assert HolderOk(d, x);
    forall w ensures Waits(r, x, w) <==> Waits(d, x, w) {
      if n :| n in List(d.held, x) && w in List(d.waiters, n) {
        assert w in List(r.waiters, n);
      }
      if n :| n in List(r.held, x) && w in List(r.waiters, n) {
        assert w in List(d.waiters, n);
      }
    }
  }

  // ----- detach and delete -----

  function Vanish(k: Kernel, m: Mid): Kernel {
    k.(owner := k.owner - {m}, locked := k.locked - {m}, nest := k.nest - {m}, waiters := k.waiters - {m})
  }

  /** An unlocked mutex may go away. */
  lemma VanishInv(k: Kernel, m: Mid)
    requires Inv(k) && m in k.owner && k.owner[m].None?
    ensures Inv(Vanish(k, m))
  {
    var r := Vanish(k, m);
    assert MutexOk(k, m);
    assert forall n :: List(r.waiters, n) == List(k.waiters, n);
    forall n | n in r.owner ensures MutexOk(r, n) {
      assert MutexOk(k, n);
      QueueFrame(k, r, k.waiters[n]);
    }
    forall x | x in r.held ensures HolderOk(r, x) {
      assert HolderOk(k, x);
    }
    OnceFrame(k, r);
    forall x | x in r.orig ensures Exact(r, x) {
      assert Exact(k, x);
      WaitsFrame(k, r, x);
    }
  }

  /** The owner can lose m: it is READY, or its priority need not change. */
  predicate Strippable(k: Kernel, m: Mid) {
    match Owner(k, m)
    case None => true
    case Some(o) => S.IsReady(k.s, o) || Num(k.s.prio, o) == Inherited(DropHeld(k, m, o), o)
  }

  lemma StripLoose(k: Kernel, m: Mid)
    requires Inv(k) && m in k.owner && Strippable(k, m)
    ensures Loose(Strip(k, m), m, {}) && Strip(k, m).waiters == k.waiters && Strip(k, m).s.cur == k.s.cur
  {
    assert MutexOk(k, m);
    if k.owner[m].Some? {
      StripOwned(k, m, k.owner[m].value);
    } else {
      UnownedLoose(k, m);
    }
  }

  lemma StripOwned(k: Kernel, m: Mid, o: Tid)
    requires Inv(k) && m in k.owner && Strippable(k, m) && k.owner[m] == Some(o)
    ensures Loose(Strip(k, m), m, {}) && Strip(k, m).waiters == k.waiters && Strip(k, m).s.cur == k.s.cur
  {
    var d := DropHeld(k, m, o);
    var p := Inherited(d, o);
    OwnerFacts(k, m);
    DropLoose(k, m, o, {});
    if Num(d.s.prio, o) != p {
      var c := d.(s := S.PrioChange(d.s, o, p));
      NotQueued(k, o);
      UnlinkNothing(d.waiters, o);
      RestoreLoose(d, m, o, c.s);
      LooseAsked(c, m);
      RestoredSched(d, o, c.s);
    } else {
      RestoreLoose(d, m, o, d.s);
    }
  }

  lemma UnownedLoose(k: Kernel, m: Mid)
    requires Inv(k) && m in k.owner && k.owner[m].None?
    ensures Loose(k, m, {})
  {
    assert MutexOk(k, m);
    forall x | x in k.held ensures HolderOk(k, x) && m !in k.held[x] {
      assert HolderOk(k, x);
    }
  }

  lemma LooseAsked(d: Kernel, m: Mid)
    requires Loose(d, m, {})
    ensures Loose(d.(s := d.s.(asked := true)), m, {})
  {
    var r := d.(s := d.s.(asked := true));
    S.FlagsInv(d.s, r.s);
    QueueFrame(d, r, d.waiters[m]);
    forall n | n in r.owner && n != m ensures MutexOk(r, n) {
      assert MutexOk(d, n);
      QueueFrame(d, r, d.waiters[n]);
    }
    forall x | x in r.held ensures HolderOk(r, x) && m !in r.held[x] {
      assert HolderOk(d, x);
    }
    forall a, b | a in r.owner && b in r.owner && a != b ensures WaitsOnce(r, a, b) {
      assert WaitsOnce(d, a, b);
    }
    forall x | x in r.orig ensures Exact(r, x) {
      assert Exact(d, x);
      assert forall w :: Waits(r, x, w) <==> Waits(d, x, w);
    }
  }

  lemma DetachInv(k: Kernel, m: Mid)
    requires Inv(k) && m in k.owner && Strippable(k, m)
    ensures Inv(Detach(k, m)) && Detach(k, m) == Vanish(ForceRelease(Strip(k, m), m), m)
  {
    var d := Strip(k, m);
    StripLoose(k, m);
    WakeLoose(d, m, {});
    var w := WakeAll(d, d.waiters[m]);
    DropUpdated(w.owner, m, None);
    DropUpdated(w.locked, m, false);
    DropUpdated(w.nest, m, 0);
    DropUpdated(w.waiters, m, []);
    VanishInv(ForceRelease(d, m), m);
  }

  /** A task on a ready list without being READY. */
  ghost predicate Stray(s: S.Sched, o: Tid, p: nat) {
    p < LEVELS == |s.queue| && o in s.queue[p] && !S.IsReady(s, o)
  }

  lemma StrayBreaks(s: S.Sched, o: Tid, p: nat)
    requires Stray(s, o, p)
    ensures !S.Inv(s)
  {
    assert S.Inv(s) ==> S.LevelOk(s, p);
    assert S.LevelOk(s, p) ==> S.Listed(s, o, p);
  }

  lemma {:induction false} StrayStays(s: S.Sched, err: map<Tid, Code>, q: seq<Tid>, o: Tid, p: nat)
    requires Stray(s, o, p) && o !in q
    ensures Stray(WakeQueue(s, err, q).0, o, p)
    decreases |q|
  {
    if q != [] {
      StrayStays(S.AskFor(S.MakeReady(s, q[0]), q[0]), err[q[0] := EDELETED], q[1..], o, p);
    }
  }

  /** Taking a mutex from an owner that is not READY, when its priority has to change, puts it on a ready list. */
  lemma StripBreaks(k: Kernel, m: Mid)
    requires Inv(k) && m in k.owner && !Strippable(k, m)
    ensures !S.Inv(Detach(k, m).s)
  {
    var o := k.owner[m].value;
    var d := DropHeld(k, m, o);
    var p := Inherited(d, o);
    OwnerFacts(k, m);
    InheritedIsBest(d, o);
    S.ListedUnready(k.s, o, p);
    WithoutAbsent(k.waiters[m], o);
    StrayStays(Strip(k, m).s, Strip(k, m).err, k.waiters[m], o, p);
    StrayBreaks(Detach(k, m).s, o, p);
  }

  lemma DropUpdated<V>(f: map<nat, V>, m: nat, v: V)
    ensures f[m := v] - {m} == f - {m}
  {
  }
}
