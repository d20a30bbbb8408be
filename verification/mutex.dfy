/** Mutexes with priority inheritance over the scheduler: every operation, and what all runs keep. */
module Mutex {
  import opened Base
  import opened PrioBitmap
  import opened TaskQueue
  import S = Schedule

  type Mid = nat

  /** Per task: `orig` is orig_prio, `held` the held_mutex_list, `err` last_error, `stamp` the arrival time in a queue.
      Per mutex: owner_task (present exactly for live mutexes), locked value, nest, suspend_taker. */
  datatype Kernel = Kernel(
    s: S.Sched,
    orig: map<Tid, nat>, held: map<Tid, seq<Mid>>, err: map<Tid, Code>, stamp: map<Tid, nat>,
    owner: map<Mid, Option<Tid>>, locked: map<Mid, bool>, nest: map<Mid, nat>, waiters: map<Mid, seq<Tid>>,
    clock: nat)

  // ----- well-formedness -----

  /** Keys agree. */
  ghost predicate Known(k: Kernel) {
    && k.orig.Keys == k.s.prio.Keys == k.held.Keys
    && k.owner.Keys == k.locked.Keys == k.nest.Keys == k.waiters.Keys
    && (forall t :: t in k.orig ==> k.orig[t] < LEVELS)
    && (k.s.cur.Some? ==> k.s.cur.value in k.orig)
  }

  /** Locked, an owner, and a place on exactly that owner's held list go together; nobody waits for its own mutex. */
  ghost predicate MutexOk(k: Kernel, m: Mid)
    requires Known(k) && m in k.owner
  {
    && (k.locked[m] <==> k.owner[m].Some?)
    && (k.owner[m].None? ==> k.waiters[m] == [] && k.nest[m] == 0)
    && (k.owner[m].Some? ==>
          k.owner[m].value in k.held && m in k.held[k.owner[m].value] && k.owner[m].value !in k.waiters[m])
    && QueueOk(k, k.waiters[m])
  }

  /** A wait queue: in priority order, first come first served among equals, blocked tasks only. */
  ghost predicate QueueOk(k: Kernel, q: seq<Tid>) {
    && NoDup(q)
    && Sorted(q, k.s.prio, k.stamp)
    && (forall w {:trigger WaiterOk(k, w)} :: w in q ==> WaiterOk(k, w))
  }

  /** A blocked task is known and not READY; it may hold mutexes. */
  ghost predicate WaiterOk(k: Kernel, w: Tid) {
    w in k.held && !S.IsReady(k.s, w) && Num(k.stamp, w) < k.clock
  }

  ghost predicate HolderOk(k: Kernel, t: Tid)
    requires Known(k) && t in k.held
  {
    NoDup(k.held[t]) && forall m :: m in k.held[t] ==> m in k.owner && k.owner[m] == Some(t)
  }

  ghost predicate WaitsOnce(k: Kernel, m: Mid, n: Mid) {
    forall w :: w in List(k.waiters, m) ==> w !in List(k.waiters, n)
  }

  // ----- exact inheritance -----

  /** w is blocked on a mutex that t holds. */
  ghost predicate Waits(k: Kernel, t: Tid, w: Tid) {
    exists m :: m in List(k.held, t) && w in List(k.waiters, m)
  }

  /** p is the most urgent of t's own priority and those of all tasks blocked on what t holds. */
  ghost predicate IsBest(k: Kernel, t: Tid, p: nat) {
    && p <= Num(k.orig, t)
    && (forall w :: Waits(k, t, w) ==> p <= Num(k.s.prio, w))
    && (p == Num(k.orig, t) || exists w :: Waits(k, t, w) && Num(k.s.prio, w) == p)
  }

  /** Exact inheritance for one task. */
  ghost predicate Exact(k: Kernel, t: Tid) {
    IsBest(k, t, Num(k.s.prio, t))
  }

  /** The invariant, but for exact inheritance of the tasks in `ex`. */
  ghost predicate InvBut(k: Kernel, ex: set<Tid>) {
    && S.Inv(k.s)
    && Known(k)
    && (forall m {:trigger MutexOk(k, m)} :: m in k.owner ==> MutexOk(k, m))
    && (forall t {:trigger HolderOk(k, t)} :: t in k.held ==> HolderOk(k, t))
    && (forall m, n {:trigger WaitsOnce(k, m, n)} :: m in k.owner && n in k.owner && m != n ==> WaitsOnce(k, m, n))
    && (forall t {:trigger Exact(k, t)} :: t in k.orig && t !in ex ==> Exact(k, t))
  }

  ghost predicate Inv(k: Kernel) {
    InvBut(k, {})
  }

  /** _mrtk_mutex_find_highest_inherited_prio, with the comparison against the running best. */
  function Inherited(k: Kernel, t: Tid): nat {
    BestHeld(Num(k.orig, t), List(k.held, t), k.waiters, k.s.prio)
  }

  lemma InheritedIsBest(k: Kernel, t: Tid)
    ensures IsBest(k, t, Inherited(k, t))
  {
    BestHeldIsLeast(Num(k.orig, t), List(k.held, t), k.waiters, k.s.prio);
    var r := Inherited(k, t);
    forall w | Waits(k, t, w) ensures r <= Num(k.s.prio, w) {
      var m :| m in List(k.held, t) && w in List(k.waiters, m);
    }
    if r != Num(k.orig, t) {
      var m, w :| m in List(k.held, t) && w in List(k.waiters, m) && Num(k.s.prio, w) == r;
      assert Waits(k, t, w);
    }
  }

  lemma BestIsUnique(k: Kernel, t: Tid, p: nat, q: nat)
    requires IsBest(k, t, p) && IsBest(k, t, q)
    ensures p == q
  {
  }

  // ----- steps -----

  function Owner(k: Kernel, m: Mid): Option<Tid> {
    if m in k.owner then k.owner[m] else None
  }

  /** The mutex leaves a held_mutex_list. */
  function DropHeld(k: Kernel, m: Mid, t: Tid): Kernel {
    k.(held := k.held[t := Without(List(k.held, t), m)])
  }

  /** Owner, nest 1, and the mutex at the tail of the owner's held_mutex_list. */
  function Grant(k: Kernel, m: Mid, t: Tid): Kernel {
    k.(owner := k.owner[m := Some(t)], locked := k.locked[m := true], nest := k.nest[m := 1],
       held := k.held[t := List(k.held, t) + [m]])
  }

  /** _mrtk_list_remove on a task's node: it leaves whatever wait queue it is on. */
  function Unlink(waiters: map<Mid, seq<Tid>>, t: Tid): map<Mid, seq<Tid>> {
    map m | m in waiters :: Without(waiters[m], t)
  }

  /** _mrtk_schedule_prio_change, whatever list the task is on. */
  function ChangePrio(k: Kernel, t: Tid, p: nat): Kernel {
    k.(s := S.PrioChange(k.s, t, p), waiters := Unlink(k.waiters, t))
  }

  predicate Boosts(k: Kernel, t: Tid, o: Tid) {
    Num(k.s.prio, t) < Num(k.s.prio, o)
  }

  function Boost(k: Kernel, t: Tid, o: Tid): Kernel {
    if Boosts(k, t, o) then ChangePrio(k, o, Num(k.s.prio, t)) else k
  }

  /** _mrtk_ipc_suspend_one on the queue of m. */
  function Enqueue(k: Kernel, m: Mid, t: Tid): Kernel {
    var s := S.Suspend(k.s, t).(asked := true);
    k.(s := s, err := k.err[t := EOK],
       waiters := k.waiters[m := SortedInsert(List(k.waiters, m), s.prio, t)],
       stamp := k.stamp[t := k.clock], clock := k.clock + 1)
  }

  /** The contended, blocking branch of mrtk_mutex_take. */
  function Block(k: Kernel, m: Mid, t: Tid, o: Tid): Kernel {
    Enqueue(Boost(k, t, o), m, t)
  }

  /** mrtk_mutex_take by the current task t; a blocked taker's return code is its last_error when it runs again. */
  function Take(k: Kernel, m: Mid, t: Tid, wait: bool, inIsr: bool): (Kernel, Code) {
    if wait && inIsr then (k, E_IN_ISR)
    else if Owner(k, m) == Some(t) then (k.(nest := k.nest[m := (Num(k.nest, m) + 1) % 256]), EOK)
    else if Owner(k, m).None? then (Grant(k, m, t), EOK)
    else if !wait then (k, EEMPTY)
    else (Block(k, m, t, Owner(k, m).value), EOK)
  }

  function Restore(s: S.Sched, t: Tid, p: nat): S.Sched {
    if Num(s.prio, t) != p then S.PrioChange(s, t, p) else s
  }

  /** The last release of a mutex nobody waits for. */
  function Unlock(k: Kernel, m: Mid, t: Tid): Kernel {
    var d := DropHeld(k, m, t);
    d.(s := Restore(d.s, t, Inherited(d, t)),
       owner := d.owner[m := None], locked := d.locked[m := false], nest := d.nest[m := 0])
  }

  /** The last release of a mutex with waiters: the head of the queue becomes the owner. */
  function HandOff(k: Kernel, m: Mid, t: Tid): Kernel
    requires List(k.waiters, m) != []
  {
    var d := DropHeld(k, m, t);
    var w := List(k.waiters, m)[0];
    var s := S.PrioChange(d.s, t, Inherited(d, t));
    Grant(d.(s := S.AskFor(S.MakeReady(s, w), w),
             waiters := d.waiters[m := List(k.waiters, m)[1..]], err := d.err[w := EOK]), m, w)
  }

  function Release(k: Kernel, m: Mid, t: Tid, inIsr: bool): (Kernel, Code) {
    var n := (Num(k.nest, m) + 255) % 256;
    if inIsr then (k, E_IN_ISR)
    else if Owner(k, m) != Some(t) then (k, ERROR)
    else if n > 0 then (k.(nest := k.nest[m := n]), EOK)
    else if List(k.waiters, m) == [] then (Unlock(k, m, t), EOK)
    else (HandOff(k, m, t), EOK)
  }

  /** _mrtk_ipc_resume_all: head first, each task becomes READY with last_error EDELETED. */
  function WakeQueue(s: S.Sched, err: map<Tid, Code>, q: seq<Tid>): (S.Sched, map<Tid, Code>)
    decreases |q|
  {
    if q == [] then (s, err)
    else WakeQueue(S.AskFor(S.MakeReady(s, q[0]), q[0]), err[q[0] := EDELETED], q[1..])
  }

  function WakeAll(k: Kernel, q: seq<Tid>): Kernel {
    var (s, err) := WakeQueue(k.s, k.err, q);
    k.(s := s, err := err)
  }

  /** _mrtk_mutex_force_release: unlocked whatever the owner, every waiter wakes with EDELETED. */
  function ForceRelease(k: Kernel, m: Mid): Kernel {
    var d := WakeAll(k, List(k.waiters, m));
    d.(owner := d.owner[m := None], locked := d.locked[m := false], nest := d.nest[m := 0],
        waiters := d.waiters[m := []])
  }

  /** The owner loses the mutex that is about to go away. */
  function Strip(k: Kernel, m: Mid): Kernel {
    match Owner(k, m)
    case None => k
    case Some(o) =>
      var d := DropHeld(k, m, o);
      var p := Inherited(d, o);
      if Num(d.s.prio, o) != p then var c := ChangePrio(d, o, p); c.(s := c.s.(asked := true)) else d
  }

  /** mrtk_mutex_detach and mrtk_mutex_delete: all waiters wake with EDELETED and the mutex is gone. */
  function Detach(k: Kernel, m: Mid): Kernel {
    var s := Strip(k, m);
    var d := WakeAll(s, List(s.waiters, m));
    d.(owner := d.owner - {m}, locked := d.locked - {m}, nest := d.nest - {m}, waiters := d.waiters - {m})
  }

  function ReleaseAll(k: Kernel, ms: seq<Mid>, t: Tid): Kernel
    decreases |ms|
  {
    if ms == [] then k else ReleaseAll(ForceRelease(DropHeld(k, ms[0], t), ms[0]), ms[1..], t)
  }

  /** _mrtk_task_cleanup: the task's mutexes are force-released, and its node leaves the list it is on. */
  function Cleanup(k: Kernel, t: Tid): Kernel {
    Bury(ReleaseAll(k, List(k.held, t), t), t)
  }

  function Bury(k: Kernel, t: Tid): Kernel {
    var d := if S.IsReady(k.s, t) then k else k.(waiters := Unlink(k.waiters, t));
    var cur := if d.s.cur == Some(t) then None else d.s.cur;
    d.(s := S.Forget(d.s, t).(cur := cur, asked := d.s.asked || cur.None?), orig := d.orig - {t}, held := d.held - {t})
  }
}
