/** mrtk_mutex.c and mrtk_ipc_obj.c as the program runs them: fields and lists updated in place, loops over queues. */
module MutexClass {
  import opened Base
  import opened PrioBitmap
  import opened TaskQueue
  import opened SchedulerClass
  import opened Mutex
  import opened MutexInv
  import S = Schedule

  /** The search of _mrtk_ipc_suspend_one: the first queued task less urgent than p. */
  method FindPos(q: seq<Tid>, prio: map<Tid, nat>, p: nat) returns (pos: nat)
    ensures pos == InsertPos(q, prio, p)
  {
    pos := 0;
    while pos < |q|
      invariant pos <= |q|
      invariant InsertPos(q, prio, p) == pos + InsertPos(q[pos..], prio, p)
    {
      if Num(prio, q[pos]) > p {
        return;
      }
      pos := pos + 1;
    }
  }

  /** _mrtk_mutex_find_highest_inherited_prio: two loops and a running best. */
  method FindHighestInheritedPrio(own: nat, ms: seq<Mid>, waiters: map<Mid, seq<Tid>>, prio: map<Tid, nat>)
    returns (highest: nat)
    ensures highest == BestHeld(own, ms, waiters, prio)
  {
    highest := own;
    var i := 0;
    while i < |ms|
      invariant i <= |ms|
      invariant BestHeld(own, ms, waiters, prio) == BestHeld(highest, ms[i..], waiters, prio)
    {
      var q, j := List(waiters, ms[i]), 0;
      ghost var start := highest;
      while j < |q|
        invariant j <= |q|
        invariant Best(start, q, prio) == Best(highest, q[j..], prio)
      {
        if Num(prio, q[j]) < highest {
          highest := Num(prio, q[j]);
        }
        assert q[j..][1..] == q[j + 1..];
        j := j + 1;
      }
      assert ms[i..][1..] == ms[i + 1..];
      i := i + 1;
    }
  }

  class Mutexes {
    const sched: Scheduler
    var orig: map<Tid, nat>
    var held: map<Tid, seq<Mid>>
    var err: map<Tid, Code>
    var owner: map<Mid, Option<Tid>>
    var locked: map<Mid, bool>
    var nest: map<Mid, nat>
    var waiters: map<Mid, seq<Tid>>
    ghost var stamp: map<Tid, nat>   // arrival times, for the order among equals
    ghost var clock: nat

    ghost function View(): Kernel
      reads this, sched, sched.ready
    {
      Kernel(sched.View(), orig, held, err, stamp, owner, locked, nest, waiters, clock)
    }

    constructor ()
      ensures fresh(sched) && fresh(sched.ready)
      ensures View() == Kernel(S.Sched(map[], map[], seq(LEVELS, i => []), 0, None, false),
                               map[], map[], map[], map[], map[], map[], map[], map[], 0)
    {
      sched := new Scheduler();
      orig, held, err, owner, locked, nest, waiters := map[], map[], map[], map[], map[], map[], map[];
      stamp, clock := map[], 0;
    }

    // ----- wait queues -----

    /** Off the ready list, SUSPEND, and into the queue before the first less urgent task. */
    method SuspendOne(m: Mid, t: Tid)
      requires t in sched.prio && sched.prio[t] < sched.ready.Length && m in waiters
      modifies this`waiters, this`stamp, this`clock, sched, sched.ready
      ensures var k, s := old(View()), S.Suspend(old(sched.View()), t);
              View() == k.(s := s, waiters := k.waiters[m := SortedInsert(k.waiters[m], s.prio, t)],
                           stamp := k.stamp[t := k.clock], clock := k.clock + 1)
    {
      sched.RemoveTask(t);
      sched.state := sched.state[t := S.SUSPEND];
      var q := waiters[m];
      var pos := FindPos(q, sched.prio, sched.prio[t]);
      waiters := waiters[m := q[..pos] + [t] + q[pos..]];
      stamp, clock := stamp[t := clock], clock + 1;
    }

    method ResumeOne(m: Mid, code: Code) returns (needSchedule: bool)
      requires m in waiters
      requires waiters[m] != [] ==> waiters[m][0] in sched.prio && sched.prio[waiters[m][0]] < sched.ready.Length
      modifies this`waiters, this`err, sched, sched.ready
      ensures if old(waiters[m]) == [] then
                unchanged(this) && unchanged(sched) && unchanged(sched.ready) && !needSchedule
              else var w, s := old(waiters[m])[0], old(sched.View());
                   && sched.View() == S.MakeReady(s, w) && needSchedule == S.Outranks(s, w, s.cur)
                   && err == old(err)[w := code] && waiters == old(waiters)[m := old(waiters[m])[1..]]
    {
      if waiters[m] == [] {
        return false;
      }
      var node := waiters[m][0];
      err := err[node := code];
      waiters := waiters[m := waiters[m][1..]];
      sched.InsertTask(node);
      sched.state := sched.state[node := S.READY];
      needSchedule := sched.cur.None? || Num(sched.prio, node) < Num(sched.prio, sched.cur.value);
    }

    /** The tasks of m's queue are known to the scheduler. */
    ghost predicate Wakeable(m: Mid)
      reads this, sched, sched.ready
    {
      m in waiters && forall x :: x in waiters[m] ==> x in sched.prio && sched.prio[x] < sched.ready.Length
    }

    /** Every task of the queue, head first, becomes READY with EDELETED; the queue empties. */
    method ResumeAll(m: Mid)
      requires Wakeable(m)
      modifies this`waiters, this`err, sched, sched.ready
      ensures waiters == old(waiters)[m := []]
      ensures (sched.View(), err) == WakeQueue(old(sched.View()), old(err), old(waiters[m]))
    {
      ghost var goal := WakeQueue(sched.View(), err, waiters[m]);
      while waiters[m] != []
        invariant Wakeable(m) && waiters == old(waiters)[m := waiters[m]]
        invariant goal == WakeQueue(sched.View(), err, waiters[m])
        decreases |waiters[m]|
      {
        WakeNext(m);
      }
    }

    method WakeNext(m: Mid)
      requires Wakeable(m) && waiters[m] != []
      modifies this`waiters, this`err, sched, sched.ready
      ensures waiters == old(waiters)[m := old(waiters[m])[1..]] && err == old(err)[old(waiters[m])[0] := EDELETED]
      ensures sched.View() == S.AskFor(S.MakeReady(old(sched.View()), old(waiters[m])[0]), old(waiters[m])[0])
      ensures Wakeable(m)
    {
      assert waiters[m][0] in waiters[m] && forall x :: x in waiters[m][1..] ==> x in waiters[m];
      var need := ResumeOne(m, EDELETED);
      if need {
        sched.asked := true;
      }
    }

    // ----- take -----

    /** A taker that blocks gets its return code from last_error when it runs again; here that is its initial EOK. */
    method TakeMutex(m: Mid, wait: bool, inIsr: bool) returns (code: Code)
      requires Inv(View()) && sched.cur.Some? && sched.cur.value in held && m in owner
      modifies this`owner, this`locked, this`nest, this`held, this`err, this`waiters, this`stamp, this`clock
      modifies sched, sched.ready
      ensures (View(), code) == Take(old(View()), m, old(sched.cur.value), wait, inIsr)
    {
      if wait && inIsr {
        return E_IN_ISR;
      }
      var curTask := sched.cur.value;
      ghost var k := View();
      assert MutexOk(k, m);
      if owner[m] == Some(curTask) {
        nest := nest[m := (nest[m] + 1) % 256];
        return EOK;
      }
      if !locked[m] {
        locked, nest, owner := locked[m := true], nest[m := 1], owner[m := Some(curTask)];
        held := held[curTask := held[curTask] + [m]];
        return EOK;
      }
      if !wait {
        return EEMPTY;
      }
      PriosInRange(k, m, curTask);
      BlockCurrent(m, curTask);
      code := EOK;
    }

    method BlockCurrent(m: Mid, t: Tid)
      requires m in owner && m in waiters && owner[m].Some? && owner[m] != Some(t)
      requires t in sched.prio && sched.prio[t] < sched.ready.Length
      requires var o := owner[m].value; o in sched.prio && sched.prio[o] < sched.ready.Length
      modifies this`err, this`waiters, this`stamp, this`clock, sched, sched.ready
      ensures View() == Block(old(View()), m, t, old(owner[m].value))
    {
      var o := owner[m].value;
      err := err[t := EOK];
      BoostOwner(t, o);
      SuspendOne(m, t);
      sched.asked := true;
    }

    /** Priority inheritance: the owner rises to the taker's priority when that is more urgent. */
    method BoostOwner(t: Tid, o: Tid)
      requires t in sched.prio && o in sched.prio && t != o
      requires sched.prio[t] < sched.ready.Length && sched.prio[o] < sched.ready.Length
      modifies this`waiters, sched, sched.ready
      ensures View() == Boost(old(View()), t, o)
      ensures t in sched.prio && sched.prio[t] < sched.ready.Length && waiters.Keys == old(waiters).Keys
    {
      if sched.prio[t] < sched.prio[o] {
        MovePrio(o, sched.prio[t]);
      }
    }

    /** _mrtk_schedule_prio_change: the node leaves the list it is on, a ready list or a wait queue. */
    method MovePrio(t: Tid, p: nat)
      requires t in sched.prio && sched.prio[t] < sched.ready.Length && p < sched.ready.Length
      modifies this`waiters, sched, sched.ready
      ensures View() == Mutex.ChangePrio(old(View()), t, p)
    {
      waiters := Unlink(waiters, t);
      sched.ChangePrio(t, p);
    }

    // ----- release -----

    method ReleaseMutex(m: Mid, inIsr: bool) returns (code: Code)
      requires Inv(View()) && sched.cur.Some? && sched.cur.value in held && m in owner
      modifies this`owner, this`locked, this`nest, this`held, this`err, this`waiters
      modifies sched, sched.ready
      ensures (View(), code) == Release(old(View()), m, old(sched.cur.value), inIsr)
    {
      if inIsr {
        return E_IN_ISR;
      }
      var curTask := sched.cur.value;
      if owner[m] != Some(curTask) {
        return ERROR;
      }
      var n := (nest[m] + 255) % 256;
      if n > 0 {
        nest := nest[m := n];
        return EOK;
      }
      if waiters[m] == [] {
        UnlockMutex(m, curTask);
      } else {
        HandOver(m, curTask);
      }
      code := EOK;
    }

    /** The held list without m, then the priority the remaining held mutexes call for. */
    method UnlockMutex(m: Mid, t: Tid)
      requires Inv(View()) && m in owner && owner[m] == Some(t)
      modifies this`owner, this`locked, this`nest, this`held, sched, sched.ready
      ensures View() == Unlock(old(View()), m, t)
    {
      DropFacts(View(), m, t);
      held := held[t := Without(held[t], m)];
      LowerPrio(t);
      nest, locked, owner := nest[m := 0], locked[m := false], owner[m := None];
    }

    /** The priority the remaining held mutexes call for, when it is not the present one. */
    method LowerPrio(t: Tid)
      requires t in sched.prio && sched.prio[t] < sched.ready.Length && t in orig && t in held
      requires Inherited(View(), t) < sched.ready.Length
      modifies sched, sched.ready
      ensures sched.View() == Restore(old(sched.View()), t, old(Inherited(View(), t)))
    {
      var restore := FindHighestInheritedPrio(orig[t], held[t], waiters, sched.prio);
      if sched.prio[t] != restore {
        sched.ChangePrio(t, restore);
      }
    }

    method HandOver(m: Mid, t: Tid)
      requires Inv(View()) && m in owner && owner[m] == Some(t) && waiters[m] != []
      modifies this`owner, this`locked, this`nest, this`held, this`err, this`waiters, sched, sched.ready
      ensures View() == HandOff(old(View()), m, t)
    {
      HandOverFacts(View(), m, t);
      held := held[t := Without(held[t], m)];
      RestorePrio(t);
      GrantNext(m);
    }

    method GrantNext(m: Mid)
      requires m in waiters && waiters[m] != [] && m in locked && locked[m]
      requires var w := waiters[m][0]; w in held && w in sched.prio && sched.prio[w] < sched.ready.Length
      modifies this`owner, this`nest, this`held, this`err, this`waiters, sched, sched.ready
      ensures View() == GrantHead(old(View()), m)
    {
      var next := waiters[m][0];
      var needSchedule := ResumeOne(m, EOK);
      if needSchedule {
        sched.asked := true;
      }
      nest, owner := nest[m := 1], owner[m := Some(next)];
      held := held[next := held[next] + [m]];
      assert locked == locked[m := true];
    }

    /** The priority the remaining held mutexes call for, set even when it is the present one. */
    method RestorePrio(t: Tid)
      requires t in sched.prio && sched.prio[t] < sched.ready.Length && t in orig && t in held
      requires Inherited(View(), t) < sched.ready.Length
      modifies sched, sched.ready
      ensures sched.View() == S.PrioChange(old(sched.View()), t, old(Inherited(View(), t)))
    {
      var restore := FindHighestInheritedPrio(orig[t], held[t], waiters, sched.prio);
      sched.ChangePrio(t, restore);
    }

    // ----- detach, delete, forced release -----

    /** mrtk_mutex_detach; mrtk_mutex_delete runs the same code before it frees the object. */
    method DetachMutex(m: Mid)
      requires Inv(View()) && m in owner
      modifies this`owner, this`locked, this`nest, this`held, this`err, this`waiters, sched, sched.ready
      ensures View() == Detach(old(View()), m)
    {
      QueueIsKnown(View(), m);
      if owner[m].Some? {
        StripOwner(m);
      }
      Dissolve(m);
    }

    /** The waiters wake and the mutex is gone. */
    method Dissolve(m: Mid)
      requires Wakeable(m)
      modifies this`owner, this`locked, this`nest, this`err, this`waiters, sched, sched.ready
      ensures View() == Vanish(WakeAll(old(View()), old(waiters[m])), m)
    {
      DropUpdated(waiters, m, []);
      ResumeAll(m);
      owner, locked, nest, waiters := owner - {m}, locked - {m}, nest - {m}, waiters - {m};
    }

    method StripOwner(m: Mid)
      requires Inv(View()) && m in owner && owner[m].Some? && Wakeable(m)
      modifies this`held, this`waiters, sched, sched.ready
      ensures View() == Strip(old(View()), m) && Wakeable(m)
    {
      var o := owner[m].value;
      DropFacts(View(), m, o);
      held := held[o := Without(held[o], m)];
      MoveToInherited(o, m);
    }

    method MoveToInherited(o: Tid, ghost m: Mid)
      requires o in sched.prio && sched.prio[o] < sched.ready.Length && o in orig && o in held
      requires Inherited(View(), o) < sched.ready.Length && Wakeable(m) && o !in waiters[m]
      modifies this`waiters, sched, sched.ready
      ensures var d := old(View());
              var p := Inherited(d, o);
              View() == if Num(d.s.prio, o) != p then var c := ChangePrio(d, o, p); c.(s := c.s.(asked := true)) else d
      ensures Wakeable(m)
    {
      var restore := FindHighestInheritedPrio(orig[o], held[o], waiters, sched.prio);
      if sched.prio[o] != restore {
        WithoutAbsent(waiters[m], o);
        MovePrio(o, restore);
        sched.asked := true;
      }
    }

    /** Called when the owner dies, after the mutex has left its held list. */
    method ForceReleaseMutex(m: Mid)
      requires Wakeable(m)
      modifies this`owner, this`locked, this`nest, this`err, this`waiters, sched, sched.ready
      ensures View() == ForceRelease(old(View()), m)
    {
      ResumeAll(m);
      locked, owner, nest := locked[m := false], owner[m := None], nest[m := 0];
    }
  }

  lemma QueueIsKnown(k: Kernel, m: Mid)
    requires Inv(k) && m in k.owner
    ensures forall x :: x in k.waiters[m] ==> x in k.s.prio && k.s.prio[x] < |k.s.queue|
  {
    assert MutexOk(k, m);
    forall x | x in k.waiters[m] ensures x in k.s.prio && k.s.prio[x] < |k.s.queue| {
      assert WaiterOk(k, x);
      assert S.TaskOk(k.s, x);
    }
  }

  lemma PriosInRange(k: Kernel, m: Mid, t: Tid)
    requires Inv(k) && t in k.held && m in k.owner && k.owner[m].Some?
    ensures t in k.s.prio && k.s.prio[t] < |k.s.queue|
    ensures k.owner[m].value in k.s.prio && k.s.prio[k.owner[m].value] < |k.s.queue|
  {
    OwnerFacts(k, m);
    assert S.TaskOk(k.s, t) && S.TaskOk(k.s, k.owner[m].value);
  }

  lemma DropFacts(k: Kernel, m: Mid, t: Tid)
    requires Inv(k) && m in k.owner && k.owner[m] == Some(t)
    ensures t in k.held && t in k.orig && t in k.s.prio && k.s.prio[t] < |k.s.queue|
    ensures Inherited(DropHeld(k, m, t), t) < |k.s.queue| && m in k.waiters && t !in k.waiters[m]
  {
    OwnerFacts(k, m);
    InheritedIsBest(DropHeld(k, m, t), t);
    assert S.TaskOk(k.s, t) && MutexOk(k, m);
  }

  lemma HandOverFacts(k: Kernel, m: Mid, t: Tid)
    requires Inv(k) && m in k.owner && k.owner[m] == Some(t) && k.waiters[m] != []
    ensures var d, w := DropHeld(k, m, t), k.waiters[m][0];
            && t in k.held && t in k.s.prio && k.s.prio[t] < |k.s.queue| && Inherited(d, t) < |k.s.queue|
            && w in k.held && w != t && w in k.s.prio && k.s.prio[w] < |k.s.queue|
            && m in k.locked && k.locked[m] && k.locked[m := true] == k.locked
  {
    DropFacts(k, m, t);
    WaiterFacts(k, m, k.waiters[m][0]);
    assert S.TaskOk(k.s, k.waiters[m][0]) && MutexOk(k, m);
  }
}
