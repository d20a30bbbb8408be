/** The scheduler as the program keeps it: 32 ready lists, a bitmap and the current task, updated in place. */
module SchedulerClass {
  import opened Base
  import opened PrioBitmap
  import opened TaskQueue
  import S = Schedule

  class Scheduler {
    const ready: array<seq<Tid>>
    var prio: map<Tid, nat>
    var state: map<Tid, S.TaskState>
    var bitmap: nat
    var cur: Option<Tid>
    var asked: bool

    ghost function View(): S.Sched
      reads this, ready
    {
      S.Sched(prio, state, ready[..], bitmap, cur, asked)
    }

    /** mrtk_schedule_init */
    constructor ()
      ensures fresh(ready)
      ensures View() == S.Sched(map[], map[], seq(LEVELS, i => []), 0, None, false)
    {
      ready := new seq<Tid>[LEVELS](i => []);
      prio, state, bitmap, cur, asked := map[], map[], 0, None, false;
    }

    method InsertTask(t: Tid)
      requires t in prio && prio[t] < ready.Length
      modifies this`bitmap, ready
      ensures View() == S.Insert(old(View()), t)
    {
      var p := prio[t];
      ready[p] := ready[p] + [t];
      bitmap := SetBit(bitmap, p);
    }

    method RemoveTask(t: Tid)
      requires t in prio && prio[t] < ready.Length
      modifies this`bitmap, ready
      ensures View() == S.Remove(old(View()), t)
    {
      var p := prio[t];
      ready[p] := Without(ready[p], t);
      if ready[p] == [] {
        bitmap := ClearBit(bitmap, p);
      }
    }

    method ChangePrio(t: Tid, p: nat)
      requires t in prio && prio[t] < ready.Length && p < ready.Length
      modifies this`bitmap, this`prio, ready
      ensures View() == S.PrioChange(old(View()), t, p)
    {
      RemoveTask(t);
      prio := prio[t := p];
      InsertTask(t);
    }

    /** mrtk_schedule in task context with the scheduler unlocked, together with the switch it pends. */
    method Dispatch()
      requires S.Inv(View()) && exists t :: t in prio && S.IsReady(View(), t)
      modifies this`cur, this`asked
      ensures View() == S.Dispatched(old(View()))
      ensures cur.Some? && S.IsReady(View(), cur.value)
      ensures forall t :: t in prio && S.IsReady(View(), t) ==> Num(prio, cur.value) <= prio[t]
    {
      ghost var v := View();
      ghost var t :| t in prio && S.IsReady(View(), t);
      S.SelectIsMostUrgent(v, t);
      asked := false;
      var highest := HighestPrio(bitmap);
      var next := ready[highest][0];
      if cur != Some(next) {
        cur := Some(next);
      }
      forall x | x in prio && S.IsReady(v, x) ensures Num(prio, cur.value) <= prio[x] {
        S.SelectIsMostUrgent(v, x);
      }
    }
  }
}
