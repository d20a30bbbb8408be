/** One timer list (hard or soft) as the program keeps it: control blocks and a sorted list of them. */
module TimerClass {
  import opened Base
  import opened Timer

  function TimerAt(timers: map<Id, Timer>, id: Id): Timer {
    if id in timers then timers[id] else Timer(id, 0, 0, false, false)
  }

  function ViewOf(list: seq<Id>, timers: map<Id, Timer>): (r: seq<Timer>)
    ensures |r| == |list|
    ensures forall i :: 0 <= i < |r| ==> r[i] == TimerAt(timers, list[i])
  {
    seq(|list|, i requires 0 <= i < |list| => TimerAt(timers, list[i]))
  }

  ghost predicate Consistent(list: seq<Id>, timers: map<Id, Timer>) {
    && (forall i :: 0 <= i < |list| ==> list[i] in timers)
    && (forall id :: id in timers ==> timers[id].id == id)
  }

  /** Changing the record of a timer that is not listed leaves the list as it is. */
  lemma UpdateUnlisted(list: seq<Id>, timers: map<Id, Timer>, id: Id, t: Timer)
    requires id !in list
    ensures ViewOf(list, timers[id := t]) == ViewOf(list, timers)
  {
    assert forall i :: 0 <= i < |list| ==> list[i] in list;
  }

  lemma ViewMembers(list: seq<Id>, timers: map<Id, Timer>, id: Id)
    requires Consistent(list, timers)
    ensures id in list <==> Listed(ViewOf(list, timers), id)
  {
    var v := ViewOf(list, timers);
    if id in list {
      var i :| 0 <= i < |list| && list[i] == id;
      assert v[i] in v && v[i].id == id;
    }
    if Listed(v, id) {
      var u :| u in v && u.id == id;
      var i :| 0 <= i < |v| && v[i] == u;
      assert list[i] in list;
    }
  }

  /** The list without one identifier, as _mrtk_list_remove leaves it. */
  function Removed(list: seq<Id>, id: Id): seq<Id> {
    if list == [] then [] else if list[0] == id then list[1..] else [list[0]] + Removed(list[1..], id)
  }

  lemma {:induction false} RemovedView(list: seq<Id>, timers: map<Id, Timer>, id: Id)
    requires Consistent(list, timers)
    ensures ViewOf(Removed(list, id), timers) == Drop(ViewOf(list, timers), id)
    ensures forall x :: x in Removed(list, id) ==> x in list
  {
    if list != [] {
      var v := ViewOf(list, timers);
      assert v[1..] == ViewOf(list[1..], timers);
      RemovedView(list[1..], timers, id);
      assert list == [list[0]] + list[1..];
      if list[0] != id {
        assert ViewOf(Removed(list, id), timers) == [v[0]] + ViewOf(Removed(list[1..], id), timers);
      }
    }
  }

  /** The walk to the first later deadline. */
  method FindPlace(list: seq<Id>, timers: map<Id, Timer>, deadline: nat) returns (pos: nat)
    requires Consistent(list, timers)
    ensures pos == Place(ViewOf(list, timers), deadline)
  {
    ghost var v := ViewOf(list, timers);
    pos := 0;
    while pos < |list|
      invariant pos <= |list|
      invariant Place(v, deadline) == pos + Place(v[pos..], deadline)
    {
      if timers[list[pos]].deadline > deadline {
        return;
      }
      pos := pos + 1;
    }
  }

  lemma InsertView(list: seq<Id>, timers: map<Id, Timer>, id: Id, pos: nat)
    requires id in timers && id !in list && pos == Place(ViewOf(list, timers), timers[id].deadline)
    ensures pos <= |list|
    ensures var t, r := Inserted(ViewOf(list, timers), timers[id]), list[..pos] + [id] + list[pos..];
            ViewOf(r, timers[id := t]) == Insert(ViewOf(list, timers), timers[id])
    ensures pos < |list| ==> timers[id := Inserted(ViewOf(list, timers), timers[id])] == timers
  {
    var v, t, r := ViewOf(list, timers), Inserted(ViewOf(list, timers), timers[id]), list[..pos] + [id] + list[pos..];
    UpdateUnlisted(list, timers, id, t);
    assert v[..pos] == ViewOf(list[..pos], timers[id := t]) && v[pos..] == ViewOf(list[pos..], timers[id := t]);
    assert ViewOf(r, timers[id := t]) == v[..pos] + [t] + v[pos..];
  }

  lemma LinkView(list: seq<Id>, timers: map<Id, Timer>, id: Id, pos: nat, l: seq<Timer>)
    requires Consistent(list, timers) && id in timers && ViewOf(list, timers) == Replace(l, timers[id])
    requires pos == Place(ViewOf(list, timers), timers[id].deadline)
    ensures pos <= |list|
    ensures var v := if pos == |list| then timers[id].(active := true) else timers[id];
            ViewOf(list[..pos] + [id] + list[pos..], timers[id := v]) == Link(l, timers[id])
    ensures pos < |list| ==> timers[id := timers[id]] == timers
  {
    var b := ViewOf(list, timers);
    var v := if pos == |list| then timers[id].(active := true) else timers[id];
    var w := ViewOf(list, timers[id := v]);
    assert w == Replace(b, v);
    var r := list[..pos] + [id] + list[pos..];
    assert ViewOf(r, timers[id := v]) == w[..pos] + [v] + w[pos..];
  }

  lemma ScanUnfolds(now: nat, l: seq<Timer>)
    requires l != [] && Ordered(l) && AllPaced(now, l) && Due(now, l[0].deadline)
    ensures Ordered(Rest(l)) && AllPaced(now, Rest(l)) && Work(now, Rest(l)) < Work(now, l)
    ensures Scan(now, l) == ([Firing(l[0].id, l[0].deadline)] + Scan(now, Rest(l)).0, Scan(now, Rest(l)).1)
  {
    RestKeeps(now, l);
  }

  lemma AssocFirings(a: seq<Firing>, f: Firing, b: seq<Firing>)
    ensures a + ([f] + b) == (a + [f]) + b
  {
  }

  class TimerList {
    var list: seq<Id>
    var timers: map<Id, Timer>

    ghost function View(): seq<Timer>
      reads this
    {
      ViewOf(list, timers)
    }

    ghost predicate Valid()
      reads this
    {
      Consistent(list, timers) && Ordered(View())
    }

    constructor ()
      ensures Valid() && View() == [] && timers == map[]
    {
      list, timers := [], map[];
    }

    /** _mrtk_timer_insert: only at the tail is ACTIVATED set. */
    method InsertTimer(id: Id)
      requires Consistent(list, timers) && id in timers && id !in list
      modifies this
      ensures View() == Insert(old(View()), old(timers[id])) && Consistent(list, timers)
      ensures timers == old(timers)[id := Inserted(old(View()), old(timers[id]))]
    {
      var pos := FindPlace(list, timers, timers[id].deadline);
      InsertView(list, timers, id, pos);
      if pos < |list| {
        list := list[..pos] + [id] + list[pos..];
        return;
      }
      assert list[..pos] + [id] + list[pos..] == list + [id];
      list := list + [id];
      timers := timers[id := timers[id].(active := true)];
    }

    method RemoveTimer(id: Id)
      requires Valid() && id in timers
      modifies this
      ensures Valid() && View() == Drop(old(View()), id) && id !in list
      ensures timers == old(timers)[id := old(timers)[id].(active := false)]
    {
      ghost var v := View();
      RemovedView(list, timers, id);
      DropOrdered(v, id);
      DropMembers(v, id);
      list := Removed(list, id);
      ViewMembers(list, timers, id);
      UpdateUnlisted(list, timers, id, timers[id].(active := false));
      timers := timers[id := timers[id].(active := false)];
    }

    /** An ACTIVATED timer restarts. One that is pending without the flag is linked a second time; the list is intact
        afterwards exactly when that did not happen. */
    method StartTimer(id: Id, now: nat) returns (code: Code)
      requires Valid() && id in timers
      modifies this
      ensures (View(), code) == Start(old(View()), old(timers[id]), now)
      ensures Valid() <==> old(timers[id]).period == FOREVER || (id in old(list) ==> old(timers[id]).active)
    {
      ghost var l, t := View(), timers[id];
      ViewMembers(list, timers, id);
      if timers[id].period == FOREVER {
        return EINVAL;
      }
      if timers[id].active {
        RemoveTimer(id);
      }
      timers := timers[id := timers[id].(deadline := (now + timers[id].period) % U32)];
      assert timers[id] == Armed(t, now);
      LinkTimer(id, if t.active then Drop(l, t.id) else l);
      StartIsSafe(l, t, now);
      code := EOK;
    }

    /** _mrtk_timer_insert of a node that may be linked already; `l` is the list before the record changed. */
    method LinkTimer(id: Id, ghost l: seq<Timer>)
      requires Consistent(list, timers) && id in timers && View() == Replace(l, timers[id])
      modifies this
      ensures Consistent(list, timers) && View() == Link(l, old(timers[id]))
    {
      ghost var t := timers[id];
      var pos := FindPlace(list, timers, timers[id].deadline);
      LinkView(list, timers, id, pos, l);
      if pos < |list| {
        list := list[..pos] + [id] + list[pos..];
        return;
      }
      assert list[..pos] + [id] + list[pos..] == list + [id];
      list := list + [id];
      timers := timers[id := timers[id].(active := true)];
    }

    method StopTimer(id: Id) returns (code: Code)
      requires Valid() && id in timers
      modifies this
      ensures Valid()
      ensures (View(), code) == Stop(old(View()), old(timers[id]))
    {
      if !timers[id].active {
        return ERROR;
      }
      RemoveTimer(id);
      code := EOK;
    }

    /** mrtk_timer_hard_check and mrtk_timer_soft_check: the log stands for the callbacks, which leave timers alone. */
    method Check(now: nat) returns (log: seq<Firing>)
      requires Valid() && AllPaced(now, View())
      modifies this
      ensures Valid()
      ensures (log, View()) == Scan(now, old(View()))
    {
      ghost var (goal, left) := Scan(now, View());
      log := [];
      assert goal == log + goal;
      while list != []
        invariant Valid() && AllPaced(now, View())
        invariant goal == log + Scan(now, View()).0 && left == Scan(now, View()).1
        decreases Work(now, View())
      {
        ghost var v := View();
        var first := list[0];
        if !Due(now, timers[first].deadline) {
          break;
        }
        var firing := Firing(first, timers[first].deadline);
        ScanUnfolds(now, v);
        FireFirst(now);
        AssocFirings(log, firing, Scan(now, View()).0);
        log := log + [firing];
      }
      assert Scan(now, View()).0 == [] && log + [] == log;
    }

    /** One round: off the list, and back on it with the deadline moved by one period when periodic. */
    method FireFirst(now: nat)
      requires Valid() && list != [] && AllPaced(now, View()) && Due(now, timers[list[0]].deadline)
      modifies this
      ensures Valid() && View() == Rest(old(View()))
    {
      var first := list[0];
      ghost var v, t := View(), timers[first];
      RestKeeps(now, v);
      RemoveTimer(first);
      if timers[first].periodic {
        var u := timers[first].(deadline := (timers[first].deadline + timers[first].period) % U32);
        UpdateUnlisted(list, timers, first, u);
        timers := timers[first := u];
        assert u == Rearm(t);
        InsertTimer(first);
      }
    }
  }
}
