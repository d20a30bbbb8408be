/** Ready queues, ready bitmap and the choice of the next task. */
module Schedule {
  import opened Base
  import opened PrioBitmap
  import opened TaskQueue

  datatype TaskState = INIT | READY | SUSPEND

  /** `asked` records that mrtk_schedule was called since the last dispatch. */
  datatype Sched = Sched(
    prio: map<Tid, nat>, state: map<Tid, TaskState>,
    queue: seq<seq<Tid>>, bitmap: nat,
    cur: Option<Tid>, asked: bool)

  predicate IsReady(s: Sched, t: Tid) {
    t in s.state && s.state[t] == READY
  }

  ghost predicate Listed(s: Sched, t: Tid, p: nat) {
    t in s.prio && s.prio[t] == p && IsReady(s, t)
  }

  ghost predicate LevelOk(s: Sched, p: nat)
    requires p < |s.queue|
  {
    && (Bit(s.bitmap, p) <==> s.queue[p] != [])
    && NoDup(s.queue[p])
    && forall t :: t in s.queue[p] ==> Listed(s, t, p)
  }

  predicate TaskOk(s: Sched, t: Tid)
    requires t in s.prio && |s.queue| == LEVELS
  {
    s.prio[t] < LEVELS && (IsReady(s, t) ==> t in s.queue[s.prio[t]])
  }

  /** Bit p is set exactly when list p is not empty; a task is READY exactly when it is on the list of its
      priority, once, and on no other list. */
  ghost predicate Inv(s: Sched) {
    && |s.queue| == LEVELS
    && s.bitmap < 0x1_0000_0000
    && s.prio.Keys == s.state.Keys
    && (forall t {:trigger TaskOk(s, t)} :: t in s.prio ==> TaskOk(s, t))
    && (forall p {:trigger LevelOk(s, p)} :: 0 <= p < LEVELS ==> LevelOk(s, p))
  }

  // ----- operations; `t` is a known task, so its list exists -----

  function WithLevel(s: Sched, p: nat, q: seq<Tid>): Sched {
    if p < |s.queue| then s.(queue := s.queue[p := q]) else s
  }

  function Level(s: Sched, p: nat): seq<Tid> {
    if p < |s.queue| then s.queue[p] else []
  }

  function Insert(s: Sched, t: Tid): Sched {
    var p := Num(s.prio, t);
    WithLevel(s, p, Level(s, p) + [t]).(bitmap := SetBit(s.bitmap, p))
  }

  function Remove(s: Sched, t: Tid): Sched {
    var p := Num(s.prio, t);
    var rest := Without(Level(s, p), t);
    WithLevel(s, p, rest).(bitmap := if rest == [] then ClearBit(s.bitmap, p) else s.bitmap)
  }

  function PrioChange(s: Sched, t: Tid, p: nat): Sched {
    var r := Remove(s, t);
    Insert(r.(prio := r.prio[t := p]), t)
  }

  /** Off the ready list and SUSPEND. */
  function Suspend(s: Sched, t: Tid): Sched {
    Remove(s, t).(state := s.state[t := SUSPEND])
  }

  /** Onto the tail of the ready list and READY. */
  function MakeReady(s: Sched, t: Tid): Sched {
    Insert(s, t).(state := s.state[t := READY])
  }

  /** The scheduling part of _mrtk_task_cleanup: only a READY task is on a ready list. */
  function Forget(s: Sched, t: Tid): Sched {
    var r := if IsReady(s, t) then Remove(s, t) else s;
    r.(prio := r.prio - {t}, state := r.state - {t})
  }

  /** mrtk_schedule_prio_ht; no current task counts as least urgent. */
  predicate Outranks(s: Sched, t: Tid, u: Option<Tid>) {
    u.None? || Num(s.prio, t) < Num(s.prio, u.value)
  }

  /** Request a schedule when t outranks the current task. */
  function AskFor(s: Sched, t: Tid): Sched {
    s.(asked := s.asked || Outranks(s, t, s.cur))
  }

  function Select(s: Sched): Tid
    requires s.bitmap < 0x1_0000_0000 && Level(s, HighestPrio(s.bitmap)) != []
  {
    Level(s, HighestPrio(s.bitmap))[0]
  }

  /** mrtk_schedule in task context with the scheduler unlocked, and the switch it pends. */
  function Dispatched(s: Sched): Sched
    requires s.bitmap < 0x1_0000_0000
  {
    if Level(s, HighestPrio(s.bitmap)) == [] then s else s.(cur := Some(Select(s)), asked := false)
  }

  // ----- the invariant is kept -----

  lemma BitmapWidth(word: nat, p: nat)
    requires word < 0x1_0000_0000 && p < LEVELS
    ensures SetBit(word, p) < 0x1_0000_0000 && ClearBit(word, p) < 0x1_0000_0000
  {
    assert Pow2(8) == 256;
    assert Pow2(16) == 65536;
    assert Pow2(24) == 16777216;
    assert Pow2(32) == 0x1_0000_0000;
    StaysInWidth(word, p, 32);
  }

  /** What Remove does to one level. */
  lemma RemoveLevel(s: Sched, t: Tid, q: nat)
    requires Inv(s) && t in s.prio && IsReady(s, t) && q < LEVELS
    ensures TaskOk(s, t) && LevelOk(s, q)
    ensures var r := Remove(s, t);
            && |r.queue| == LEVELS
            && (Bit(r.bitmap, q) <==> r.queue[q] != [])
            && NoDup(r.queue[q])
            && forall x :: x in r.queue[q] <==> x in s.queue[q] && x != t
  {
    assert TaskOk(s, t) && LevelOk(s, s.prio[t]) && LevelOk(s, q);
    WithoutMembers(s.queue[s.prio[t]], t);
    ClearBitClears(s.bitmap, s.prio[t], q);
    assert t in s.queue[q] ==> Listed(s, t, q);
  }

  /** What Insert does to one level. */
  lemma InsertLevel(s: Sched, t: Tid, q: nat)
    requires |s.queue| == LEVELS && t in s.prio && s.prio[t] < LEVELS && q < LEVELS
    requires t !in s.queue[q] && NoDup(s.queue[q]) && (Bit(s.bitmap, q) <==> s.queue[q] != [])
    ensures var r := Insert(s, t);
            && (Bit(r.bitmap, q) <==> r.queue[q] != [])
            && NoDup(r.queue[q])
            && forall x :: x in r.queue[q] <==> x in s.queue[q] || (x == t && q == s.prio[t])
  {
    SetBitSets(s.bitmap, s.prio[t], q);
    AppendNoDup(s.queue[q], t);
  }

  lemma SuspendInv(s: Sched, t: Tid)
    requires Inv(s) && t in s.prio && IsReady(s, t)
    ensures TaskOk(s, t) && Inv(Suspend(s, t))
  {
    assert TaskOk(s, t);
    var r := Suspend(s, t);
    BitmapWidth(s.bitmap, s.prio[t]);
    forall q | 0 <= q < LEVELS ensures LevelOk(r, q) {
      RemoveLevel(s, t, q);
      assert forall x :: x in r.queue[q] ==> Listed(s, x, q);
    }
    forall x | x in r.prio ensures TaskOk(r, x) {
      assert TaskOk(s, x);
      RemoveLevel(s, t, s.prio[x]);
    }
  }

  lemma ForgetInv(s: Sched, t: Tid)
    requires Inv(s) && t in s.prio
    ensures TaskOk(s, t) && Inv(Forget(s, t))
  {
    assert TaskOk(s, t);
    var r := Forget(s, t);
    BitmapWidth(s.bitmap, s.prio[t]);
    forall q | 0 <= q < LEVELS ensures LevelOk(r, q) {
      ForgetLevel(s, t, q);
    }
    forall x | x in r.prio ensures TaskOk(r, x) {
      assert TaskOk(s, x);
      if IsReady(s, t) {
        RemoveLevel(s, t, s.prio[x]);
      }
    }
  }

  lemma ForgetLevel(s: Sched, t: Tid, q: nat)
    requires Inv(s) && t in s.prio && q < LEVELS
    ensures |Forget(s, t).queue| == LEVELS && LevelOk(Forget(s, t), q)
  {
    assert LevelOk(s, q);
    if IsReady(s, t) {
      RemoveLevel(s, t, q);
    }
    assert forall x :: x in Forget(s, t).queue[q] ==> Listed(s, x, q);
  }

  lemma MakeReadyInv(s: Sched, t: Tid)
    requires Inv(s) && t in s.prio && !IsReady(s, t)
    ensures TaskOk(s, t) && Inv(MakeReady(s, t))
  {
    assert TaskOk(s, t);
    var r := MakeReady(s, t);
    BitmapWidth(s.bitmap, s.prio[t]);
    forall q | 0 <= q < LEVELS ensures LevelOk(r, q) {
      assert LevelOk(s, q);
      assert t in s.queue[q] ==> Listed(s, t, q);
      InsertLevel(s, t, q);
      assert forall x :: x in s.queue[q] ==> Listed(s, x, q);
    }
    forall x | x in r.prio ensures TaskOk(r, x) {
      assert TaskOk(s, x);
    }
  }

  lemma PrioChangeInv(s: Sched, t: Tid, p: nat)
    requires Inv(s) && t in s.prio && IsReady(s, t) && p < LEVELS
    ensures TaskOk(s, t) && Inv(PrioChange(s, t, p))
  {
    assert TaskOk(s, t);
    var m, r := Remove(s, t), PrioChange(s, t, p);
    BitmapWidth(s.bitmap, s.prio[t]);
    BitmapWidth(m.bitmap, p);
    forall q | 0 <= q < LEVELS ensures LevelOk(r, q) {
      RemoveLevel(s, t, q);
      InsertLevel(m.(prio := m.prio[t := p]), t, q);
      assert forall x :: x in s.queue[q] ==> Listed(s, x, q);
    }
    forall x | x in r.prio ensures TaskOk(r, x) {
      assert TaskOk(s, x);
      RemoveLevel(s, t, s.prio[x]);
    }
  }

  /** _mrtk_schedule_prio_change does not look at the state. It keeps lists, bitmap and states in agreement exactly for
      a READY task: any other lands on a ready list. */
  lemma PrioChangeNeedsReady(s: Sched, t: Tid, p: nat)
    requires Inv(s) && t in s.prio && p < LEVELS
    ensures Inv(PrioChange(s, t, p)) <==> IsReady(s, t)
  {
    if IsReady(s, t) {
      PrioChangeInv(s, t, p);
    } else {
      ListedUnready(s, t, p);
      var r := PrioChange(s, t, p);
      assert Inv(r) ==> LevelOk(r, p) && Listed(r, t, p);
    }
  }

  lemma ListedUnready(s: Sched, t: Tid, p: nat)
    requires Inv(s) && t in s.prio && p < LEVELS
    ensures var r := PrioChange(s, t, p);
            |r.queue| == LEVELS && t in r.queue[p] && r.state == s.state && r.prio == s.prio[t := p]
  {
    assert TaskOk(s, t);
  }

  /** The request flag and the current task play no part in the invariant. */
  lemma FlagsInv(s: Sched, r: Sched)
    requires Inv(s) && r == s.(asked := r.asked, cur := r.cur)
    ensures Inv(r)
  {
    forall t | t in r.prio ensures TaskOk(r, t) {
      assert TaskOk(s, t);
    }
    forall p | 0 <= p < LEVELS ensures LevelOk(r, p) {
      assert LevelOk(s, p);
      assert forall t :: t in s.queue[p] ==> Listed(s, t, p);
    }
  }

  // ----- the choice -----

  /** What the lookup selects is READY and no READY task is more urgent. */
  lemma SelectIsMostUrgent(s: Sched, t: Tid)
    requires Inv(s) && t in s.prio && IsReady(s, t)
    ensures Level(s, HighestPrio(s.bitmap)) != []
    ensures IsReady(s, Select(s)) && Select(s) in s.prio && s.prio[Select(s)] <= s.prio[t]
  {
    assert TaskOk(s, t) && LevelOk(s, s.prio[t]);
    var p := HighestPrio(s.bitmap);
    if s.bitmap == 0 {
      BitMeansPositive(s.bitmap, s.prio[t]);
    }
    HighestPrioIsLowestBit(s.bitmap);
    assert p <= s.prio[t];
    assert LevelOk(s, p);
    assert Listed(s, Select(s), p);
  }

  // ----- arrival order among equals -----

  /** t comes before u in q. */
  ghost predicate InOrder(q: seq<Tid>, t: Tid, u: Tid) {
    exists i, j :: 0 <= i < j < |q| && q[i] == t && q[j] == u
  }

  /** Of the READY tasks of the selected priority none comes before the selected one. */
  lemma SelectIsFirst(s: Sched, u: Tid)
    requires Inv(s) && u in s.prio && IsReady(s, u)
    ensures Level(s, HighestPrio(s.bitmap)) != []
    ensures u != Select(s) && s.prio[u] == Num(s.prio, Select(s)) ==> InOrder(Level(s, s.prio[u]), Select(s), u)
  {
    SelectIsMostUrgent(s, u);
    var p := HighestPrio(s.bitmap);
    assert TaskOk(s, u) && LevelOk(s, p) && TaskOk(s, Select(s));
    assert Listed(s, Select(s), p);
    if u != Select(s) && s.prio[u] == p {
      var j :| 0 <= j < |s.queue[p]| && s.queue[p][j] == u;
      assert 0 < j && s.queue[p][0] == Select(s);
    }
  }

  lemma {:induction false} WithoutInOrder(q: seq<Tid>, x: Tid, t: Tid, u: Tid)
    requires InOrder(q, t, u) && x != t && x != u
    ensures InOrder(Without(q, x), t, u)
  {
    var i, j :| 0 <= i < j < |q| && q[i] == t && q[j] == u;
    var r := Without(q, x);
    if q[0] != x && i > 0 {
      assert q[1..][i - 1] == t && q[1..][j - 1] == u;
      WithoutInOrder(q[1..], x, t, u);
      var k, l :| 0 <= k < l < |r| - 1 && r[1..][k] == t && r[1..][l] == u;
      assert r[k + 1] == t && r[l + 1] == u;
    } else if q[0] == x {
      assert r[i - 1] == t && r[j - 1] == u;
    } else {
      WithoutKeeps(q[1..], x, j - 1);
      var l :| 0 <= l < |r| - 1 && r[1..][l] == u;
      assert r[0] == t && r[l + 1] == u;
    }
  }

  lemma {:induction false} WithoutKeeps(q: seq<Tid>, x: Tid, j: nat)
    requires j < |q| && q[j] != x
    ensures q[j] in Without(q, x)
  {
    if q[0] != x && j > 0 {
      WithoutKeeps(q[1..], x, j - 1);
    } else if q[0] == x {
      assert q[1..][j - 1] == q[j];
    }
  }

  /** A task that becomes READY comes after everybody of its priority. */
  lemma ArrivesLast(s: Sched, t: Tid, x: Tid)
    requires Inv(s) && t in s.prio && !IsReady(s, t) && x in Level(s, s.prio[t])
    ensures x != t && InOrder(Level(MakeReady(s, t), s.prio[t]), x, t)
  {
    var p := s.prio[t];
    assert TaskOk(s, t) && LevelOk(s, p) && Listed(s, x, p);
    var i :| 0 <= i < |s.queue[p]| && s.queue[p][i] == x;
    var r := MakeReady(s, t).queue[p];
    assert r[i] == x && r[|s.queue[p]|] == t;
  }

  /** So does one whose priority changes. */
  lemma ChangedArrivesLast(s: Sched, t: Tid, p: nat, x: Tid)
    requires Inv(s) && t in s.prio && IsReady(s, t) && p < LEVELS && x in Level(s, p) && x != t
    ensures InOrder(Level(PrioChange(s, t, p), p), x, t)
  {
    RemoveLevel(s, t, p);
    var q := Remove(s, t).queue[p];
    var i :| 0 <= i < |q| && q[i] == x;
    var r := PrioChange(s, t, p).queue[p];
    assert r == q + [t];
    assert r[i] == x && r[|q|] == t;
  }

  /** Whatever happens to other tasks, two of the same priority keep their order. */
  lemma OrderIsKept(s: Sched, x: Tid, q: nat, p: nat, t: Tid, u: Tid)
    requires Inv(s) && x in s.prio && q < LEVELS && p < LEVELS && x != t && x != u && InOrder(Level(s, p), t, u)
    ensures InOrder(Level(MakeReady(s, x), p), t, u) && InOrder(Level(Suspend(s, x), p), t, u)
    ensures InOrder(Level(PrioChange(s, x, q), p), t, u) && InOrder(Level(Forget(s, x), p), t, u)
  {
    InsertInOrder(s, x, p, t, u);
    RemoveInOrder(s, x, p, t, u);
    var r := Remove(s, x);
    InsertInOrder(r.(prio := r.prio[x := q]), x, p, t, u);
  }

  lemma InsertInOrder(s: Sched, x: Tid, p: nat, t: Tid, u: Tid)
    requires InOrder(Level(s, p), t, u)
    ensures InOrder(Level(Insert(s, x), p), t, u)
  {
    AppendInOrder(Level(s, p), x, t, u);
  }

  lemma RemoveInOrder(s: Sched, x: Tid, p: nat, t: Tid, u: Tid)
    requires InOrder(Level(s, p), t, u) && x != t && x != u
    ensures InOrder(Level(Remove(s, x), p), t, u)
  {
    WithoutInOrder(Level(s, p), x, t, u);
  }

  lemma AppendInOrder(q: seq<Tid>, x: Tid, t: Tid, u: Tid)
    requires InOrder(q, t, u)
    ensures InOrder(q + [x], t, u)
  {
    var i, j :| 0 <= i < j < |q| && q[i] == t && q[j] == u;
    assert (q + [x])[i] == t && (q + [x])[j] == u;
  }
}
