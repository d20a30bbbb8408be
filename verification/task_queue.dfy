/** Queues of tasks as sequences: removal, priority-ordered insertion, and the best priority in a queue. */
module TaskQueue {
  type Tid = nat

  /** A list or a number looked up with the value of a fresh object when the key is unknown. */
  function List(m: map<nat, seq<nat>>, k: nat): seq<nat> {
    if k in m then m[k] else []
  }

  function Num(m: map<nat, nat>, k: nat): nat {
    if k in m then m[k] else 0
  }

  ghost predicate NoDup(q: seq<nat>) {
    forall i, j :: 0 <= i < j < |q| ==> q[i] != q[j]
  }

  /** _mrtk_list_remove: the queue without the node of `t`. */
  function Without(q: seq<nat>, t: nat): seq<nat> {
    if q == [] then [] else if q[0] == t then q[1..] else [q[0]] + Without(q[1..], t)
  }

  lemma {:induction false} WithoutMembers(q: seq<nat>, t: nat)
    requires NoDup(q)
    ensures NoDup(Without(q, t))
    ensures forall x :: x in Without(q, t) <==> x in q && x != t
  {
    if q != [] {
      assert q == [q[0]] + q[1..];
      WithoutMembers(q[1..], t);
      assert q[0] !in q[1..];
    }
  }

  lemma AppendNoDup(q: seq<nat>, t: nat)
    requires NoDup(q) && t !in q
    ensures NoDup(q + [t])
  {
  }

  lemma SetMinus(s: set<Tid>, t: Tid)
    ensures |s| - 1 <= |s - {t}| <= |s|
  {
    if t in s {
      assert s == (s - {t}) + {t};
    } else {
      assert s == s - {t};
    }
  }

  // ----- priority order, first come first served among equals -----

  /** The place before the first task less urgent than priority p. */
  function InsertPos(q: seq<Tid>, prio: map<Tid, nat>, p: nat): (k: nat)
    ensures k <= |q|
    ensures forall i :: 0 <= i < k ==> Num(prio, q[i]) <= p
    ensures k < |q| ==> p < Num(prio, q[k])
  {
    if q == [] || p < Num(prio, q[0]) then 0 else 1 + InsertPos(q[1..], prio, p)
  }

  function SortedInsert(q: seq<Tid>, prio: map<Tid, nat>, t: Tid): seq<Tid> {
    var k := InsertPos(q, prio, Num(prio, t));
    q[..k] + [t] + q[k..]
  }

  /** More urgent, or as urgent and queued earlier. */
  predicate Ahead(prio: map<Tid, nat>, stamp: map<Tid, nat>, t: Tid, u: Tid) {
    Num(prio, t) < Num(prio, u) || (Num(prio, t) == Num(prio, u) && Num(stamp, t) < Num(stamp, u))
  }

  ghost predicate Sorted(q: seq<Tid>, prio: map<Tid, nat>, stamp: map<Tid, nat>) {
    forall i, j :: 0 <= i < j < |q| ==> Ahead(prio, stamp, q[i], q[j])
  }

  lemma InsertAt(q: seq<Tid>, k: nat, t: Tid)
    requires k <= |q|
    ensures var r := q[..k] + [t] + q[k..];
            && |r| == |q| + 1
            && (forall i :: 0 <= i < k ==> r[i] == q[i]) && r[k] == t && (forall i :: k < i < |r| ==> r[i] == q[i - 1])
            && (forall x :: x in r <==> x in q || x == t)
  {
    assert q == q[..k] + q[k..];
  }

  lemma InsertMembers(q: seq<Tid>, prio: map<Tid, nat>, t: Tid)
    requires NoDup(q) && t !in q
    ensures NoDup(SortedInsert(q, prio, t))
    ensures forall x :: x in SortedInsert(q, prio, t) <==> x in q || x == t
  {
    var k := InsertPos(q, prio, Num(prio, t));
    InsertAt(q, k, t);
    var r := SortedInsert(q, prio, t);
    forall i, j | 0 <= i < j < |r| ensures r[i] != r[j] {
      assert i < k ==> r[i] in q;
      assert j > k ==> r[j] in q;
    }
  }

  /** The tasks before the insertion point are ahead of the latest arrival, and it is ahead of the others. */
  lemma AroundInsert(q: seq<Tid>, prio: map<Tid, nat>, stamp: map<Tid, nat>, t: Tid, i: nat)
    requires Sorted(q, prio, stamp) && i < |q| && Num(stamp, q[i]) < Num(stamp, t)
    ensures var k := InsertPos(q, prio, Num(prio, t));
            if i < k then Ahead(prio, stamp, q[i], t) else Ahead(prio, stamp, t, q[i])
  {
    var k := InsertPos(q, prio, Num(prio, t));
    if k < i {
      assert Ahead(prio, stamp, q[k], q[i]);
    }
  }

  /** Inserting the latest arrival keeps the queue in priority order with arrival order among equals. */
  lemma InsertSorted(q: seq<Tid>, prio: map<Tid, nat>, stamp: map<Tid, nat>, t: Tid)
    requires Sorted(q, prio, stamp)
    requires forall x :: x in q ==> Num(stamp, x) < Num(stamp, t)
    ensures Sorted(SortedInsert(q, prio, t), prio, stamp)
  {
    var k := InsertPos(q, prio, Num(prio, t));
    InsertAt(q, k, t);
    var r := SortedInsert(q, prio, t);
    forall i, j | 0 <= i < j < |r| ensures Ahead(prio, stamp, r[i], r[j]) {
      if i == k {
        AroundInsert(q, prio, stamp, t, j - 1);
      } else if j == k {
        AroundInsert(q, prio, stamp, t, i);
      } else {
        assert Ahead(prio, stamp, q[if i < k then i else i - 1], q[if j < k then j else j - 1]);
      }
    }
  }

  // ----- first in, first out -----

  /** Nobody in q is less urgent than t. */
  ghost predicate NoneBehind(q: seq<Tid>, prio: map<Tid, nat>, t: Tid) {
    forall x :: x in q ==> Num(prio, x) <= Num(prio, t)
  }

  /** An arrival goes to the tail, as a FIFO queue would have it, exactly when nobody queued is less urgent. */
  lemma TailExactlyWhen(q: seq<Tid>, prio: map<Tid, nat>, t: Tid)
    ensures SortedInsert(q, prio, t) == q + [t] <==> NoneBehind(q, prio, t)
  {
    var k := InsertPos(q, prio, Num(prio, t));
    InsertAt(q, k, t);
    if k < |q| {
      assert q[k] in q;
      assert SortedInsert(q, prio, t)[k] == t && (q + [t])[k] == q[k];
    }
  }

  /** The queue after the tasks of ts have arrived one after the other. */
  function Arrivals(ts: seq<Tid>, prio: map<Tid, nat>): seq<Tid> {
    if ts == [] then [] else SortedInsert(Arrivals(ts[..|ts| - 1], prio), prio, ts[|ts| - 1])
  }

  /** No task before a more urgent one. */
  ghost predicate ByPriority(q: seq<Tid>, prio: map<Tid, nat>) {
    forall i, j :: 0 <= i < j < |q| ==> Num(prio, q[i]) <= Num(prio, q[j])
  }

  lemma InsertByPriority(q: seq<Tid>, prio: map<Tid, nat>, t: Tid)
    requires ByPriority(q, prio)
    ensures ByPriority(SortedInsert(q, prio, t), prio)
  {
    var k := InsertPos(q, prio, Num(prio, t));
    InsertAt(q, k, t);
    var r := SortedInsert(q, prio, t);
    forall i, j | 0 <= i < j < |r| ensures Num(prio, r[i]) <= Num(prio, r[j]) {
      if i == k {
        assert Num(prio, q[k]) <= Num(prio, q[j - 1]);
      }
    }
  }

  lemma {:induction false} ArrivalsByPriority(ts: seq<Tid>, prio: map<Tid, nat>)
    ensures ByPriority(Arrivals(ts, prio), prio)
  {
    if ts != [] {
      ArrivalsByPriority(ts[..|ts| - 1], prio);
      InsertByPriority(Arrivals(ts[..|ts| - 1], prio), prio, ts[|ts| - 1]);
    }
  }

  /** A queue is in arrival order, whatever policy was asked for, exactly when nobody arrived behind a less
      urgent task. */
  lemma {:induction false} FifoExactlyWhen(ts: seq<Tid>, prio: map<Tid, nat>)
    ensures Arrivals(ts, prio) == ts <==> ByPriority(ts, prio)
  {
    ArrivalsByPriority(ts, prio);
    if ts != [] && ByPriority(ts, prio) {
      var q, t := ts[..|ts| - 1], ts[|ts| - 1];
      assert ts == q + [t];
      assert ByPriority(q, prio);
      FifoExactlyWhen(q, prio);
      TailExactlyWhen(q, prio, t);
    }
  }

  /** Two tasks of priorities 20 and 5 that arrive in this order are served in the other. */
  lemma FifoIsNotHonoured(prio: map<Tid, nat>)
    requires prio == map[0 := 20, 1 := 5]
    ensures Arrivals([0, 1], prio) == [1, 0]
  {
    assert [0, 1][..1] == [0] && [0][..0] == [];
    assert Arrivals([0], prio) == SortedInsert([], prio, 0) == [0];
    assert InsertPos([0], prio, 5) == 0 && SortedInsert([0], prio, 1) == [1, 0];
  }

  lemma SortedTail(q: seq<Tid>, prio: map<Tid, nat>, stamp: map<Tid, nat>)
    requires Sorted(q, prio, stamp) && q != []
    ensures Sorted(q[1..], prio, stamp)
    ensures forall x :: x in q ==> Num(prio, q[0]) <= Num(prio, x)
  {
    forall i, j | 0 <= i < j < |q| - 1 ensures Ahead(prio, stamp, q[1..][i], q[1..][j]) {
      assert Ahead(prio, stamp, q[i + 1], q[j + 1]);
    }
    forall x | x in q ensures Num(prio, q[0]) <= Num(prio, x) {
      var i :| 0 <= i < |q| && q[i] == x;
      assert i == 0 || Ahead(prio, stamp, q[0], q[i]);
    }
  }

  // ----- the running best of _mrtk_mutex_find_highest_inherited_prio -----

  function Best(p: nat, q: seq<Tid>, prio: map<Tid, nat>): nat
    decreases |q|
  {
    if q == [] then p else Best(if Num(prio, q[0]) < p then Num(prio, q[0]) else p, q[1..], prio)
  }

  function BestHeld(p: nat, ms: seq<nat>, waiters: map<nat, seq<Tid>>, prio: map<Tid, nat>): nat
    decreases |ms|
  {
    if ms == [] then p else BestHeld(Best(p, List(waiters, ms[0]), prio), ms[1..], waiters, prio)
  }

  lemma {:induction false} BestIsLeast(p: nat, q: seq<Tid>, prio: map<Tid, nat>)
    ensures Best(p, q, prio) <= p
    ensures forall x :: x in q ==> Best(p, q, prio) <= Num(prio, x)
    ensures Best(p, q, prio) == p || exists x :: x in q && Num(prio, x) == Best(p, q, prio)
    decreases |q|
  {
    if q != [] {
      var p' := if Num(prio, q[0]) < p then Num(prio, q[0]) else p;
      BestIsLeast(p', q[1..], prio);
      assert q == [q[0]] + q[1..];
      if Best(p, q, prio) != p {
        assert q[0] in q;
      }
    }
  }

  lemma {:induction false} BestHeldIsLeast(p: nat, ms: seq<nat>, waiters: map<nat, seq<Tid>>, prio: map<Tid, nat>)
    ensures BestHeld(p, ms, waiters, prio) <= p
    ensures forall m, x :: m in ms && x in List(waiters, m) ==> BestHeld(p, ms, waiters, prio) <= Num(prio, x)
    ensures BestHeld(p, ms, waiters, prio) == p ||
            exists m, x :: m in ms && x in List(waiters, m) && Num(prio, x) == BestHeld(p, ms, waiters, prio)
    decreases |ms|
  {
    if ms != [] {
      var p' := Best(p, List(waiters, ms[0]), prio);
      var r := BestHeld(p, ms, waiters, prio);
      BestIsLeast(p, List(waiters, ms[0]), prio);
      BestHeldIsLeast(p', ms[1..], waiters, prio);
      assert ms == [ms[0]] + ms[1..];
      if r != p && r != p' {
        var m, x :| m in ms[1..] && x in List(waiters, m) && Num(prio, x) == r;
        assert m in ms;
      } else if r == p' != p {
        assert ms[0] in ms;
      }
    }
  }
}
