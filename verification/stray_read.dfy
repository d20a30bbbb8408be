/** The priority scan as written compares each waiter with a byte read beyond the local `highest_prio`
    instead of with the running best. Here that byte is an arbitrary value. */
module StrayRead {
  import opened PrioBitmap
  import opened TaskQueue
  import opened Mutex

  /** All tasks the scan visits, in its order. */
  function Visited(ms: seq<nat>, waiters: map<nat, seq<Tid>>): seq<Tid> {
    if ms == [] then [] else List(waiters, ms[0]) + Visited(ms[1..], waiters)
  }

  /** The scan with every comparison made against the byte `stray`. */
  function StrayBest(p: nat, q: seq<Tid>, prio: map<Tid, nat>, stray: nat): nat
    decreases |q|
  {
    if q == [] then p else StrayBest(if Num(prio, q[0]) < stray then Num(prio, q[0]) else p, q[1..], prio, stray)
  }

  lemma {:induction false} BestConcat(p: nat, a: seq<Tid>, b: seq<Tid>, prio: map<Tid, nat>)
    ensures Best(p, a + b, prio) == Best(Best(p, a, prio), b, prio)
    decreases |a|
  {
    if a == [] {
      assert a + b == b;
    } else {
      assert (a + b)[1..] == a[1..] + b;
      BestConcat(if Num(prio, a[0]) < p then Num(prio, a[0]) else p, a[1..], b, prio);
    }
  }

  lemma {:induction false} BestVisited(p: nat, ms: seq<nat>, waiters: map<nat, seq<Tid>>, prio: map<Tid, nat>)
    ensures BestHeld(p, ms, waiters, prio) == Best(p, Visited(ms, waiters), prio)
    decreases |ms|
  {
    if ms != [] {
      BestConcat(p, List(waiters, ms[0]), Visited(ms[1..], waiters), prio);
      BestVisited(Best(p, List(waiters, ms[0]), prio), ms[1..], waiters, prio);
    }
  }

  lemma {:induction false} StrayIsLastBelow(p: nat, q: seq<Tid>, prio: map<Tid, nat>, stray: nat)
    ensures (forall x :: x in q ==> Num(prio, x) >= stray) ==> StrayBest(p, q, prio, stray) == p
    ensures q != [] && Num(prio, q[|q| - 1]) < stray ==> StrayBest(p, q, prio, stray) == Num(prio, q[|q| - 1])
    decreases |q|
  {
    if q != [] {
      assert q[0] in q && forall x :: x in q[1..] ==> x in q;
      StrayIsLastBelow(if Num(prio, q[0]) < stray then Num(prio, q[0]) else p, q[1..], prio, stray);
    }
  }

  /** With whatever byte, the scan ends with the last visited task below it, or with t's own priority. */
  lemma {:induction false} LastBelow(p: nat, q: seq<Tid>, prio: map<Tid, nat>, stray: nat, i: nat)
    requires i < |q| && Num(prio, q[i]) < stray && forall j :: i < j < |q| ==> Num(prio, q[j]) >= stray
    ensures StrayBest(p, q, prio, stray) == Num(prio, q[i])
    decreases |q|
  {
    var r := if Num(prio, q[0]) < stray then Num(prio, q[0]) else p;
    if i > 0 {
      assert forall j :: 0 <= j < |q| - 1 ==> q[1..][j] == q[j + 1];
      LastBelow(r, q[1..], prio, stray, i - 1);
    } else {
      assert forall x :: x in q[1..] ==> Num(prio, x) >= stray;
      StrayIsLastBelow(r, q[1..], prio, stray);
    }
  }

  /** The scan as written restores the right priority whatever it reads, exactly when nobody is visited, or
      no visited task outranks t's own priority and the last one visited equals it. */
  lemma StrayReadIsHarmless(k: Kernel, t: Tid)
    requires Num(k.orig, t) < LEVELS
    requires forall x :: x in Visited(List(k.held, t), k.waiters) ==> Num(k.s.prio, x) < LEVELS
    ensures var q, own := Visited(List(k.held, t), k.waiters), Num(k.orig, t);
            (forall stray: nat :: stray < 256 ==> StrayBest(own, q, k.s.prio, stray) == Inherited(k, t)) <==>
            q == [] || ((forall x :: x in q ==> Num(k.s.prio, x) >= own) && Num(k.s.prio, q[|q| - 1]) == own)
  {
    var q, own, prio := Visited(List(k.held, t), k.waiters), Num(k.orig, t), k.s.prio;
    BestVisited(own, List(k.held, t), k.waiters, prio);
    BestIsLeast(own, q, prio);
    StrayIsLastBelow(own, q, prio, 0);
    StrayIsLastBelow(own, q, prio, 255);
    forall stray: nat |
      stray < 256 && q != [] && (forall x :: x in q ==> Num(prio, x) >= own) && Num(prio, q[|q| - 1]) == own
      ensures StrayBest(own, q, prio, stray) == Inherited(k, t)
    {
      StrayIsLastBelow(own, q, prio, stray);
    }
  }
}
