/** Singly linked lists threaded through block headers: `n[b]` is the link stored in the header of block b. */
module Chain {
  import opened TaskQueue

  const NULL: int := -1

  function Start(q: seq<nat>): int {
    if q == [] then NULL else q[0]
  }

  predicate LinkAt(n: seq<int>, q: seq<nat>, i: nat)
    requires i < |q|
  {
    q[i] < |n| && n[q[i]] == if i + 1 < |q| then q[i + 1] else NULL
  }

  /** The links lead through exactly the blocks of q. */
  ghost predicate Linked(n: seq<int>, q: seq<nat>) {
    forall i {:trigger LinkAt(n, q, i)} :: 0 <= i < |q| ==> LinkAt(n, q, i)
  }

  lemma TailLinked(n: seq<int>, q: seq<nat>)
    requires Linked(n, q) && q != [] && NoDup(q)
    ensures q[0] < |n| && n[q[0]] == Start(q[1..]) && Linked(n, q[1..])
    ensures NoDup(q[1..]) && forall x :: x in q <==> x == q[0] || x in q[1..]
    ensures q[0] !in q[1..]
  {
    assert LinkAt(n, q, 0);
    assert q == [q[0]] + q[1..];
    forall i | 0 <= i < |q| - 1 ensures LinkAt(n, q[1..], i) {
      assert LinkAt(n, q, i + 1);
    }
  }

  lemma FrameLinked(n: seq<int>, m: seq<int>, q: seq<nat>)
    requires Linked(n, q) && |m| == |n|
    requires forall b :: b in q && b < |n| ==> m[b] == n[b]
    ensures Linked(m, q)
  {
    forall i | 0 <= i < |q| ensures LinkAt(m, q, i) {
      assert LinkAt(n, q, i);
      assert q[i] in q;
    }
  }

  lemma PushLinked(n: seq<int>, q: seq<nat>, b: nat)
    requires Linked(n, q) && NoDup(q) && b !in q && b < |n|
    ensures Linked(n[b := Start(q)], [b] + q) && NoDup([b] + q)
  {
    var m, r := n[b := Start(q)], [b] + q;
    forall i | 0 <= i < |r| ensures LinkAt(m, r, i) {
      if i > 0 {
        assert LinkAt(n, q, i - 1);
        assert r[i] == q[i - 1] && q[i - 1] in q;
      }
    }
  }

  lemma AppendLinked(n: seq<int>, q: seq<nat>, b: nat)
    requires Linked(n, q) && NoDup(q) && b !in q && b < |n|
    ensures NoDup(q + [b])
    ensures q == [] ==> Linked(n[b := NULL], q + [b])
    ensures q != [] ==> q[|q| - 1] < |n| && Linked(n[q[|q| - 1] := b][b := NULL], q + [b])
  {
    AppendNoDup(q, b);
    if q != [] {
      var last := q[|q| - 1];
      assert LinkAt(n, q, |q| - 1);
      var m, r := n[last := b][b := NULL], q + [b];
      forall i | 0 <= i < |r| ensures LinkAt(m, r, i) {
        if i < |q| {
          assert LinkAt(n, q, i);
          assert q[i] in q;
        }
      }
    }
  }

  /** Links in address order. */
  lemma RangeLinked(n: seq<int>, q: seq<nat>)
    requires |q| == |n| && forall i :: 0 <= i < |q| ==> q[i] == i && n[i] == if i + 1 < |q| then i + 1 else NULL
    ensures Linked(n, q) && NoDup(q)
  {
    forall i | 0 <= i < |q| ensures LinkAt(n, q, i) {
    }
  }
}
