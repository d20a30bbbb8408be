/** The circular intrusive list: pointer surgery on nodes against the sequence of nodes in the ring. */
module IntrusiveList {
  class Node {
    var next: Node
    var prev: Node

    constructor ()
      ensures Ring([this])
    {
      next, prev := this, this;
    }
  }

  function Succ(i: nat, n: nat): nat {
    if i + 1 < n then i + 1 else 0
  }

  ghost predicate LinkedAt(q: seq<Node>, i: nat)
    requires i < |q|
    reads set x | x in q
  {
    Succ(i, |q|) < |q| && q[i].next == q[Succ(i, |q|)] && q[Succ(i, |q|)].prev == q[i]
  }

  ghost predicate Distinct(q: seq<Node>) {
    forall i, j :: 0 <= i < j < |q| ==> q[i] != q[j]
  }

  /** Following next from q[0] visits exactly the nodes of q and returns; prev goes back. */
  ghost predicate Ring(q: seq<Node>)
    reads set x | x in q
  {
    && q != [] && Distinct(q)
    && (forall i {:trigger LinkedAt(q, i)} :: 0 <= i < |q| ==> LinkedAt(q, i))
  }

  /** Only the last node leads back to the first. */
  lemma NextIsFirst(q: seq<Node>, i: nat)
    requires Ring(q) && i < |q|
    ensures q[i].next == q[0] <==> i == |q| - 1
  {
    assert LinkedAt(q, i);
  }

  /** The links determine the list: a ring is the only one from its first node. */
  lemma RingIsUnique(q: seq<Node>, r: seq<Node>)
    requires Ring(q) && Ring(r) && q[0] == r[0]
    ensures q == r
  {
    var n := if |q| < |r| then |q| else |r|;
    var i := 1;
    while i < n
      invariant 1 <= i <= n
      invariant q[..i] == r[..i]
    {
      assert LinkedAt(q, i - 1) && LinkedAt(r, i - 1);
      assert q[i - 1] == q[..i][i - 1] == r[..i][i - 1] == r[i - 1];
      i := i + 1;
    }
    assert q[n - 1] == q[..n][n - 1] == r[..n][n - 1] == r[n - 1];
    NextIsFirst(q, n - 1);
    NextIsFirst(r, n - 1);
    assert q == q[..n] && r == r[..n];
  }

  /** _mrtk_list_init */
  method Init(head: Node)
    modifies head
    ensures Ring([head])
  {
    head.next := head;
    head.prev := head;
  }

  /** _mrtk_list_is_empty */
  method IsEmpty(head: Node, ghost q: seq<Node>) returns (empty: bool)
    requires Ring([head] + q)
    ensures empty <==> q == []
  {
    assert LinkedAt([head] + q, 0);
    empty := head.next == head;
  }

  /** _mrtk_list_len */
  method Len(head: Node, ghost q: seq<Node>) returns (len: nat)
    requires Ring([head] + q)
    ensures len == |q|
  {
    ghost var r := [head] + q;
    len := 0;
    var cur := head;
    assert LinkedAt(r, 0);
    while cur.next != head
      invariant len <= |q| && cur == r[len] && LinkedAt(r, len)
      decreases |q| - len
    {
      NextIsFirst(r, len);
      len := len + 1;
      cur := cur.next;
      assert LinkedAt(r, len);
    }
    NextIsFirst(r, len);
  }

  /** The ring with x after position i. */
  ghost function With(q: seq<Node>, i: nat, x: Node): seq<Node>
    requires i < |q|
  {
    q[..i + 1] + [x] + q[i + 1..]
  }

  /** The ring without position i; the last node stays in a ring of its own. */
  ghost function Without(q: seq<Node>, i: nat): seq<Node>
    requires i < |q|
  {
    q[..i] + q[i + 1..]
  }

  lemma RemoveUndoesInsert(q: seq<Node>, i: nat, x: Node)
    requires i < |q|
    ensures With(q, i, x)[i + 1] == x && Without(With(q, i, x), i + 1) == q
  {
  }

  lemma WithDistinct(q: seq<Node>, i: nat, x: Node)
    requires Distinct(q) && i < |q| && x !in q
    ensures Distinct(With(q, i, x))
    ensures forall k :: 0 <= k <= |q| ==>
        With(q, i, x)[k] == if k <= i then q[k] else if k == i + 1 then x else q[k - 1]
  {
  }

  lemma NextIsInjective(r: seq<Node>, a: Node, b: Node)
    requires Ring(r) && a in r && b in r && a.next == b.next
    ensures a == b
  {
    var i :| 0 <= i < |r| && r[i] == a;
    var j :| 0 <= j < |r| && r[j] == b;
    assert LinkedAt(r, i) && LinkedAt(r, j);
  }

  /** Two nodes lead to the same one. */
  ghost predicate Broken(q: seq<Node>)
    reads set x | x in q
  {
    exists a, b :: a in q && b in q && a != b && a.next == b.next
  }

  /** Then no ring goes through all the nodes of q. */
  lemma NoRingThrough(q: seq<Node>, r: seq<Node>)
    requires Broken(q) && Ring(r)
    ensures exists y :: y in q && y !in r
  {
    var a, b :| a in q && b in q && a != b && a.next == b.next;
    if a in r && b in r {
      NextIsInjective(r, a, b);
    }
  }

  /** _mrtk_list_insert_after: the ring gains a node that is in none; linking a node of the ring again breaks it. */
  method InsertAfter(node: Node, x: Node, ghost q: seq<Node>, ghost i: nat)
    requires Ring(q) && i < |q| && q[i] == node
    modifies x, node`next, node.next`prev
    ensures x !in q ==> Ring(With(q, i, x))
    ensures x in q && |q| > 1 ==> Broken(q)
  {
    assert LinkedAt(q, i);
    x.next := node.next;
    x.prev := node;
    node.next.prev := x;
    node.next := x;
    if x !in q {
      ghost var r := With(q, i, x);
      WithDistinct(q, i, x);
      forall k | 0 <= k < |r| ensures LinkedAt(r, k) {
        assert k < i ==> old(LinkedAt(q, k));
        assert k > i + 1 ==> old(LinkedAt(q, k - 1));
      }
    } else if |q| > 1 {
      ghost var j :| 0 <= j < |q| && q[j] == x;
      ghost var before := if j == 0 then |q| - 1 else j - 1;
      assert old(LinkedAt(q, before));
      ghost var other := if i == before then x else q[before];
      assert other in q && node in q && other != node && other.next == node.next == x;
    }
  }

  /** _mrtk_list_insert_before: before the head means at the end. */
  method InsertBefore(node: Node, x: Node, ghost q: seq<Node>, ghost i: nat)
    requires Ring(q) && i < |q| && q[i] == node
    modifies x, node`prev, node.prev`next
    ensures x !in q ==> Ring(if i == 0 then q + [x] else With(q, i - 1, x))
    ensures x in q && |q| > 1 ==> Broken(q)
  {
    ghost var before := if i == 0 then |q| - 1 else i - 1;
    assert LinkedAt(q, before);
    InsertAfter(node.prev, x, q, before);
    assert i == 0 ==> With(q, before, x) == q + [x];
  }

  /** Where position k of the shorter ring comes from. */
  ghost function Origin(i: nat, k: nat): nat {
    if k < i then k else k + 1
  }

  lemma WithoutDistinct(q: seq<Node>, i: nat)
    requires Distinct(q) && i < |q| && |q| > 1
    ensures Distinct(Without(q, i))
    ensures forall k :: 0 <= k < |q| - 1 ==> Without(q, i)[k] == q[Origin(i, k)]
  {
  }

  lemma OriginSucc(i: nat, k: nat, n: nat)
    requires i < n && n > 1 && k < n - 1
    ensures Origin(i, Succ(k, n - 1)) == if Succ(Origin(i, k), n) == i then Succ(i, n) else Succ(Origin(i, k), n)
  {
  }

  /** _mrtk_list_remove */
  method Remove(node: Node, ghost q: seq<Node>, ghost i: nat)
    requires Ring(q) && i < |q| && q[i] == node
    modifies node, node.prev`next, node.next`prev
    ensures Ring([node])
    ensures |q| > 1 ==> Ring(Without(q, i))
  {
    ghost var before := if i == 0 then |q| - 1 else i - 1;
    assert LinkedAt(q, i) && LinkedAt(q, before);
    node.prev.next := node.next;
    node.next.prev := node.prev;
    node.next := node;
    node.prev := node;
    if |q| > 1 {
      ghost var r := Without(q, i);
      WithoutDistinct(q, i);
      forall k | 0 <= k < |r| ensures LinkedAt(r, k) {
        assert old(LinkedAt(q, Origin(i, k)));
        OriginSucc(i, k, |q|);
      }
    }
  }
}
