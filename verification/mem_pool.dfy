/** Fixed-size block pools: every run of alloc and free over any number of pools. A block is known by its number; its
    header is one word, a link while it is free and its pool while it is held. */
module MemPool {
  import opened TaskQueue
  import opened Chain

  type Blk = nat

  /** The pool p as a header word. */
  function Owner(p: nat): int {
    -2 - p
  }

  /** `head` and `count` are the control block's fields; `free` and `held` record the list and what clients hold. */
  datatype Pool = Pool(head: int, count: nat, free: seq<Blk>, held: set<Blk>, waiters: seq<Tid>, woken: set<Tid>)

  /** `hdr` is the header word of every block; block b was carved for pool home[b]. */
  datatype Pools = Pools(hdr: seq<int>, home: seq<nat>, pools: seq<Pool>)

  ghost predicate BlockOk(s: Pools, p: nat, b: Blk)
    requires p < |s.pools| && b < |s.hdr| && b < |s.home|
  {
    && (b in s.pools[p].free || b in s.pools[p].held <==> s.home[b] == p)
    && !(b in s.pools[p].free && b in s.pools[p].held)
    && (b in s.pools[p].held ==> s.hdr[b] == Owner(p))
  }

  /** The free list runs from head through the headers, count blocks long. */
  ghost predicate FreeListOk(hdr: seq<int>, p: Pool) {
    && NoDup(p.free) && p.head == Start(p.free) && Linked(hdr, p.free) && p.count == |p.free|
    && (forall b :: b in p.free || b in p.held ==> b < |hdr|)
  }

  /** With somebody waiting, the free blocks are spoken for by tasks already woken. */
  ghost predicate NoneStranded(p: Pool) {
    && NoDup(p.waiters) && (forall t :: t in p.waiters ==> t !in p.woken)
    && (p.waiters != [] ==> |p.free| <= |p.woken|)
  }

  ghost predicate PoolOk(s: Pools, p: nat)
    requires p < |s.pools|
  {
    FreeListOk(s.hdr, s.pools[p]) && NoneStranded(s.pools[p])
  }

  ghost predicate Inv(s: Pools) {
    && |s.home| == |s.hdr| && (forall b :: 0 <= b < |s.home| ==> s.home[b] < |s.pools|)
    && (forall p {:trigger PoolOk(s, p)} :: 0 <= p < |s.pools| ==> PoolOk(s, p))
    && (forall p, b {:trigger BlockOk(s, p, b)} :: 0 <= p < |s.pools| && 0 <= b < |s.hdr| ==> BlockOk(s, p, b))
  }

  // ----- alloc and free read and write only head, count, headers and the waiting queue -----

  /** One pass of mrtk_mp_alloc by t: a block, NULL, or a place at the end of the waiting queue. */
  function AllocIn(hdr: seq<int>, p: Pool, id: nat, t: Tid, wait: bool): (seq<int>, Pool, int) {
    var awake := p.(woken := p.woken - {t});
    if p.count == 0 || !(0 <= p.head < |hdr|) then
      (hdr, if wait then awake.(waiters := p.waiters + [t]) else awake, NULL)
    else
      (hdr[p.head := Owner(id)],
       awake.(head := hdr[p.head], count := p.count - 1,
              free := if p.free == [] then [] else p.free[1..], held := p.held + {p.head}), p.head)
  }

  /** mrtk_mp_free once the header has named the pool. */
  function FreeIn(hdr: seq<int>, p: Pool, b: Blk): (seq<int>, Pool)
    requires b < |hdr|
  {
    var q := p.(head := b, count := p.count + 1, free := [b] + p.free, held := p.held - {b});
    (hdr[b := p.head],
     if q.waiters == [] then q else q.(waiters := q.waiters[1..], woken := q.woken + {q.waiters[0]}))
  }

  datatype Op = DoAlloc(p: nat, t: Tid, wait: bool) | DoFree(b: Blk)

  ghost predicate Held(s: Pools, b: Blk) {
    exists p :: 0 <= p < |s.pools| && b in s.pools[p].held
  }

  /** Blocks freed are held ones; the running task is in no waiting queue. */
  ghost predicate Enabled(s: Pools, op: Op) {
    match op
    case DoAlloc(p, t, wait) => p < |s.pools| && t !in s.pools[p].waiters
    case DoFree(b) => Held(s, b)
  }

  /** The pool a header word names. */
  function NamedBy(word: int): nat {
    if word <= -2 then -2 - word else 0
  }

  function Step(s: Pools, op: Op): Pools {
    match op
    case DoAlloc(p, t, wait) =>
      if p < |s.pools| then
        var (hdr, q, _) := AllocIn(s.hdr, s.pools[p], p, t, wait);
        s.(hdr := hdr, pools := s.pools[p := q])
      else s
    case DoFree(b) =>
      if b < |s.hdr| && NamedBy(s.hdr[b]) < |s.pools| then
        var p := NamedBy(s.hdr[b]);
        var (hdr, q) := FreeIn(s.hdr, s.pools[p], b);
        s.(hdr := hdr, pools := s.pools[p := q])
      else s
  }

  // ----- a pool joins -----

  /** mrtk_mp_init of n blocks, numbered after those already carved: links in address order. */
  function AddPool(s: Pools, n: nat): Pools {
    var first := |s.hdr|;
    Pools(s.hdr + seq(n, i => if i + 1 < n then first + i + 1 else NULL), s.home + seq(n, i => |s.pools|),
          s.pools + [Pool(first, n, seq(n, i => first + i), {}, [], {})])
  }

  lemma AddPoolInv(s: Pools, n: nat)
    requires Inv(s) && n > 0
    ensures Inv(AddPool(s, n))
  {
    var r, p := AddPool(s, n), |s.pools|;
    forall o | 0 <= o < |r.pools| ensures PoolOk(r, o) {
      if o < p {
        assert PoolOk(s, o);
        LongerLinked(s.hdr, r.hdr, s.pools[o].free);
      } else {
        forall i | 0 <= i < n ensures LinkAt(r.hdr, r.pools[p].free, i) {
        }
      }
    }
    forall o, b | 0 <= o < |r.pools| && 0 <= b < |r.hdr| ensures BlockOk(r, o, b) {
      AddedBlock(s, n, o, b);
    }
  }

  lemma LongerLinked(n: seq<int>, m: seq<int>, q: seq<Blk>)
    requires n <= m && Linked(n, q)
    ensures Linked(m, q)
  {
    forall i | 0 <= i < |q| ensures LinkAt(m, q, i) {
      assert LinkAt(n, q, i);
    }
  }

  lemma AddedBlock(s: Pools, n: nat, o: nat, b: Blk)
    requires Inv(s) && n > 0 && o <= |s.pools| && b < |s.hdr| + n
    ensures BlockOk(AddPool(s, n), o, b)
  {
    var free := AddPool(s, n).pools[|s.pools|].free;
    if o < |s.pools| {
      assert PoolOk(s, o);
      assert b < |s.hdr| ==> BlockOk(s, o, b);
    } else if b >= |s.hdr| {
      assert free[b - |s.hdr|] == b;
    }
  }

  /** Pools of the given sizes, initialised one after the other. */
  function Carved(sizes: seq<nat>): Pools {
    if sizes == [] then Pools([], [], []) else AddPool(Carved(sizes[..|sizes| - 1]), sizes[|sizes| - 1])
  }

  /** Where every run starts. */
  lemma {:induction false} CarvedInv(sizes: seq<nat>)
    requires forall i :: 0 <= i < |sizes| ==> sizes[i] > 0
    ensures Inv(Carved(sizes))
  {
    if sizes != [] {
      CarvedInv(sizes[..|sizes| - 1]);
      AddPoolInv(Carved(sizes[..|sizes| - 1]), sizes[|sizes| - 1]);
    }
  }

  // ----- every step keeps the invariant -----

  /** The block handed out is the head of the free list. */
  lemma AllocPool(hdr: seq<int>, p: Pool, id: nat, t: Tid, wait: bool)
    requires FreeListOk(hdr, p) && NoneStranded(p) && t !in p.waiters
    ensures var (h, q, b) := AllocIn(hdr, p, id, t, wait);
            && FreeListOk(h, q) && NoneStranded(q)
            && if p.free == [] then b == NULL && h == hdr && q.free == [] && q.held == p.held
               else
                 && b == p.free[0] && b !in q.free && p.free == [b] + q.free && q.held == p.held + {b}
                 && h == hdr[b := Owner(id)]
  {
    var (h, q, b) := AllocIn(hdr, p, id, t, wait);
    SetMinus(p.woken, t);
    if p.free == [] {
      AppendNoDup(p.waiters, t);
    } else {
      assert LinkAt(hdr, p.free, 0) && p.free[0] in p.free;
      TailLinked(hdr, p.free);
      FrameLinked(hdr, h, p.free[1..]);
    }
  }

  lemma FreePool(hdr: seq<int>, p: Pool, b: Blk)
    requires FreeListOk(hdr, p) && NoneStranded(p) && b < |hdr| && b !in p.free
    ensures var (h, q) := FreeIn(hdr, p, b);
            && FreeListOk(h, q) && NoneStranded(q)
            && q.free == [b] + p.free && q.held == p.held - {b} && h == hdr[b := p.head]
  {
    PushLinked(hdr, p.free, b);
    if p.waiters != [] {
      assert p.waiters == [p.waiters[0]] + p.waiters[1..] && p.waiters[0] in p.waiters;
    }
  }

  /** What a step leaves alone: one header and one pool change, and that header is of a block of that pool. */
  ghost predicate Local(s: Pools, r: Pools, p: nat, b: Blk) {
    && p < |s.pools| && b < |s.hdr| == |s.home| && s.home[b] == p
    && r.home == s.home && |r.hdr| == |s.hdr| && |r.pools| == |s.pools|
    && r.hdr == s.hdr[b := r.hdr[b]] && r.pools == s.pools[p := r.pools[p]]
  }

  lemma OtherPools(s: Pools, r: Pools, p: nat, b: Blk, o: nat)
    requires Inv(s) && Local(s, r, p, b) && o != p && o < |s.pools|
    ensures PoolOk(r, o)
  {
    assert PoolOk(s, o) && BlockOk(s, o, b);
    FrameLinked(s.hdr, r.hdr, s.pools[o].free);
  }

  lemma OtherBlocks(s: Pools, r: Pools, p: nat, b: Blk)
    requires Inv(s) && Local(s, r, p, b) && PoolOk(r, p)
    requires forall c :: c != b ==> (c in r.pools[p].free <==> c in s.pools[p].free)
    requires forall c :: c != b ==> (c in r.pools[p].held <==> c in s.pools[p].held)
    requires BlockOk(r, p, b)
    ensures Inv(r)
  {
    forall o | 0 <= o < |r.pools| ensures PoolOk(r, o) {
      if o != p {
        OtherPools(s, r, p, b, o);
      }
    }
    forall o, c | 0 <= o < |r.pools| && 0 <= c < |r.hdr| ensures BlockOk(r, o, c) {
      if o != p || c != b {
        assert BlockOk(s, o, c);
      }
    }
  }

  lemma AllocInv(s: Pools, p: nat, t: Tid, wait: bool)
    requires Inv(s) && Enabled(s, DoAlloc(p, t, wait))
    ensures Inv(Step(s, DoAlloc(p, t, wait)))
  {
    var r, q := Step(s, DoAlloc(p, t, wait)), s.pools[p];
    assert PoolOk(s, p);
    AllocPool(s.hdr, q, p, t, wait);
    if q.free == [] {
      forall o | 0 <= o < |r.pools| ensures PoolOk(r, o) {
        assert PoolOk(s, o);
      }
      forall o, c | 0 <= o < |r.pools| && 0 <= c < |r.hdr| ensures BlockOk(r, o, c) {
        assert BlockOk(s, o, c);
      }
    } else {
      var b := q.free[0];
      assert b in q.free;
      assert BlockOk(s, p, b);
      OtherBlocks(s, r, p, b);
    }
  }

  /** The header of a held block leads back to the pool it came from. */
  lemma FreeGoesHome(s: Pools, b: Blk)
    requires Inv(s) && Held(s, b)
    ensures b < |s.hdr| && s.home[b] < |s.pools| && b in s.pools[s.home[b]].held
    ensures s.hdr[b] == Owner(s.home[b]) && NamedBy(s.hdr[b]) == s.home[b]
    ensures b !in s.pools[s.home[b]].free
  {
    var p :| 0 <= p < |s.pools| && b in s.pools[p].held;
    assert PoolOk(s, p) && BlockOk(s, p, b);
  }

  lemma FreeInv(s: Pools, b: Blk)
    requires Inv(s) && Held(s, b)
    ensures Inv(Step(s, DoFree(b)))
  {
    FreeGoesHome(s, b);
    var p, r := s.home[b], Step(s, DoFree(b));
    assert PoolOk(s, p);
    FreePool(s.hdr, s.pools[p], b);
    OtherBlocks(s, r, p, b);
  }

  lemma StepInv(s: Pools, op: Op)
    requires Inv(s) && Enabled(s, op)
    ensures Inv(Step(s, op))
  {
    match op
    case DoAlloc(p, t, wait) => AllocInv(s, p, t, wait);
    case DoFree(b) => FreeInv(s, b);
  }

  ghost predicate AllEnabled(s: Pools, ops: seq<Op>)
    decreases |ops|
  {
    ops == [] || (Enabled(s, ops[0]) && AllEnabled(Step(s, ops[0]), ops[1..]))
  }

  function Exec(s: Pools, ops: seq<Op>): Pools
    decreases |ops|
  {
    if ops == [] then s else Exec(Step(s, ops[0]), ops[1..])
  }

  lemma {:induction false} RunInv(s: Pools, ops: seq<Op>)
    requires Inv(s) && AllEnabled(s, ops)
    ensures Inv(Exec(s, ops)) && Exec(s, ops).home == s.home && |Exec(s, ops).pools| == |s.pools|
    decreases |ops|
  {
    if ops != [] {
      StepInv(s, ops[0]);
      RunInv(Step(s, ops[0]), ops[1..]);
    }
  }

  // ----- what it means for the clients -----

  /** A block is in the hands of one client, or of none: what alloc returns nobody holds, and every pool's blocks are
      at all times split between its free list, counted by free_block_count, and the blocks held. */
  lemma AllocIsExclusive(s: Pools, p: nat, t: Tid, wait: bool)
    requires Inv(s) && Enabled(s, DoAlloc(p, t, wait))
    ensures var b := AllocIn(s.hdr, s.pools[p], p, t, wait).2;
            && (b == NULL <==> s.pools[p].count == 0)
            && (b != NULL ==>
                && b >= 0 && !Held(s, b) && b < |s.home| && s.home[b] == p
                && Held(Step(s, DoAlloc(p, t, wait)), b))
  {
    var b := AllocIn(s.hdr, s.pools[p], p, t, wait).2;
    assert PoolOk(s, p);
    AllocPool(s.hdr, s.pools[p], p, t, wait);
    if b != NULL {
      assert b in s.pools[p].free;
      assert BlockOk(s, p, b);
      if Held(s, b) {
        FreeGoesHome(s, b);
      }
      assert b in Step(s, DoAlloc(p, t, wait)).pools[p].held;
    }
  }

  /** On an empty pool a task that waits goes to the end of the queue and one that does not is sent away; nothing else
      changes. A task that gets a block joins no queue. */
  lemma AllocAnswers(s: Pools, p: nat, t: Tid, wait: bool)
    requires Inv(s) && Enabled(s, DoAlloc(p, t, wait))
    ensures var b, r := AllocIn(s.hdr, s.pools[p], p, t, wait).2, Step(s, DoAlloc(p, t, wait));
            && p < |r.pools|
            && r.pools[p].waiters == (if b == NULL && wait then s.pools[p].waiters + [t] else s.pools[p].waiters)
            && (b == NULL ==>
                  && r.hdr == s.hdr && r.pools[p].free == s.pools[p].free && r.pools[p].held == s.pools[p].held)
            && (b != NULL ==> r.pools[p].count == s.pools[p].count - 1)
  {
    assert PoolOk(s, p);
    AllocPool(s.hdr, s.pools[p], p, t, wait);
  }

  /** A free wakes the task that has waited longest in the block's own pool, and leaves the block for it at the head. */
  lemma FreeWakesFirst(s: Pools, b: Blk)
    requires Inv(s) && Held(s, b)
    ensures b < |s.home| && s.home[b] < |s.pools|
    ensures var p, r := s.home[b], Step(s, DoFree(b));
            && p < |r.pools| && r.pools[p].count == s.pools[p].count + 1 && r.pools[p].head == b
            && (s.pools[p].waiters == [] ==> r.pools[p].waiters == [] && r.pools[p].woken == s.pools[p].woken)
            && (s.pools[p].waiters != [] ==>
                  && s.pools[p].waiters == [s.pools[p].waiters[0]] + r.pools[p].waiters
                  && r.pools[p].woken == s.pools[p].woken + {s.pools[p].waiters[0]})
  {
    FreeGoesHome(s, b);
  }

  ghost function HomeOf(s: Pools, p: nat): set<Blk> {
    set b | 0 <= b < |s.home| && s.home[b] == p
  }

  lemma {:induction false} SeqSet(q: seq<Blk>) returns (r: set<Blk>)
    requires NoDup(q)
    ensures |r| == |q| && forall b :: b in r <==> b in q
  {
    if q == [] {
      r := {};
    } else {
      assert q == [q[0]] + q[1..] && q[0] !in q[1..];
      r := SeqSet(q[1..]);
      r := r + {q[0]};
    }
  }

  /** Free and held blocks add up to the blocks carved. */
  lemma BlocksConserved(s: Pools, ops: seq<Op>, p: nat)
    requires Inv(s) && AllEnabled(s, ops) && p < |s.pools|
    ensures p < |Exec(s, ops).pools|
    ensures Exec(s, ops).pools[p].count + |Exec(s, ops).pools[p].held| == |HomeOf(s, p)|
  {
    RunInv(s, ops);
    var e := Exec(s, ops);
    var q := e.pools[p];
    assert PoolOk(e, p);
    var f := SeqSet(q.free);
    forall b: Blk ensures (b in f || b in q.held <==> b in HomeOf(s, p)) && !(b in f && b in q.held) {
      if b < |e.hdr| {
        assert BlockOk(e, p, b);
      }
    }
    assert f + q.held == HomeOf(s, p) && f !! q.held;
  }

  /** alloc and free at once restores the pool, list order included. */
  lemma FreeUndoesAlloc(s: Pools, p: nat, t: Tid)
    requires Inv(s) && p < |s.pools| && s.pools[p].count > 0 && s.pools[p].waiters == [] && t !in s.pools[p].woken
    ensures var b := AllocIn(s.hdr, s.pools[p], p, t, false).2;
            b >= 0 && Step(Step(s, DoAlloc(p, t, false)), DoFree(b)) == s
  {
    assert PoolOk(s, p);
    AllocPool(s.hdr, s.pools[p], p, t, false);
    var b, q := s.pools[p].free[0], s.pools[p];
    assert b in q.free && LinkAt(s.hdr, q.free, 0) && BlockOk(s, p, b);
    TailLinked(s.hdr, q.free);
    var m := Step(s, DoAlloc(p, t, false));
    var r := Step(m, DoFree(b));
    assert q.woken - {t} == q.woken && q.held + {b} - {b} == q.held;
    assert NamedBy(m.hdr[b]) == p;
    assert r.hdr == s.hdr;
    assert r.pools[p] == q;
    assert r.pools == s.pools;
  }
}

/** The pool's control block and the headers of all blocks, updated in place. */
module MemPoolClass {
  import opened Base
  import opened TaskQueue
  import opened Chain
  import opened MemPool
  import opened PoolCarving

  class Control {
    const id: nat
    const hdr: array<int>
    var head: int
    var count: nat
    var waiters: seq<Tid>
    ghost var free: seq<Blk>
    ghost var held: set<Blk>
    ghost var woken: set<Tid>

    ghost function View(): Pool
      reads this
    {
      Pool(head, count, free, held, waiters, woken)
    }

    constructor (id: nat, hdr: array<int>)
      ensures this.id == id && this.hdr == hdr
    {
      this.id, this.hdr := id, hdr;
    }

    /** mrtk_mp_init: carve the region into blocks, numbered from `first`, and link them in address order. */
    method Init(first: nat, start: nat, size: nat, blockSize: nat) returns (code: Code, total: nat)
      requires start + 3 < U32 && BlockCount(start, size, blockSize).Some?
      requires first + BlockCount(start, size, blockSize).value <= hdr.Length
      modifies this, hdr
      ensures total == BlockCount(start, size, blockSize).value && code == if total == 0 then ERROR else EOK
      ensures total > 0 ==> View() == Pool(first, total, seq(total, i => first + i), {}, [], {})
      ensures total > 0 ==> forall i :: first <= i < first + total ==>
          hdr[i] == if i + 1 < first + total then i + 1 else NULL
      ensures forall i :: 0 <= i < hdr.Length && !(first <= i < first + total) ==> hdr[i] == old(hdr[i])
    {
      total := (size - Gap(start)) % U32 / ((AlignUp(blockSize) + HEADER) % U32);
      count := total;
      if total == 0 {
        return ERROR, total;
      }
      head, waiters := first, [];
      free, held, woken := seq(total, i => first + i), {}, {};
      var data := first;
      while data < first + total - 1
        invariant first <= data <= first + total - 1
        invariant forall i :: first <= i < data ==> hdr[i] == i + 1
        invariant forall i :: 0 <= i < hdr.Length && !(first <= i < first + total) ==> hdr[i] == old(hdr[i])
        modifies hdr
      {
        var next := data + 1;
        hdr[data] := next;
        data := next;
      }
      hdr[data] := NULL;
      code := EOK;
    }

    /** One pass of mrtk_mp_alloc by the running task t. */
    method Alloc(t: Tid, wait: bool) returns (block: int)
      requires FreeListOk(hdr[..], View())
      modifies this`head, this`count, this`waiters, this`free, this`held, this`woken, hdr
      ensures (hdr[..], View(), block) == AllocIn(old(hdr[..]), old(View()), id, t, wait)
    {
      woken := woken - {t};
      if count == 0 {
        if wait {
          waiters := waiters + [t];
        }
        return NULL;
      }
      assert LinkAt(hdr[..], free, 0);
      block := head;
      head := hdr[block];
      hdr[block] := Owner(id);
      count := count - 1;
      free, held := free[1..], held + {block};
    }
  }

  /** mrtk_mp_free: the pool is the one the header names; its first waiter, if any, becomes ready. */
  method Free(pools: seq<Control>, hdr: array<int>, b: Blk, prio: map<Tid, nat>, current: Tid) returns (need: bool)
    requires b < hdr.Length && NamedBy(hdr[b]) < |pools| && pools[NamedBy(hdr[b])].hdr == hdr
    modifies pools[NamedBy(hdr[b])], hdr
    ensures var mp := pools[NamedBy(old(hdr[b]))];
            && (hdr[..], mp.View()) == FreeIn(old(hdr[..]), old(mp.View()), b)
            && (need <==> old(mp.waiters) != [] && Num(prio, old(mp.waiters)[0]) < Num(prio, current))
  {
    var mp := pools[NamedBy(hdr[b])];
    hdr[b] := mp.head;
    mp.head, mp.count := b, mp.count + 1;
    mp.free, mp.held := [b] + mp.free, mp.held - {b};
    need := false;
    if mp.waiters != [] {
      var task := mp.waiters[0];
      mp.waiters, mp.woken := mp.waiters[1..], mp.woken + {task};
      need := Num(prio, task) < Num(prio, current);
    }
  }
}
