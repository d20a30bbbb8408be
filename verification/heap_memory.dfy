/** malloc and free on the flat buffer: block headers live in the same words as the payloads. */
module HeapMemory {
  import opened Base
  import opened HeapLayout

  type word = x: int | 0 <= x < 0x1_0000_0000

  const MAGIC: nat := 0x1ea0

  /** First header word: the 16-bit magic below the 16-bit state. */
  function Tag(st: BlockState): word {
    MAGIC + 0x1_0000 * (match st case DUMMY => 0 case FREE => 1 case USED => 2)
  }

  function Prev(b: seq<Block>, i: nat): nat
    requires i < |b|
  {
    if i == 0 then 0 else b[i - 1].off
  }

  /** The three header words of block i: tag, `prev`, `next`. */
  ghost predicate HeaderOk(m: seq<word>, b: seq<Block>, size: nat, i: nat)
    requires i < |b|
  {
    && b[i].off + HEADER <= |m|
    && m[b[i].off] == Tag(b[i].st)
    && m[b[i].off + 1] == Prev(b, i)
    && m[b[i].off + 2] == End(b, size, i)
  }

  ghost predicate Chain(m: seq<word>, b: seq<Block>, size: nat) {
    |m| == size && forall i :: 0 <= i < |b| ==> HeaderOk(m, b, size, i)
  }

  ghost predicate WellFormed(m: seq<word>, size: nat) {
    exists b :: Shape(b, size) && Chain(m, b, size)
  }

  ghost predicate SameExcept(m0: seq<word>, m1: seq<word>, touched: set<int>) {
    |m0| == |m1| && forall x :: 0 <= x < |m0| && x !in touched ==> m0[x] == m1[x]
  }

  /** Words a client may write: the payloads of USED blocks. */
  ghost predicate InPayload(b: seq<Block>, size: nat, x: int) {
    exists i :: 0 <= i < |b| && b[i].st.USED? && b[i].off + HEADER <= x < End(b, size, i)
  }

  /** Client writes into live payloads never disturb the chain. */
  lemma ClientWritesKeepChain(m0: seq<word>, m1: seq<word>, b: seq<Block>, size: nat)
    requires Shape(b, size) && Chain(m0, b, size) && |m1| == size
    requires forall x :: 0 <= x < size && !InPayload(b, size, x) ==> m1[x] == m0[x]
    ensures Chain(m1, b, size)
  {
    forall i | 0 <= i < |b| ensures HeaderOk(m1, b, size, i) {
      assert HeaderOk(m0, b, size, i);
      forall x | b[i].off <= x < b[i].off + HEADER ensures !InPayload(b, size, x) {
        forall j | 0 <= j < |b| ensures !(b[j].off + HEADER <= x < End(b, size, j)) {
          if j < i {
            Above(b, j, i);
            assert j + 1 == i || b[j + 1].off <= b[i].off by {
              if j + 1 < i {
                Above(b, j + 1, i);
              }
            }
          } else if i < j {
            Above(b, i, j);
          }
        }
      }
    }
  }

  // ----- the writes of a split -----

  /** Header writes of a split in program order; `next_block` starts `need` words into the block. */
  function SplitWrites(m: seq<word>, cur: nat, need: nat): (r: seq<word>)
    requires cur + need + HEADER <= |m| && cur + HEADER <= |m| && m[cur + 2] + 1 < |m|
    requires cur + need < 0x1_0000_0000
    ensures |r| == |m|
  {
    var q, nn := cur + need, m[cur + 2];
    var m1 := m[q := Tag(FREE)];
    var m2 := m1[q + 2 := m1[cur + 2]];
    var m3 := m2[q + 1 := cur];
    var m4 := m3[nn + 1 := q];
    var m5 := m4[cur := Tag(USED)];
    m5[cur + 2 := q]
  }

  lemma SplitCells(m: seq<word>, cur: nat, need: nat)
    requires need >= HEADER && cur + need + HEADER <= |m| && m[cur + 2] + 1 < |m|
    requires cur + need + HEADER <= m[cur + 2] < 0x1_0000_0000
    ensures var r, q, nn: int := SplitWrites(m, cur, need), cur + need, m[cur + 2];
            && SameExcept(m, r, {cur, cur + 2, q, q + 1, q + 2, nn + 1})
            && r[cur] == Tag(USED) && r[cur + 2] == q && r[nn + 1] == q
            && r[q] == Tag(FREE) && r[q + 1] == cur && r[q + 2] == nn
  {
  }

  /** A header none of whose words is touched, seen in the chain before and after. */
  lemma MoveHeader(m: seq<word>, r: seq<word>, touched: set<int>, b: seq<Block>, j: nat, c: seq<Block>, x: nat,
      size: nat)
    requires Chain(m, b, size) && SameExcept(m, r, touched) && j < |b| && x < |c|
    requires b[j].off !in touched && b[j].off + 1 !in touched && b[j].off + 2 !in touched
    requires c[x] == b[j] && Prev(c, x) == Prev(b, j) && End(c, size, x) == End(b, size, j)
    ensures HeaderOk(r, c, size, x)
  {
    assert HeaderOk(m, b, size, j);
  }

  lemma SplitHeader(m: seq<word>, r: seq<word>, b: seq<Block>, c: seq<Block>, size: nat, i: nat, q: nat, k: nat)
    requires Ordered(b) && Ordered(c) && Chain(m, b, size) && i + 1 < |b|
    requires IsAlloc(b, c, i, true, q) && k < |c|
    requires b[i + 1].off + 1 < |r| && b[i].off + HEADER <= q && q + HEADER <= b[i + 1].off
    requires SameExcept(m, r, {b[i].off, b[i].off + 2, q, q + 1, q + 2, b[i + 1].off + 1})
    requires r[b[i].off] == Tag(USED) && r[b[i].off + 2] == q && r[b[i + 1].off + 1] == q
    requires r[q] == Tag(FREE) && r[q + 1] == b[i].off && r[q + 2] == b[i + 1].off
    ensures HeaderOk(r, c, size, k)
  {
    var touched := {b[i].off, b[i].off + 2, q, q + 1, q + 2, b[i + 1].off + 1};
    if k < i {
      Above(b, k, i);
      MoveHeader(m, r, touched, b, k, c, k, size);
    } else if k == i {
      assert HeaderOk(m, b, size, i);
    } else if k == i + 2 {
      assert HeaderOk(m, b, size, i + 1);
    } else if k > i + 2 {
      Above(b, i + 1, k - 1);
      MoveHeader(m, r, touched, b, k - 1, c, k, size);
    }
  }

  lemma SplitChain(m: seq<word>, b: seq<Block>, c: seq<Block>, size: nat, i: nat, need: nat)
    requires Ordered(b) && Chain(m, b, size) && i + 1 < |b| && need >= HEADER
    requires b[i].off + need + HEADER <= b[i + 1].off
    requires IsAlloc(b, c, i, true, b[i].off + need)
    requires Ordered(c)
    ensures HeaderOk(m, b, size, i) && HeaderOk(m, b, size, i + 1)
    ensures Chain(SplitWrites(m, b[i].off, need), c, size)
  {
    assert HeaderOk(m, b, size, i) && HeaderOk(m, b, size, i + 1);
    var r := SplitWrites(m, b[i].off, need);
    SplitCells(m, b[i].off, need);
    forall k | 0 <= k < |c| ensures HeaderOk(r, c, size, k) {
      SplitHeader(m, r, b, c, size, i, b[i].off + need, k);
    }
  }

  lemma UseChain(m: seq<word>, b: seq<Block>, size: nat, i: nat)
    requires Ordered(b) && Chain(m, b, size) && i < |b|
    ensures b[i].off < |m|
    ensures Chain(m[b[i].off := Tag(USED)], b[i := Block(b[i].off, USED)], size)
  {
    assert HeaderOk(m, b, size, i);
    var r, c := m[b[i].off := Tag(USED)], b[i := Block(b[i].off, USED)];
    forall k | 0 <= k < |c| ensures HeaderOk(r, c, size, k) {
      assert HeaderOk(m, b, size, k);
      if k < i {
        Above(b, k, i);
      } else if i < k {
        Above(b, i, k);
      }
    }
  }

  /** Two chains read from the same words agree. */
  lemma {:induction false} SamePrefix(m: seq<word>, b: seq<Block>, r: seq<word>, d: seq<Block>, size: nat, i: nat)
    requires Shape(b, size) && Chain(m, b, size) && i < |b|
    requires Shape(d, size) && Chain(r, d, size)
    requires forall k :: 0 <= k < i ==> b[k].off + 2 < |r| && r[b[k].off + 2] == b[k + 1].off
    ensures i < |d| && d[i].off == b[i].off
  {
    if i > 0 {
      SamePrefix(m, b, r, d, size, i - 1);
      assert HeaderOk(r, d, size, i - 1);
      assert r[b[i - 1].off + 2] == b[i].off;
      Above(b, i - 1, i);
      assert b[i].off < size by {
        assert HeaderOk(m, b, size, i);
      }
    }
  }

  /** A split leaves a heap at all exactly when the rounded size has not wrapped below a header. */
  lemma SplitNeedsAHeader(m: seq<word>, h: Heap, size: nat, i: nat, need: nat)
    requires Inv(h, size) && Chain(m, h.blocks, size) && i < |h.blocks|
    requires Fits(h.blocks, size, need, i) && Splits(h.blocks, size, i, need)
    ensures i + 1 < |h.blocks| && HeaderOk(m, h.blocks, size, i) && HeaderOk(m, h.blocks, size, i + 1)
    ensures WellFormed(SplitWrites(m, h.blocks[i].off, need), size) <==> need >= HEADER
  {
    var b := h.blocks;
    assert HeaderOk(m, b, size, i) && HeaderOk(m, b, size, i + 1);
    var r := SplitWrites(m, b[i].off, need);
    if need >= HEADER {
      var c := AllocBlocks(b, size, i, need);
      AllocAt(b, size, i, need);
      AllocInv(h, size, i, need);
      SplitChain(m, b, c, size, i, need);
      assert Shape(c, size) && Chain(r, c, size);
    } else if WellFormed(r, size) {
      var d :| Shape(d, size) && Chain(r, d, size);
      forall k | 0 <= k < i ensures b[k].off + 2 < |r| && r[b[k].off + 2] == b[k + 1].off {
        assert HeaderOk(m, b, size, k);
        Above(b, k, i);
      }
      SamePrefix(m, b, r, d, size, i);
      NextIsAhead(r, d, size, i);
    }
  }

  lemma NextIsAhead(r: seq<word>, d: seq<Block>, size: nat, i: nat)
    requires Shape(d, size) && Chain(r, d, size) && i < |d|
    ensures d[i].off + HEADER <= |r| && r[d[i].off + 2] >= d[i].off + HEADER
  {
    assert HeaderOk(r, d, size, i);
    if i + 1 < |d| {
      Above(d, i, i + 1);
    }
  }

  // ----- the writes of a free -----

  /** After a free of block i, merged into block k: which words may differ, and what stands in them. */
  ghost predicate FreeWrites(m: seq<word>, r: seq<word>, b: seq<Block>, i: nat, k: nat, e: nat) {
    && k <= i < e < |b| && i <= k + 1 && e <= i + 2
    && b[k].off + 2 < |r| && b[e].off + 1 < |r|
    && SameExcept(m, r, {b[i].off, b[k].off + 2, b[i + 1].off + 1, b[e].off + 1})
    && (if k == i then r[b[i].off] == Tag(FREE) else b[k].st.FREE?)
    && r[b[k].off + 2] == b[e].off
    && r[b[e].off + 1] == b[k].off
  }

  lemma FreeHeaderAway(m: seq<word>, r: seq<word>, b: seq<Block>, i: nat, k: nat, e: nat, j: nat, c: seq<Block>,
      x: nat, size: nat)
    requires Ordered(b) && Chain(m, b, size) && FreeWrites(m, r, b, i, k, e)
    requires j < |b| && (j < k || e < j) && x < |c|
    requires c[x] == b[j] && Prev(c, x) == Prev(b, j) && End(c, size, x) == End(b, size, j)
    ensures HeaderOk(r, c, size, x)
  {
    if j < k {
      Above(b, j, k);
      Above(b, j, i);
      Above(b, j, i + 1);
      Above(b, j, e);
    } else {
      Above(b, k, j);
      Above(b, i, j);
      Above(b, i + 1, j);
      Above(b, e, j);
    }
    MoveHeader(m, r, {b[i].off, b[k].off + 2, b[i + 1].off + 1, b[e].off + 1}, b, j, c, x, size);
  }

  lemma FreeHeaderAt(m: seq<word>, r: seq<word>, b: seq<Block>, size: nat, i: nat, k: nat, e: nat)
    requires Ordered(b) && Chain(m, b, size) && FreeWrites(m, r, b, i, k, e)
    ensures r[b[k].off] == Tag(FREE) && r[b[k].off + 1] == Prev(b, k)
    ensures b[e].off + HEADER <= |r| && r[b[e].off] == Tag(b[e].st) && r[b[e].off + 2] == End(b, size, e)
  {
    assert HeaderOk(m, b, size, k) && HeaderOk(m, b, size, e);
    Above(b, k, e);
    Above(b, i, e);
    if k < i {
      Above(b, k, i);
    }
    Above(b, k, i + 1);
    if i + 1 < e {
      Above(b, i + 1, e);
    }
  }

  lemma FreeHeader(m: seq<word>, r: seq<word>, b: seq<Block>, c: seq<Block>, size: nat, i: nat, k: nat, shift: nat,
      x: nat)
    requires Ordered(b) && Chain(m, b, size) && x < |c|
    requires IsFree(b, c, k, shift) && FreeWrites(m, r, b, i, k, k + shift + 1)
    ensures HeaderOk(r, c, size, x)
  {
    var e := k + shift + 1;
    FreeHeaderAt(m, r, b, size, i, k, e);
    if x < k {
      FreeHeaderAway(m, r, b, i, k, e, x, c, x, size);
    } else if x > k + 1 {
      FreeHeaderAway(m, r, b, i, k, e, x + shift, c, x, size);
    }
  }

  lemma FreeChain(m: seq<word>, r: seq<word>, b: seq<Block>, c: seq<Block>, size: nat, i: nat, k: nat, shift: nat)
    requires Ordered(b) && Chain(m, b, size)
    requires IsFree(b, c, k, shift) && FreeWrites(m, r, b, i, k, k + shift + 1)
    ensures Chain(r, c, size)
  {
    forall x | 0 <= x < |c| ensures HeaderOk(r, c, size, x) {
      FreeHeader(m, r, b, c, size, i, k, shift, x);
    }
  }

  /** Words outside block i and outside every header are the other blocks' payloads. */
  lemma PayloadUntouched(b: seq<Block>, size: nat, i: nat, touched: set<int>, j: nat)
    requires Ordered(b) && i < |b| && j < |b| && j != i
    requires forall x :: x in touched ==>
               b[i].off <= x < End(b, size, i) || exists p :: 0 <= p < |b| && b[p].off <= x < b[p].off + HEADER
    ensures forall x :: x in touched ==> !(b[j].off + HEADER <= x < End(b, size, j))
  {
    forall x | x in touched ensures !(b[j].off + HEADER <= x < End(b, size, j)) {
      var p :| 0 <= p < |b| && (b[p].off <= x < b[p].off + HEADER || (p == i && b[i].off <= x < End(b, size, i)));
      if p < j {
        Above(b, p, j);
        if p + 1 < j {
          Above(b, p + 1, j);
        }
      } else if j < p {
        Above(b, j, p);
        if j + 1 < p {
          Above(b, j + 1, p);
        }
      }
    }
  }

  ghost predicate PayloadKept(b: seq<Block>, size: nat, j: nat, m0: seq<word>, m1: seq<word>)
    requires j < |b| && |m0| == |m1|
  {
    forall x :: b[j].off + HEADER <= x < End(b, size, j) && x < |m0| ==> m0[x] == m1[x]
  }

  /** Every word of every USED block, but for the one at `p`, is the same in both memories. */
  ghost predicate PayloadsKept(b: seq<Block>, size: nat, p: Option<int>, m0: seq<word>, m1: seq<word>) {
    && |m0| == |m1|
    && forall j :: 0 <= j < |b| && b[j].st.USED? && p != Some(b[j].off + HEADER) ==> PayloadKept(b, size, j, m0, m1)
  }

  lemma MallocPayloads(b: seq<Block>, size: nat, i: nat, need: nat, m0: seq<word>, m1: seq<word>)
    requires Shape(b, size) && i + 1 < |b| && Fits(b, size, need, i)
    requires var cur, q := b[i].off, b[i].off + need;
             SameExcept(m0, m1, {cur, cur + 2, q, q + 1, q + 2, b[i + 1].off + 1})
    ensures PayloadsKept(b, size, None, m0, m1)
  {
    Bounds(b, size, i);
    var touched: set<int> := {b[i].off, b[i].off + 2, b[i].off + need, b[i].off + need + 1, b[i].off + need + 2,
        b[i + 1].off + 1};
    forall j | 0 <= j < |b| && b[j].st.USED? ensures PayloadKept(b, size, j, m0, m1) {
      PayloadUntouched(b, size, i, touched, j);
    }
  }

  /** Where the hint stands before and after: it moves on only when its own block is taken. */
  lemma AllocHint(h: Heap, size: nat, i: nat, need: nat)
    requires Inv(h, size) && i < |h.blocks| && Fits(h.blocks, size, need, i)
    requires Inv(Alloc(h, size, i, need), size)
    ensures var c := Alloc(h, size, i, need).blocks;
            && i + 1 < |c| && c[i] == Block(h.blocks[i].off, USED)
            && (i != h.lf ==> h.blocks[i].off != h.blocks[h.lf].off && c[h.lf].off == h.blocks[h.lf].off)
            && (i == h.lf ==> c[i + 1].off != h.blocks[i].off && c[i + 1].off < size)
  {
    var b, c := h.blocks, Alloc(h, size, i, need).blocks;
    AllocAt(b, size, i, need);
    assert h.lf <= i < |b| - 1;
    OffsetsDistinct(b, i);
    OffsetsDistinct(c, i);
    if i + 1 < |c| - 1 {
      Above(c, i + 1, |c| - 1);
    }
  }

  lemma FreePayloads(b: seq<Block>, size: nat, i: nat, k: nat, e: nat, m0: seq<word>, m1: seq<word>)
    requires Shape(b, size) && i + 1 < |b| && FreeWrites(m0, m1, b, i, k, e)
    ensures PayloadsKept(b, size, Some(b[i].off + HEADER), m0, m1)
  {
    var touched: set<int> := {b[i].off, b[k].off + 2, b[i + 1].off + 1, b[e].off + 1};
    forall j | 0 <= j < |b| && b[j].st.USED? && Some(b[i].off + HEADER) != Some(b[j].off + HEADER)
      ensures PayloadKept(b, size, j, m0, m1)
    {
      PayloadUntouched(b, size, i, touched, j);
    }
  }

  /** The hint after a free is the lower of the old hint and the merged block. */
  lemma ReleaseHint(h: Heap, size: nat, i: nat)
    requires Inv(h, size) && 0 < i < |h.blocks| - 1 && h.blocks[i].st.USED?
    requires Inv(Release(h, i), size)
    ensures var k, was, c := MergedAt(h.blocks, i), h.blocks[h.lf].off, Release(h, i);
            c.blocks[c.lf].off == if was > h.blocks[k].off then h.blocks[k].off else was
  {
    var b, k := h.blocks, MergedAt(h.blocks, i);
    FreeAt(b, i);
    if h.lf < k {
      Above(b, h.lf, k);
    } else if k < h.lf {
      Above(b, k, h.lf);
    }
  }

  lemma MergedHeap(h: Heap, size: nat, i: nat, m0: seq<word>, m1: seq<word>)
    requires Inv(h, size) && Chain(m0, h.blocks, size) && 0 < i < |h.blocks| - 1 && h.blocks[i].st.USED?
    requires var k := MergedAt(h.blocks, i); FreeWrites(m0, m1, h.blocks, i, k, k + MergeCount(h.blocks, i) + 1)
    ensures Inv(Release(h, i), size) && Chain(m1, Release(h, i).blocks, size)
    ensures PayloadsKept(h.blocks, size, Some(h.blocks[i].off + HEADER), m0, m1)
  {
    ReleaseInv(h, size, i);
    MergedChain(h.blocks, size, i, m0, m1);
  }

  lemma MergedChain(b: seq<Block>, size: nat, i: nat, m0: seq<word>, m1: seq<word>)
    requires Shape(b, size) && Chain(m0, b, size) && 0 < i < |b| - 1
    requires var k := MergedAt(b, i); FreeWrites(m0, m1, b, i, k, k + MergeCount(b, i) + 1)
    ensures Chain(m1, FreeBlocks(b, i), size) && PayloadsKept(b, size, Some(b[i].off + HEADER), m0, m1)
  {
    var k, shift := MergedAt(b, i), MergeCount(b, i);
    FreeAt(b, i);
    FreeChain(m0, m1, b, FreeBlocks(b, i), size, i, k, shift);
    FreePayloads(b, size, i, k, k + shift + 1, m0, m1);
  }

  /** The pointer was handed out for a block that is still USED. */
  ghost predicate IsLive(b: seq<Block>, p: Option<int>) {
    p.Some? && p.value >= HEADER && Block(p.value - HEADER, USED) in b
  }

  lemma LiveIndex(b: seq<Block>, size: nat, p: Option<int>) returns (i: nat)
    requires Shape(b, size) && IsLive(b, p)
    ensures i == IndexOf(b, p.value - HEADER) && 0 < i < |b| - 1 && b[i] == Block(p.value - HEADER, USED)
  {
    i :| 0 <= i < |b| && b[i] == Block(p.value - HEADER, USED);
    UsedIsInterior(b, size, i);
    OffsetsDistinct(b, i);
  }

  lemma LiveTag(m: seq<word>, b: seq<Block>, size: nat, p: Option<int>)
    requires Shape(b, size) && Chain(m, b, size) && IsLive(b, p)
    ensures 0 <= p.value - HEADER < |m| && m[p.value - HEADER] == Tag(USED)
  {
    var i := LiveIndex(b, size, p);
    assert HeaderOk(m, b, size, i);
  }

  /** What mrtk_malloc reads at the block it takes, and room for the headers it writes. */
  lemma TakeRoom(h: Heap, size: nat, i: nat, need: nat, m: seq<word>)
    requires Inv(h, size) && Chain(m, h.blocks, size) && i < |h.blocks| && Fits(h.blocks, size, need, i)
    ensures var b := h.blocks;
            && i + 1 < |b| && b[i].off + HEADER <= |m| == size < 0x1_0000_0000
            && m[b[i].off + 2] == b[i + 1].off == End(b, size, i) && b[i + 1].off + 1 < |m|
            && b[i].off + need <= b[i + 1].off
  {
    assert HeaderOk(m, h.blocks, size, i) && HeaderOk(m, h.blocks, size, i + 1);
  }

  lemma TakeWritten(h: Heap, size: nat, i: nat, need: nat, m: seq<word>, r: seq<word>)
    requires Inv(h, size) && Chain(m, h.blocks, size) && i + 1 < |h.blocks| && Fits(h.blocks, size, need, i)
    requires need >= HEADER
    requires var b := h.blocks;
             && b[i].off + HEADER <= |m| == size < 0x1_0000_0000
             && m[b[i].off + 2] == b[i + 1].off && b[i + 1].off + 1 < |m| && b[i].off + need <= b[i + 1].off
             && r == if Splits(b, size, i, need) then SplitWrites(m, b[i].off, need) else m[b[i].off := Tag(USED)]
    ensures Chain(r, AllocBlocks(h.blocks, size, i, need), size)
    ensures var cur, q := h.blocks[i].off, h.blocks[i].off + need;
            SameExcept(m, r, {cur, cur + 2, q, q + 1, q + 2, h.blocks[i + 1].off + 1})
  {
    var b := h.blocks;
    AllocAt(b, size, i, need);
    AllocInv(h, size, i, need);
    if Splits(b, size, i, need) {
      SplitCells(m, b[i].off, need);
      SplitChain(m, b, AllocBlocks(b, size, i, need), size, i, need);
    } else {
      UseChain(m, b, size, i);
    }
  }

  /** The comparison in mrtk_heap_init: a difference of addresses as an unsigned 32-bit number. */
  predicate Refuses(begin: nat, end: nat) {
    (end / 4 * 4 - (begin + 3) / 4 * 4) % U32 < 4 * (3 * HEADER + MIN_DATA)
  }

  /** An area is accepted when it has room for two sentinels and a block, and also when its aligned begin lies above its
      aligned end by anything but almost the whole address space. */
  lemma AcceptsExactly(begin: nat, end: nat)
    requires begin + 3 < U32 && end < U32
    ensures var b, e, least := (begin + 3) / 4 * 4, end / 4 * 4, 4 * (3 * HEADER + MIN_DATA);
            !Refuses(begin, end) <==> e - b >= least || (e < b && b - e <= U32 - least)
  {
    var d := end / 4 * 4 - (begin + 3) / 4 * 4;
    assert d % U32 == if d >= 0 then d else d + U32;
  }

  /** The words of the two sentinels and the block between them. */
  predicate FreshHeaders(m: seq<word>, size: nat) {
    && |m| == size && 3 * HEADER + MIN_DATA <= size <= MAX_WORDS
    && m[0] == Tag(DUMMY) && m[1] == 0 && m[2] == HEADER
    && m[HEADER] == Tag(FREE) && m[HEADER + 1] == 0 && m[HEADER + 2] == size - HEADER
    && m[size - HEADER] == Tag(DUMMY) && m[size - HEADER + 1] == HEADER && m[size - HEADER + 2] == size
  }

  lemma FreshChain(m: seq<word>, size: nat)
    requires FreshHeaders(m, size)
    ensures Chain(m, Fresh(size).blocks, size)
  {
    var b := Fresh(size).blocks;
    assert HeaderOk(m, b, size, 0) && HeaderOk(m, b, size, 1) && HeaderOk(m, b, size, 2);
  }

  /** A stale pointer into a live payload whose word reads as a USED header: freeing it changes that payload. */
  lemma StaleFreeBreaksPayload(m: seq<word>, b: seq<Block>, size: nat, x: nat)
    requires Shape(b, size) && |m| == size && x < size && m[x] == Tag(USED) && InPayload(b, size, x)
    ensures !IsLive(b, Some(x + HEADER))
    ensures !PayloadsKept(b, size, Some(x + HEADER), m, m[x := Tag(FREE)])
  {
    var j :| 0 <= j < |b| && b[j].st.USED? && b[j].off + HEADER <= x < End(b, size, j);
    assert !PayloadKept(b, size, j, m, m[x := Tag(FREE)]);
    forall i | 0 <= i < |b| ensures b[i].off != x {
      if i < j {
        Above(b, i, j);
      } else if j < i {
        Above(b, j, i);
        if j + 1 < i {
          Above(b, j + 1, i);
        }
      }
    }
  }

  // ----- the allocator -----

  class Allocator {
    var mem: array<word>
    var base: nat     // heap_base_addr, in bytes
    var size: nat     // heap_size, in words
    var lfree: nat    // offset of the lfree block, in words
    ghost var model: Heap

    ghost predicate Valid()
      reads this, mem
    {
      && mem.Length == size
      && base % 4 == 0
      && Inv(model, size)
      && Chain(mem[..], model.blocks, size)
      && lfree == model.blocks[model.lf].off
    }

    constructor ()
      ensures fresh(mem)
    {
      mem := new word[0];
      base, size, lfree := 0, 0, 0;
      model := Heap([], 0);
    }

    /** mrtk_heap_init on the bytes from `begin` to `end`; `buf` is the memory between the aligned bounds. */
    method Init(begin: nat, end: nat, buf: array<word>) returns (ok: bool)
      requires (begin + 3) / 4 <= end / 4 && buf.Length == end / 4 - (begin + 3) / 4 <= MAX_WORDS
      modifies this, buf
      ensures ok <==> buf.Length >= 3 * HEADER + MIN_DATA
      ensures ok ==> Valid() && mem == buf && model == Fresh(buf.Length) && begin <= base < begin + 4
      ensures !ok ==> unchanged(this) && unchanged(buf)
    {
      var beginAddr, endAddr := (begin + 3) / 4 * 4, end / 4 * 4;
      if endAddr - beginAddr < 4 * (3 * HEADER + MIN_DATA) {
        return false;
      }
      mem, base, size := buf, beginAddr, (endAddr - beginAddr) / 4;
      lfree := HEADER;
      LayOut();
      model := Fresh(size);
      FreshInv(size);
      FreshChain(mem[..], size);
      ok := true;
    }

    /** The three headers of a new heap. */
    method LayOut()
      requires mem.Length == size && 3 * HEADER + MIN_DATA <= size <= MAX_WORDS
      modifies mem
      ensures FreshHeaders(mem[..], size)
    {
      mem[0], mem[2], mem[1] := Tag(DUMMY), HEADER, 0;
      mem[HEADER], mem[HEADER + 2], mem[HEADER + 1] := Tag(FREE), size - HEADER, 0;
      var last := mem[HEADER + 2];
      mem[last], mem[last + 2], mem[last + 1] := Tag(DUMMY), size, HEADER;
    }

    /** The search loop: from `lfree` along `next` to the first FREE block that is large enough. */
    method Search(need: nat) returns (cur: nat)
      requires Valid()
      ensures var i := FirstFit(model.blocks, size, need);
              cur == if i < |model.blocks| then model.blocks[i].off else size
    {
      ghost var b, i := model.blocks, model.lf;
      cur := lfree;
      while cur < size
        invariant i <= |b| && cur == if i < |b| then b[i].off else size
        invariant forall j :: 0 <= j < i ==> !Fits(b, size, need, j)
        decreases |b| - i
      {
        assert HeaderOk(mem[..], b, size, i) by {
          Bounds(b, size, i);
        }
        var curSize := mem[cur + 2] - cur;
        if mem[cur] == Tag(FREE) && curSize >= need {
          FirstFitUnique(b, size, need, i);
          return;
        }
        cur := mem[cur + 2];
        i := i + 1;
      }
      if i < |b| {
        Bounds(b, size, i);
      }
      FirstFitUnique(b, size, need, i);
    }

    /** The header writes of mrtk_malloc: mark the block USED, splitting it when the rest can hold a block. */
    method TakeBlock(cur: nat, need: nat, ghost i: nat)
      requires Valid() && need >= HEADER && i < |model.blocks| && Fits(model.blocks, size, need, i)
      requires cur == model.blocks[i].off
      modifies this`model, mem
      ensures model == Heap(AllocBlocks(old(model.blocks), size, i, need), old(model.lf))
      ensures Chain(mem[..], model.blocks, size)
      ensures i + 1 < |old(model.blocks)|
      ensures var q := cur + need;
              SameExcept(old(mem[..]), mem[..], {cur, cur + 2, q, q + 1, q + 2, old(model.blocks)[i + 1].off + 1})
    {
      ghost var b, m := model.blocks, mem[..];
      TakeRoom(model, size, i, need, m);
      if mem[cur + 2] - cur - need < HEADER + MIN_DATA {
        mem[cur] := Tag(USED);
        assert mem[..] == m[cur := Tag(USED)];
      } else {
        Split(cur, need);
      }
      TakeWritten(model, size, i, need, m, mem[..]);
      model := Heap(AllocBlocks(b, size, i, need), model.lf);
    }

    method Split(cur: nat, need: nat)
      requires cur + need + HEADER <= mem.Length < 0x1_0000_0000 && cur + HEADER <= mem.Length
      requires mem[cur + 2] + 1 < mem.Length
      modifies mem
      ensures mem[..] == SplitWrites(old(mem[..]), cur, need)
    {
      var q, nn := cur + need, mem[cur + 2];
      mem[q] := Tag(FREE);
      mem[q + 2] := mem[cur + 2];
      mem[q + 1] := cur;
      mem[nn + 1] := q;
      mem[cur] := Tag(USED);
      mem[cur + 2] := q;
    }

    method Malloc(bytes: nat) returns (p: Option<nat>)
      requires Valid() && bytes < U32 && Needed(bytes) >= HEADER
      modifies this`model, this`lfree, mem
      ensures Valid()
      ensures var b, need := old(model.blocks), Needed(bytes);
              var i := FirstFit(b, size, need);
              if i == |b| then p == None && model == old(model) && mem[..] == old(mem[..])
              else p == Some(b[i].off + HEADER) && model == Alloc(old(model), size, i, need)
      ensures PayloadsKept(old(model.blocks), size, None, old(mem[..]), mem[..])
    {
      var need := Needed(bytes);
      var cur := Search(need);
      ghost var h, b := model, model.blocks;
      ghost var i := FirstFit(b, size, need);
      if cur >= size {
        if i < |b| {
          Bounds(b, size, i);
        }
        return None;
      }
      AllocInv(h, size, i, need);
      AllocHint(h, size, i, need);
      ghost var m := mem[..];
      TakeBlock(cur, need, i);
      MallocPayloads(b, size, i, need, m, mem[..]);
      model := Alloc(h, size, i, need);
      assert HeaderOk(mem[..], model.blocks, size, i);
      ghost var after := mem[..];
      while cur == lfree && mem[lfree] == Tag(USED)
        invariant mem[..] == after
        invariant lfree == b[h.lf].off || (i == h.lf && lfree == model.blocks[i + 1].off)
        decreases if cur == lfree then 1 else 0
        modifies this`lfree
      {
        lfree := mem[lfree + 2];
        if lfree >= size {
          break;
        }
      }
      p := Some(cur + HEADER);
    }

    /** A pointer that is not a live block and whose header word does not read as one is left alone. */
    method Free(p: Option<int>)
      requires Valid()
      requires p.Some? && 0 <= p.value - HEADER < size && mem[p.value - HEADER] == Tag(USED) ==> IsLive(model.blocks, p)
      modifies this`model, this`lfree, mem
      ensures Valid()
      ensures if IsLive(old(model.blocks), p) then
                var i := IndexOf(old(model.blocks), p.value - HEADER);
                0 < i < |old(model.blocks)| - 1 && model == Release(old(model), i)
              else model == old(model) && mem[..] == old(mem[..])
      ensures PayloadsKept(old(model.blocks), size, p, old(mem[..]), mem[..])
    {
      if p.None? {
        return;
      }
      var block := p.value - HEADER;
      if block < 0 || block >= size || mem[block] != Tag(USED) {
        if IsLive(model.blocks, p) {
          LiveTag(mem[..], model.blocks, size, p);
        }
        return;
      }
      ghost var i := LiveIndex(model.blocks, size, p);
      FreeUsed(block, i);
    }

    method FreeUsed(used: nat, ghost i: nat)
      requires Valid() && 0 < i < |model.blocks| - 1 && model.blocks[i] == Block(used, USED)
      modifies this`model, this`lfree, mem
      ensures Valid() && model == Release(old(model), i)
      ensures PayloadsKept(old(model.blocks), size, Some(used + HEADER), old(mem[..]), mem[..])
    {
      ghost var h, m := model, mem[..];
      var block := Merge(used, i);
      if lfree > block {
        lfree := block;
      }
      MergedHeap(h, size, i, m, mem[..]);
      ReleaseHint(h, size, i);
      model := Release(h, i);
    }

    /** The header writes of mrtk_free: mark FREE, then merge with the block before and the block behind. */
    method Merge(block: nat, ghost i: nat) returns (at: nat)
      requires Valid() && 0 < i < |model.blocks| - 1 && model.blocks[i] == Block(block, USED)
      modifies mem
      ensures var b, k := model.blocks, MergedAt(model.blocks, i);
              && at == b[k].off
              && FreeWrites(old(mem[..]), mem[..], b, i, k, k + MergeCount(b, i) + 1)
    {
      ghost var b, m := model.blocks, mem[..];
      Neighbours(m, b, size, i);
      MergeWritten(m, b, size, i);
      BackRoom(m, b, i);
      var next := mem[block + 2];
      at := MergeBefore(block, b, i);
      MergeBehind(at, next, b, i, m);
    }

    method MergeBefore(block: nat, ghost b: seq<Block>, ghost i: nat) returns (at: nat)
      requires MergeRoom(mem[..], b, i) && b[i].off == block && b[i + 1].off + 1 < mem.Length
      requires mem[block + 1] == b[i - 1].off && mem[block + 2] == b[i + 1].off && block != b[i - 1].off
      requires b[i - 1].off + 2 < block
      requires mem[b[i - 1].off] == Tag(FREE) <==> b[i - 1].st.FREE?
      modifies mem
      ensures at == b[MergedAt(b, i)].off && mem[..] == BackWrites(old(mem[..]), b, i)
    {
      mem[block] := Tag(FREE);
      at := block;
      var prev, next := mem[block + 1], mem[block + 2];
      if mem[prev] == Tag(FREE) {
        mem[prev + 2] := mem[block + 2];
        mem[next + 1] := mem[block + 1];
        at := prev;
      }
    }

    method MergeBehind(at: nat, next: nat, ghost b: seq<Block>, ghost i: nat, ghost m: seq<word>)
      requires MergeRoom(m, b, i) && mem[..] == BackWrites(m, b, i) && at == b[MergedAt(b, i)].off
      requires next == b[i + 1].off
      requires mem[next] == Tag(FREE) <==> b[i + 1].st.FREE?
      requires b[i + 1].st.FREE? ==> mem[next + 2] == b[i + 2].off && next != at
      modifies mem
      ensures mem[..] == MergeWrites(m, b, i)
    {
      if mem[next] == Tag(FREE) {
        mem[at + 2] := mem[next + 2];
        var behind := mem[next + 2];
        mem[behind + 1] := at;
      }
    }
  }

  /** The words behind block i that the first merge leaves as they are. */
  lemma BackRoom(m: seq<word>, b: seq<Block>, i: nat)
    requires MergeRoom(m, b, i) && b[i - 1].off + HEADER <= b[i].off && b[i].off + HEADER <= b[i + 1].off
    ensures var r, n := BackWrites(m, b, i), b[i + 1].off; r[n] == m[n] && r[n + 2] == m[n + 2]
  {
  }

  /** Room in memory for the headers a free writes. */
  ghost predicate MergeRoom(m: seq<word>, b: seq<Block>, i: nat) {
    && 0 < i < |b| - 1 && (b[i + 1].st.FREE? ==> i + 2 < |b| && b[i + 2].off + 1 < |m|)
    && b[i - 1].off + 2 < |m| && b[i].off + 2 < |m| && b[i + 1].off + 2 < |m| < 0x1_0000_0000
  }

  ghost function BackWrites(m: seq<word>, b: seq<Block>, i: nat): (r: seq<word>)
    requires MergeRoom(m, b, i)
    ensures |r| == |m|
  {
    var o, p, n := b[i].off, b[i - 1].off, b[i + 1].off;
    var m1 := m[o := Tag(FREE)];
    if b[i - 1].st.FREE? then m1[p + 2 := n][n + 1 := p] else m1
  }

  ghost function MergeWrites(m: seq<word>, b: seq<Block>, i: nat): seq<word>
    requires MergeRoom(m, b, i)
  {
    var at, m2 := b[MergedAt(b, i)].off, BackWrites(m, b, i);
    if b[i + 1].st.FREE? then m2[at + 2 := b[i + 2].off][b[i + 2].off + 1 := at] else m2
  }

  lemma BackWritten(m: seq<word>, b: seq<Block>, size: nat, i: nat)
    requires Shape(b, size) && Chain(m, b, size) && 0 < i < |b| - 1
    ensures MergeRoom(m, b, i) && FreeWrites(m, BackWrites(m, b, i), b, i, MergedAt(b, i), i + 1)
  {
    Neighbours(m, b, size, i);
  }

  lemma MergeWritten(m: seq<word>, b: seq<Block>, size: nat, i: nat)
    requires Shape(b, size) && Chain(m, b, size) && 0 < i < |b| - 1
    ensures MergeRoom(m, b, i)
    ensures FreeWrites(m, MergeWrites(m, b, i), b, i, MergedAt(b, i), MergedAt(b, i) + MergeCount(b, i) + 1)
  {
    BackWritten(m, b, size, i);
    Neighbours(m, b, size, i);
  }

  /** What mrtk_free reads around block i. */
  lemma Neighbours(m: seq<word>, b: seq<Block>, size: nat, i: nat)
    requires Shape(b, size) && Chain(m, b, size) && 0 < i < |b| - 1
    ensures var o, p, n := b[i].off, b[i - 1].off, b[i + 1].off;
            && p + HEADER <= o && o + HEADER <= n && n + HEADER <= |m|
            && m[o + 1] == p && m[o + 2] == n && m[p] == Tag(b[i - 1].st) && m[n] == Tag(b[i + 1].st)
            && m[p + 2] == o && m[n + 1] == o
            && (b[i + 1].st.FREE? ==> i + 2 < |b| && m[n + 2] == b[i + 2].off && n + HEADER <= b[i + 2].off &&
                                      b[i + 2].off + HEADER <= |m| && m[b[i + 2].off + 1] == n)
  {
    assert HeaderOk(m, b, size, i) && HeaderOk(m, b, size, i - 1) && HeaderOk(m, b, size, i + 1);
    Above(b, i - 1, i);
    Above(b, i, i + 1);
    if b[i + 1].st.FREE? {
      Above(b, i + 1, i + 2);
      assert HeaderOk(m, b, size, i + 2);
    }
  }

  lemma Bounds(b: seq<Block>, size: nat, i: nat)
    requires Shape(b, size) && i < |b|
    ensures b[i].off + HEADER <= End(b, size, i) <= size
  {
    if i + 1 < |b| {
      Above(b, i, i + 1);
      if i + 1 < |b| - 1 {
        Above(b, i + 1, |b| - 1);
      }
    }
  }
}
