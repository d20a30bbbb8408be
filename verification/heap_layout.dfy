/** The heap as a list of blocks: what malloc and free do to it, and what every run keeps.
    Offsets and sizes are counted in words of 4 bytes (MRTK_ALIGN_SIZE); a header is three words. */
module HeapLayout {
  const HEADER: nat := 3
  const MIN_DATA: nat := 3
  const U32: nat := 0x1_0000_0000
  const MAX_WORDS: nat := 0x3FFF_FFFF

  datatype BlockState = DUMMY | FREE | USED

  datatype Block = Block(off: nat, st: BlockState)

  /** `lf` is the chain position of the block that the `lfree` hint designates. */
  datatype Heap = Heap(blocks: seq<Block>, lf: nat)

  // ----- sizes -----

  /** Bytes rounded up to whole words plus a header, in 32-bit unsigned arithmetic, as words. */
  function Needed(bytes: nat): nat
    requires bytes < U32
  {
    ((bytes + 3) % U32 / 4 * 4 + 4 * HEADER) % U32 / 4
  }

  predicate RoundingFits(bytes: nat) {
    bytes <= U32 - 16
  }

  // ----- layout -----

  function End(blocks: seq<Block>, size: nat, i: nat): nat
    requires i < |blocks|
  {
    if i + 1 < |blocks| then blocks[i + 1].off else size
  }

  predicate Before(b: seq<Block>, i: nat, j: nat)
    requires i < |b| && j < |b|
  {
    b[i].off + HEADER <= b[j].off
  }

  ghost predicate Ordered(b: seq<Block>) {
    forall i: nat, j: nat :: i < j < |b| ==> Before(b, i, j)
  }

  lemma Above(b: seq<Block>, i: nat, j: nat)
    requires Ordered(b) && i < j < |b|
    ensures b[i].off + HEADER <= b[j].off
  {
    assert Before(b, i, j);
  }

  predicate Apart(b: seq<Block>, i: nat)
    requires i + 1 < |b|
  {
    !(b[i].st.FREE? && b[i + 1].st.FREE?)
  }

  ghost predicate Coalesced(b: seq<Block>) {
    forall i: nat :: i + 1 < |b| ==> Apart(b, i)
  }

  ghost predicate Ends(blocks: seq<Block>, size: nat) {
    && |blocks| >= 3
    && 4 * HEADER <= size <= MAX_WORDS
    && blocks[0] == Block(0, DUMMY)
    && blocks[1].off == HEADER
    && blocks[|blocks| - 1] == Block(size - HEADER, DUMMY)
    && (forall i :: 0 < i < |blocks| - 1 ==> !blocks[i].st.DUMMY?)
  }

  /** A chain from offset 0 to `size`: DUMMY at both ends and only there, no FREE neighbours. */
  ghost predicate Shape(blocks: seq<Block>, size: nat) {
    Ends(blocks, size) && Ordered(blocks) && Coalesced(blocks)
  }

  ghost predicate Inv(h: Heap, size: nat) {
    && Shape(h.blocks, size)
    && 0 < h.lf < |h.blocks|
    && (forall j :: 0 <= j < h.lf ==> !h.blocks[j].st.FREE?)
  }

  function Fresh(size: nat): Heap
    requires size >= 4 * HEADER
  {
    Heap([Block(0, DUMMY), Block(HEADER, FREE), Block(size - HEADER, DUMMY)], 1)
  }

  lemma FreshInv(size: nat)
    requires 4 * HEADER <= size <= MAX_WORDS
    ensures Inv(Fresh(size), size)
  {
  }

  // ----- first fit over the whole chain -----

  predicate Fits(blocks: seq<Block>, size: nat, need: nat, i: nat)
    requires i < |blocks|
  {
    blocks[i].st.FREE? && End(blocks, size, i) - blocks[i].off >= need
  }

  /** The lowest block of the whole chain that is FREE and large enough, |blocks| when there is none. */
  function FirstFit(blocks: seq<Block>, size: nat, need: nat, from: nat := 0): (i: nat)
    requires from <= |blocks|
    ensures from <= i <= |blocks|
    ensures i < |blocks| ==> Fits(blocks, size, need, i)
    ensures forall j :: from <= j < i ==> !Fits(blocks, size, need, j)
    decreases |blocks| - from
  {
    if from == |blocks| then from
    else if Fits(blocks, size, need, from) then from
    else FirstFit(blocks, size, need, from + 1)
  }

  lemma FirstFitUnique(blocks: seq<Block>, size: nat, need: nat, i: nat)
    requires i <= |blocks|
    requires i < |blocks| ==> Fits(blocks, size, need, i)
    requires forall j :: 0 <= j < i ==> !Fits(blocks, size, need, j)
    ensures i == FirstFit(blocks, size, need)
  {
    var k := FirstFit(blocks, size, need);
    assert i <= k;
  }

  predicate Splits(blocks: seq<Block>, size: nat, i: nat, need: nat)
    requires i < |blocks|
  {
    End(blocks, size, i) - blocks[i].off - need >= HEADER + MIN_DATA
  }

  function AllocBlocks(blocks: seq<Block>, size: nat, i: nat, need: nat): seq<Block>
    requires i < |blocks|
  {
    var used := Block(blocks[i].off, USED);
    if Splits(blocks, size, i, need) then
      blocks[..i] + [used, Block(blocks[i].off + need, FREE)] + blocks[i + 1..]
    else
      blocks[i := used]
  }

  function Alloc(h: Heap, size: nat, i: nat, need: nat): Heap
    requires i < |h.blocks|
  {
    Heap(AllocBlocks(h.blocks, size, i, need), if i == h.lf then h.lf + 1 else h.lf)
  }

  /** The block that holds the freed one after merging stands at this position. */
  function MergedAt(blocks: seq<Block>, i: nat): nat
    requires 0 < i < |blocks| - 1
  {
    if blocks[i - 1].st.FREE? then i - 1 else i
  }

  function FreeBlocks(blocks: seq<Block>, i: nat): seq<Block>
    requires 0 < i < |blocks| - 1
  {
    var k := MergedAt(blocks, i);
    var rest := if blocks[i + 1].st.FREE? then i + 2 else i + 1;
    blocks[..k] + [Block(blocks[k].off, FREE)] + blocks[rest..]
  }

  function Release(h: Heap, i: nat): Heap
    requires 0 < i < |h.blocks| - 1
  {
    var k := MergedAt(h.blocks, i);
    Heap(FreeBlocks(h.blocks, i), if h.lf > k then k else h.lf)
  }

  // ----- both operations keep the invariant -----

  /** `c` is `b` with block i USED, and behind it a FREE block at `rest` when `split`. */
  ghost predicate IsAlloc(b: seq<Block>, c: seq<Block>, i: nat, split: bool, rest: nat) {
    var shift := if split then 1 else 0;
    && i < |b| && |c| == |b| + shift
    && (forall k :: 0 <= k < i ==> c[k] == b[k])
    && c[i] == Block(b[i].off, USED)
    && (split ==> c[i + 1] == Block(rest, FREE))
    && (forall k :: i + shift < k < |c| ==> c[k] == b[k - shift])
  }

  lemma AllocAt(b: seq<Block>, size: nat, i: nat, need: nat)
    requires i < |b|
    ensures IsAlloc(b, AllocBlocks(b, size, i, need), i, Splits(b, size, i, need), b[i].off + need)
  {
    var c := AllocBlocks(b, size, i, need);
    if Splits(b, size, i, need) {
      var mid := [Block(b[i].off, USED), Block(b[i].off + need, FREE)];
      assert c == b[..i] + (mid + b[i + 1..]);
    }
  }

  /** `c` is `b` with block k FREE and the `shift` blocks behind it gone. */
  ghost predicate IsFree(b: seq<Block>, c: seq<Block>, k: nat, shift: nat) {
    && k + shift < |b| && |c| == |b| - shift
    && (forall x :: 0 <= x < k ==> c[x] == b[x])
    && c[k] == Block(b[k].off, FREE)
    && (forall x :: k < x < |c| ==> c[x] == b[x + shift])
  }

  function MergeCount(b: seq<Block>, i: nat): nat
    requires 0 < i < |b| - 1
  {
    (if b[i - 1].st.FREE? then 1 else 0) + (if b[i + 1].st.FREE? then 1 else 0)
  }

  lemma FreeAt(b: seq<Block>, i: nat)
    requires 0 < i < |b| - 1
    ensures IsFree(b, FreeBlocks(b, i), MergedAt(b, i), MergeCount(b, i))
  {
    var k := MergedAt(b, i);
    var rest := k + MergeCount(b, i) + 1;
    CutOut(b, k, rest, Block(b[k].off, FREE));
    assert FreeBlocks(b, i) == b[..k] + [Block(b[k].off, FREE)] + b[rest..];
  }

  lemma CutOut(b: seq<Block>, k: nat, rest: nat, v: Block)
    requires k < rest <= |b|
    ensures var c := b[..k] + [v] + b[rest..];
            && |c| == |b| - (rest - k - 1) && c[k] == v
            && (forall x :: 0 <= x < k ==> c[x] == b[x])
            && (forall x :: k < x < |c| ==> c[x] == b[x + (rest - k - 1)])
  {
  }

  lemma AllocOrdered(b: seq<Block>, c: seq<Block>, i: nat, split: bool, rest: nat)
    requires Ordered(b) && IsAlloc(b, c, i, split, rest)
    requires split ==> i + 1 < |b| && b[i].off + HEADER <= rest && rest + HEADER <= b[i + 1].off
    ensures Ordered(c)
  {
    forall p: nat, q: nat | p < q < |c| ensures Before(c, p, q) {
      if split && p == i + 1 {
        if q > i + 2 {
          Above(b, i + 1, q - 1);
        }
      } else if split && q == i + 1 {
        if p < i {
          Above(b, p, i);
        }
      } else if split {
        Above(b, if p <= i then p else p - 1, if q <= i then q else q - 1);
      } else {
        Above(b, p, q);
      }
    }
  }

  lemma AllocCoalesced(b: seq<Block>, c: seq<Block>, i: nat, split: bool, rest: nat)
    requires Coalesced(b) && IsAlloc(b, c, i, split, rest) && b[i].st.FREE?
    ensures Coalesced(c)
  {
    var shift := if split then 1 else 0;
    forall p: nat | p + 1 < |c| ensures Apart(c, p) {
      if p >= i + shift {
        assert Apart(b, p - shift);
      } else if p + 1 < i {
        assert Apart(b, p);
      }
    }
  }

  lemma AllocEnds(b: seq<Block>, c: seq<Block>, size: nat, i: nat, split: bool, rest: nat)
    requires Ends(b, size) && IsAlloc(b, c, i, split, rest) && b[i].st.FREE?
    ensures Ends(c, size) && 0 < i < |b| - 1
  {
  }

  lemma AllocInv(h: Heap, size: nat, i: nat, need: nat)
    requires Inv(h, size) && i < |h.blocks| && Fits(h.blocks, size, need, i)
    requires Splits(h.blocks, size, i, need) ==> need >= HEADER
    ensures Inv(Alloc(h, size, i, need), size)
  {
    var b := h.blocks;
    var c, split, rest := AllocBlocks(b, size, i, need), Splits(b, size, i, need), b[i].off + need;
    AllocAt(b, size, i, need);
    AllocEnds(b, c, size, i, split, rest);
    AllocOrdered(b, c, i, split, rest);
    AllocCoalesced(b, c, i, split, rest);
  }

  lemma FreeOrdered(b: seq<Block>, c: seq<Block>, k: nat, shift: nat)
    requires Ordered(b) && IsFree(b, c, k, shift)
    ensures Ordered(c)
  {
    forall p: nat, q: nat | p < q < |c| ensures Before(c, p, q) {
      Above(b, if p <= k then p else p + shift, if q <= k then q else q + shift);
    }
  }

  lemma FreeCoalesced(b: seq<Block>, c: seq<Block>, k: nat, shift: nat)
    requires Coalesced(b) && IsFree(b, c, k, shift)
    requires k > 0 ==> !b[k - 1].st.FREE?
    requires k + shift + 1 < |b| ==> !b[k + shift + 1].st.FREE?
    ensures Coalesced(c)
  {
    forall p: nat | p + 1 < |c| ensures Apart(c, p) {
      if p > k {
        assert Apart(b, p + shift);
      } else if p + 1 < k {
        assert Apart(b, p);
      }
    }
  }

  lemma FreeEnds(b: seq<Block>, c: seq<Block>, size: nat, k: nat, shift: nat)
    requires Ends(b, size) && IsFree(b, c, k, shift) && 0 < k && k + shift < |b| - 1
    ensures Ends(c, size)
  {
  }

  lemma ReleaseInv(h: Heap, size: nat, i: nat)
    requires Inv(h, size) && 0 < i < |h.blocks| - 1 && h.blocks[i].st.USED?
    ensures Inv(Release(h, i), size)
  {
    var b := h.blocks;
    var c, k, shift := FreeBlocks(b, i), MergedAt(b, i), MergeCount(b, i);
    FreeAt(b, i);
    FreeEnds(b, c, size, k, shift);
    assert b[i - 1].st.FREE? ==> Apart(b, i - 2);
    assert b[i + 1].st.FREE? ==> Apart(b, i + 1);
    FreeOrdered(b, c, k, shift);
    FreeCoalesced(b, c, k, shift);
  }

  /** What malloc looks for: the lowest FREE block of at least the size needed, from its first word to the next header;
      none is found exactly when every FREE block is smaller. */
  lemma FirstFitIsLowest(h: Heap, size: nat, need: nat)
    requires Inv(h, size)
    ensures var b, i := h.blocks, FirstFit(h.blocks, size, need, h.lf);
            && (i < |b| ==> i + 1 < |b| && b[i].st == FREE && b[i + 1].off - b[i].off >= need)
            && (forall j :: 0 <= j < i && j + 1 < |b| && b[j].st == FREE ==> b[j + 1].off - b[j].off < need)
  {
    HintIsSafe(h, size, need);
    var b, i := h.blocks, FirstFit(h.blocks, size, need);
    assert !b[|b| - 1].st.FREE?;
    forall j | 0 <= j < i && j + 1 < |b| && b[j].st == FREE ensures b[j + 1].off - b[j].off < need {
      assert !Fits(b, size, need, j);
    }
  }

  /** What malloc hands out: what was needed, or the whole block when the rest could not be a block of MIN_DATA words.
      The rest, when cut off, is FREE and right behind; a block never loses or wastes more. */
  lemma AllocGives(h: Heap, size: nat, i: nat, need: nat)
    requires Inv(h, size) && i < |h.blocks| && Fits(h.blocks, size, need, i)
    ensures var b, c := h.blocks, Alloc(h, size, i, need).blocks;
            && i + 1 < |b| && i + 1 < |c| && c[i] == Block(b[i].off, USED)
            && var have, got := End(b, size, i) - b[i].off, End(c, size, i) - c[i].off;
            && need <= got < need + HEADER + MIN_DATA
            && (got == have ==> c[i + 1] == b[i + 1])
            && (got != have ==> got == need && have - got >= HEADER + MIN_DATA)
            && (got != have ==> c[i + 1] == Block(c[i].off + got, FREE) && End(c, size, i + 1) == End(b, size, i))
  {
    AllocAt(h.blocks, size, i, need);
    EndInHeap(h.blocks, size, i);
  }

  /** The search may start at the hint: nothing below it is FREE. */
  lemma HintIsSafe(h: Heap, size: nat, need: nat)
    requires Inv(h, size)
    ensures FirstFit(h.blocks, size, need) == FirstFit(h.blocks, size, need, h.lf)
  {
    FirstFitUnique(h.blocks, size, need, FirstFit(h.blocks, size, need, h.lf));
  }

  /** `lfree` designates the lowest FREE block, as its documentation has it. */
  predicate HintIsFree(h: Heap)
    requires h.lf < |h.blocks|
  {
    h.blocks[h.lf].st.FREE?
  }

  /** After an allocation it does exactly when the hint's own block was split, or another was taken and it did. */
  lemma HintAfterMalloc(h: Heap, size: nat, i: nat, need: nat)
    requires Inv(h, size) && i < |h.blocks| && Fits(h.blocks, size, need, i)
    ensures var r := Alloc(h, size, i, need);
            && r.lf < |r.blocks|
            && (HintIsFree(r) <==> if i == h.lf then Splits(h.blocks, size, i, need) else HintIsFree(h))
  {
    AllocAt(h.blocks, size, i, need);
    assert i == h.lf ==> Apart(h.blocks, i);
  }

  /** After a free it does exactly when the freed block is not above the hint, or it did before. */
  lemma HintAfterFree(h: Heap, size: nat, i: nat)
    requires Inv(h, size) && 0 < i < |h.blocks| - 1 && h.blocks[i].st.USED?
    ensures var r := Release(h, i);
            r.lf < |r.blocks| && (HintIsFree(r) <==> h.lf >= MergedAt(h.blocks, i) || HintIsFree(h))
  {
    FreeAt(h.blocks, i);
  }

  /** Two blocks of four words allocated, the first freed and allocated again: the hint stands on the second, which is
      USED, while the block behind it is FREE. */
  lemma HintMissesTheLowestFree(size: nat)
    requires 32 <= size <= MAX_WORDS
    ensures var h0 := Fresh(size);
            var h1 := Alloc(h0, size, 1, 4);
            var h2 := Alloc(h1, size, 2, 4);
            && FirstFit(h0.blocks, size, 4) == 1 && FirstFit(h1.blocks, size, 4) == 2
            && 1 < |h2.blocks| - 1
            && var h3 := Release(h2, 1);
            && 1 < |h3.blocks| && FirstFit(h3.blocks, size, 4) == 1
            && var h4 := Alloc(h3, size, 1, 4);
            && |h4.blocks| == 5 && h4.lf == 2 && h4.blocks[2].st.USED? && h4.blocks[3].st.FREE?
  {
    var b1 := [Block(0, DUMMY), Block(3, USED), Block(7, FREE), Block(size - 3, DUMMY)];
    var b2 := [Block(0, DUMMY), Block(3, USED), Block(7, USED), Block(11, FREE), Block(size - 3, DUMMY)];
    var b3 := [Block(0, DUMMY), Block(3, FREE), Block(7, USED), Block(11, FREE), Block(size - 3, DUMMY)];
    assert AllocBlocks(Fresh(size).blocks, size, 1, 4) == b1;
    assert AllocBlocks(b1, size, 2, 4) == b2;
    assert FreeBlocks(b2, 1) == b3;
    assert AllocBlocks(b3, size, 1, 4) == b2;
    FirstFitUnique(Fresh(size).blocks, size, 4, 1);
    FirstFitUnique(b1, size, 4, 2);
    FirstFitUnique(b3, size, 4, 1);
  }

  // ----- undo -----

  /** Freeing what malloc just returned brings back the blocks and the hint, split or not. */
  lemma FreeUndoesMalloc(h: Heap, size: nat, i: nat, need: nat)
    requires Inv(h, size) && i < |h.blocks| && Fits(h.blocks, size, need, i)
    ensures 0 < i < |Alloc(h, size, i, need).blocks| - 1
    ensures Release(Alloc(h, size, i, need), i) == h
  {
    var b := h.blocks;
    assert 0 < i < |b| - 1 && h.lf <= i;
    assert Apart(b, i - 1) && Apart(b, i);
    var a := Alloc(h, size, i, need).blocks;
    if Splits(b, size, i, need) {
      assert a[i + 1].st.FREE?;
      assert a[i + 2..] == b[i + 1..];
    } else {
      assert a[i + 1..] == b[i + 1..];
    }
    assert a[..i] == b[..i] && MergedAt(a, i) == i;
    assert b == b[..i] + [b[i]] + b[i + 1..];
    assert Block(b[i].off, FREE) == b[i];
  }

  /** With nothing allocated there is one FREE block, and the hint stands on it. */
  lemma NothingUsedIsFresh(h: Heap, size: nat)
    requires Inv(h, size)
    requires forall i :: 0 <= i < |h.blocks| ==> !h.blocks[i].st.USED?
    ensures h == Fresh(size)
  {
    var b := h.blocks;
    assert b[1].st.FREE? && h.lf <= 1;
    assert Apart(b, 1);
  }

  // ----- the blocks tile the heap -----

  function TotalSize(blocks: seq<Block>, size: nat, from: nat): int
    requires from <= |blocks|
    decreases |blocks| - from
  {
    if from == |blocks| then 0
    else End(blocks, size, from) - blocks[from].off + TotalSize(blocks, size, from + 1)
  }

  lemma {:induction false} BlocksTileTheHeap(blocks: seq<Block>, size: nat, from: nat)
    requires Shape(blocks, size) && from < |blocks|
    ensures TotalSize(blocks, size, from) == size - blocks[from].off
    decreases |blocks| - from
  {
    if from + 1 < |blocks| {
      BlocksTileTheHeap(blocks, size, from + 1);
    }
  }

  // ----- runs of malloc and free -----

  datatype Op = Malloc(bytes: nat) | Free(off: nat)

  /** `live` maps the block offset of every pointer handed out to the bytes asked for. */
  datatype Run = Run(heap: Heap, live: map<nat, nat>)

  predicate Allowed(r: Run, op: Op) {
    match op
    case Malloc(bytes) => bytes < U32 && RoundingFits(bytes)
    case Free(off) => off in r.live
  }

  function IndexOf(blocks: seq<Block>, off: nat, from: nat := 0): (i: nat)
    requires from <= |blocks|
    ensures from <= i <= |blocks|
    ensures i < |blocks| ==> blocks[i].off == off
    ensures i == |blocks| ==> forall j :: from <= j < |blocks| ==> blocks[j].off != off
    decreases |blocks| - from
  {
    if from == |blocks| || blocks[from].off == off then from else IndexOf(blocks, off, from + 1)
  }

  predicate Holds(b: seq<Block>, size: nat, live: map<nat, nat>, i: nat)
    requires i < |b|
  {
    b[i].st.USED? ==> b[i].off in live && live[b[i].off] <= 4 * (End(b, size, i) - b[i].off - HEADER)
  }

  /** Exactly the USED blocks are live, and each holds the bytes asked for. */
  ghost predicate LiveOk(b: seq<Block>, size: nat, live: map<nat, nat>) {
    && (forall off :: off in live ==> Block(off, USED) in b)
    && (forall i :: 0 <= i < |b| ==> Holds(b, size, live, i))
  }

  ghost predicate RunInv(r: Run, size: nat) {
    Inv(r.heap, size) && LiveOk(r.heap.blocks, size, r.live)
  }

  function Step(r: Run, size: nat, op: Op): Run
    requires Allowed(r, op)
  {
    var b := r.heap.blocks;
    match op
    case Malloc(bytes) =>
      var i := FirstFit(b, size, Needed(bytes));
      if i == |b| then r
      else Run(Alloc(r.heap, size, i, Needed(bytes)), r.live[b[i].off := bytes])
    case Free(off) =>
      var i := IndexOf(b, off);
      if 0 < i < |b| - 1 then Run(Release(r.heap, i), r.live - {off}) else r
  }

  lemma NeededIsEnough(bytes: nat)
    requires bytes < U32
    ensures RoundingFits(bytes) <==> 4 * (Needed(bytes) - HEADER) >= bytes
    ensures RoundingFits(bytes) ==> HEADER <= Needed(bytes) && 4 * (Needed(bytes) - HEADER) < bytes + 4
  {
  }

  ghost predicate OnlyAt(b: seq<Block>, i: nat)
    requires i < |b|
  {
    forall j :: 0 <= j < |b| && j != i ==> b[j].off != b[i].off
  }

  lemma OffsetsDistinct(b: seq<Block>, i: nat)
    requires Ordered(b) && i < |b|
    ensures OnlyAt(b, i) && IndexOf(b, b[i].off) == i
  {
    forall j | 0 <= j < |b| && j != i ensures b[j].off != b[i].off {
      if j < i {
        Above(b, j, i);
      } else {
        Above(b, i, j);
      }
    }
  }

  lemma AllocLive(b: seq<Block>, c: seq<Block>, size: nat, live: map<nat, nat>, i: nat, split: bool, rest: nat,
      bytes: nat)
    requires LiveOk(b, size, live) && IsAlloc(b, c, i, split, rest) && b[i].st.FREE? && OnlyAt(b, i)
    requires bytes <= 4 * (End(c, size, i) - b[i].off - HEADER)
    ensures LiveOk(c, size, live[b[i].off := bytes])
  {
    var shift, live' := if split then 1 else 0, live[b[i].off := bytes];
    forall k | 0 <= k < |c| ensures Holds(c, size, live', k) {
      if k != i && c[k].st.USED? {
        var j := if k < i then k else k - shift;
        assert c[k] == b[j] && End(c, size, k) == End(b, size, j);
        assert Holds(b, size, live, j);
      }
    }
    forall off | off in live' ensures Block(off, USED) in c {
      if off == b[i].off {
        assert c[i] == Block(off, USED);
      } else {
        var j :| 0 <= j < |b| && b[j] == Block(off, USED);
        assert c[if j < i then j else j + shift] == b[j];
      }
    }
  }

  lemma MallocStep(r: Run, size: nat, bytes: nat)
    requires RunInv(r, size) && Allowed(r, Malloc(bytes))
    ensures RunInv(Step(r, size, Malloc(bytes)), size)
  {
    var b, need := r.heap.blocks, Needed(bytes);
    var i := FirstFit(b, size, need);
    if i < |b| {
      NeededIsEnough(bytes);
      AllocInv(r.heap, size, i, need);
      AllocAt(b, size, i, need);
      OffsetsDistinct(b, i);
      var c, split := AllocBlocks(b, size, i, need), Splits(b, size, i, need);
      AllocLive(b, c, size, r.live, i, split, b[i].off + need, bytes);
    }
  }

  /** The payload handed out holds the bytes asked for exactly when the rounding did not wrap. */
  lemma PayloadHoldsRequest(h: Heap, size: nat, i: nat, bytes: nat)
    requires Inv(h, size) && i < |h.blocks| && bytes < U32
    requires Fits(h.blocks, size, Needed(bytes), i)
    ensures var c := Alloc(h, size, i, Needed(bytes)).blocks;
            i < |c| && (4 * (End(c, size, i) - c[i].off - HEADER) >= bytes <==> RoundingFits(bytes))
  {
    var b, need := h.blocks, Needed(bytes);
    AllocAt(b, size, i, need);
    NeededIsEnough(bytes);
    EndInHeap(b, size, i);
    WrappedSizes(bytes);
  }

  lemma EndInHeap(b: seq<Block>, size: nat, i: nat)
    requires Shape(b, size) && i < |b| && b[i].st.FREE?
    ensures i + 1 < |b| && HEADER <= b[i].off <= End(b, size, i) <= size - HEADER
  {
    assert i != 0 && i != |b| - 1;
    Above(b, 0, i);
    Above(b, i, i + 1);
    if i + 1 < |b| - 1 {
      Above(b, i + 1, |b| - 1);
    }
  }

  /** The sizes whose rounding wraps below one header. */
  lemma WrappedSizes(bytes: nat)
    requires bytes < U32
    ensures Needed(bytes) < HEADER <==> 0xFFFF_FFF1 <= bytes <= 0xFFFF_FFFC
  {
  }

  lemma FreeLive(b: seq<Block>, c: seq<Block>, size: nat, live: map<nat, nat>, i: nat, k: nat, shift: nat)
    requires LiveOk(b, size, live) && IsFree(b, c, k, shift)
    requires k <= i <= k + shift && b[i].st.USED? && OnlyAt(b, i)
    requires forall x :: k <= x <= k + shift && x != i ==> b[x].st.FREE?
    ensures LiveOk(c, size, live - {b[i].off})
  {
    var live' := live - {b[i].off};
    forall x | 0 <= x < |c| ensures Holds(c, size, live', x) {
      if c[x].st.USED? {
        var j := if x < k then x else x + shift;
        assert c[x] == b[j] && End(c, size, x) == End(b, size, j);
        assert Holds(b, size, live, j);
      }
    }
    forall off | off in live' ensures Block(off, USED) in c {
      var j :| 0 <= j < |b| && b[j] == Block(off, USED);
      assert c[if j < k then j else j - shift] == b[j];
    }
  }

  lemma FreeStep(r: Run, size: nat, off: nat)
    requires RunInv(r, size) && off in r.live
    ensures RunInv(Step(r, size, Free(off)), size)
    ensures Step(r, size, Free(off)).live == r.live - {off}
  {
    var b := r.heap.blocks;
    var i :| 0 <= i < |b| && b[i] == Block(off, USED);
    OffsetsDistinct(b, i);
    UsedIsInterior(b, size, i);
    ReleaseInv(r.heap, size, i);
    ReleaseLive(b, size, r.live, i);
  }

  lemma UsedIsInterior(b: seq<Block>, size: nat, i: nat)
    requires Ends(b, size) && i < |b| && b[i].st.USED?
    ensures 0 < i < |b| - 1
  {
  }

  lemma ReleaseLive(b: seq<Block>, size: nat, live: map<nat, nat>, i: nat)
    requires LiveOk(b, size, live) && 0 < i < |b| - 1 && b[i].st.USED? && OnlyAt(b, i)
    ensures LiveOk(FreeBlocks(b, i), size, live - {b[i].off})
  {
    FreeAt(b, i);
    FreeLive(b, FreeBlocks(b, i), size, live, i, MergedAt(b, i), MergeCount(b, i));
  }

  lemma StepKeepsInv(r: Run, size: nat, op: Op)
    requires RunInv(r, size) && Allowed(r, op)
    ensures RunInv(Step(r, size, op), size)
  {
    match op
    case Malloc(bytes) => MallocStep(r, size, bytes);
    case Free(off) => FreeStep(r, size, off);
  }

  function Exec(r: Run, size: nat, ops: seq<Op>): Run
    requires AllAllowed(r, size, ops)
    decreases |ops|
  {
    if ops == [] then r else Exec(Step(r, size, ops[0]), size, ops[1..])
  }

  predicate AllAllowed(r: Run, size: nat, ops: seq<Op>)
    decreases |ops|
  {
    ops == [] || (Allowed(r, ops[0]) && AllAllowed(Step(r, size, ops[0]), size, ops[1..]))
  }

  lemma {:induction false} RunKeepsInv(r: Run, size: nat, ops: seq<Op>)
    requires RunInv(r, size) && AllAllowed(r, size, ops)
    ensures RunInv(Exec(r, size, ops), size)
    decreases |ops|
  {
    if ops != [] {
      StepKeepsInv(r, size, ops[0]);
      RunKeepsInv(Step(r, size, ops[0]), size, ops[1..]);
    }
  }

  /** Whatever the order, a run from a fresh heap that frees all it took ends in the fresh heap. */
  lemma RunThatFreesAllEndsFresh(size: nat, ops: seq<Op>)
    requires 4 * HEADER <= size <= MAX_WORDS
    requires AllAllowed(Run(Fresh(size), map[]), size, ops)
    requires Exec(Run(Fresh(size), map[]), size, ops).live == map[]
    ensures Exec(Run(Fresh(size), map[]), size, ops).heap == Fresh(size)
  {
    var r := Run(Fresh(size), map[]);
    FreshInv(size);
    RunKeepsInv(r, size, ops);
    var e := Exec(r, size, ops);
    forall i | 0 <= i < |e.heap.blocks| ensures !e.heap.blocks[i].st.USED? {
      assert Holds(e.heap.blocks, size, e.live, i);
    }
    NothingUsedIsFresh(e.heap, size);
  }

  lemma BlockEnds(b: seq<Block>, size: nat, i: nat, j: nat)
    requires Ordered(b) && i < |b| && j < |b| && b[i].off < b[j].off
    ensures i < j && End(b, size, i) <= b[j].off
  {
    OffsetsDistinct(b, i);
    if j < i {
      Above(b, j, i);
    } else if i + 1 < j {
      Above(b, i + 1, j);
    }
  }

  /** Two live allocations never share a word, and each is as large as was asked. */
  lemma LiveAreDisjoint(r: Run, size: nat, p: nat, q: nat)
    requires RunInv(r, size) && p in r.live && q in r.live && p < q
    ensures r.live[p] <= 4 * (q - p - HEADER)
    ensures r.live[q] <= 4 * (size - HEADER - q - HEADER)
  {
    var b := r.heap.blocks;
    var i := LiveBlock(b, size, r.live, p);
    var j := LiveBlock(b, size, r.live, q);
    BlockEnds(b, size, i, j);
    UsedIsInterior(b, size, j);
    Above(b, j, |b| - 1);
    BlockEnds(b, size, j, |b| - 1);
  }

  lemma LiveBlock(b: seq<Block>, size: nat, live: map<nat, nat>, p: nat) returns (i: nat)
    requires LiveOk(b, size, live) && p in live
    ensures i < |b| && b[i] == Block(p, USED) && live[p] <= 4 * (End(b, size, i) - p - HEADER)
  {
    i :| 0 <= i < |b| && b[i] == Block(p, USED);
    assert Holds(b, size, live, i);
  }
}
