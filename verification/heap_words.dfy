/** Runs of malloc, free and writes by the owners, on the words of the heap: every live payload reads back what its
    owner wrote. */
module HeapWords {
  import opened Base
  import opened HeapLayout
  import opened HeapMemory

  /** `wrote` records the last word each owner wrote at each place of a live payload. */
  datatype Words = Words(mem: seq<word>, run: Run, wrote: map<nat, word>)

  datatype Action = Call(op: Op) | Write(off: nat, i: nat, v: word)

  /** Clients pass live pointers to free and write inside what they asked for. */
  predicate Proper(w: Words, a: Action) {
    match a
    case Call(op) => Allowed(w.run, op)
    case Write(off, i, v) => off in w.run.live && 4 * i < w.run.live[off]
  }

  /** The header writes of mrtk_malloc for block i. */
  ghost function TakeWrites(m: seq<word>, b: seq<Block>, size: nat, i: nat, need: nat): seq<word>
    requires i < |b|
  {
    var cur := b[i].off;
    if
      Splits(b, size, i, need) && cur + need + HEADER <= |m| < 0x1_0000_0000 && cur + HEADER <= |m|
      && m[cur + 2] + 1 < |m|
    then
      SplitWrites(m, cur, need)
    else if cur < |m| then m[cur := Tag(USED)]
    else m
  }

  /** Places outside the payload of the block at [from, to). */
  function Outside(wrote: map<nat, word>, from: nat, to: nat): map<nat, word> {
    map x | x in wrote && !(from <= x < to) :: wrote[x]
  }

  ghost function Act(w: Words, size: nat, a: Action): Words
    requires Proper(w, a)
  {
    var b := w.run.heap.blocks;
    match a
    case Call(Malloc(bytes)) =>
      var i := FirstFit(b, size, Needed(bytes));
      if i == |b| then w
      else Words(TakeWrites(w.mem, b, size, i, Needed(bytes)), Step(w.run, size, Malloc(bytes)), w.wrote)
    case Call(Free(off)) =>
      var i := IndexOf(b, off);
      if 0 < i < |b| - 1 && MergeRoom(w.mem, b, i) then
        Words(MergeWrites(w.mem, b, i), Step(w.run, size, Free(off)), Outside(w.wrote, off, End(b, size, i)))
      else w
    case Write(off, i, v) =>
      var x := off + HEADER + i;
      if x < |w.mem| then Words(w.mem[x := v], w.run, w.wrote[x := v]) else w
  }

  ghost predicate ReadsBack(w: Words, size: nat, x: nat) {
    && x in w.wrote && x < |w.mem| && w.mem[x] == w.wrote[x]
    && InPayload(w.run.heap.blocks, size, x)
  }

  ghost predicate Good(w: Words, size: nat) {
    && RunInv(w.run, size) && Chain(w.mem, w.run.heap.blocks, size)
    && forall x {:trigger ReadsBack(w, size, x)} :: x in w.wrote ==> ReadsBack(w, size, x)
  }

  // ----- malloc -----

  lemma PayloadBlock(b: seq<Block>, size: nat, x: int) returns (j: nat)
    requires InPayload(b, size, x)
    ensures j < |b| && b[j].st.USED? && b[j].off + HEADER <= x < End(b, size, j)
  {
    j :| 0 <= j < |b| && b[j].st.USED? && b[j].off + HEADER <= x < End(b, size, j);
  }

  /** Payloads are still payloads after another block has been taken. */
  lemma PayloadAfterAlloc(b: seq<Block>, c: seq<Block>, size: nat, i: nat, split: bool, rest: nat, x: nat)
    requires IsAlloc(b, c, i, split, rest) && b[i].st.FREE? && InPayload(b, size, x)
    ensures InPayload(c, size, x)
  {
    var j := PayloadBlock(b, size, x);
    var k := if j < i then j else if split then j + 1 else j;
    assert c[k] == b[j] && End(c, size, k) == End(b, size, j);
  }

  lemma MallocGood(w: Words, size: nat, bytes: nat)
    requires Good(w, size) && Proper(w, Call(Malloc(bytes)))
    ensures Good(Act(w, size, Call(Malloc(bytes))), size)
  {
    var b, need := w.run.heap.blocks, Needed(bytes);
    var i := FirstFit(b, size, need);
    if i < |b| {
      NeededIsEnough(bytes);
      StepKeepsInv(w.run, size, Malloc(bytes));
      TakenGood(w, size, i, need, Act(w, size, Call(Malloc(bytes))));
    }
  }

  lemma TakenGood(w: Words, size: nat, i: nat, need: nat, v: Words)
    requires Good(w, size) && i < |w.run.heap.blocks| && Fits(w.run.heap.blocks, size, need, i) && need >= HEADER
    requires RunInv(v.run, size) && v.run.heap.blocks == AllocBlocks(w.run.heap.blocks, size, i, need)
    requires v.mem == TakeWrites(w.mem, w.run.heap.blocks, size, i, need) && v.wrote == w.wrote
    ensures Good(v, size)
  {
    var b := w.run.heap.blocks;
    TakeMoves(w, size, i, need, v.mem);
    AllocAt(b, size, i, need);
    TakeGood(w, size, i, Splits(b, size, i, need), b[i].off + need, v);
  }

  /** What the header writes leave. */
  lemma TakeMoves(w: Words, size: nat, i: nat, need: nat, r: seq<word>)
    requires Good(w, size) && i < |w.run.heap.blocks| && Fits(w.run.heap.blocks, size, need, i) && need >= HEADER
    requires r == TakeWrites(w.mem, w.run.heap.blocks, size, i, need)
    ensures |r| == |w.mem| && Chain(r, AllocBlocks(w.run.heap.blocks, size, i, need), size)
    ensures PayloadsKept(w.run.heap.blocks, size, None, w.mem, r)
  {
    TakeRoom(w.run.heap, size, i, need, w.mem);
    TakeWritten(w.run.heap, size, i, need, w.mem, r);
    MallocPayloads(w.run.heap.blocks, size, i, need, w.mem, r);
  }

  lemma TakeGood(w: Words, size: nat, i: nat, split: bool, rest: nat, v: Words)
    requires Good(w, size) && RunInv(v.run, size) && v.wrote == w.wrote && |v.mem| == |w.mem|
    requires var b, c := w.run.heap.blocks, v.run.heap.blocks;
             && IsAlloc(b, c, i, split, rest) && b[i].st.FREE? && Chain(v.mem, c, size)
             && PayloadsKept(b, size, None, w.mem, v.mem)
    ensures Good(v, size)
  {
    forall x | x in v.wrote ensures ReadsBack(v, size, x) {
      assert ReadsBack(w, size, x);
      TakenPlace(w.run.heap.blocks, v.run.heap.blocks, size, i, split, rest, w.mem, v.mem, x);
    }
  }

  lemma TakenPlace(b: seq<Block>, c: seq<Block>, size: nat, i: nat, split: bool, rest: nat,
                   m0: seq<word>, m1: seq<word>, x: nat)
    requires IsAlloc(b, c, i, split, rest) && b[i].st.FREE? && InPayload(b, size, x) && x < |m0|
    requires PayloadsKept(b, size, None, m0, m1)
    ensures m1[x] == m0[x] && InPayload(c, size, x)
  {
    KeptAt(b, size, None, m0, m1, x);
    PayloadAfterAlloc(b, c, size, i, split, rest, x);
  }

  /** A word of a payload other than p's is kept. */
  lemma KeptAt(b: seq<Block>, size: nat, p: Option<int>, m0: seq<word>, m1: seq<word>, x: nat)
    requires PayloadsKept(b, size, p, m0, m1) && x < |m0|
    requires exists j ::
               && 0 <= j < |b| && b[j].st.USED? && b[j].off + HEADER <= x < End(b, size, j)
               && p != Some(b[j].off + HEADER)
    ensures m0[x] == m1[x]
  {
    var j :| 0 <= j < |b| && b[j].st.USED? && b[j].off + HEADER <= x < End(b, size, j) && p != Some(b[j].off + HEADER);
    assert PayloadKept(b, size, j, m0, m1);
  }

  // ----- free -----

  lemma PayloadAfterFree(b: seq<Block>, c: seq<Block>, size: nat, i: nat, k: nat, shift: nat, j: nat, x: nat)
    requires IsFree(b, c, k, shift) && k <= i <= k + shift && j < |b| && j != i && b[j].st.USED?
    requires forall y :: k <= y <= k + shift && y != i ==> b[y].st.FREE?
    requires b[j].off + HEADER <= x < End(b, size, j)
    ensures InPayload(c, size, x)
  {
    var y := if j < k then j else j - shift;
    assert c[y] == b[j] && End(c, size, y) == End(b, size, j);
  }

  /** A place outside block i lies in another block's payload. */
  lemma OtherPayload(b: seq<Block>, size: nat, i: nat, x: nat) returns (j: nat)
    requires i < |b| && InPayload(b, size, x) && !(b[i].off <= x < End(b, size, i))
    ensures j < |b| && j != i && b[j].st.USED? && b[j].off + HEADER <= x < End(b, size, j)
  {
    j := PayloadBlock(b, size, x);
  }

  lemma FreeGood(w: Words, size: nat, off: nat)
    requires Good(w, size) && Proper(w, Call(Free(off)))
    ensures Good(Act(w, size, Call(Free(off))), size)
  {
    var b := w.run.heap.blocks;
    var i := LiveBlock(b, size, w.run.live, off);
    FreeActs(w, size, off, i);
    FreedGood(w, size, i, Act(w, size, Call(Free(off))));
  }

  lemma FreedGood(w: Words, size: nat, i: nat, v: Words)
    requires Good(w, size) && RunInv(v.run, size) && |v.mem| == |w.mem|
    requires var b := w.run.heap.blocks;
             && 0 < i < |b| - 1 && b[i].st.USED? && v.run.heap.blocks == FreeBlocks(b, i)
             && MergeRoom(w.mem, b, i) && v.mem == MergeWrites(w.mem, b, i)
             && v.wrote == Outside(w.wrote, b[i].off, End(b, size, i))
    ensures Good(v, size)
  {
    MergeWritten(w.mem, w.run.heap.blocks, size, i);
    MergedHeap(w.run.heap, size, i, w.mem, v.mem);
    FreeAt(w.run.heap.blocks, i);
    ReleasedGood(w, size, i, v);
  }

  lemma FreeActs(w: Words, size: nat, off: nat, i: nat)
    requires Good(w, size) && Proper(w, Call(Free(off)))
    requires i < |w.run.heap.blocks| && w.run.heap.blocks[i] == Block(off, USED)
    ensures var b, v := w.run.heap.blocks, Act(w, size, Call(Free(off)));
            && 0 < i < |b| - 1 && MergeRoom(w.mem, b, i) && v.mem == MergeWrites(w.mem, b, i) && |v.mem| == |w.mem|
            && v.run.heap.blocks == FreeBlocks(b, i) && RunInv(v.run, size)
            && v.wrote == Outside(w.wrote, off, End(b, size, i))
  {
    var b := w.run.heap.blocks;
    OffsetsDistinct(b, i);
    UsedIsInterior(b, size, i);
    MergeWritten(w.mem, b, size, i);
    FreeStep(w.run, size, off);
  }

  lemma ReleasedGood(w: Words, size: nat, i: nat, v: Words)
    requires Good(w, size) && |v.mem| == |w.mem|
    requires var b, c := w.run.heap.blocks, v.run.heap.blocks;
             && 0 < i < |b| - 1 && IsFree(b, c, MergedAt(b, i), MergeCount(b, i)) && Chain(v.mem, c, size)
             && PayloadsKept(b, size, Some(b[i].off + HEADER), w.mem, v.mem)
             && v.wrote == Outside(w.wrote, b[i].off, End(b, size, i))
    requires RunInv(v.run, size)
    ensures Good(v, size)
  {
    forall x | x in v.wrote ensures ReadsBack(v, size, x) {
      ReleasedWord(w, size, i, v, x);
    }
  }

  lemma ReleasedWord(w: Words, size: nat, i: nat, v: Words, x: nat)
    requires ReadsBack(w, size, x) && Shape(w.run.heap.blocks, size) && |v.mem| == |w.mem|
    requires var b := w.run.heap.blocks;
             && 0 < i < |b| - 1 && IsFree(b, v.run.heap.blocks, MergedAt(b, i), MergeCount(b, i))
             && PayloadsKept(b, size, Some(b[i].off + HEADER), w.mem, v.mem)
             && x in v.wrote && v.wrote == Outside(w.wrote, b[i].off, End(b, size, i))
    ensures ReadsBack(v, size, x)
  {
    ReleasedPlace(w.run.heap.blocks, v.run.heap.blocks, size, i, w.mem, v.mem, x);
  }

  lemma ReleasedPlace(b: seq<Block>, c: seq<Block>, size: nat, i: nat, m0: seq<word>, m1: seq<word>, x: nat)
    requires Shape(b, size) && 0 < i < |b| - 1 && IsFree(b, c, MergedAt(b, i), MergeCount(b, i))
    requires InPayload(b, size, x) && !(b[i].off <= x < End(b, size, i)) && x < |m0|
    requires PayloadsKept(b, size, Some(b[i].off + HEADER), m0, m1)
    ensures m1[x] == m0[x] && InPayload(c, size, x)
  {
    var j := OtherPayload(b, size, i, x);
    OffsetsDistinct(b, i);
    KeptAt(b, size, Some(b[i].off + HEADER), m0, m1, x);
    PayloadAfterFree(b, c, size, i, MergedAt(b, i), MergeCount(b, i), j, x);
  }

  // ----- a write -----

  lemma WriteGood(w: Words, size: nat, off: nat, i: nat, v: word)
    requires Good(w, size) && Proper(w, Write(off, i, v))
    ensures Good(Act(w, size, Write(off, i, v)), size)
    ensures off + HEADER + i < |w.mem|
  {
    var b := w.run.heap.blocks;
    var j := LiveBlock(b, size, w.run.live, off);
    Bounds(b, size, j);
    var x := off + HEADER + i;
    assert InPayload(b, size, x);
    var r := Act(w, size, Write(off, i, v));
    ClientWritesKeepChain(w.mem, r.mem, b, size);
    forall y | y in r.wrote ensures ReadsBack(r, size, y) {
      assert y != x ==> ReadsBack(w, size, y);
    }
  }

  // ----- every run -----

  ghost predicate AllProper(w: Words, size: nat, acts: seq<Action>)
    decreases |acts|
  {
    acts == [] || (Proper(w, acts[0]) && AllProper(Act(w, size, acts[0]), size, acts[1..]))
  }

  ghost function Do(w: Words, size: nat, acts: seq<Action>): Words
    requires AllProper(w, size, acts)
    decreases |acts|
  {
    if acts == [] then w else Do(Act(w, size, acts[0]), size, acts[1..])
  }

  lemma {:induction false} DoKeepsGood(w: Words, size: nat, acts: seq<Action>)
    requires Good(w, size) && AllProper(w, size, acts)
    ensures Good(Do(w, size, acts), size)
    decreases |acts|
  {
    if acts != [] {
      match acts[0] {
        case Call(Malloc(bytes)) => MallocGood(w, size, bytes);
        case Call(Free(off)) => FreeGood(w, size, off);
        case Write(off, i, v) => WriteGood(w, size, off, i, v);
      }
      DoKeepsGood(Act(w, size, acts[0]), size, acts[1..]);
    }
  }

  /** After any run from a new heap, each word of each live payload that its owner has written reads back as it was last
      written, and such words lie in live payloads. */
  lemma PayloadsReadBack(m: seq<word>, size: nat, acts: seq<Action>, x: nat)
    requires FreshHeaders(m, size)
    requires AllProper(Words(m, Run(Fresh(size), map[]), map[]), size, acts)
    ensures var w := Do(Words(m, Run(Fresh(size), map[]), map[]), size, acts);
            x in w.wrote ==> x < |w.mem| && w.mem[x] == w.wrote[x] && InPayload(w.run.heap.blocks, size, x)
  {
    var w := Words(m, Run(Fresh(size), map[]), map[]);
    FreshInv(size);
    FreshChain(m, size);
    DoKeepsGood(w, size, acts);
    assert x in Do(w, size, acts).wrote ==> ReadsBack(Do(w, size, acts), size, x);
  }

  // ----- the same without the record -----

  /** Neither a write to that word of the block at off nor a free of the block. */
  predicate Spares(a: Action, off: nat, i: nat) {
    a != Call(Free(off)) && !(a.Write? && a.off == off && a.i == i)
  }

  ghost predicate Keeps(w: Words, off: nat, i: nat, v: word) {
    && off in w.run.live && 4 * i < w.run.live[off]
    && off + HEADER + i in w.wrote && w.wrote[off + HEADER + i] == v
  }

  /** Two live blocks share no word. */
  lemma ApartFrom(r: Run, size: nat, off: nat, i: nat, p: nat)
    requires RunInv(r, size) && off in r.live && 4 * i < r.live[off] && p in r.live && p != off
    ensures 4 * (off + HEADER + i - p - HEADER) >= r.live[p] || off + HEADER + i < p
  {
    if off < p {
      LiveAreDisjoint(r, size, off, p);
    } else {
      LiveAreDisjoint(r, size, p, off);
    }
  }

  lemma MallocSpares(w: Words, size: nat, bytes: nat, off: nat, i: nat, v: word)
    requires Good(w, size) && Proper(w, Call(Malloc(bytes))) && Keeps(w, off, i, v)
    ensures Keeps(Act(w, size, Call(Malloc(bytes))), off, i, v)
  {
    var b, need := w.run.heap.blocks, Needed(bytes);
    var k := FirstFit(b, size, need);
    if k < |b| {
      var j := LiveBlock(b, size, w.run.live, off);
      OffsetsDistinct(b, j);
      assert b[k].off != off;
    }
  }

  lemma FreeSpares(w: Words, size: nat, p: nat, off: nat, i: nat, v: word)
    requires Good(w, size) && Proper(w, Call(Free(p))) && p != off && Keeps(w, off, i, v)
    ensures Keeps(Act(w, size, Call(Free(p))), off, i, v)
  {
    var b := w.run.heap.blocks;
    var k := LiveBlock(b, size, w.run.live, p);
    var j := LiveBlock(b, size, w.run.live, off);
    OffsetsDistinct(b, k);
    UsedIsInterior(b, size, k);
    MergeWritten(w.mem, b, size, k);
    FreeStep(w.run, size, p);
    InOneBlock(b, size, w.run.live, j, k, i);
  }

  /** A word of a live payload lies outside every other block. */
  lemma InOneBlock(b: seq<Block>, size: nat, live: map<nat, nat>, j: nat, k: nat, i: nat)
    requires Shape(b, size) && LiveOk(b, size, live) && j < |b| && k < |b| && j != k && b[j].st.USED?
    requires b[j].off in live && 4 * i < live[b[j].off]
    ensures !(b[k].off <= b[j].off + HEADER + i < End(b, size, k))
  {
    assert Holds(b, size, live, j);
    if j < k {
      Above(b, j, k);
      if j + 1 < k {
        Above(b, j + 1, k);
      }
    } else {
      Above(b, k, j);
      if k + 1 < j {
        Above(b, k + 1, j);
      }
    }
  }

  lemma WriteSpares(w: Words, size: nat, p: nat, n: nat, u: word, off: nat, i: nat, v: word)
    requires Good(w, size) && Proper(w, Write(p, n, u)) && !(p == off && n == i) && Keeps(w, off, i, v)
    ensures Keeps(Act(w, size, Write(p, n, u)), off, i, v)
  {
    if p != off {
      ApartFrom(w.run, size, off, i, p);
    }
  }

  lemma {:induction false} DoSpares(w: Words, size: nat, acts: seq<Action>, off: nat, i: nat, v: word)
    requires Good(w, size) && AllProper(w, size, acts) && Keeps(w, off, i, v)
    requires forall a :: a in acts ==> Spares(a, off, i)
    ensures Keeps(Do(w, size, acts), off, i, v)
    decreases |acts|
  {
    if acts != [] {
      assert acts[0] in acts;
      match acts[0] {
        case Call(Malloc(bytes)) => MallocGood(w, size, bytes); MallocSpares(w, size, bytes, off, i, v);
        case Call(Free(p)) => FreeGood(w, size, p); FreeSpares(w, size, p, off, i, v);
        case Write(p, n, u) => WriteGood(w, size, p, n, u); WriteSpares(w, size, p, n, u, off, i, v);
      }
      DoSpares(Act(w, size, acts[0]), size, acts[1..], off, i, v);
    }
  }

  /** What an owner writes at a place of its payload is there after any run that neither writes it again nor frees the
      block, whatever is allocated, freed and written elsewhere. */
  lemma WrittenStays(w: Words, size: nat, off: nat, i: nat, v: word, acts: seq<Action>)
    requires Good(w, size) && Proper(w, Write(off, i, v)) && AllProper(Act(w, size, Write(off, i, v)), size, acts)
    requires forall a :: a in acts ==> Spares(a, off, i)
    ensures var m := Do(Act(w, size, Write(off, i, v)), size, acts).mem;
            off + HEADER + i < |m| && m[off + HEADER + i] == v
  {
    var r := Act(w, size, Write(off, i, v));
    WriteGood(w, size, off, i, v);
    DoKeepsGood(r, size, acts);
    DoSpares(r, size, acts, off, i, v);
    assert ReadsBack(Do(r, size, acts), size, off + HEADER + i);
  }
}
