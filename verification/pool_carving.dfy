/** Carving a region into pool blocks, in byte addresses and 32-bit arithmetic. A block is a header word and data. */
module PoolCarving {
  import opened Base

  const U32: nat := 0x1_0000_0000
  const HEADER: nat := 4

  function AlignUp(x: nat): nat {
    (x + 3) % U32 / 4 * 4
  }

  /** Bytes skipped before the first header. */
  function Gap(start: nat): nat
    requires start + 3 < U32
  {
    AlignUp(start) - start
  }

  /** total_block_count; None where the divisor wraps to zero. */
  function BlockCount(start: nat, size: nat, blockSize: nat): Option<nat>
    requires start + 3 < U32
  {
    var each := (AlignUp(blockSize) + HEADER) % U32;
    if each == 0 then None else Some((size - Gap(start)) % U32 / each)
  }

  /** Where the data of block i begins. */
  function DataAt(start: nat, blockSize: nat, i: nat): nat {
    AlignUp(start) + HEADER + i * (AlignUp(blockSize) + HEADER)
  }

  /** Header and data lie in the region. */
  predicate InRegion(start: nat, size: nat, blockSize: nat, i: nat) {
    start <= DataAt(start, blockSize, i) - HEADER && DataAt(start, blockSize, i) + AlignUp(blockSize) <= start + size
  }

  lemma Aligned(x: nat)
    requires x + 3 < U32
    ensures x <= AlignUp(x) <= x + 3 && AlignUp(x) % 4 == 0
  {
  }

  lemma AlreadyAligned(x: nat)
    requires x % 4 == 0 && x + 3 < U32
    ensures AlignUp(x) == x
  {
  }

  lemma MulMono(i: nat, j: nat, w: nat)
    requires i <= j
    ensures i * w <= j * w
  {
    assert j * w == i * w + (j - i) * w;
  }

  lemma MulApart(i: nat, j: nat, w: nat)
    requires i < j
    ensures i * w + w <= j * w
  {
    MulMono(i + 1, j, w);
    assert (i + 1) * w == i * w + w;
  }

  lemma StepsAligned(a: nat, i: nat, w: nat)
    requires a % 4 == 0 && w % 4 == 0
    ensures (a + HEADER + i * w) % 4 == 0
  {
    var k, c := w / 4, a / 4;
    assert i * w == 4 * (i * k);
    assert a + HEADER + i * w == 4 * (c + 1 + i * k);
  }

  /** No block reaches into the header of a later one. */
  lemma BlocksApart(start: nat, blockSize: nat, i: nat, j: nat)
    requires i < j
    ensures DataAt(start, blockSize, i) + AlignUp(blockSize) <= DataAt(start, blockSize, j) - HEADER
  {
    MulApart(i, j, AlignUp(blockSize) + HEADER);
  }

  /** Data is aligned and holds what was asked for. */
  lemma BlocksAligned(start: nat, blockSize: nat, i: nat)
    requires start + 3 < U32 && blockSize + 3 < U32
    ensures DataAt(start, blockSize, i) % 4 == 0 && blockSize <= AlignUp(blockSize)
  {
    Aligned(start);
    Aligned(blockSize);
    StepsAligned(AlignUp(start), i, AlignUp(blockSize) + HEADER);
  }

  /** All blocks lie in the region exactly when the region reaches its own first aligned address:
      below that, the remaining size wraps to almost 2^32. */
  lemma CarvedInside(start: nat, size: nat, blockSize: nat)
    requires start + 3 < U32 && size < U32 && blockSize + 7 < U32
    ensures var n := BlockCount(start, size, blockSize);
            && n.Some?
            && ((forall i {:trigger InRegion(start, size, blockSize, i)} :: 0 <= i < n.value ==>
                InRegion(start, size, blockSize, i))
                <==> Gap(start) <= size)
  {
    var w, g := AlignUp(blockSize) + HEADER, Gap(start);
    Aligned(start);
    Aligned(blockSize);
    Rounded(blockSize);
    var n := BlockCount(start, size, blockSize).value;
    if g <= size {
      CountFits(size - g, w);
      forall i | 0 <= i < n ensures InRegion(start, size, blockSize, i) {
        MulApart(i, n, w);
      }
    } else {
      CountWraps(size, g, w);
      assert DataAt(start, blockSize, 0) == AlignUp(start) + HEADER + 0 * w;
      assert !InRegion(start, size, blockSize, 0);
    }
  }

  lemma Rounded(x: nat)
    requires x + 7 < U32
    ensures AlignUp(x) <= U32 - 8
  {
  }

  lemma CountFits(room: nat, w: nat)
    requires w > 0 && room < U32
    ensures room % U32 / w * w <= room
  {
  }

  /** The space left wraps to almost 2^32. */
  lemma CountWraps(size: nat, gap: nat, w: nat)
    requires size < gap <= 3 && 0 < w <= U32 - 4
    ensures (size - gap) % U32 / w >= 1
  {
    assert (size - gap) % U32 == size - gap + U32;
    DivAtLeastOne(size - gap + U32, w);
  }

  lemma DivAtLeastOne(a: nat, b: nat)
    requires 0 < b <= a
    ensures a / b >= 1
  {
  }

  /** mrtk_mp_create: the size it asks the heap for, once the block size is rounded. */
  function CreateSize(a: nat, count: nat): nat {
    (a + HEADER) * count % U32
  }

  lemma DivUnique(a: nat, w: nat, n: nat)
    requires w > 0 && n * w <= a < n * w + w
    ensures a / w == n
  {
    var q := a / w;
    assert q * w <= a < q * w + w;
    if q < n {
      MulMono(q + 1, n, w);
    } else if n < q {
      MulMono(n + 1, q, w);
    }
  }

  lemma WrappedCount(total: nat, w: nat, count: nat)
    requires w > 0 && total == count * w
    ensures total % U32 / w == count <==> total < U32
  {
    if total < U32 {
      DivUnique(total, w, count);
    } else if total % U32 / w == count {
      QuotientBelow(total % U32, w);
    }
  }

  lemma QuotientBelow(a: nat, w: nat)
    requires w > 0
    ensures a / w * w <= a
  {
  }

  lemma AlignedCount(start: nat, size: nat, a: nat)
    requires start % 4 == 0 && start + 3 < U32 && a % 4 == 0 && a <= U32 - 8 && size < U32
    ensures BlockCount(start, size, a) == Some(size / (a + HEADER))
  {
    AlreadyAligned(start);
    AlreadyAligned(a);
    Small(a + HEADER);
    Small(size);
  }

  lemma Small(x: nat)
    requires x < U32
    ensures x % U32 == x
  {
  }

  /** A pool created for blocks of rounded size `a` has the requested number of them exactly when their sizes do not
      overflow a word. */
  lemma CreatedCount(start: nat, a: nat, count: nat)
    requires start % 4 == 0 && start + 3 < U32 && a % 4 == 0 && a <= U32 - 8
    ensures BlockCount(start, CreateSize(a, count), a) == Some(count) <==> (a + HEADER) * count < U32
  {
    var size, w := CreateSize(a, count), a + HEADER;
    AlignedCount(start, size, a);
    CountOf(BlockCount(start, size, a), size, w, count);
  }

  lemma CountOf(n: Option<nat>, size: nat, w: nat, count: nat)
    requires w > 0 && size == w * count % U32 && n == Some(size / w)
    ensures n == Some(count) <==> w * count < U32
  {
    Commute(w, count);
    WrappedCount(w * count, w, count);
  }

  lemma Commute(a: nat, b: nat)
    ensures a * b == b * a
  {
  }
}
