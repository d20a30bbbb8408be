/** The 32-bit ready bitmap and the table lookup that finds its lowest set bit. */
module PrioBitmap {
  const LEVELS: nat := 32
  const IDLE_PRIO: nat := 31

  predicate Bit(word: nat, p: nat) {
    if p == 0 then word % 2 == 1 else Bit(word / 2, p - 1)
  }

  function Pow2(p: nat): nat {
    if p == 0 then 1 else 2 * Pow2(p - 1)
  }

  /** word | (1 << p) */
  function SetBit(word: nat, p: nat): nat {
    if p == 0 then word / 2 * 2 + 1 else SetBit(word / 2, p - 1) * 2 + word % 2
  }

  /** word & ~(1 << p) */
  function ClearBit(word: nat, p: nat): nat {
    if p == 0 then word / 2 * 2 else ClearBit(word / 2, p - 1) * 2 + word % 2
  }

  lemma Halves(a: nat, b: nat)
    requires b < 2
    ensures (a * 2 + b) / 2 == a && (a * 2 + b) % 2 == b
  {
  }

  lemma {:induction false} SetBitSets(word: nat, p: nat, q: nat)
    ensures Bit(SetBit(word, p), q) <==> q == p || Bit(word, q)
    decreases p
  {
    if p == 0 {
      Halves(word / 2, 1);
    } else {
      Halves(SetBit(word / 2, p - 1), word % 2);
      if q > 0 {
        SetBitSets(word / 2, p - 1, q - 1);
      }
    }
  }

  lemma {:induction false} ClearBitClears(word: nat, p: nat, q: nat)
    ensures Bit(ClearBit(word, p), q) <==> q != p && Bit(word, q)
    decreases p
  {
    if p == 0 {
      Halves(word / 2, 0);
    } else {
      Halves(ClearBit(word / 2, p - 1), word % 2);
      if q > 0 {
        ClearBitClears(word / 2, p - 1, q - 1);
      }
    }
  }

  /** Setting or clearing a bit below `width` stays within `width` bits. */
  lemma {:induction false} StaysInWidth(word: nat, p: nat, width: nat)
    requires word < Pow2(width) && p < width
    ensures SetBit(word, p) < Pow2(width) && ClearBit(word, p) < Pow2(width)
    decreases p
  {
    if p > 0 {
      StaysInWidth(word / 2, p - 1, width - 1);
    }
  }

  lemma {:induction false} BitMeansPositive(word: nat, q: nat)
    requires Bit(word, q)
    ensures word > 0
    decreases q
  {
    if q > 0 {
      BitMeansPositive(word / 2, q - 1);
    }
  }

  ghost predicate IsLowest(word: nat, r: nat) {
    Bit(word, r) && forall q: nat :: q < r ==> !Bit(word, q)
  }

  // ----- the lookup table -----

  /** The 16 rows of __bit_bitmap agree but for their first entry. */
  const ROW: seq<nat> := [0, 0, 1, 0, 2, 0, 1, 0, 3, 0, 1, 0, 2, 0, 1, 0]
  const FIRST_COLUMN: seq<nat> := [0, 4, 5, 4, 6, 4, 5, 4, 7, 4, 5, 4, 6, 4, 5, 4]

  function Table(x: nat): nat
    requires x < 256
  {
    if x % 16 == 0 then FIRST_COLUMN[x / 16] else ROW[x % 16]
  }

  /** _mrtk_schedule_get_highest_prio: byte by byte from the low end. */
  function HighestPrio(bitmap: nat): nat
    requires bitmap < 0x1_0000_0000
  {
    if bitmap == 0 then IDLE_PRIO
    else if bitmap % 256 != 0 then Table(bitmap % 256)
    else if bitmap / 256 % 256 != 0 then Table(bitmap / 256 % 256) + 8
    else if bitmap / 65536 % 256 != 0 then Table(bitmap / 65536 % 256) + 16
    else Table(bitmap / 16777216 % 256) + 24
  }

  lemma Bit1(x: nat)
    ensures Bit(x, 1) <==> x % 4 >= 2
  {
    assert Bit(x, 1) == Bit(x / 2, 0);
  }

  lemma Bit2(x: nat)
    ensures Bit(x, 2) <==> x % 8 >= 4
  {
    Bit1(x / 2);
  }

  lemma Bit3(x: nat)
    ensures Bit(x, 3) <==> x % 16 >= 8
  {
    Bit2(x / 2);
  }

  lemma SkipNibble(x: nat, p: nat)
    ensures Bit(x, p + 4) <==> Bit(x / 16, p)
  {
    assert Bit(x, p + 4) == Bit(x / 2, p + 3);
    assert Bit(x / 2, p + 3) == Bit(x / 4, p + 2);
    assert Bit(x / 4, p + 2) == Bit(x / 8, p + 1);
  }

  lemma RowEntry(n: nat)
    requires 0 < n < 16
    ensures ROW[n] == if n % 2 == 1 then 0 else if n % 4 == 2 then 1 else if n % 8 == 4 then 2 else 3
    ensures FIRST_COLUMN[n] == 4 + ROW[n]
  {
    assert n in {1, 2, 3, 4, 5, 6, 7, 8, 9, 10, 11, 12, 13, 14, 15};
  }

  lemma LowNibble(x: nat)
    requires x % 16 != 0
    ensures IsLowest(x, ROW[x % 16])
  {
    RowEntry(x % 16);
    Residues(x);
    if x % 2 == 1 {
    } else if x % 4 == 2 {
      Bit1(x);
    } else if x % 8 == 4 {
      Bit1(x);
      Bit2(x);
    } else {
      Bit1(x);
      Bit2(x);
      Bit3(x);
    }
  }

  lemma Residues(x: nat)
    ensures x % 16 % 2 == x % 2 && x % 16 % 4 == x % 4 && x % 16 % 8 == x % 8
  {
    var q, r := x / 16, x % 16;
    Mod2(8 * q + r / 2, r % 2);
    Mod4(4 * q + r / 4, r % 4);
    Mod8(2 * q + r / 8, r % 8);
  }

  lemma Mod2(q: nat, r: nat)
    requires r < 2
    ensures (2 * q + r) % 2 == r
  {
  }

  lemma Mod4(q: nat, r: nat)
    requires r < 4
    ensures (4 * q + r) % 4 == r
  {
  }

  lemma Mod8(q: nat, r: nat)
    requires r < 8
    ensures (8 * q + r) % 8 == r
  {
  }

  lemma Nibbles(x: nat)
    ensures x % 256 % 16 == x % 16 && x % 256 / 16 == x / 16 % 16
    ensures x % 256 == 0 <==> x % 16 == 0 && x / 16 % 16 == 0
    ensures x / 16 / 16 == x / 256
  {
    var y, l := x / 16, x % 16;
    var a, h := y / 16, y % 16;
    Digits(16 * a + h, l);
    Byte(a, 16 * h + l);
    Digits(h, l);
  }

  lemma Digits(q: nat, r: nat)
    requires r < 16
    ensures (16 * q + r) / 16 == q && (16 * q + r) % 16 == r
  {
  }

  lemma Byte(q: nat, r: nat)
    requires r < 256
    ensures (256 * q + r) / 256 == q && (256 * q + r) % 256 == r
  {
  }

  lemma NextNibble(x: nat, r: nat)
    requires x % 16 == 0 && IsLowest(x / 16, r)
    ensures IsLowest(x, r + 4)
  {
    SkipNibble(x, r);
    forall q: nat | q < r + 4 ensures !Bit(x, q) {
      if q >= 4 {
        SkipNibble(x, q - 4);
      } else {
        NoLowBits(x, q);
      }
    }
  }

  lemma NoLowBits(x: nat, q: nat)
    requires x % 16 == 0 && q < 4
    ensures !Bit(x, q)
  {
    Residues(x);
    if q == 1 {
      Bit1(x);
    } else if q == 2 {
      Bit2(x);
    } else if q == 3 {
      Bit3(x);
    }
  }

  lemma LowByte(x: nat)
    requires x % 256 != 0
    ensures IsLowest(x, Table(x % 256))
  {
    Nibbles(x);
    if x % 16 != 0 {
      LowNibble(x);
    } else {
      LowNibble(x / 16);
      RowEntry(x / 16 % 16);
      NextNibble(x, ROW[x / 16 % 16]);
    }
  }

  lemma NextByte(x: nat, r: nat)
    requires x % 256 == 0 && IsLowest(x / 256, r)
    ensures IsLowest(x, r + 8)
  {
    Nibbles(x);
    NextNibble(x / 16, r);
    NextNibble(x, r + 4);
  }

  /** The table lookup names a set bit, and no lower bit is set: the most urgent ready priority. */
  lemma HighestPrioIsLowestBit(bitmap: nat)
    requires 0 < bitmap < 0x1_0000_0000
    ensures Bit(bitmap, HighestPrio(bitmap))
    ensures forall q: nat :: q < HighestPrio(bitmap) ==> !Bit(bitmap, q)
  {
    if bitmap % 256 != 0 {
      LowByte(bitmap);
    } else if bitmap / 256 % 256 != 0 {
      LowByte(bitmap / 256);
      NextByte(bitmap, Table(bitmap / 256 % 256));
    } else if bitmap / 65536 % 256 != 0 {
      LowByte(bitmap / 65536);
      NextByte(bitmap / 256, Table(bitmap / 65536 % 256));
      NextByte(bitmap, Table(bitmap / 65536 % 256) + 8);
    } else {
      LowByte(bitmap / 16777216);
      NextByte(bitmap / 65536, Table(bitmap / 16777216 % 256));
      NextByte(bitmap / 256, Table(bitmap / 16777216 % 256) + 8);
      NextByte(bitmap, Table(bitmap / 16777216 % 256) + 16);
    }
  }
}
