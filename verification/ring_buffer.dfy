/** The byte ring: a bounded sequence of capacity size - 1, bulk transfers in one or two chunks. */
module RingBuffer {
  import opened Base

  type byte = x: int | 0 <= x < 256

  const U16: nat := 0x1_0000

  // ----- the bounded sequence it stands for -----

  function Min(a: nat, b: nat): nat {
    if a < b then a else b
  }

  function PutByte(c: seq<byte>, cap: nat, b: byte): seq<byte> {
    if |c| == cap then c else c + [b]
  }

  /** What fits, at the end. */
  function Write(c: seq<byte>, cap: nat, bs: seq<byte>): seq<byte>
    requires |c| <= cap
  {
    c + bs[..Min(|bs|, cap - |c|)]
  }

  /** What is there, from the front, and what remains. */
  function Read(c: seq<byte>, n: nat): (seq<byte>, seq<byte>) {
    (c[..Min(n, |c|)], c[Min(n, |c|)..])
  }

  function PutAll(c: seq<byte>, cap: nat, bs: seq<byte>): seq<byte>
    decreases |bs|
  {
    if bs == [] then c else PutAll(PutByte(c, cap, bs[0]), cap, bs[1..])
  }

  function GetAll(c: seq<byte>, n: nat): (seq<byte>, seq<byte>) {
    if n == 0 || c == [] then ([], c) else var (got, rest) := GetAll(c[1..], n - 1); ([c[0]] + got, rest)
  }

  /** A bulk write leaves what byte-wise puts leave. */
  lemma {:induction false} WriteIsPutAll(c: seq<byte>, cap: nat, bs: seq<byte>)
    requires |c| <= cap
    ensures Write(c, cap, bs) == PutAll(c, cap, bs)
    decreases |bs|
  {
    if bs != [] {
      var d := PutByte(c, cap, bs[0]);
      WriteIsPutAll(d, cap, bs[1..]);
      if |c| < cap {
        assert bs[..Min(|bs|, cap - |c|)] == [bs[0]] + bs[1..][..Min(|bs| - 1, cap - |d|)];
      }
    }
  }

  /** A bulk read returns and leaves what byte-wise gets return and leave. */
  lemma {:induction false} ReadIsGetAll(c: seq<byte>, n: nat)
    ensures Read(c, n) == GetAll(c, n)
    decreases n
  {
    if n > 0 && c != [] {
      ReadIsGetAll(c[1..], n - 1);
      assert c[..Min(n, |c|)] == [c[0]] + c[1..][..Min(n - 1, |c| - 1)];
      assert c[Min(n, |c|)..] == c[1..][Min(n - 1, |c| - 1)..];
    }
  }

  /** Splitting a transfer changes nothing. */
  lemma WriteInTwo(c: seq<byte>, cap: nat, a: seq<byte>, b: seq<byte>)
    requires |c| <= cap
    ensures Write(c, cap, a + b) == Write(Write(c, cap, a), cap, b)
  {
    var k := Min(|a|, cap - |c|);
    var m := Min(|a + b|, cap - |c|);
    assert (a + b)[..m] == a[..k] + b[..m - k];
  }

  lemma ReadInTwo(c: seq<byte>, m: nat, n: nat)
    ensures var (x, rest) := Read(c, m);
            var (y, left) := Read(rest, n);
            Read(c, m + n) == (x + y, left)
  {
    var k, l := Min(m, |c|), Min(m + n, |c|);
    assert c[..l] == c[..k] + c[k..][..l - k];
    assert c[l..] == c[k..][l - k..];
  }

  // ----- the ring -----

  /** Position k places behind the read index. */
  function Slot(size: nat, r: nat, k: nat): nat {
    if r + k < size then r + k else r + k - size
  }

  /** Position i is one of the n that follow r. */
  predicate InSpan(size: nat, r: nat, n: nat, i: nat) {
    r <= i < r + n || r <= i + size < r + n
  }

  function Used(size: nat, r: nat, w: nat): nat
    requires r < size
  {
    if w >= r then w - r else size - r + w
  }

  function Contents(buf: seq<byte>, r: nat, w: nat): (c: seq<byte>)
    requires r < |buf| && w < |buf|
    ensures |c| == Used(|buf|, r, w)
    ensures forall k :: 0 <= k < |c| ==> c[k] == buf[Slot(|buf|, r, k)]
  {
    if w >= r then buf[r..w] else buf[r..] + buf[..w]
  }

  /** An index moved on by n, modulo the size. */
  method Bump(i: nat, n: nat, size: nat) returns (j: nat)
    requires i < size && i + n <= size
    ensures j == Slot(size, i, n) < size
  {
    j := (i + n) % size;
  }

  /** Writing n bytes behind the contents appends them. */
  lemma Appended(buf: seq<byte>, after: seq<byte>, r: nat, w: nat, w': nat, bs: seq<byte>)
    requires r < |buf| && w < |buf| && |after| == |buf| && Used(|buf|, r, w) + |bs| < |buf|
    requires w' == Slot(|buf|, w, |bs|)
    requires forall k :: 0 <= k < |bs| ==> after[Slot(|buf|, w, k)] == bs[k]
    requires forall k :: 0 <= k < Used(|buf|, r, w) ==> after[Slot(|buf|, r, k)] == buf[Slot(|buf|, r, k)]
    ensures w' < |buf| && Contents(after, r, w') == Contents(buf, r, w) + bs
  {
    var c, d := Contents(buf, r, w), Contents(after, r, w');
    assert |d| == |c| + |bs|;
    forall k | 0 <= k < |d| ensures d[k] == (c + bs)[k] {
      if k >= |c| {
        assert Slot(|buf|, r, k) == Slot(|buf|, w, k - |c|);
      }
    }
  }

  /** Moving the read index drops bytes from the front. */
  lemma Dropped(buf: seq<byte>, r: nat, w: nat, n: nat)
    requires r < |buf| && w < |buf| && n <= Used(|buf|, r, w)
    ensures Slot(|buf|, r, n) < |buf| && Contents(buf, Slot(|buf|, r, n), w) == Contents(buf, r, w)[n..]
  {
  }

  /** What mrtk_rb_read and mrtk_rb_write transfer of `size` bytes when `avail` are there: `avail` passes
      through a 16-bit local. */
  function Moved(size: nat, avail: nat): nat {
    if avail % U16 == 0 then 0 else Min(size, avail % U16)
  }

  /** The 16-bit locals do no harm exactly in rings of at most 65536 bytes. */
  lemma MovedIsEnough(length: nat)
    requires length > 0
    ensures (forall size: nat, avail: nat :: avail <= length - 1 ==> Moved(size, avail) == Min(size, avail))
            <==> length <= U16
  {
    if length > U16 {
      assert Moved(1, U16) == 0 && Min(1, U16) == 1;
    }
  }

  class Ring {
    const buffer: array<byte>
    var readIdx: nat
    var writeIdx: nat

    ghost predicate Valid()
      reads this
    {
      0 < buffer.Length < 0x1_0000_0000 - U16 && readIdx < buffer.Length && writeIdx < buffer.Length
    }

    ghost function View(): seq<byte>
      requires Valid()
      reads this, buffer
    {
      Contents(buffer[..], readIdx, writeIdx)
    }

    /** mrtk_rb_init */
    constructor (pool: array<byte>)
      requires 0 < pool.Length < 0x1_0000_0000 - U16
      ensures Valid() && buffer == pool && View() == []
    {
      buffer, readIdx, writeIdx := pool, 0, 0;
    }

    /** mrtk_rb_get_len */
    function GetLen(): nat
      requires Valid()
      reads this
    {
      if writeIdx == readIdx then 0
      else if writeIdx > readIdx then writeIdx - readIdx
      else buffer.Length - readIdx + writeIdx
    }

    /** mrtk_rb_get_free */
    function GetFree(): (n: int)
      requires Valid()
      reads this, buffer
      ensures n == buffer.Length - 1 - |View()| >= 0
    {
      buffer.Length - 1 - GetLen()
    }

    method Putc(ch: byte) returns (code: Code)
      requires Valid()
      modifies this`writeIdx, buffer
      ensures Valid() && View() == PutByte(old(View()), buffer.Length - 1, ch)
      ensures code == if |old(View())| == buffer.Length - 1 then EFULL else EOK
    {
      var next := Bump(writeIdx, 1, buffer.Length);
      if next == readIdx {
        return EFULL;
      }
      ghost var was := buffer[..];
      buffer[writeIdx] := ch;
      Appended(was, buffer[..], readIdx, writeIdx, next, [ch]);
      writeIdx := next;
      code := EOK;
    }

    method Getc() returns (code: Code, ch: byte)
      requires Valid()
      modifies this`readIdx
      ensures Valid()
      ensures if old(View()) == [] then code == EEMPTY && View() == []
              else code == EOK && [ch] + View() == old(View())
    {
      if writeIdx == readIdx {
        return EEMPTY, 0;
      }
      ch := buffer[readIdx];
      Dropped(buffer[..], readIdx, writeIdx, 1);
      readIdx := Bump(readIdx, 1, buffer.Length);
      code := EOK;
    }

    /** One chunk of a write: bytes bs[from..to] to the places that follow `at`. */
    method CopyIn(at: nat, bs: seq<byte>, from: nat, to: nat)
      requires from <= to <= |bs| && at + (to - from) <= buffer.Length
      modifies buffer
      ensures forall i :: 0 <= i < buffer.Length ==>
                buffer[i] == if at <= i < at + (to - from) then bs[from + (i - at)] else old(buffer[i])
    {
      var i := 0;
      while i < to - from
        invariant i <= to - from
        invariant forall j :: 0 <= j < buffer.Length ==>
                    buffer[j] == if at <= j < at + i then bs[from + (j - at)] else old(buffer[j])
      {
        buffer[at + i] := bs[from + i];
        i := i + 1;
      }
    }

    method WriteBulk(bs: seq<byte>) returns (n: nat)
      requires Valid()
      modifies this`writeIdx, buffer
      ensures Valid() && n == Moved(|bs|, buffer.Length - 1 - |old(View())|)
      ensures buffer.Length <= U16 ==> View() == Write(old(View()), buffer.Length - 1, bs)
    {
      var freeLen := GetFree() % U16;
      if freeLen == 0 {
        return 0;
      }
      n := if |bs| < freeLen then |bs| else freeLen;
      ghost var was, w := buffer[..], writeIdx;
      writeIdx := PutChunks(bs[..n]);
      if buffer.Length <= U16 {
        Appended(was, buffer[..], readIdx, w, writeIdx, bs[..n]);
      }
    }

    /** The bytes go behind the write index, in one chunk or in two; the index that follows them is returned. */
    method PutChunks(bs: seq<byte>) returns (next: nat)
      requires Valid() && |bs| < buffer.Length && |bs| < U16
      modifies buffer
      ensures next < buffer.Length
      ensures buffer.Length <= U16 ==> next == Slot(buffer.Length, writeIdx, |bs|)
      ensures buffer.Length <= U16 ==> forall k :: 0 <= k < |bs| ==> buffer[Slot(buffer.Length, writeIdx, k)] == bs[k]
      ensures buffer.Length <= U16 ==>
                forall i :: 0 <= i < buffer.Length && !InSpan(buffer.Length, writeIdx, |bs|, i) ==>
                    buffer[i] == old(buffer[i])
    {
      var firstChunk := (buffer.Length - writeIdx) % U16;
      if |bs| <= firstChunk {
        CopyIn(writeIdx, bs, 0, |bs|);
        next := Bump(writeIdx, |bs|, buffer.Length);
      } else {
        CopyIn(writeIdx, bs, 0, firstChunk);
        CopyIn(0, bs, firstChunk, |bs|);
        next := |bs| - firstChunk;
      }
    }

    /** One chunk of a read. */
    method CopyOut(at: nat, len: nat) returns (bs: seq<byte>)
      requires at + len <= buffer.Length
      ensures bs == buffer[at..at + len]
    {
      bs := [];
      while |bs| < len
        invariant |bs| <= len && bs == buffer[at..at + |bs|]
      {
        bs := bs + [buffer[at + |bs|]];
      }
    }

    method ReadBulk(size: nat) returns (bs: seq<byte>)
      requires Valid()
      modifies this`readIdx
      ensures Valid() && |bs| == Moved(size, |old(View())|)
      ensures buffer.Length <= U16 ==> (bs, View()) == Read(old(View()), size)
    {
      var dataLen := GetLen() % U16;
      if dataLen == 0 {
        return [];
      }
      var n := if size < dataLen then size else dataLen;
      ghost var c := View();
      Dropped(buffer[..], readIdx, writeIdx, n);
      bs, readIdx := GetChunks(n);
      if buffer.Length <= U16 {
        assert bs == c[..n];
      }
    }

    method GetChunks(n: nat) returns (bs: seq<byte>, next: nat)
      requires Valid() && n < buffer.Length && n < U16
      ensures |bs| == n && next < buffer.Length
      ensures buffer.Length <= U16 ==> next == Slot(buffer.Length, readIdx, n)
      ensures buffer.Length <= U16 ==> forall k :: 0 <= k < n ==> bs[k] == buffer[Slot(buffer.Length, readIdx, k)]
    {
      var firstChunk := (buffer.Length - readIdx) % U16;
      if n <= firstChunk {
        bs := CopyOut(readIdx, n);
        next := Bump(readIdx, n, buffer.Length);
      } else {
        bs := CopyOut(readIdx, firstChunk);
        var more := CopyOut(0, n - firstChunk);
        bs := bs + more;
        next := n - firstChunk;
      }
    }
  }
}
