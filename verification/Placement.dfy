/** Where the tracking allocator puts its header and the user's bytes inside a
    block that libc returned. */
module Placement {
  import opened Memory

  const MAGIC := 0xDEADBEEF_CAFEBABE
  const HEADER_SIZE := 32

  datatype Header = Header(magic: int, size: int, alignment: int, actual: int)

  predicate WordHeader(h: Header) {
    IsWord(h.magic) && IsWord(h.size) && IsWord(h.alignment) && IsWord(h.actual)
  }

  function EncodeHeader(h: Header): (bytes: seq<Byte>)
    requires WordHeader(h)
    ensures |bytes| == HEADER_SIZE
  {
    Encode(h.magic, 8) + Encode(h.size, 8) + Encode(h.alignment, 8) + Encode(h.actual, 8)
  }

  function ReadWord(m: Mem, a: int): nat {
    Decode(Load(m, a, 8))
  }

  function ReadHeader(m: Mem, a: int): Header {
    Header(ReadWord(m, a), ReadWord(m, a + 8), ReadWord(m, a + 16), ReadWord(m, a + 24))
  }

  /** A header survives in memory for as long as its own 32 bytes do. */
  lemma HeaderFrame(m: Mem, m': Mem, a: int)
    requires SameBytes(m, m', a, a + HEADER_SIZE)
    ensures ReadHeader(m, a) == ReadHeader(m', a)
  {
    assert Load(m, a, 8) == Load(m', a, 8);
    assert Load(m, a + 8, 8) == Load(m', a + 8, 8);
    assert Load(m, a + 16, 8) == Load(m', a + 16, 8);
    assert Load(m, a + 24, 8) == Load(m', a + 24, 8);
  }

  lemma StoredHeaderReadsBack(m: Mem, a: int, h: Header)
    requires WordHeader(h)
    ensures ReadHeader(Store(m, a, EncodeHeader(h)), a) == h
  {
    var m' := Store(m, a, EncodeHeader(h));
    assert Load(m', a, 8) == Encode(h.magic, 8);
    assert Load(m', a + 8, 8) == Encode(h.size, 8);
    assert Load(m', a + 16, 8) == Encode(h.alignment, 8);
    assert Load(m', a + 24, 8) == Encode(h.actual, 8);
    WordRoundTrip(h.magic);
    WordRoundTrip(h.size);
    WordRoundTrip(h.alignment);
    WordRoundTrip(h.actual);
  }

  /** The address that `to_virtual` hands to the user for a libc block at `base`. */
  function UserAddress(base: nat, alignment: nat): nat {
    if alignment > 0 then
      AndNot(SaturatingSub(SaturatingAdd(SaturatingAdd(base, HEADER_SIZE), alignment), 1), SaturatingSub(alignment, 1))
    else
      base + HEADER_SIZE
  }

  /** The bytes that the aligned entry points ask libc for. */
  function PaddedSize(size: nat, alignment: nat): nat {
    SaturatingAdd(size, SaturatingAdd(SaturatingAdd(alignment, HEADER_SIZE), 8))
  }

  /** Whatever the alignment, power of two or not: when the requested block fits
      the address space nothing saturates, and the header and every user byte lie
      inside the block. */
  lemma PlacedInsideBlock(base: nat, size: nat, alignment: nat)
    requires base >= 16
    requires IsWord(size) && IsWord(alignment)
    requires base + PaddedSize(size, alignment) <= ADDRESS_LIMIT
    ensures PaddedSize(size, alignment) == size + alignment + HEADER_SIZE + 8
    ensures base <= UserAddress(base, alignment) - HEADER_SIZE
    ensures UserAddress(base, alignment) < base + HEADER_SIZE + (if alignment > 0 then alignment else 1)
    ensures UserAddress(base, alignment) + size <= base + PaddedSize(size, alignment)
  {
    if alignment > 0 {
      AndNotBounds(base + HEADER_SIZE + alignment - 1, alignment - 1);
    }
  }

  /** For a power of two the masked address is the least aligned one that leaves
      room for the header. */
  lemma PlacedAtLeastAligned(base: nat, alignment: nat, y: int)
    requires IsPowerOfTwo(alignment)
    requires base + HEADER_SIZE + alignment < ADDRESS_LIMIT
    ensures UserAddress(base, alignment) % alignment == 0
    ensures base + HEADER_SIZE <= y && y % alignment == 0 ==> UserAddress(base, alignment) <= y
  {
    var k: nat :| alignment == Pow2(k);
    var x := base + HEADER_SIZE + alignment - 1;
    AndNotBounds(x, alignment - 1);
    AndNotRoundsDown(x, k);
    RoundedDown(x, alignment);
    LeastMultiple(x - x % alignment, alignment, y);
  }

  lemma RoundedDown(x: int, d: int)
    requires d > 0
    ensures (x - x % d) % d == 0
  {
    assert x - x % d == d * (x / d) + 0;
    ModUnique(x - x % d, d, x / d, 0);
  }

  lemma LeastMultiple(v: int, d: int, y: int)
    requires d > 0 && v % d == 0
    ensures y % d == 0 && v - d < y ==> v <= y
  {
    var q, q' := v / d, y / d;
    if y % d == 0 && y < v {
      assert v == d * q && y == d * q';
      if q > q' {
        MultipleGap(d, q, q');
      } else if q < q' {
        MultipleGap(d, q', q);
      }
    }
  }

  /** With libc honouring the alignment, the user pointer is exactly one header
      past the base for the small alignments and for no others. */
  lemma OffsetIsHeaderSize(base: nat, alignment: nat)
    requires IsPowerOfTwo(alignment) && base % alignment == 0
    requires base + HEADER_SIZE + alignment < ADDRESS_LIMIT
    ensures UserAddress(base, alignment) == base + HEADER_SIZE <==> alignment <= HEADER_SIZE
  {
    var k: nat :| alignment == Pow2(k);
    PlacedAtLeastAligned(base, alignment, base + HEADER_SIZE);
    AndNotBounds(base + HEADER_SIZE + alignment - 1, alignment - 1);
    if k <= 5 {
      SmallPower(base, k);
    } else {
      PowerAbove(k);
      LargePower(base, alignment);
    }
  }

  lemma LargePower(base: nat, d: int)
    requires d > HEADER_SIZE && base % d == 0
    ensures (base + HEADER_SIZE) % d == HEADER_SIZE
  {
    ModUnique(base + HEADER_SIZE, d, base / d, HEADER_SIZE);
  }

  lemma SmallPower(base: nat, k: nat)
    requires k <= 5 && base % Pow2(k) == 0
    ensures Pow2(k) <= HEADER_SIZE && (base + HEADER_SIZE) % Pow2(k) == 0
  {
    PowerDivides(k);
    AddMultiple(base, Pow2(k), Pow2(5 - k));
  }

  lemma AddMultiple(x: int, d: int, j: int)
    requires d > 0 && x % d == 0
    ensures (x + d * j) % d == 0
  {
    var q := x / d;
    assert x == d * q;
    assert d * q + d * j == d * (q + j);
    ModUnique(x + d * j, d, q + j, 0);
  }

  lemma PowerDivides(k: nat)
    requires k <= 5
    ensures Pow2(k) <= HEADER_SIZE && Pow2(k) * Pow2(5 - k) == HEADER_SIZE
  {
    assert Pow2(1) == 2;
    assert Pow2(2) == 4;
    assert Pow2(3) == 8;
    assert Pow2(4) == 16;
    assert Pow2(5) == 32;
  }

  lemma {:induction false} PowerAbove(k: nat)
    requires k >= 6
    ensures Pow2(k) >= 64
  {
    if k > 6 {
      PowerAbove(k - 1);
    } else {
      assert Pow2(2) == 4 && Pow2(4) == 16;
    }
  }
}
