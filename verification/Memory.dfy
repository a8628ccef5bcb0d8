/** Byte-addressed memory, 64-bit words stored little-endian, and the bit
    arithmetic that the tracking allocator applies to addresses. */
module Memory {

  type Byte = b: int | 0 <= b < 256

  /** Bytes never written read as 0; libc may hand out a block with any contents. */
  type Mem = map<int, Byte>

  const ADDRESS_LIMIT := 0x1_0000_0000_0000_0000

  predicate IsWord(x: int) {
    0 <= x < ADDRESS_LIMIT
  }

  function At(m: Mem, a: int): Byte {
    if a in m then m[a] else 0
  }

  ghost predicate SameBytes(m: Mem, m': Mem, lo: int, hi: int) {
    forall x :: lo <= x < hi ==> At(m, x) == At(m', x)
  }

  function Store(m: Mem, a: int, bytes: seq<Byte>): (m': Mem)
    ensures forall x :: At(m', x) == if a <= x < a + |bytes| then bytes[x - a] else At(m, x)
    decreases |bytes|
  {
    if bytes == [] then m else Store(m[a := bytes[0]], a + 1, bytes[1..])
  }

  function Load(m: Mem, a: int, n: nat): (bytes: seq<Byte>)
    ensures |bytes| == n
    ensures forall i :: 0 <= i < n ==> bytes[i] == At(m, a + i)
  {
    seq<Byte>(n, i => At(m, a + i))
  }

  // ---- little-endian words ----

  function Encode(x: nat, n: nat): (bytes: seq<Byte>)
    ensures |bytes| == n
  {
    if n == 0 then [] else [x % 256] + Encode(x / 256, n - 1)
  }

  function Decode(bytes: seq<Byte>): nat {
    if bytes == [] then 0 else bytes[0] + 256 * Decode(bytes[1..])
  }

  function Power256(n: nat): nat {
    if n == 0 then 1 else 256 * Power256(n - 1)
  }

  lemma {:induction false} DecodeEncode(x: nat, n: nat)
    requires x < Power256(n)
    ensures Decode(Encode(x, n)) == x
  {
    if n > 0 {
      DecodeEncode(x / 256, n - 1);
      assert Encode(x, n)[1..] == Encode(x / 256, n - 1);
    }
  }

  lemma WordRoundTrip(x: int)
    requires IsWord(x)
    ensures Decode(Encode(x, 8)) == x
  {
    assert Power256(8) == 0x1_0000_0000_0000_0000 by {
      assert Power256(2) == 0x1_0000;
      assert Power256(4) == 0x1_0000_0000;
      assert Power256(6) == 0x1_0000_0000_0000;
    }
    DecodeEncode(x, 8);
  }

  /** The other way round: any bytes are those of the number they decode to. */
  lemma {:induction false} EncodeDecode(bytes: seq<Byte>)
    ensures Encode(Decode(bytes), |bytes|) == bytes
  {
    if bytes != [] {
      EncodeDecode(bytes[1..]);
      assert Decode(bytes) / 256 == Decode(bytes[1..]) && Decode(bytes) % 256 == bytes[0];
    }
  }

  // ---- saturating arithmetic and masking on usize ----

  function SaturatingAdd(x: nat, y: nat): nat {
    if x + y < ADDRESS_LIMIT then x + y else ADDRESS_LIMIT - 1
  }

  function SaturatingSub(x: nat, y: nat): nat {
    if x >= y then x - y else 0
  }

  /** `x & !mask`, bit by bit. */
  function AndNot(x: nat, mask: nat): nat {
    if x == 0 then 0
    else 2 * AndNot(x / 2, mask / 2) + (if x % 2 == 1 && mask % 2 == 0 then 1 else 0)
  }

  function Pow2(k: nat): (p: nat)
    ensures p >= 1
  {
    if k == 0 then 1 else 2 * Pow2(k - 1)
  }

  ghost predicate IsPowerOfTwo(a: int) {
    exists k: nat :: a == Pow2(k)
  }

  /** A bit stays exactly where the mask has none. */
  lemma {:induction false} AndNotBits(x: nat, mask: nat, i: nat)
    ensures (AndNot(x, mask) / Pow2(i)) % 2 == 1 <==> (x / Pow2(i)) % 2 == 1 && (mask / Pow2(i)) % 2 == 0
    decreases i
  {
    if i == 0 {
      assert AndNot(x, mask) % 2 == 1 <==> x % 2 == 1 && mask % 2 == 0;
    } else {
      var p := Pow2(i - 1);
      HalvingDiv(x, p);
      HalvingDiv(mask, p);
      HalvingDiv(AndNot(x, mask), p);
      assert AndNot(x, mask) / 2 == AndNot(x / 2, mask / 2);
      AndNotBits(x / 2, mask / 2, i - 1);
    }
  }

  lemma HalvingDiv(x: nat, p: int)
    requires p >= 1
    ensures x / (2 * p) == (x / 2) / p
  {
    HalvingMod(x, p);
    var q, q' := x / (2 * p), (x / 2) / p;
    assert x == (2 * p) * q + x % (2 * p) && x / 2 == p * q' + (x / 2) % p;
    assert (2 * p) * q == (2 * p) * q';
    if q > q' {
      MultipleGap(2 * p, q, q');
    } else if q < q' {
      MultipleGap(2 * p, q', q);
    }
  }

  /** Sums stop at the largest 64-bit number and differences at zero. */
  lemma SaturationStops(x: nat, y: nat)
    ensures SaturatingAdd(x, y) == if x + y > 0xFFFF_FFFF_FFFF_FFFF then 0xFFFF_FFFF_FFFF_FFFF else x + y
    ensures SaturatingSub(x, y) == if x < y then 0 else x - y
  {
  }

  /** Clearing bits never removes more than the mask itself, whatever the mask. */
  lemma {:induction false} AndNotBounds(x: nat, mask: nat)
    ensures x - mask <= AndNot(x, mask) <= x
  {
    if x > 0 {
      AndNotBounds(x / 2, mask / 2);
    }
  }

  /** For a mask of k ones, clearing rounds down to a multiple of 2^k. */
  lemma {:induction false} AndNotRoundsDown(x: nat, k: nat)
    ensures AndNot(x, Pow2(k) - 1) == x - x % Pow2(k)
    decreases k
  {
    if k == 0 {
      AndNotBounds(x, 0);
    } else {
      var p := Pow2(k - 1);
      AndNotOddMask(x, p);
      AndNotRoundsDown(x / 2, k - 1);
      HalvingMod(x, p);
    }
  }

  lemma AndNotOddMask(x: nat, p: nat)
    requires p >= 1
    ensures AndNot(x, 2 * p - 1) == 2 * AndNot(x / 2, p - 1)
  {
    assert (2 * p - 1) % 2 == 1 && (2 * p - 1) / 2 == p - 1;
  }

  lemma HalvingMod(x: nat, p: int)
    requires p >= 1
    ensures x % (2 * p) == 2 * ((x / 2) % p) + x % 2
  {
    var q, r := (x / 2) / p, (x / 2) % p;
    assert x == (2 * p) * q + (2 * r + x % 2);
    ModUnique(x, 2 * p, q, 2 * r + x % 2);
  }

  lemma ModUnique(x: int, d: int, q: int, r: int)
    requires d > 0 && 0 <= r < d && x == d * q + r
    ensures x % d == r
  {
    var q', r' := x / d, x % d;
    assert x == d * q' + r';
    if q > q' {
      MultipleGap(d, q, q');
    } else if q < q' {
      MultipleGap(d, q', q);
    }
  }

  lemma MultipleGap(d: int, q: int, q': int)
    requires d > 0 && q > q'
    ensures d * q >= d * q' + d
    decreases q - q'
  {
    if q > q' + 1 {
      MultipleGap(d, q - 1, q');
    }
    assert d * q == d * (q - 1) + d;
  }
}
