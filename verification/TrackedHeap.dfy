/** The memory shared by libc, the tracking allocator and the program, the
    contracts that libc keeps, and the invariant that every call preserves. */
module TrackedHeap {
  import opened Memory
  import opened Placement
  import opened Numbers
  import opened Sums

  /** One tracked allocation: the block libc returned and what the user asked for. */
  datatype Block = Block(base: nat, cap: nat, size: nat, alignment: nat)

  /** `heap` holds libc's own live blocks (base to byte count), tracked or not;
      `live` holds the tracked ones, keyed by the pointer the user was given. */
  datatype World = World(mem: Mem, heap: map<int, int>, live: map<int, Block>)

  function HeaderFor(b: Block): Header {
    Header(MAGIC, b.size, b.alignment, if b.alignment > 0 then b.base else 0)
  }

  /** Only an aligned block's header holds libc's pointer. */
  lemma HeaderSays(b: Block)
    ensures HeaderFor(b) == Header(0xDEADBEEF_CAFEBABE, b.size, b.alignment, if b.alignment == 0 then 0 else b.base)
  {
  }

  // ---- reading a user pointer back ----

  predicate IsOurs(m: Mem, p: int) {
    p != 0 && ReadHeader(m, p - HEADER_SIZE).magic == MAGIC
  }

  /** The magic number in memory, least significant byte first. */
  const MAGIC_BYTES: seq<Byte> := [0xBE, 0xBA, 0xFE, 0xCA, 0xEF, 0xBE, 0xAD, 0xDE]

  /** A pointer is taken for ours exactly when those bytes lie 32 before it. */
  lemma IsOursIff(m: Mem, p: int)
    ensures IsOurs(m, p) <==> p != 0 && Load(m, p - 32, 8) == MAGIC_BYTES
  {
    var word := Load(m, p - 32, 8);
    MagicEncoded();
    EncodeDecode(word);
    WordRoundTrip(MAGIC);
  }

  lemma MagicEncoded()
    ensures Encode(MAGIC, 8) == MAGIC_BYTES
  {
    assert Encode(0xDEAD, 2) == [0xAD, 0xDE];
    assert Encode(0xDEADBEEF, 4) == [0xEF, 0xBE, 0xAD, 0xDE];
    assert Encode(0xDEADBEEF_CAFE, 6) == [0xFE, 0xCA, 0xEF, 0xBE, 0xAD, 0xDE];
  }

  /** Size, alignment and the pointer that goes back to libc. */
  function Extract(m: Mem, p: int): (int, int, int) {
    var h := ReadHeader(m, p - HEADER_SIZE);
    (h.size, h.alignment, if h.alignment > 0 then h.actual else p - HEADER_SIZE)
  }

  // ---- the invariant ----

  predicate Apart(a: int, n: int, b: int, k: int) {
    a + n <= b || b + k <= a
  }

  predicate Covers(a: int, n: int, x: int) {
    a <= x < a + n
  }

  /** Blocks are apart exactly when they have no address in common. */
  lemma ApartIff(a: int, n: int, b: int, k: int)
    requires n > 0 && k > 0
    ensures Apart(a, n, b, k) <==> forall x :: Covers(a, n, x) ==> !Covers(b, k, x)
  {
    if !Apart(a, n, b, k) {
      var x := if a <= b then b else a;
      assert Covers(a, n, x) && Covers(b, k, x);
    }
  }

  ghost predicate HeapOk(heap: map<int, int>) {
    && (forall a :: a in heap ==> 16 <= a && 0 < heap[a] && a + heap[a] <= ADDRESS_LIMIT)
    && (forall a, b :: a in heap && b in heap && a != b ==> Apart(a, heap[a], b, heap[b]))
  }

  /** Where the user pointer lies, whatever memory holds. */
  ghost predicate WellPlaced(p: int, b: Block) {
    && 16 <= b.base && IsWord(b.size) && IsWord(b.alignment)
    && p == UserAddress(b.base, b.alignment)
    && b.base + HEADER_SIZE <= p && p + b.size <= b.base + b.cap
    && (b.alignment > 0 ==> b.cap == PaddedSize(b.size, b.alignment))
    && (IsPowerOfTwo(b.alignment) ==> b.base % b.alignment == 0 && p % b.alignment == 0)
  }

  ghost predicate BlockOk(w: World, p: int, b: Block) {
    && WellPlaced(p, b)
    && b.base in w.heap && w.heap[b.base] == b.cap
    && ReadHeader(w.mem, p - HEADER_SIZE) == HeaderFor(b)
  }

  ghost predicate Valid(w: World) {
    && HeapOk(w.heap)
    && (forall p {:trigger BlockOk(w, p, w.live[p])} :: p in w.live ==> BlockOk(w, p, w.live[p]))
    && (forall p, q :: p in w.live && q in w.live && p != q ==> w.live[p].base != w.live[q].base)
  }

  /** Each live tracked block extracts to its own size, alignment and libc pointer. */
  lemma LiveBlocksExtract(w: World, p: int)
    requires Valid(w) && p in w.live
    ensures IsOurs(w.mem, p)
    ensures Extract(w.mem, p) == (w.live[p].size, w.live[p].alignment, w.live[p].base)
  {
    assert BlockOk(w, p, w.live[p]);
  }

  lemma NullIsNotLive(w: World)
    requires Valid(w)
    ensures 0 !in w.live
  {
    assert 0 in w.live ==> BlockOk(w, 0, w.live[0]);
  }

  function UserBytes(m: Mem, p: int, b: Block): seq<Byte> {
    if b.size >= 0 then Load(m, p, b.size) else []
  }

  ghost predicate BlockKept(w: World, w': World, q: int)
    requires q in w.live
  {
    q in w'.live && w'.live[q] == w.live[q] && UserBytes(w'.mem, q, w.live[q]) == UserBytes(w.mem, q, w.live[q])
  }

  /** Every tracked block but the one at `p` is still there with the same bytes. */
  ghost predicate OthersKept(w: World, w': World, p: int) {
    forall q {:trigger BlockKept(w, w', q)} :: q in w.live && q != p ==> BlockKept(w, w', q)
  }

  // ---- what libc promises ----

  datatype Reply = Null | Fresh(base: nat, mem: Mem)

  ghost predicate BlocksKept(heap: map<int, int>, m: Mem, m': Mem) {
    forall a :: a in heap ==> SameBytes(m, m', a, a + heap[a])
  }

  /** A block of `n` bytes at `base` overlapping no live block (ISO/IEC 9899:2011,
      section 7.22.3), aligned for any object, everything live left alone. */
  ghost predicate FitsBeside(heap: map<int, int>, n: int, base: int) {
    && 16 <= base && base % 16 == 0 && 0 < n && base + n <= ADDRESS_LIMIT
    && forall a :: a in heap ==> Apart(base, n, a, heap[a])
  }

  ghost predicate LegalMalloc(m: Mem, heap: map<int, int>, n: int, r: Reply) {
    r.Fresh? ==> FitsBeside(heap, n, r.base) && BlocksKept(heap, m, r.mem)
  }

  ghost predicate LegalMemalign(m: Mem, heap: map<int, int>, alignment: int, n: int, r: Reply) {
    && LegalMalloc(m, heap, n, r)
    && (r.Fresh? && IsPowerOfTwo(alignment) ==> r.base % alignment == 0)
  }

  ghost predicate LegalCalloc(m: Mem, heap: map<int, int>, n: int, r: Reply) {
    && LegalMalloc(m, heap, n, r)
    && (r.Fresh? ==> forall x :: r.base <= x < r.base + n ==> At(r.mem, x) == 0)
  }

  /** On success the old block is gone and its leading bytes moved; on failure
      nothing changed (section 7.22.3.5). */
  ghost predicate LegalRealloc(m: Mem, heap: map<int, int>, base: int, n: int, r: Reply) {
    base in heap && (r.Fresh? ==>
      && FitsBeside(heap - {base}, n, r.base)
      && BlocksKept(heap - {base}, m, r.mem)
      && (forall x :: r.base <= x < r.base + n && x < r.base + heap[base] ==> At(r.mem, x) == At(m, x - r.base + base)))
  }

  ghost predicate LegalFree(m: Mem, heap: map<int, int>, base: int, after: Mem) {
    base in heap && BlocksKept(heap - {base}, m, after)
  }

  /** The program may write anywhere but over the bookkeeping of a tracked block. */
  ghost predicate Writable(w: World, after: Mem) {
    forall p :: p in w.live ==>
      && SameBytes(w.mem, after, w.live[p].base, p)
      && SameBytes(w.mem, after, p + w.live[p].size, w.live[p].base + w.live[p].cap)
  }

  // ---- the steps that keep the invariant ----

  /** A block whose bytes libc left alone is still as it was. */
  lemma BlockFrame(w: World, w': World, q: int, c: Block)
    requires BlockOk(w, q, c)
    requires c.base in w'.heap && w'.heap[c.base] == c.cap
    requires SameBytes(w.mem, w'.mem, c.base, c.base + c.cap)
    ensures BlockOk(w', q, c)
    ensures UserBytes(w'.mem, q, c) == UserBytes(w.mem, q, c)
  {
    HeaderFrame(w.mem, w'.mem, q - HEADER_SIZE);
  }

  /** Storing the header of a new block: `m1` is the memory libc returned with it. */
  function Placed(w: World, b: Block, m1: Mem): World
    requires WordHeader(HeaderFor(b)) && b.base >= 0 && b.alignment >= 0
  {
    var p := UserAddress(b.base, b.alignment);
    World(Store(m1, p - HEADER_SIZE, EncodeHeader(HeaderFor(b))), w.heap[b.base := b.cap], w.live[p := b])
  }

  ghost predicate CanPlace(w: World, b: Block, m1: Mem) {
    && IsWord(b.base) && b.alignment >= 0 && WellPlaced(UserAddress(b.base, b.alignment), b)
    && FitsBeside(w.heap, b.cap, b.base) && BlocksKept(w.heap, w.mem, m1)
  }

  /** A block obtained for an unaligned request has room for header and user bytes. */
  lemma UnalignedCanPlace(w: World, size: int, base: int, m1: Mem)
    requires IsWord(size)
    requires FitsBeside(w.heap, SaturatingAdd(size, HEADER_SIZE), base) && BlocksKept(w.heap, w.mem, m1)
    ensures SaturatingAdd(size, HEADER_SIZE) == size + HEADER_SIZE
    ensures CanPlace(w, Block(base, size + HEADER_SIZE, size, 0), m1)
  {
  }

  /** So has one obtained by the aligned entry points, whatever the alignment. */
  lemma AlignedCanPlace(w: World, size: int, alignment: int, base: int, m1: Mem)
    requires IsWord(size) && IsWord(alignment)
    requires FitsBeside(w.heap, PaddedSize(size, alignment), base) && BlocksKept(w.heap, w.mem, m1)
    requires IsPowerOfTwo(alignment) ==> base % alignment == 0
    ensures CanPlace(w, Block(base, PaddedSize(size, alignment), size, alignment), m1)
  {
    PlacedInsideBlock(base, size, alignment);
    if IsPowerOfTwo(alignment) {
      PlacedAtLeastAligned(base, alignment, 0);
    }
  }

  lemma PlacedHeader(w: World, b: Block, m1: Mem)
    requires WordHeader(HeaderFor(b))
    ensures ReadHeader(Placed(w, b, m1).mem, UserAddress(b.base, b.alignment) - HEADER_SIZE) == HeaderFor(b)
  {
    StoredHeaderReadsBack(m1, UserAddress(b.base, b.alignment) - HEADER_SIZE, HeaderFor(b));
  }

  lemma PlacedBlockOk(w: World, b: Block, m1: Mem)
    requires CanPlace(w, b, m1)
    ensures BlockOk(Placed(w, b, m1), UserAddress(b.base, b.alignment), b)
  {
    PlacedHeader(w, b, m1);
  }

  lemma PlacedKeepsOther(w: World, b: Block, m1: Mem, q: int)
    requires Valid(w) && CanPlace(w, b, m1) && q in w.live
    ensures q != UserAddress(b.base, b.alignment) && w.live[q].base != b.base
    ensures BlockOk(Placed(w, b, m1), q, w.live[q])
    ensures UserBytes(Placed(w, b, m1).mem, q, w.live[q]) == UserBytes(w.mem, q, w.live[q])
  {
    var w', c := Placed(w, b, m1), w.live[q];
    assert BlockOk(w, q, c);
    assert Apart(b.base, b.cap, c.base, w.heap[c.base]);
    assert SameBytes(w.mem, m1, c.base, c.base + c.cap);
    assert SameBytes(m1, w'.mem, c.base, c.base + c.cap);
    BlockFrame(w, w', q, c);
  }

  lemma PlacedKeepsOthers(w: World, b: Block, m1: Mem)
    requires Valid(w) && CanPlace(w, b, m1)
    ensures UserAddress(b.base, b.alignment) !in w.live
    ensures OthersKept(w, Placed(w, b, m1), 0)
  {
    var w' := Placed(w, b, m1);
    forall q | q in w.live
      ensures q != UserAddress(b.base, b.alignment)
      ensures BlockKept(w, w', q)
    {
      PlacedKeepsOther(w, b, m1, q);
    }
  }

  lemma PlacedIsValid(w: World, b: Block, m1: Mem)
    requires Valid(w) && CanPlace(w, b, m1)
    ensures Valid(Placed(w, b, m1))
    ensures SameBytes(m1, Placed(w, b, m1).mem, UserAddress(b.base, b.alignment), ADDRESS_LIMIT)
  {
    var p, w' := UserAddress(b.base, b.alignment), Placed(w, b, m1);
    forall q | q in w.live
      ensures q != p && w.live[q].base != b.base && BlockOk(w', q, w.live[q])
    {
      PlacedKeepsOther(w, b, m1, q);
    }
    assert BlockOk(w', p, b) by {
      PlacedBlockOk(w, b, m1);
    }
    assert HeapOk(w'.heap) by {
      HeapWith(w.heap, b.cap, b.base);
    }
  }

  lemma HeapWith(heap: map<int, int>, n: int, base: int)
    requires HeapOk(heap) && FitsBeside(heap, n, base)
    ensures HeapOk(heap[base := n])
  {
  }

  function Dropped(w: World, p: int, m1: Mem): World
    requires p in w.live
  {
    World(m1, w.heap - {w.live[p].base}, w.live - {p})
  }

  lemma DroppedIsValid(w: World, p: int, m1: Mem)
    requires Valid(w) && p in w.live
    requires BlocksKept(w.heap - {w.live[p].base}, w.mem, m1)
    ensures Valid(Dropped(w, p, m1))
    ensures OthersKept(w, Dropped(w, p, m1), p)
  {
    var w' := Dropped(w, p, m1);
    forall q | q in w.live && q != p
      ensures BlockOk(w', q, w.live[q]) && BlockKept(w, w', q)
    {
      var c := w.live[q];
      assert BlockOk(w, q, c);
      assert c.base in w'.heap;
      BlockFrame(w, w', q, c);
    }
  }

  lemma ForeignDropIsValid(w: World, base: int, m1: Mem)
    requires Valid(w) && base in w.heap
    requires forall q :: q in w.live ==> w.live[q].base != base
    requires BlocksKept(w.heap - {base}, w.mem, m1)
    ensures Valid(World(m1, w.heap - {base}, w.live))
    ensures OthersKept(w, World(m1, w.heap - {base}, w.live), 0)
  {
    var w' := World(m1, w.heap - {base}, w.live);
    forall q | q in w.live
      ensures BlockOk(w', q, w.live[q]) && BlockKept(w, w', q)
    {
      var c := w.live[q];
      assert BlockOk(w, q, c);
      assert c.base in w'.heap;
      BlockFrame(w, w', q, c);
    }
  }

  lemma ForeignPlaceIsValid(w: World, n: nat, base: int, m1: Mem)
    requires Valid(w) && FitsBeside(w.heap, n, base) && BlocksKept(w.heap, w.mem, m1)
    ensures Valid(World(m1, w.heap[base := n], w.live))
    ensures OthersKept(w, World(m1, w.heap[base := n], w.live), 0)
  {
    var w' := World(m1, w.heap[base := n], w.live);
    HeapWith(w.heap, n, base);
    forall q | q in w.live
      ensures BlockOk(w', q, w.live[q]) && BlockKept(w, w', q)
    {
      assert BlockOk(w, q, w.live[q]);
      assert Apart(base, n, w.live[q].base, w.live[q].cap);
      BlockFrame(w, w', q, w.live[q]);
    }
  }

  lemma WrittenIsValid(w: World, m1: Mem)
    requires Valid(w) && Writable(w, m1)
    ensures Valid(w.(mem := m1))
  {
    forall q | q in w.live
      ensures BlockOk(w.(mem := m1), q, w.live[q])
    {
      assert BlockOk(w, q, w.live[q]);
      assert SameBytes(w.mem, m1, w.live[q].base, q);
      HeaderFrame(w.mem, m1, q - HEADER_SIZE);
    }
  }

  // ---- the ledger ----

  ghost function Sizes(live: map<int, Block>): map<int, int> {
    map p | p in live :: live[p].size
  }

  ghost function LiveBytes(live: map<int, Block>): int {
    Sum(Sizes(live))
  }

  lemma LiveBytesWithout(live: map<int, Block>, p: int)
    requires p in live
    ensures LiveBytes(live) == live[p].size + LiveBytes(live - {p})
  {
    SumWithout(Sizes(live), p);
    assert Sizes(live) - {p} == Sizes(live - {p});
  }

  lemma LiveBytesWith(live: map<int, Block>, p: int, b: Block)
    requires p !in live
    ensures LiveBytes(live[p := b]) == b.size + LiveBytes(live)
  {
    LiveBytesWithout(live[p := b], p);
    assert live[p := b] - {p} == live;
  }

  /** A live block's size never exceeds what the ledger should hold. */
  lemma LiveBytesCover(w: World, p: int)
    requires p in w.live
    ensures 0 <= w.live[p].size <= LiveBytes(w.live)
  {
    LiveBytesWithout(w.live, p);
    SumNonNegative(Sizes(w.live - {p}));
  }

  // ---- what realloc does to the user's bytes ----

  lemma KeptAcross(w: World, w1: World, w2: World, p: int)
    requires Valid(w) && OthersKept(w, w1, p) && OthersKept(w1, w2, 0)
    ensures OthersKept(w, w2, p)
  {
    NullIsNotLive(w);
    forall q | q in w.live && q != p ensures BlockKept(w, w2, q) {
      assert BlockKept(w, w1, q);
      assert BlockKept(w1, w2, q);
    }
  }

  /** The old block given up, then the one libc returned placed as unaligned,
      which is how realloc always wraps its result. */
  function Reallocated(w: World, p: int, size: nat, r: Reply): World
    requires p in w.live && r.Fresh? && IsWord(size)
  {
    Placed(Dropped(w, p, r.mem), Block(r.base, size + HEADER_SIZE, size, 0), r.mem)
  }

  lemma ReallocatedIsValid(w: World, p: int, size: nat, r: Reply)
    requires Valid(w) && p in w.live && IsWord(size) && r.Fresh?
    requires LegalRealloc(w.mem, w.heap, w.live[p].base, SaturatingAdd(size, HEADER_SIZE), r)
    ensures CanPlace(Dropped(w, p, r.mem), Block(r.base, SaturatingAdd(size, HEADER_SIZE), size, 0), r.mem)
    ensures SaturatingAdd(size, HEADER_SIZE) == size + HEADER_SIZE
    ensures Valid(Reallocated(w, p, size, r))
    ensures OthersKept(w, Reallocated(w, p, size, r), p)
    ensures r.base + HEADER_SIZE !in w.live - {p}
    ensures LiveBytes(Reallocated(w, p, size, r).live) == LiveBytes(w.live) - w.live[p].size + size
  {
    var w1, b := Dropped(w, p, r.mem), Block(r.base, size + HEADER_SIZE, size, 0);
    DroppedIsValid(w, p, r.mem);
    UnalignedCanPlace(w1, size, r.base, r.mem);
    PlacedIsValid(w1, b, r.mem);
    PlacedKeepsOthers(w1, b, r.mem);
    KeptAcross(w, w1, Reallocated(w, p, size, r), p);
    LiveBytesWithout(w.live, p);
    LiveBytesWith(w1.live, r.base + HEADER_SIZE, b);
  }

  ghost predicate BytesMoved(m: Mem, m': Mem, a: int, a': int, n: int) {
    forall x :: a' <= x < a' + n ==> At(m', x) == At(m, x - a' + a)
  }

  /** When the user pointer is one header past the base, every realloc keeps the
      leading user bytes. */
  lemma ReallocKeepsBytes(w: World, p: int, size: nat, r: Reply)
    requires Valid(w) && p in w.live && IsWord(size)
    requires p == w.live[p].base + HEADER_SIZE
    requires LegalRealloc(w.mem, w.heap, w.live[p].base, SaturatingAdd(size, HEADER_SIZE), r) && r.Fresh?
    ensures BytesMoved(w.mem, Reallocated(w, p, size, r).mem, p, r.base + HEADER_SIZE, Min(size, w.live[p].size))
  {
    assert BlockOk(w, p, w.live[p]);
  }

  lemma KeptSelf(w: World, p: int)
    ensures OthersKept(w, w, p)
  {
  }

  /** Otherwise the program can write a first byte that every successful realloc
      to a non-empty block replaces by another value. */
  lemma ReallocLosesBytes(w: World, p: int, size: nat) returns (m1: Mem)
    requires Valid(w) && p in w.live && IsWord(size)
    requires p != w.live[p].base + HEADER_SIZE
    requires 0 < size && 0 < w.live[p].size
    ensures Writable(w, m1) && Valid(w.(mem := m1))
    ensures forall r: Reply :: r.Fresh? && LegalRealloc(m1, w.heap, w.live[p].base, SaturatingAdd(size, HEADER_SIZE), r) ==>
      At(Reallocated(w.(mem := m1), p, size, r).mem, r.base + HEADER_SIZE) != At(m1, p)
  {
    var b := w.live[p];
    assert BlockOk(w, p, b);
    var c: Byte := if At(w.mem, b.base + HEADER_SIZE) == 0 then 1 else 0;
    m1 := Store(w.mem, p, [c]);
    FirstByteWritable(w, p, c);
    WrittenIsValid(w, m1);
    forall r: Reply | r.Fresh? && LegalRealloc(m1, w.heap, b.base, SaturatingAdd(size, HEADER_SIZE), r)
      ensures At(Reallocated(w.(mem := m1), p, size, r).mem, r.base + HEADER_SIZE) != At(m1, p)
    {
      assert At(r.mem, r.base + HEADER_SIZE) == At(m1, b.base + HEADER_SIZE);
    }
  }

  lemma FirstByteWritable(w: World, p: int, c: Byte)
    requires Valid(w) && p in w.live && 0 < w.live[p].size
    ensures Writable(w, Store(w.mem, p, [c]))
  {
    var m1, b := Store(w.mem, p, [c]), w.live[p];
    assert BlockOk(w, p, b);
    forall q | q in w.live
      ensures SameBytes(w.mem, m1, w.live[q].base, q)
      ensures SameBytes(w.mem, m1, q + w.live[q].size, w.live[q].base + w.live[q].cap)
    {
      assert BlockOk(w, q, w.live[q]);
      if q != p {
        assert Apart(b.base, b.cap, w.live[q].base, w.live[q].cap);
      }
    }
  }

  /** For a block from an aligned entry point the two cases are told apart by the
      alignment the caller asked for. */
  lemma ReallocKeepsBytesByAlignment(w: World, p: int)
    requires Valid(w) && p in w.live && IsPowerOfTwo(w.live[p].alignment)
    ensures p == w.live[p].base + HEADER_SIZE <==> w.live[p].alignment <= HEADER_SIZE
  {
    var b := w.live[p];
    assert BlockOk(w, p, b);
    PlacedInsideBlock(b.base, b.size, b.alignment);
    OffsetIsHeaderSize(b.base, b.alignment);
  }
}
