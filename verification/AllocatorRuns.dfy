/** Runs of the interposed allocator: any sequence of calls, each with any answer
    that libc's contract allows. */
module AllocatorRuns {
  import opened Memory
  import opened Placement
  import opened TrackedHeap
  import opened Sums
  import opened AllocationStats

  datatype Call =
    | Malloc(size: nat, reply: Reply)
    | Calloc(count: nat, elementSize: nat, reply: Reply)
    | Realloc(p: int, size: nat, reply: Reply)
    | Memalign(alignment: nat, size: nat, reply: Reply)
    | Free(p: int, after: Mem)
    | ProgramWrites(after: Mem)
    | ForeignAllocation(n: nat, reply: Reply)

  datatype Snapshot = Snapshot(world: World, totals: Totals)

  /** What the caller and libc must respect for a call to be part of a run. */
  ghost predicate Allowed(w: World, c: Call) {
    match c
    case Malloc(size, r) => IsWord(size) && LegalMalloc(w.mem, w.heap, SaturatingAdd(size, HEADER_SIZE), r)
    case Calloc(count, elementSize, r) =>
      && IsWord(count) && IsWord(elementSize)
      && LegalCalloc(w.mem, w.heap, SaturatingAdd(count * elementSize, HEADER_SIZE), r)
    case Realloc(p, size, r) =>
      && IsWord(size) && (p == 0 || p in w.live || Foreign(w, p))
      && (p == 0 ==> LegalMalloc(w.mem, w.heap, SaturatingAdd(size, HEADER_SIZE), r))
      && (p in w.live ==> LegalRealloc(w.mem, w.heap, w.live[p].base, SaturatingAdd(size, HEADER_SIZE), r))
      && (p != 0 && p !in w.live ==> LegalRealloc(w.mem, w.heap, p, size, r))
    case Memalign(alignment, size, r) =>
      IsWord(size) && IsWord(alignment) && LegalMemalign(w.mem, w.heap, alignment, PaddedSize(size, alignment), r)
    case Free(p, after) =>
      && (p == 0 || p in w.live || Foreign(w, p))
      && (p in w.live ==> LegalFree(w.mem, w.heap, w.live[p].base, after))
      && (p != 0 && p !in w.live ==> LegalFree(w.mem, w.heap, p, after))
    case ProgramWrites(after) => Writable(w, after)
    case ForeignAllocation(n, r) => LegalMalloc(w.mem, w.heap, n, r)
  }

  /** A libc block these functions never saw and do not take for their own. */
  ghost predicate Foreign(w: World, p: int) {
    p in w.heap && !IsOurs(w.mem, p) && forall q :: q in w.live ==> w.live[q].base != p
  }

  // ---- what one call does ----

  /** The calls that end in one new wrapped block, or in nothing when libc fails. */
  predicate Allocates(c: Call) {
    c.Malloc? || c.Memalign? || (c.Calloc? && IsWord(c.count * c.elementSize)) || (c.Realloc? && c.p == 0)
  }

  function RequestedSize(c: Call): nat
    requires Allocates(c)
  {
    if c.Calloc? then c.count * c.elementSize else c.size
  }

  function RequestedAlignment(c: Call): nat {
    if c.Memalign? then c.alignment else 0
  }

  function RequestedCap(c: Call): nat
    requires Allocates(c)
  {
    if c.Memalign? then PaddedSize(c.size, c.alignment) else RequestedSize(c) + HEADER_SIZE
  }

  function Wrapped(w: World, size: nat, alignment: nat, cap: nat, r: Reply): World
    requires IsWord(size) && IsWord(alignment) && (r.Fresh? ==> IsWord(r.base))
  {
    if r.Null? then w else Placed(w, Block(r.base, cap, size, alignment), r.mem)
  }

  /** libc has moved a block these functions never saw. */
  function ForeignMoved(w: World, p: int, size: nat, r: Reply): World
    requires r.Fresh?
  {
    World(r.mem, (w.heap - {p})[r.base := size], w.live)
  }

  ghost function After(s: Snapshot, c: Call): Snapshot
    requires Allowed(s.world, c)
  {
    var w, t := s.world, s.totals;
    if Allocates(c) then
      Snapshot(Wrapped(w, RequestedSize(c), RequestedAlignment(c), RequestedCap(c), c.reply),
               AfterAllocation(if c.Realloc? then AfterDeallocation(t, 0) else t, RequestedSize(c)))
    else
      match c
      case Realloc(p, size, r) =>
        if p in w.live then
          Snapshot(if r.Null? then w else Reallocated(w, p, size, r),
                   AfterAllocation(AfterDeallocation(t, w.live[p].size), size))
        else if r.Null? then s
        else s.(world := ForeignMoved(w, p, size, r))
      case Free(p, after) =>
        if p == 0 then s
        else if p in w.live then Snapshot(Dropped(w, p, after), AfterDeallocation(t, w.live[p].size))
        else s.(world := World(after, w.heap - {p}, w.live))
      case ProgramWrites(after) => s.(world := w.(mem := after))
      case ForeignAllocation(n, r) =>
        if r.Null? then s else s.(world := World(r.mem, w.heap[r.base := n], w.live))
      case _ => s
  }

  /** The ledger agrees with the live tracked blocks. */
  ghost predicate Exact(s: Snapshot) {
    && s.totals.currentBytes == LiveBytes(s.world.live)
    && s.totals.bytesAllocated == s.totals.currentBytes + s.totals.bytesDeallocated
  }

  // ---- what one call keeps ----

  lemma WrappedIsValid(w: World, size: nat, alignment: nat, cap: nat, r: Reply)
    requires Valid(w) && IsWord(size) && IsWord(alignment)
    requires r.Fresh? ==> CanPlace(w, Block(r.base, cap, size, alignment), r.mem)
    ensures Valid(Wrapped(w, size, alignment, cap, r))
    ensures OthersKept(w, Wrapped(w, size, alignment, cap, r), 0)
    ensures r.Fresh? ==> LiveBytes(Wrapped(w, size, alignment, cap, r).live) == LiveBytes(w.live) + size
  {
    if r.Null? {
      KeptSelf(w, 0);
    } else {
      var b := Block(r.base, cap, size, alignment);
      PlacedIsValid(w, b, r.mem);
      PlacedKeepsOthers(w, b, r.mem);
      LiveBytesWith(w.live, UserAddress(r.base, alignment), b);
    }
  }

  /** The block a granted allocating call asked libc for can take the header. */
  lemma RequestCanPlace(w: World, c: Call)
    requires Allowed(w, c) && Allocates(c) && c.reply.Fresh?
    ensures CanPlace(w, Block(c.reply.base, RequestedCap(c), RequestedSize(c), RequestedAlignment(c)), c.reply.mem)
  {
    if c.Memalign? {
      AlignedCanPlace(w, c.size, c.alignment, c.reply.base, c.reply.mem);
    } else {
      UnalignedCanPlace(w, RequestedSize(c), c.reply.base, c.reply.mem);
    }
  }

  lemma AllocationIsValid(s: Snapshot, c: Call)
    requires Valid(s.world) && Allowed(s.world, c) && Allocates(c)
    ensures Valid(After(s, c).world)
    ensures OthersKept(s.world, After(s, c).world, 0)
    ensures LiveBytes(After(s, c).world.live) == LiveBytes(s.world.live) + if c.reply.Fresh? then RequestedSize(c) else 0
  {
    if c.reply.Fresh? {
      RequestCanPlace(s.world, c);
    }
    WrappedIsValid(s.world, RequestedSize(c), RequestedAlignment(c), RequestedCap(c), c.reply);
  }

  function Touched(c: Call): int {
    if c.Realloc? || c.Free? then c.p else 0
  }

  /** Every call keeps the invariant, and leaves the bytes of every tracked block
      it was not asked about alone. */
  lemma CallKeepsInvariant(s: Snapshot, c: Call)
    requires Valid(s.world) && Allowed(s.world, c)
    ensures Valid(After(s, c).world)
    ensures !c.ProgramWrites? ==> OthersKept(s.world, After(s, c).world, Touched(c))
  {
    var w := s.world;
    KeptSelf(w, Touched(c));
    if Allocates(c) {
      AllocationIsValid(s, c);
    } else {
      match c
      case Realloc(p, size, r) =>
        if r.Fresh? {
          if p in w.live {
            ReallocatedIsValid(w, p, size, r);
          } else {
            ForeignMovedIsValid(w, p, size, r);
          }
        }
      case Free(p, after) =>
        FreeIsValid(s, p, after);
      case ProgramWrites(after) =>
        WrittenIsValid(w, after);
      case ForeignAllocation(n, r) =>
        if r.Fresh? { ForeignPlaceIsValid(w, n, r.base, r.mem); }
      case _ =>
    }
  }

  lemma ForeignMovedIsValid(w: World, p: int, size: nat, r: Reply)
    requires Valid(w) && Foreign(w, p) && r.Fresh? && LegalRealloc(w.mem, w.heap, p, size, r)
    ensures Valid(ForeignMoved(w, p, size, r)) && OthersKept(w, ForeignMoved(w, p, size, r), p)
  {
    var dropped := World(r.mem, w.heap - {p}, w.live);
    ForeignDropIsValid(w, p, r.mem);
    ForeignPlaceIsValid(dropped, size, r.base, r.mem);
    KeptAcross(w, dropped, ForeignMoved(w, p, size, r), 0);
    NullIsNotLive(w);
  }

  lemma FreeIsValid(s: Snapshot, p: int, after: Mem)
    requires Valid(s.world) && Allowed(s.world, Free(p, after))
    ensures Valid(After(s, Free(p, after)).world)
    ensures OthersKept(s.world, After(s, Free(p, after)).world, p)
  {
    NullIsNotLive(s.world);
    KeptSelf(s.world, p);
    if p in s.world.live {
      DroppedIsValid(s.world, p, after);
    } else if p != 0 {
      ForeignDropIsValid(s.world, p, after);
    }
  }

  /** The calls after which an exact ledger is still exact: those libc granted,
      and those whose recorded bytes cancel out anyway. */
  ghost predicate LedgerKept(w: World, c: Call)
    requires Allowed(w, c)
  {
    if Allocates(c) then c.reply.Fresh? || RequestedSize(c) == 0
    else c.Realloc? && c.p in w.live ==> c.reply.Fresh? || c.size == w.live[c.p].size
  }

  /** Bytes are conserved by exactly those calls, and the saturating subtraction
      never saturates. */
  lemma CallKeepsLedger(s: Snapshot, c: Call)
    requires Valid(s.world) && Allowed(s.world, c) && Exact(s)
    ensures Exact(After(s, c)) <==> LedgerKept(s.world, c)
    ensures (c.Free? || c.Realloc?) && c.p in s.world.live ==> s.world.live[c.p].size <= s.totals.currentBytes
  {
    var w := s.world;
    NullIsNotLive(w);
    if Allocates(c) {
      AllocationIsValid(s, c);
    } else if (c.Free? || c.Realloc?) && c.p != 0 && c.p in w.live {
      LiveBytesCover(w, c.p);
      LiveBytesWithout(w.live, c.p);
      if c.Realloc? && c.reply.Fresh? {
        ReallocatedIsValid(w, c.p, c.size, c.reply);
      }
    }
  }

  /** Such a call: a refused malloc of five bytes leaves them in the ledger. */
  lemma RefusedCallBreaksLedger(m: Mem)
    ensures var s := Snapshot(World(m, map[], map[]), ZERO);
      Valid(s.world) && Allowed(s.world, Malloc(5, Null)) && Exact(s) && !Exact(After(s, Malloc(5, Null)))
  {
    var w := World(m, map[], map[]);
    SumOfZeros(Sizes(w.live));
    assert After(Snapshot(w, ZERO), Malloc(5, Null)) == Snapshot(w, AfterAllocation(ZERO, 5));
  }

  /** calloc's user bytes start as zero although the header shares the block. */
  lemma CallocStartsZero(s: Snapshot, c: Call, x: int)
    requires Valid(s.world) && Allowed(s.world, c) && c.Calloc? && Allocates(c) && c.reply.Fresh?
    requires c.reply.base + HEADER_SIZE <= x < c.reply.base + HEADER_SIZE + c.count * c.elementSize
    ensures c.reply.base + HEADER_SIZE in After(s, c).world.live
    ensures At(After(s, c).world.mem, x) == 0
  {
    var total := c.count * c.elementSize;
    RequestCanPlace(s.world, c);
    PlacedIsValid(s.world, Block(c.reply.base, total + HEADER_SIZE, total, 0), c.reply.mem);
    assert At(c.reply.mem, x) == 0;
  }

  // ---- runs ----

  ghost predicate IsRun(s: Snapshot, script: seq<Call>)
    decreases |script|
  {
    script == [] || (Allowed(s.world, script[0]) && IsRun(After(s, script[0]), script[1..]))
  }

  ghost function Outcome(s: Snapshot, script: seq<Call>): Snapshot
    requires IsRun(s, script)
    decreases |script|
  {
    if script == [] then s else Outcome(After(s, script[0]), script[1..])
  }

  /** libc granted the request, or was not asked for anything the ledger counts. */
  predicate Granted(c: Call) {
    || c.Free? || c.ProgramWrites? || c.ForeignAllocation? || c.reply.Fresh?
    || (c.Calloc? && !IsWord(c.count * c.elementSize))
  }

  /** After every run each live tracked block still extracts to its own size,
      alignment and libc pointer, so that `free` returns to libc exactly what libc
      gave out; and when libc granted every request the ledger is exact. */
  lemma {:induction false} EveryRun(s: Snapshot, script: seq<Call>)
    requires Valid(s.world) && IsRun(s, script)
    ensures var s' := Outcome(s, script);
      && Valid(s'.world)
      && (forall p :: p in s'.world.live ==>
        && IsOurs(s'.world.mem, p)
        && Extract(s'.world.mem, p) == (s'.world.live[p].size, s'.world.live[p].alignment, s'.world.live[p].base))
      && (Exact(s) && (forall c :: c in script ==> Granted(c)) ==> Exact(s'))
    decreases |script|
  {
    if script == [] {
      forall p | p in s.world.live
        ensures IsOurs(s.world.mem, p)
        ensures Extract(s.world.mem, p) == (s.world.live[p].size, s.world.live[p].alignment, s.world.live[p].base)
      {
        LiveBlocksExtract(s.world, p);
      }
    } else {
      CallKeepsInvariant(s, script[0]);
      if Exact(s) {
        CallKeepsLedger(s, script[0]);
      }
      assert forall c :: c in script[1..] ==> c in script;
      assert script[0] in script;
      EveryRun(After(s, script[0]), script[1..]);
    }
  }

  /** Blocks that realloc does not preserve occur: an alignment of 64 puts the user
      pointer more than one header past the base. */
  lemma FarBlockIsReachable(m: Mem) returns (script: seq<Call>, p: int)
    ensures var s := Snapshot(World(m, map[], map[]), ZERO);
      && Valid(s.world) && IsRun(s, script)
      && var w := Outcome(s, script).world;
      && Valid(w) && p in w.live && p != w.live[p].base + HEADER_SIZE && 0 < w.live[p].size
  {
    var s, c := Snapshot(World(m, map[], map[]), ZERO), Memalign(64, 1, Fresh(64, m));
    assert Pow2(3) == 8 && Pow2(6) == 64;
    script, p := [c], UserAddress(64, 64);
    OffsetIsHeaderSize(64, 64);
    assert script[1..] == [];
    EveryRun(s, script);
  }
}
