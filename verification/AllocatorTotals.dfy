/** What each call of the allocator leaves behind, in terms of what the caller asked
    for, and what the counters say about a whole run of calls. */
module AllocatorTotals {
  import opened Memory
  import opened Placement
  import opened TrackedHeap
  import opened Numbers
  import opened AllocationStats
  import opened AllocatorRuns

  // ---- one call ----

  /** The call adds the one block `b` at `p`, and counts one allocation of its size. */
  ghost predicate Gains(s: Snapshot, s': Snapshot, p: int, b: Block) {
    && p !in s.world.live && s'.world.live == s.world.live[p := b]
    && s'.world.heap == s.world.heap[b.base := b.cap]
    && s'.totals.allocations == s.totals.allocations + 1
    && s'.totals.bytesAllocated == s.totals.bytesAllocated + b.size
    && s'.totals.currentBytes == s.totals.currentBytes + b.size
    && s'.totals.bytesDeallocated == s.totals.bytesDeallocated
  }

  /** Unless the product overflows, a block of that size. */
  ghost predicate GainsProduct(s: Snapshot, s': Snapshot, p: int, base: nat, n: nat, m: nat) {
    n * m < 0x1_0000_0000_0000_0000 ==> Gains(s, s', p, Block(base, n * m + 32, n * m, 0))
  }

  /** A granted request makes a block of exactly the size and alignment asked for, in
      the libc block of exactly the size that the entry point asks libc for. */
  lemma GrantedRequest(s: Snapshot, c: Call)
    requires Valid(s.world) && Allowed(s.world, c)
    ensures match c
      case Malloc(size, Fresh(base, _)) => Gains(s, After(s, c), base + 32, Block(base, size + 32, size, 0))
      case Calloc(n, m, Fresh(base, _)) => GainsProduct(s, After(s, c), base + 32, base, n, m)
      case Realloc(p, size, Fresh(base, _)) => p == 0 ==>
        Gains(s, After(s, c), base + 32, Block(base, size + 32, size, 0))
      case Memalign(a, size, Fresh(base, _)) =>
        Gains(s, After(s, c), UserAddress(base, a), Block(base, size + a + 40, size, a))
      case _ => true
  {
    if Allocates(c) && c.reply.Fresh? {
      RequestCanPlace(s.world, c);
      PlacedKeepsOthers(s.world, Block(c.reply.base, RequestedCap(c), RequestedSize(c), RequestedAlignment(c)), c.reply.mem);
      if c.Memalign? {
        PlacedInsideBlock(c.reply.base, c.size, c.alignment);
      }
    }
  }

  ghost predicate CountedOnly(s: Snapshot, s': Snapshot, size: nat) {
    && s'.world == s.world && s'.totals.allocations == s.totals.allocations + 1
    && s'.totals.bytesAllocated == s.totals.bytesAllocated + size
  }

  /** A request that libc refuses is counted all the same and changes nothing else;
      one whose product overflows is not even counted. */
  lemma RefusedRequest(s: Snapshot, c: Call)
    requires Valid(s.world) && Allowed(s.world, c)
    ensures match c
      case Malloc(size, Null) => CountedOnly(s, After(s, c), size)
      case Calloc(n, m, r) =>
        if n * m >= 0x1_0000_0000_0000_0000 then After(s, c) == s else r.Null? ==> CountedOnly(s, After(s, c), n * m)
      case Realloc(p, size, Null) => (p == 0 || p in s.world.live) ==> CountedOnly(s, After(s, c), size)
      case Memalign(_, size, Null) => CountedOnly(s, After(s, c), size)
      case _ => true
  {
  }

  /** The call takes away the block at `p` and counts one deallocation of its size. */
  ghost predicate Loses(s: Snapshot, s': Snapshot, p: int) {
    p in s.world.live &&
    var b := s.world.live[p];
    && s'.world.live == s.world.live - {p} && s'.world.heap == s.world.heap - {b.base}
    && s'.totals.deallocations == s.totals.deallocations + 1
    && s'.totals.bytesDeallocated == s.totals.bytesDeallocated + b.size
    && s'.totals.allocations == s.totals.allocations && s'.totals.bytesAllocated == s.totals.bytesAllocated
  }

  /** The call replaces the block at `p` by `b`, and counts one of each. */
  ghost predicate Trades(s: Snapshot, s': Snapshot, p: int, b: Block) {
    p in s.world.live &&
    var gone := s.world.live[p];
    && s'.world.live == (s.world.live - {p})[b.base + 32 := b]
    && s'.world.heap == (s.world.heap - {gone.base})[b.base := b.cap]
    && s'.totals.allocations == s.totals.allocations + 1 && s'.totals.deallocations == s.totals.deallocations + 1
    && s'.totals.bytesAllocated == s.totals.bytesAllocated + b.size
    && s'.totals.bytesDeallocated == s.totals.bytesDeallocated + gone.size
  }

  /** The call concerns libc alone. */
  ghost predicate NotCounted(s: Snapshot, s': Snapshot, heap: map<int, int>) {
    s'.totals == s.totals && s'.world.live == s.world.live && s'.world.heap == heap
  }

  /** free and a granted realloc give libc its block back; of a block that is not
      theirs they record nothing. */
  lemma ReturnedBlock(s: Snapshot, c: Call)
    requires Valid(s.world) && Allowed(s.world, c)
    ensures match c
      case Free(p, after) =>
        if p in s.world.live then Loses(s, After(s, c), p)
        else NotCounted(s, After(s, c), s.world.heap - {p})
      case Realloc(p, size, Fresh(base, _)) =>
        if p in s.world.live then Trades(s, After(s, c), p, Block(base, size + 32, size, 0))
        else p == 0 || NotCounted(s, After(s, c), (s.world.heap - {p})[base := size])
      case _ => true
  {
    NullIsNotLive(s.world);
    if c.Free? && c.p == 0 {
      assert 0 !in s.world.heap;
      assert s.world.heap - {0} == s.world.heap;
    }
  }

  // ---- runs ----

  /** The bytes a call adds to the allocated total, granted or not. */
  ghost function Asked(w: World, c: Call): nat {
    match c
    case Malloc(size, _) => size
    case Calloc(n, m, _) => if n * m < 0x1_0000_0000_0000_0000 then n * m else 0
    case Realloc(p, size, _) => if p == 0 || p in w.live then size else 0
    case Memalign(_, size, _) => size
    case _ => 0
  }

  /** The bytes it adds to the deallocated total. */
  ghost function GivenBack(w: World, c: Call): nat {
    if (c.Free? || c.Realloc?) && c.p in w.live then w.live[c.p].size else 0
  }

  ghost function AskedInAll(s: Snapshot, script: seq<Call>): nat
    requires IsRun(s, script)
    decreases |script|
  {
    if script == [] then 0 else Asked(s.world, script[0]) + AskedInAll(After(s, script[0]), script[1..])
  }

  ghost function GivenBackInAll(s: Snapshot, script: seq<Call>): nat
    requires IsRun(s, script)
    decreases |script|
  {
    if script == [] then 0 else GivenBack(s.world, script[0]) + GivenBackInAll(After(s, script[0]), script[1..])
  }

  /** The largest `current_bytes` after any call of the run. */
  ghost function HighWater(s: Snapshot, script: seq<Call>): nat
    requires IsRun(s, script)
    decreases |script|
  {
    if script == [] then s.totals.currentBytes
    else Max(s.totals.currentBytes, HighWater(After(s, script[0]), script[1..]))
  }

  lemma CallTotals(s: Snapshot, c: Call)
    requires Valid(s.world) && Allowed(s.world, c) && s.totals.currentBytes <= s.totals.peakBytes
    ensures var t := After(s, c).totals;
      && t.bytesAllocated == s.totals.bytesAllocated + Asked(s.world, c)
      && t.bytesDeallocated == s.totals.bytesDeallocated + GivenBack(s.world, c)
      && t.peakBytes == Max(s.totals.peakBytes, t.currentBytes)
  {
    NullIsNotLive(s.world);
  }

  /** Over every run the byte totals grow by what the program asked for and by what it
      gave back, and the peak is the largest value `current_bytes` had. */
  lemma {:induction false} RunTotals(s: Snapshot, script: seq<Call>)
    requires Valid(s.world) && IsRun(s, script) && s.totals.currentBytes <= s.totals.peakBytes
    ensures var t := Outcome(s, script).totals;
      && t.bytesAllocated == s.totals.bytesAllocated + AskedInAll(s, script)
      && t.bytesDeallocated == s.totals.bytesDeallocated + GivenBackInAll(s, script)
      && t.peakBytes == Max(s.totals.peakBytes, HighWater(s, script))
    decreases |script|
  {
    if script != [] {
      CallTotals(s, script[0]);
      CallKeepsInvariant(s, script[0]);
      RunTotals(After(s, script[0]), script[1..]);
    }
  }

  /** realloc of null counts a deallocation although there was nothing to give back. */
  function NullReallocs(script: seq<Call>): nat {
    if script == [] then 0
    else (if script[0].Realloc? && script[0].p == 0 then 1 else 0) + NullReallocs(script[1..])
  }

  lemma CallCounts(s: Snapshot, c: Call)
    requires Valid(s.world) && Allowed(s.world, c) && Granted(c)
    ensures var s' := After(s, c);
      s'.totals.allocations + (if c.Realloc? && c.p == 0 then 1 else 0) - s'.totals.deallocations - |s'.world.live| ==
      s.totals.allocations - s.totals.deallocations - |s.world.live|
  {
    GrantedRequest(s, c);
    ReturnedBlock(s, c);
    NullIsNotLive(s.world);
    if c.Realloc? && c.p in s.world.live {
      ReallocatedIsValid(s.world, c.p, c.size, c.reply);
    }
  }

  /** When libc grants every request, the allocations not yet deallocated are the live
      blocks, but for one deallocation too many for each realloc of null. */
  lemma RunCounts(s: Snapshot, script: seq<Call>)
    requires Valid(s.world) && IsRun(s, script) && forall c :: c in script ==> Granted(c)
    requires s.totals.allocations == s.totals.deallocations + |s.world.live|
    ensures var s' := Outcome(s, script);
      s'.totals.allocations + NullReallocs(script) == s'.totals.deallocations + |s'.world.live|
  {
    CountsFrom(s, script);
  }

  lemma {:induction false} CountsFrom(s: Snapshot, script: seq<Call>)
    requires Valid(s.world) && IsRun(s, script) && forall c :: c in script ==> Granted(c)
    ensures var s' := Outcome(s, script);
      s'.totals.allocations + NullReallocs(script) - s'.totals.deallocations - |s'.world.live| ==
      s.totals.allocations - s.totals.deallocations - |s.world.live|
    decreases |script|
  {
    if script != [] {
      assert script[0] in script && forall c :: c in script[1..] ==> c in script;
      CallCounts(s, script[0]);
      CallKeepsInvariant(s, script[0]);
      CountsFrom(After(s, script[0]), script[1..]);
    }
  }

  // ---- a whole life ----

  ghost predicate Holds(s: Snapshot, base: nat, size: nat) {
    && Valid(s.world) && s.world.heap == map[base := size + 32]
    && s.world.live == map[base + 32 := Block(base, size + 32, size, 0)]
  }

  /** A place where libc can put the block. */
  predicate Place(base: nat, size: nat) {
    16 <= base && base % 16 == 0 && base + size + 32 <= ADDRESS_LIMIT
  }

  lemma BlockMade(s: Snapshot, base: nat, size: nat)
    requires Valid(s.world) && s.world.heap == map[] && s.world.live == map[] && Place(base, size)
    ensures var c := Malloc(size, Fresh(base, s.world.mem)); Allowed(s.world, c) && Holds(After(s, c), base, size)
  {
    var c := Malloc(size, Fresh(base, s.world.mem));
    GrantedRequest(s, c);
    CallKeepsInvariant(s, c);
  }

  lemma BlockTraded(s: Snapshot, base: nat, size: nat, more: nat)
    requires Holds(s, base, size) && Place(base, more)
    ensures var c := Realloc(base + 32, more, Fresh(base, s.world.mem)); Allowed(s.world, c) && Holds(After(s, c), base, more)
  {
    var c := Realloc(base + 32, more, Fresh(base, s.world.mem));
    assert s.world.heap - {base} == map[] && s.world.live - {base + 32} == map[];
    ReturnedBlock(s, c);
    CallKeepsInvariant(s, c);
  }

  lemma BlockFreed(s: Snapshot, base: nat, size: nat)
    requires Holds(s, base, size)
    ensures var c := Free(base + 32, s.world.mem); Allowed(s.world, c) && After(s, c).world.live == map[]
  {
    assert s.world.heap - {base} == map[] && s.world.live - {base + 32} == map[];
  }

  lemma PrependCall(s: Snapshot, c: Call, rest: seq<Call>)
    requires Allowed(s.world, c) && IsRun(After(s, c), rest)
    ensures IsRun(s, [c] + rest) && Outcome(s, [c] + rest) == Outcome(After(s, c), rest)
  {
    assert ([c] + rest)[1..] == rest;
  }

  /** Runs with all kinds of calls exist: from the empty heap a block of any size that
      fits is made, brought to any other and freed. */
  lemma LifeIsReachable(s: Snapshot, base: nat, size: nat, more: nat) returns (script: seq<Call>)
    requires Valid(s.world) && s.world.heap == map[] && s.world.live == map[] && Place(base, size) && Place(base, more)
    ensures IsRun(s, script) && |script| == 3 && Outcome(s, script).world.live == map[]
    ensures script[0].Malloc? && script[0].size == size && script[0].reply.Fresh?
    ensures script[1].Realloc? && script[1].size == more && script[1].reply.Fresh? && script[2].Free?
  {
    var c1 := Malloc(size, Fresh(base, s.world.mem));
    BlockMade(s, base, size);
    var s1 := After(s, c1);
    var c2 := Realloc(base + 32, more, Fresh(base, s1.world.mem));
    BlockTraded(s1, base, size, more);
    var s2 := After(s1, c2);
    var c3 := Free(base + 32, s2.world.mem);
    BlockFreed(s2, base, more);
    PrependCall(s2, c3, []);
    PrependCall(s1, c2, [c3] + []);
    PrependCall(s, c1, [c2] + ([c3] + []));
    script := [c1] + ([c2] + ([c3] + []));
  }
}
