/** The interposed allocation functions. libc is a function of what it is asked for,
    constrained only by the contract libc keeps for the answer it gives. */
module TrackingAllocator {
  import opened Memory
  import opened Placement
  import opened TrackedHeap
  import opened AllocationStats
  import opened AllocatorRuns
  import opened AllocatorTotals

  const ENOMEM := 12

  /** The non-null part of `to_virtual`: where the header goes and what it says. */
  method StoreHeader(m: Mem, base: nat, size: nat, alignment: nat) returns (p: int, m': Mem)
    requires IsWord(base) && IsWord(size) && IsWord(alignment)
    requires base + HEADER_SIZE <= UserAddress(base, alignment)
    ensures p == UserAddress(base, alignment)
    ensures m' == Store(m, p - HEADER_SIZE, EncodeHeader(HeaderFor(Block(base, 0, size, alignment))))
  {
    if alignment > 0 {
      var minVirtual := SaturatingAdd(base, HEADER_SIZE);
      p := AndNot(SaturatingSub(SaturatingAdd(minVirtual, alignment), 1), SaturatingSub(alignment, 1));
      m' := Store(m, SaturatingSub(p, HEADER_SIZE), EncodeHeader(Header(MAGIC, size, alignment, base)));
    } else {
      m' := Store(m, base, EncodeHeader(Header(MAGIC, size, 0, 0)));
      p := base + HEADER_SIZE;
    }
  }

  /** The pointer an allocating call returns. */
  function Pointer(r: Reply, alignment: nat): int {
    if r.Null? then 0 else UserAddress(r.base, alignment)
  }

  class Allocator {
    const stats: Stats
    var mem: Mem
    ghost var heap: map<int, int>
    ghost var live: map<int, Block>

    ghost function State(): Snapshot
      reads this, stats
    {
      Snapshot(World(mem, heap, live), stats.Value())
    }

    ghost predicate Ready(c: Call)
      reads this, stats
    {
      Valid(State().world) && Allowed(State().world, c)
    }

    constructor (m: Mem, ghost foreign: map<int, int>)
      requires HeapOk(foreign)
      ensures fresh(stats) && State() == Snapshot(World(m, foreign, map[]), ZERO)
      ensures Valid(State().world) && Exact(State())
    {
      stats := new Stats();
      mem := m;
      heap, live := foreign, map[];
    }

    /** Takes libc's reply, stores the header and returns the adjusted pointer. */
    method ToVirtual(r: Reply, ghost cap: nat, size: nat, alignment: nat) returns (p: int)
      requires IsWord(size) && IsWord(alignment)
      requires r.Fresh? ==> IsWord(r.base) && r.base + HEADER_SIZE <= UserAddress(r.base, alignment)
      modifies this
      ensures p == Pointer(r, alignment)
      ensures World(mem, heap, live) == Wrapped(old(World(mem, heap, live)), size, alignment, cap, r)
    {
      match r
      case Null =>
        p := 0;
      case Fresh(base, m) =>
        ghost var b := Block(base, cap, size, alignment);
        assert HeaderFor(b) == HeaderFor(Block(base, 0, size, alignment));
        p, mem := StoreHeader(m, base, size, alignment);
        heap, live := heap[base := cap], live[p := b];
    }

    method Malloc(size: nat, libc: nat -> Reply) returns (p: int)
      requires Ready(Call.Malloc(size, libc(SaturatingAdd(size, HEADER_SIZE))))
      modifies this, stats
      ensures var r := libc(SaturatingAdd(size, HEADER_SIZE));
        && p == Pointer(r, 0) && State() == After(old(State()), Call.Malloc(size, r))
        && (r.Fresh? ==> Gains(old(State()), State(), p, Block(r.base, size + 32, size, 0)))
    {
      stats.RecordAllocation(size);
      var r := libc(SaturatingAdd(size, HEADER_SIZE));
      if r.Fresh? {
        RequestCanPlace(State().world, Call.Malloc(size, r));
        GrantedRequest(old(State()), Call.Malloc(size, r));
      }
      p := ToVirtual(r, size + HEADER_SIZE, size, 0);
    }

    /** What calloc does with a product that does not overflow. */
    method Zeroed(ghost count: nat, ghost elementSize: nat, total: nat, r: Reply) returns (p: int)
      requires total == count * elementSize && IsWord(total) && Ready(Call.Calloc(count, elementSize, r))
      modifies this, stats
      ensures p == Pointer(r, 0) && State() == After(old(State()), Call.Calloc(count, elementSize, r))
    {
      stats.RecordAllocation(total);
      if r.Fresh? {
        RequestCanPlace(State().world, Call.Calloc(count, elementSize, r));
      }
      p := ToVirtual(r, total + HEADER_SIZE, total, 0);
    }

    method Calloc(count: nat, elementSize: nat, libc: nat -> Reply) returns (p: int)
      requires Ready(Call.Calloc(count, elementSize, libc(SaturatingAdd(count * elementSize, HEADER_SIZE))))
      modifies this, stats
      ensures var r := libc(SaturatingAdd(count * elementSize, HEADER_SIZE));
        && State() == After(old(State()), Call.Calloc(count, elementSize, r))
        && (r.Fresh? ==> GainsProduct(old(State()), State(), p, r.base, count, elementSize))
        && (r.Null? || count * elementSize >= 0x1_0000_0000_0000_0000 ==> p == 0)
    {
      var total := count * elementSize;
      if !IsWord(total) {
        return 0;
      }
      var r := libc(SaturatingAdd(total, HEADER_SIZE));
      GrantedRequest(State(), Call.Calloc(count, elementSize, r));
      p := Zeroed(count, elementSize, total, r);
    }

    /** What libc must be handed for a pointer of ours: the one it gave out itself. */
    ghost function Original(p: int): int
      reads this
    {
      if p in live then live[p].base else p
    }

    /** libc has moved the block away and returned new memory. */
    method GiveUp(p: int, after: Mem)
      requires p in live
      modifies this
      ensures World(mem, heap, live) == Dropped(old(World(mem, heap, live)), p, after)
    {
      mem := after;
      heap, live := heap - {live[p].base}, live - {p};
    }

    /** What libc is asked for: room for a header only where one is kept. */
    ghost function Asked(p: int, size: nat): nat
      reads this
    {
      if p == 0 || p in live then SaturatingAdd(size, HEADER_SIZE) else size
    }

    /** The recorded size and libc's own pointer, or zero and null for null. */
    method Locate(p: int) returns (size: nat, actual: int)
      requires Valid(State().world) && (p == 0 || p in live)
      ensures actual == Original(p) && size == if p in live then live[p].size else 0
    {
      NullIsNotLive(State().world);
      size, actual := 0, 0;
      if p != 0 {
        LiveBlocksExtract(State().world, p);
        var (s, _, a) := Extract(mem, p);
        size, actual := s, a;
      }
    }

    /** Wraps what libc's realloc returned, always as unaligned. */
    method Rewrap(p: int, size: nat, r: Reply) returns (p': int)
      requires Ready(Call.Realloc(p, size, r)) && (p == 0 || p in live)
      modifies this
      ensures p' == Pointer(r, 0)
      ensures State().world == After(old(State()), Call.Realloc(p, size, r)).world
    {
      NullIsNotLive(State().world);
      if r.Fresh? {
        if p == 0 {
          RequestCanPlace(State().world, Call.Realloc(p, size, r));
        } else {
          ReallocatedIsValid(State().world, p, size, r);
          GiveUp(p, r.mem);
        }
      }
      p' := ToVirtual(r, size + HEADER_SIZE, size, 0);
    }

    /** A block that is not ours goes straight to libc, and so does its answer. */
    method PassOn(p: int, size: nat, r: Reply) returns (p': int)
      requires Ready(Call.Realloc(p, size, r)) && p != 0 && p !in live
      modifies this
      ensures p' == if r.Null? then 0 else r.base
      ensures State().world == After(old(State()), Call.Realloc(p, size, r)).world
    {
      match r
      case Null =>
        p' := 0;
      case Fresh(base, after) =>
        mem, heap := after, (heap - {p})[base := size];
        p' := base;
    }

    method Realloc(p: int, size: nat, libc: (int, nat) -> Reply) returns (p': int)
      requires Ready(Call.Realloc(p, size, libc(Original(p), Asked(p, size))))
      modifies this, stats
      ensures var r := libc(old(Original(p)), old(Asked(p, size)));
        && p' == (if p == 0 || p in old(live) then Pointer(r, 0) else if r.Null? then 0 else r.base)
        && State() == After(old(State()), Call.Realloc(p, size, r))
        && (r.Fresh? && p == 0 ==> Gains(old(State()), State(), p', Block(r.base, size + 32, size, 0)))
        && (r.Fresh? && p in old(live) ==>
            p' == r.base + 32 && Trades(old(State()), State(), p, Block(r.base, size + 32, size, 0)))
    {
      NullIsNotLive(State().world);
      if p in live {
        LiveBlocksExtract(State().world, p);
      }
      if p != 0 && !IsOurs(mem, p) {
        var r := libc(p, size);
        p' := PassOn(p, size, r);
        return;
      }
      var oldSize, actual := Locate(p);
      stats.RecordDeallocation(oldSize);
      stats.RecordAllocation(size);
      var r := libc(actual, SaturatingAdd(size, HEADER_SIZE));
      p' := Rewrap(p, size, r);
      GrantedRequest(old(State()), Call.Realloc(p, size, r));
      ReturnedBlock(old(State()), Call.Realloc(p, size, r));
    }

    method Memalign(alignment: nat, size: nat, libc: (nat, nat) -> Reply) returns (p: int)
      requires Ready(Call.Memalign(alignment, size, libc(alignment, PaddedSize(size, alignment))))
      modifies this, stats
      ensures var r := libc(alignment, PaddedSize(size, alignment));
        && p == Pointer(r, alignment) && State() == After(old(State()), Call.Memalign(alignment, size, r))
        && (r.Fresh? ==> Gains(old(State()), State(), p, Block(r.base, size + alignment + 40, size, alignment)))
    {
      stats.RecordAllocation(size);
      var extra := SaturatingAdd(SaturatingAdd(alignment, HEADER_SIZE), 8);
      var r := libc(alignment, SaturatingAdd(size, extra));
      if r.Fresh? {
        RequestCanPlace(State().world, Call.Memalign(alignment, size, r));
        GrantedRequest(old(State()), Call.Memalign(alignment, size, r));
      }
      p := ToVirtual(r, SaturatingAdd(size, extra), size, alignment);
    }

    /** Leaves the caller's pointer alone and reports ENOMEM when libc fails. */
    method PosixMemalign(memptr: int, alignment: nat, size: nat, libc: (nat, nat) -> Reply)
      returns (code: int, memptr': int)
      requires Ready(Call.Memalign(alignment, size, libc(alignment, PaddedSize(size, alignment))))
      modifies this, stats
      ensures var r := libc(alignment, PaddedSize(size, alignment));
        && (code, memptr') == (if r.Null? then (ENOMEM, memptr) else (0, UserAddress(r.base, alignment)))
        && State() == After(old(State()), Call.Memalign(alignment, size, r))
        && (r.Fresh? ==> Gains(old(State()), State(), memptr', Block(r.base, size + alignment + 40, size, alignment)))
    {
      stats.RecordAllocation(size);
      var extra := SaturatingAdd(SaturatingAdd(alignment, HEADER_SIZE), 8);
      var r := libc(alignment, SaturatingAdd(size, extra));
      if r.Null? {
        return ENOMEM, memptr;
      }
      RequestCanPlace(State().world, Call.Memalign(alignment, size, r));
      GrantedRequest(old(State()), Call.Memalign(alignment, size, r));
      code := 0;
      memptr' := ToVirtual(r, SaturatingAdd(size, extra), size, alignment);
    }

    /** `libc` gives memory once it has reused the block it was handed as it likes. */
    method Free(p: int, libc: int -> Mem)
      requires Ready(Call.Free(p, libc(Original(p))))
      modifies this, stats
      ensures State() == After(old(State()), Call.Free(p, libc(old(Original(p)))))
      ensures p in old(live) ==> Loses(old(State()), State(), p)
    {
      NullIsNotLive(State().world);
      if p == 0 {
        return;
      }
      if p in live {
        LiveBlocksExtract(State().world, p);
      }
      var handed := p;
      if IsOurs(mem, p) {
        var (size, _, actual) := Extract(mem, p);
        stats.RecordDeallocation(size);
        handed := actual;
      } else {
        assert live - {p} == live;
      }
      mem := libc(handed);
      heap, live := heap - {handed}, live - {p};
      ReturnedBlock(old(State()), Call.Free(p, libc(old(Original(p)))));
    }
  }
}
