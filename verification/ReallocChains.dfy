/** What happens to one block's bytes over a whole chain of calls. */
module ReallocChains {
  import opened Memory
  import opened Placement
  import opened TrackedHeap
  import opened Numbers
  import opened AllocatorRuns

  /** Where the block at `p` is after a call. */
  function Moved(c: Call, p: int): int {
    if c.Realloc? && c.p == p && c.reply.Fresh? then c.reply.base + HEADER_SIZE else p
  }

  /** A run in which the block at `p` is not freed. Everything else may happen: it may
      be reallocated any number of times, granted or refused, the program may write
      to it and to other blocks, and other blocks may come and go. */
  ghost predicate IsChain(s: Snapshot, p: int, script: seq<Call>)
    decreases |script|
  {
    p in s.world.live && (script == [] ||
      (var c := script[0];
       && Allowed(s.world, c) && (Touched(c) == p ==> c.Realloc?)
       && IsChain(After(s, c), Moved(c, p), script[1..])))
  }

  ghost function End(s: Snapshot, p: int, script: seq<Call>): (Snapshot, int)
    requires IsChain(s, p, script)
    decreases |script|
  {
    if script == [] then (s, p) else End(After(s, script[0]), Moved(script[0], p), script[1..])
  }

  /** What the program may count on after a call, of the bytes `known` that it counted
      on before: its own writes replace them and a granted realloc cuts them off. */
  function KnownAfter(w: World, p: int, known: seq<Byte>, c: Call): (k: seq<Byte>)
    requires p in w.live
  {
    if c.ProgramWrites? then Load(c.after, p, w.live[p].size)
    else if c.Realloc? && c.p == p && c.reply.Fresh? && c.size < |known| then known[..c.size]
    else known
  }

  ghost function Known(s: Snapshot, p: int, known: seq<Byte>, script: seq<Call>): seq<Byte>
    requires IsChain(s, p, script)
    decreases |script|
  {
    if script == [] then known
    else Known(After(s, script[0]), Moved(script[0], p), KnownAfter(s.world, p, known, script[0]), script[1..])
  }

  /** The block is one header past libc's and starts with the bytes. */
  ghost predicate Holds(w: World, p: int, known: seq<Byte>) {
    && p in w.live && p == w.live[p].base + HEADER_SIZE
    && |known| <= w.live[p].size && Load(w.mem, p, |known|) == known
  }

  lemma Prefix(m: Mem, p: int, m': Mem, p': int, size: nat, n: nat)
    requires n <= size && Load(m, p, size) == Load(m', p', size)
    ensures Load(m, p, n) == Load(m', p', n)
  {
    forall i | 0 <= i < n ensures Load(m, p, n)[i] == Load(m', p', n)[i] {
      assert Load(m, p, size)[i] == Load(m', p', size)[i];
    }
  }

  lemma MovedBytesLoad(m: Mem, m': Mem, a: int, a': int, size: int, n: nat)
    requires BytesMoved(m, m', a, a', size) && n <= size
    ensures Load(m', a', n) == Load(m, a, n)
  {
    forall i | 0 <= i < n ensures Load(m', a', n)[i] == Load(m, a, n)[i] {
      assert At(m', a' + i) == At(m, a' + i - a' + a);
    }
  }

  lemma ReallocMovesBytes(w: World, p: int, size: nat, r: Reply, n: nat)
    requires Valid(w) && p in w.live && p == w.live[p].base + HEADER_SIZE && IsWord(size) && r.Fresh?
    requires LegalRealloc(w.mem, w.heap, w.live[p].base, SaturatingAdd(size, HEADER_SIZE), r)
    requires n <= w.live[p].size && n <= size
    ensures Load(Reallocated(w, p, size, r).mem, r.base + HEADER_SIZE, n) == Load(w.mem, p, n)
  {
    assert BlockOk(w, p, w.live[p]);
    ReallocKeepsBytes(w, p, size, r);
    MovedBytesLoad(w.mem, Reallocated(w, p, size, r).mem, p, r.base + HEADER_SIZE, Min(size, w.live[p].size), n);
  }

  lemma ReallocStep(s: Snapshot, p: int, c: Call, known: seq<Byte>)
    requires Valid(s.world) && Holds(s.world, p, known)
    requires Allowed(s.world, c) && c.Realloc? && c.p == p && c.reply.Fresh?
    ensures Holds(After(s, c).world, Moved(c, p), KnownAfter(s.world, p, known, c))
  {
    NullIsNotLive(s.world);
    var kept := KnownAfter(s.world, p, known, c);
    Prefix(s.world.mem, p, s.world.mem, p, |known|, |kept|);
    PrefixKnown(s.world.mem, p, known, |kept|);
    ReallocMovesBytes(s.world, p, c.size, c.reply, |kept|);
  }

  lemma PrefixKnown(m: Mem, p: int, known: seq<Byte>, n: nat)
    requires n <= |known| && Load(m, p, |known|) == known
    ensures Load(m, p, n) == known[..n]
  {
    forall i | 0 <= i < n ensures Load(m, p, n)[i] == known[..n][i] {
      assert Load(m, p, |known|)[i] == known[i];
    }
  }

  /** A refused realloc leaves the block as it was. */
  lemma RefusedStep(s: Snapshot, p: int, c: Call, known: seq<Byte>)
    requires Valid(s.world) && Holds(s.world, p, known)
    requires Allowed(s.world, c) && c.Realloc? && c.p == p && c.reply.Null?
    ensures Holds(After(s, c).world, Moved(c, p), KnownAfter(s.world, p, known, c))
  {
    NullIsNotLive(s.world);
  }

  lemma OtherStep(s: Snapshot, p: int, c: Call, known: seq<Byte>)
    requires Valid(s.world) && Holds(s.world, p, known)
    requires Allowed(s.world, c) && !c.ProgramWrites? && Touched(c) != p
    ensures Holds(After(s, c).world, Moved(c, p), KnownAfter(s.world, p, known, c))
  {
    CallKeepsInvariant(s, c);
    assert BlockKept(s.world, After(s, c).world, p);
    Prefix(After(s, c).world.mem, p, s.world.mem, p, s.world.live[p].size, |known|);
  }

  /** One call leaves the program its bytes. */
  lemma CallKeepsBytes(s: Snapshot, p: int, c: Call, known: seq<Byte>)
    requires Valid(s.world) && Holds(s.world, p, known)
    requires Allowed(s.world, c) && (Touched(c) == p ==> c.Realloc?)
    ensures Holds(After(s, c).world, Moved(c, p), KnownAfter(s.world, p, known, c))
  {
    if c.ProgramWrites? {
      assert After(s, c).world == s.world.(mem := c.after);
    } else if Touched(c) != p {
      OtherStep(s, p, c, known);
    } else if c.reply.Fresh? {
      ReallocStep(s, p, c, known);
    } else {
      RefusedStep(s, p, c, known);
    }
  }

  /** Over every run in which it is not freed, a block one header past libc's holds
      what the program last wrote to it, however often it moves, up to the smallest
      size it has had since. */
  lemma {:induction false} ChainKeepsBytes(s: Snapshot, p: int, known: seq<Byte>, script: seq<Call>)
    requires Valid(s.world) && IsChain(s, p, script) && Holds(s.world, p, known)
    ensures var (t, q) := End(s, p, script);
      Valid(t.world) && Holds(t.world, q, Known(s, p, known, script))
    decreases |script|
  {
    if script != [] {
      CallKeepsInvariant(s, script[0]);
      CallKeepsBytes(s, p, script[0], known);
      ChainKeepsBytes(After(s, script[0]), Moved(script[0], p), KnownAfter(s.world, p, known, script[0]), script[1..]);
    }
  }

  /** The smallest size the block has had. */
  ghost function LeastSize(s: Snapshot, p: int, script: seq<Call>): nat
    requires IsChain(s, p, script)
    decreases |script|
  {
    var size := s.world.live[p].size;
    if script == [] then size
    else Min(size, LeastSize(After(s, script[0]), Moved(script[0], p), script[1..]))
  }

  /** No write touches the block. */
  ghost predicate Unwritten(s: Snapshot, p: int, script: seq<Call>)
    requires IsChain(s, p, script)
    decreases |script|
  {
    script == [] ||
    (&& (script[0].ProgramWrites? ==> SameBytes(s.world.mem, script[0].after, p, p + s.world.live[p].size))
     && Unwritten(After(s, script[0]), Moved(script[0], p), script[1..]))
  }

  lemma {:induction false} KnownLong(s: Snapshot, p: int, known: seq<Byte>, n: nat, script: seq<Call>)
    requires Valid(s.world) && IsChain(s, p, script) && Unwritten(s, p, script) && Holds(s.world, p, known)
    requires n <= |known| && n <= LeastSize(s, p, script)
    ensures n <= |Known(s, p, known, script)| && Known(s, p, known, script)[..n] == known[..n]
    decreases |script|
  {
    if script != [] {
      var c, s1, p1, known1 := script[0], After(s, script[0]), Moved(script[0], p), KnownAfter(s.world, p, known, script[0]);
      CallKeepsInvariant(s, c);
      CallKeepsBytes(s, p, c, known);
      if c.ProgramWrites? {
        PrefixKnown(s.world.mem, p, known, n);
        assert Load(c.after, p, n) == Load(s.world.mem, p, n);
        PrefixKnown(c.after, p, known1, n);
      } else if Touched(c) == p && c.reply.Fresh? {
        LeastSizeBelow(s1, p1, script[1..]);
        ReallocatedSize(s, p, c);
        assert known1[..n] == known[..n];
      }
      KnownLong(s1, p1, known1, n, script[1..]);
    }
  }

  lemma LeastSizeBelow(s: Snapshot, p: int, script: seq<Call>)
    requires IsChain(s, p, script)
    ensures LeastSize(s, p, script) <= s.world.live[p].size
  {
  }

  lemma ReallocatedSize(s: Snapshot, p: int, c: Call)
    requires Valid(s.world) && p in s.world.live && Allowed(s.world, c) && c.Realloc? && c.p == p && c.reply.Fresh?
    ensures Moved(c, p) in After(s, c).world.live && After(s, c).world.live[Moved(c, p)].size == c.size
  {
    NullIsNotLive(s.world);
  }

  /** In particular the first bytes survive unless the program itself writes over
      them, up to the smallest size the block has had. */
  lemma UnwrittenBytesSurvive(s: Snapshot, p: int, script: seq<Call>)
    requires Valid(s.world) && IsChain(s, p, script) && Unwritten(s, p, script)
    requires p == s.world.live[p].base + HEADER_SIZE
    ensures var (t, q) := End(s, p, script);
      var n := LeastSize(s, p, script);
      q in t.world.live && n <= t.world.live[q].size && Load(t.world.mem, q, n) == Load(s.world.mem, p, n)
  {
    var known, n := Load(s.world.mem, p, s.world.live[p].size), LeastSize(s, p, script);
    var (t, q) := End(s, p, script);
    LeastSizeBelow(s, p, script);
    ChainKeepsBytes(s, p, known, script);
    KnownLong(s, p, known, n, script);
    PrefixKnown(s.world.mem, p, known, n);
    PrefixKnown(t.world.mem, q, Known(s, p, known, script), n);
  }
}
