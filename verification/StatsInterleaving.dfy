/** The allocation counters under any interleaving of threads: each atomic
    operation of `record_allocation` and `record_deallocation` is one step. */
module StatsInterleaving {
  import opened AllocationStats
  import opened Numbers
  import opened Sums

  /** The atomic operation a thread performs next. */
  datatype Pc =
    | Idle
    | CountAllocation(size: nat)
    | AddAllocated(size: nat)
    | AddCurrent(size: nat)
    | RaisePeak(current: nat)
    | CountDeallocation(size: nat)
    | AddDeallocated(size: nat)
    | SubtractCurrent(size: nat)

  datatype State = State(totals: Totals, threads: map<int, Pc>)

  datatype Step =
    | RecordAllocation(thread: int, size: nat)
    | RecordDeallocation(thread: int, size: nat)
    | Advance(thread: int)
    | Reset

  function At(s: State, thread: int): Pc {
    if thread in s.threads then s.threads[thread] else Idle
  }

  ghost predicate Quiescent(s: State) {
    forall t :: t in s.threads ==> s.threads[t].Idle?
  }

  /** A thread starts a call when it is in none; reset waits until no call is in flight. */
  ghost predicate Enabled(s: State, step: Step) {
    match step
    case RecordAllocation(t, _) => At(s, t).Idle?
    case RecordDeallocation(t, _) => At(s, t).Idle?
    case Advance(t) => !At(s, t).Idle?
    case Reset => Quiescent(s)
  }

  function Operate(totals: Totals, pc: Pc): (Totals, Pc)
    requires !pc.Idle?
  {
    match pc
    case CountAllocation(n) => (totals.(allocations := totals.allocations + 1), AddAllocated(n))
    case AddAllocated(n) => (totals.(bytesAllocated := totals.bytesAllocated + n), AddCurrent(n))
    case AddCurrent(n) => (totals.(currentBytes := totals.currentBytes + n), RaisePeak(totals.currentBytes + n))
    case RaisePeak(c) => (totals.(peakBytes := Max(totals.peakBytes, c)), Idle)
    case CountDeallocation(n) => (totals.(deallocations := totals.deallocations + 1), AddDeallocated(n))
    case AddDeallocated(n) => (totals.(bytesDeallocated := totals.bytesDeallocated + n), SubtractCurrent(n))
    case SubtractCurrent(n) =>
      (totals.(currentBytes := if totals.currentBytes >= n then totals.currentBytes - n else 0), Idle)
  }

  function After(s: State, step: Step): State
    requires step.Advance? ==> !At(s, step.thread).Idle?
  {
    match step
    case RecordAllocation(t, n) => s.(threads := s.threads[t := CountAllocation(n)])
    case RecordDeallocation(t, n) => s.(threads := s.threads[t := CountDeallocation(n)])
    case Advance(t) =>
      var (totals, pc) := Operate(s.totals, At(s, t));
      State(totals, s.threads[t := pc])
    case Reset => s.(totals := ZERO)
  }

  // ---- runs, and two quantities read off them ----

  ghost predicate IsRun(s: State, steps: seq<Step>)
    decreases |steps|
  {
    steps == [] || (Enabled(s, steps[0]) && IsRun(After(s, steps[0]), steps[1..]))
  }

  ghost function Outcome(s: State, steps: seq<Step>): State
    requires IsRun(s, steps)
    decreases |steps|
  {
    if steps == [] then s else Outcome(After(s, steps[0]), steps[1..])
  }

  /** The largest value `current_bytes` has held since the last reset, given the
      largest it held before the run. */
  ghost function HighWater(s: State, h: nat, steps: seq<Step>): nat
    requires IsRun(s, steps)
    decreases |steps|
  {
    if steps == [] then h
    else
      var s' := After(s, steps[0]);
      HighWater(s', if steps[0].Reset? then 0 else Max(h, s'.totals.currentBytes), steps[1..])
  }

  function ClippedBy(s: State, step: Step): nat {
    if step.Advance? && At(s, step.thread).SubtractCurrent? && s.totals.currentBytes < At(s, step.thread).size
    then At(s, step.thread).size - s.totals.currentBytes else 0
  }

  /** The bytes that saturating subtractions have swallowed since the last reset. */
  ghost function Clipped(s: State, lost: nat, steps: seq<Step>): nat
    requires IsRun(s, steps)
    decreases |steps|
  {
    if steps == [] then lost
    else Clipped(After(s, steps[0]), if steps[0].Reset? then 0 else lost + ClippedBy(s, steps[0]), steps[1..])
  }

  // ---- the invariants ----

  /** The peak, together with the peaks still to be raised, is the high-water mark. */
  ghost predicate PeakInvariant(s: State, h: nat) {
    && s.totals.currentBytes <= h
    && s.totals.peakBytes <= h
    && (forall t :: t in s.threads && s.threads[t].RaisePeak? ==> s.threads[t].current <= h)
    && (s.totals.peakBytes == h || exists t :: t in s.threads && s.threads[t] == RaisePeak(h))
  }

  /** Bytes counted in one of the totals but not yet in `current_bytes`. */
  function InFlight(pc: Pc): int {
    match pc
    case AddCurrent(n) => n
    case SubtractCurrent(n) => -(n as int)
    case _ => 0
  }

  ghost function Pending(threads: map<int, Pc>): map<int, int> {
    map t | t in threads :: InFlight(threads[t])
  }

  ghost predicate Conservation(s: State, lost: nat) {
    s.totals.bytesAllocated + lost ==
      s.totals.currentBytes + s.totals.bytesDeallocated + Sum(Pending(s.threads))
  }

  lemma StepKeepsPeak(s: State, h: nat, step: Step)
    requires Enabled(s, step) && PeakInvariant(s, h)
    ensures PeakInvariant(After(s, step), if step.Reset? then 0 else Max(h, After(s, step).totals.currentBytes))
  {
    var s', h' := After(s, step), if step.Reset? then 0 else Max(h, After(s, step).totals.currentBytes);
    if step.Reset? {
    } else if step.Advance? && At(s, step.thread).AddCurrent? && h' > h {
      assert s'.threads[step.thread] == RaisePeak(h');
    } else if s.totals.peakBytes != h {
      var t :| t in s.threads && s.threads[t] == RaisePeak(h);
      assert s'.totals.peakBytes == h || s'.threads[t] == RaisePeak(h);
    }
  }

  lemma PendingWith(threads: map<int, Pc>, t: int, pc: Pc)
    ensures Sum(Pending(threads[t := pc])) ==
      Sum(Pending(threads)) + InFlight(pc) - if t in threads then InFlight(threads[t]) else 0
  {
    SumWith(Pending(threads), t, InFlight(pc));
    assert Pending(threads[t := pc]) == Pending(threads)[t := InFlight(pc)];
  }

  lemma StepConserves(s: State, lost: nat, step: Step)
    requires Enabled(s, step) && Conservation(s, lost)
    ensures Conservation(After(s, step), if step.Reset? then 0 else lost + ClippedBy(s, step))
  {
    if step.Reset? {
      SumOfZeros(Pending(s.threads));
    } else {
      PendingWith(s.threads, step.thread, After(s, step).threads[step.thread]);
    }
  }

  /** Every interleaving keeps both invariants. */
  lemma {:induction false} EveryInterleaving(s: State, h: nat, lost: nat, steps: seq<Step>)
    requires IsRun(s, steps) && PeakInvariant(s, h) && Conservation(s, lost)
    ensures PeakInvariant(Outcome(s, steps), HighWater(s, h, steps))
    ensures Conservation(Outcome(s, steps), Clipped(s, lost, steps))
    decreases |steps|
  {
    if steps != [] {
      var step, s' := steps[0], After(s, steps[0]);
      StepKeepsPeak(s, h, step);
      StepConserves(s, lost, step);
      EveryInterleaving(s', if step.Reset? then 0 else Max(h, s'.totals.currentBytes),
                        if step.Reset? then 0 else lost + ClippedBy(s, step), steps[1..]);
    }
  }

  ghost predicate Initial(s: State) {
    s.totals == ZERO && Quiescent(s)
  }

  /** From the zeroed counters: with no call in flight the peak is exactly the
      high-water mark of `current_bytes`, and the byte totals balance up to what
      saturation swallowed. */
  lemma QuiescentTotals(s: State, steps: seq<Step>)
    requires Initial(s) && IsRun(s, steps) && Quiescent(Outcome(s, steps))
    ensures var totals := Outcome(s, steps).totals;
      && totals.peakBytes == HighWater(s, 0, steps)
      && totals.bytesAllocated + Clipped(s, 0, steps) == totals.currentBytes + totals.bytesDeallocated
  {
    SumOfZeros(Pending(s.threads));
    EveryInterleaving(s, 0, 0, steps);
    SumOfZeros(Pending(Outcome(s, steps).threads));
  }

  // ---- what the totals count ----

  datatype Total = Allocations | Deallocations | BytesAllocated | BytesDeallocated

  function Amount(totals: Totals, which: Total): nat {
    match which
    case Allocations => totals.allocations
    case Deallocations => totals.deallocations
    case BytesAllocated => totals.bytesAllocated
    case BytesDeallocated => totals.bytesDeallocated
  }

  /** What a call that starts with this step should add to the total. */
  function Wanted(step: Step, which: Total): nat {
    match (step, which)
    case (RecordAllocation(_, _), Allocations) => 1
    case (RecordAllocation(_, size), BytesAllocated) => size
    case (RecordDeallocation(_, _), Deallocations) => 1
    case (RecordDeallocation(_, size), BytesDeallocated) => size
    case _ => 0
  }

  /** All that since the last reset, given what was wanted before the run. */
  function WantedInAll(before: nat, steps: seq<Step>, which: Total): nat
    decreases |steps|
  {
    if steps == [] then before
    else WantedInAll(if steps[0].Reset? then 0 else before + Wanted(steps[0], which), steps[1..], which)
  }

  /** What a thread has still to add to the total. */
  function Owed(pc: Pc, which: Total): nat {
    match (pc, which)
    case (CountAllocation(_), Allocations) => 1
    case (CountAllocation(size), BytesAllocated) => size
    case (AddAllocated(size), BytesAllocated) => size
    case (CountDeallocation(_), Deallocations) => 1
    case (CountDeallocation(size), BytesDeallocated) => size
    case (AddDeallocated(size), BytesDeallocated) => size
    case _ => 0
  }

  ghost function OwedBy(threads: map<int, Pc>, which: Total): map<int, int> {
    map t | t in threads :: Owed(threads[t], which)
  }

  ghost predicate Counted(s: State, wanted: nat, which: Total) {
    Amount(s.totals, which) + Sum(OwedBy(s.threads, which)) == wanted
  }

  lemma OwedWith(threads: map<int, Pc>, t: int, pc: Pc, which: Total)
    ensures Sum(OwedBy(threads[t := pc], which)) ==
      Sum(OwedBy(threads, which)) + Owed(pc, which) - if t in threads then Owed(threads[t], which) else 0
  {
    SumWith(OwedBy(threads, which), t, Owed(pc, which));
    assert OwedBy(threads[t := pc], which) == OwedBy(threads, which)[t := Owed(pc, which)];
  }

  lemma StepKeepsCount(s: State, wanted: nat, step: Step, which: Total)
    requires Enabled(s, step) && Counted(s, wanted, which)
    ensures Counted(After(s, step), if step.Reset? then 0 else wanted + Wanted(step, which), which)
  {
    if step.Reset? {
      SumOfZeros(OwedBy(s.threads, which));
    } else {
      OwedWith(s.threads, step.thread, After(s, step).threads[step.thread], which);
    }
  }

  lemma {:induction false} EveryTotal(s: State, wanted: nat, steps: seq<Step>, which: Total)
    requires IsRun(s, steps) && Counted(s, wanted, which)
    ensures Counted(Outcome(s, steps), WantedInAll(wanted, steps, which), which)
    decreases |steps|
  {
    if steps != [] {
      StepKeepsCount(s, wanted, steps[0], which);
      EveryTotal(After(s, steps[0]), if steps[0].Reset? then 0 else wanted + Wanted(steps[0], which), steps[1..], which);
    }
  }

  /** With no call in flight each total is exactly what the calls since the last reset
      were given: their number, or the bytes they were called with. */
  lemma QuiescentCounts(s: State, steps: seq<Step>, which: Total)
    requires Initial(s) && IsRun(s, steps) && Quiescent(Outcome(s, steps))
    ensures Amount(Outcome(s, steps).totals, which) == WantedInAll(0, steps, which)
  {
    SumOfZeros(OwedBy(s.threads, which));
    EveryTotal(s, 0, steps, which);
    SumOfZeros(OwedBy(Outcome(s, steps).threads, which));
  }

  // ---- when nothing is swallowed ----

  /** Bytes a deallocation under way has still to take off. */
  function Claim(pc: Pc): nat {
    match pc
    case CountDeallocation(n) => n
    case AddDeallocated(n) => n
    case SubtractCurrent(n) => n
    case _ => 0
  }

  ghost function Claims(threads: map<int, Pc>): map<int, int> {
    map t | t in threads :: Claim(threads[t])
  }

  /** Bytes added to `current_bytes` that no deallocation has claimed yet. */
  function Unclaimed(s: State, live: nat, step: Step): int {
    match step
    case RecordDeallocation(_, size) => live - size
    case Advance(t) => if At(s, t).AddCurrent? then live + At(s, t).size else live
    case Reset => 0
    case RecordAllocation(_, _) => live
  }

  /** Each deallocation is of bytes that were added before and not yet claimed. */
  ghost predicate Backed(s: State, live: nat, steps: seq<Step>)
    requires IsRun(s, steps)
    decreases |steps|
  {
    steps == [] ||
    (Unclaimed(s, live, steps[0]) >= 0 && Backed(After(s, steps[0]), Unclaimed(s, live, steps[0]), steps[1..]))
  }

  ghost predicate Covered(s: State, live: nat) {
    s.totals.currentBytes == live + Sum(Claims(s.threads))
  }

  lemma ClaimsWith(threads: map<int, Pc>, t: int, pc: Pc)
    ensures Sum(Claims(threads[t := pc])) ==
      Sum(Claims(threads)) + Claim(pc) - if t in threads then Claim(threads[t]) else 0
  {
    SumWith(Claims(threads), t, Claim(pc));
    assert Claims(threads[t := pc]) == Claims(threads)[t := Claim(pc)];
  }

  lemma ClaimBelowSum(threads: map<int, Pc>, t: int)
    requires t in threads
    ensures Claim(threads[t]) <= Sum(Claims(threads))
  {
    SumWithout(Claims(threads), t);
    SumNonNegative(Claims(threads) - {t});
  }

  lemma StepKeepsCover(s: State, live: nat, step: Step)
    requires Enabled(s, step) && Covered(s, live) && Unclaimed(s, live, step) >= 0
    ensures ClippedBy(s, step) == 0 && Covered(After(s, step), Unclaimed(s, live, step))
  {
    if step.Reset? {
      SumOfZeros(Claims(s.threads));
    } else {
      if step.thread in s.threads {
        ClaimBelowSum(s.threads, step.thread);
      }
      ClaimsWith(s.threads, step.thread, After(s, step).threads[step.thread]);
    }
  }

  /** Then no saturating subtraction ever swallows anything, in any interleaving. */
  lemma {:induction false} NothingSwallowed(s: State, live: nat, steps: seq<Step>)
    requires IsRun(s, steps) && Backed(s, live, steps) && Covered(s, live)
    ensures Clipped(s, 0, steps) == 0
    decreases |steps|
  {
    if steps != [] {
      StepKeepsCover(s, live, steps[0]);
      NothingSwallowed(After(s, steps[0]), Unclaimed(s, live, steps[0]), steps[1..]);
    }
  }

  /** From the zeroed counters the byte totals then balance exactly. */
  lemma BackedTotals(s: State, steps: seq<Step>)
    requires Initial(s) && IsRun(s, steps) && Backed(s, 0, steps) && Quiescent(Outcome(s, steps))
    ensures var totals := Outcome(s, steps).totals;
      totals.bytesAllocated == totals.currentBytes + totals.bytesDeallocated
  {
    SumOfZeros(Claims(s.threads));
    NothingSwallowed(s, 0, steps);
    QuiescentTotals(s, steps);
  }

  // ---- one thread alone ----

  /** The totals after the thread has gone from `pc` to the end of its call. */
  ghost function Finished(totals: Totals, pc: Pc): Totals
    decreases Left(pc)
  {
    if pc.Idle? then totals
    else
      var (t, next) := Operate(totals, pc);
      Finished(t, next)
  }

  function Left(pc: Pc): nat {
    match pc
    case Idle => 0
    case CountAllocation(_) => 4
    case AddAllocated(_) => 3
    case AddCurrent(_) => 2
    case RaisePeak(_) => 1
    case CountDeallocation(_) => 3
    case AddDeallocated(_) => 2
    case SubtractCurrent(_) => 1
  }

  /** The steps of a call that nothing interrupts. */
  function Alone(thread: int, start: Step): seq<Step> {
    if start.RecordAllocation? then [start] + seq(4, _ => Advance(thread))
    else [start] + seq(3, _ => Advance(thread))
  }

  lemma AdvanceAll(s: State, t: int, n: nat)
    requires Left(At(s, t)) == n
    ensures IsRun(s, seq(n, _ => Advance(t)))
    ensures Outcome(s, seq(n, _ => Advance(t))).totals == Finished(s.totals, At(s, t))
    decreases n
  {
    var steps := seq(n, _ => Advance(t));
    if n > 0 {
      assert steps[1..] == seq(n - 1, _ => Advance(t));
      AdvanceAll(After(s, Advance(t)), t, n - 1);
    }
  }

  /** Uninterrupted, the atomic steps of a call add up to what the object records. */
  lemma UninterruptedCall(s: State, t: int, size: nat)
    requires At(s, t).Idle?
    ensures var steps := Alone(t, RecordAllocation(t, size));
      IsRun(s, steps) && Outcome(s, steps).totals == AfterAllocation(s.totals, size)
    ensures var steps := Alone(t, RecordDeallocation(t, size));
      IsRun(s, steps) && Outcome(s, steps).totals == AfterDeallocation(s.totals, size)
  {
    var alloc, dealloc := RecordAllocation(t, size), RecordDeallocation(t, size);
    AdvanceAll(After(s, alloc), t, 4);
    assert Alone(t, alloc)[1..] == seq(4, _ => Advance(t));
    AdvanceAll(After(s, dealloc), t, 3);
    assert Alone(t, dealloc)[1..] == seq(3, _ => Advance(t));
    FinishedCalls(s.totals, size);
  }

  lemma FinishedCalls(totals: Totals, size: nat)
    ensures Finished(totals, CountAllocation(size)) == AfterAllocation(totals, size)
    ensures Finished(totals, CountDeallocation(size)) == AfterDeallocation(totals, size)
  {
    var t1 := Operate(totals, CountAllocation(size)).0;
    var t2 := Operate(t1, AddAllocated(size)).0;
    var (t3, last) := Operate(t2, AddCurrent(size));
    assert Finished(t3, last) == Operate(t3, last).0;
    assert Finished(t1, AddAllocated(size)) == Finished(t2, AddCurrent(size)) == Finished(t3, last);
    var u1 := Operate(totals, CountDeallocation(size)).0;
    var u2 := Operate(u1, AddDeallocated(size)).0;
    assert Finished(u2, SubtractCurrent(size)) == Operate(u2, SubtractCurrent(size)).0;
    assert Finished(u1, AddDeallocated(size)) == Finished(u2, SubtractCurrent(size));
  }
}
