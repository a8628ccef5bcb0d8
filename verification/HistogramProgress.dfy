/** From every state each recorder and the snapshot can be driven to their end, and what
    they leave when nothing interrupts them. */
module HistogramProgress {
  import opened Histogram
  import opened HistogramRuns

  lemma Prepend(c: Config, s: State, step: Step, rest: seq<Step>)
    requires Shaped(c, s) && Enabled(s, step) && IsRun(c, After(c, s, step), rest)
    ensures IsRun(c, s, [step] + rest) && Outcome(c, s, [step] + rest) == Outcome(c, After(c, s, step), rest)
  {
    assert ([step] + rest)[1..] == rest;
  }

  // ---- a recorder ----

  /** How many steps a recorder is from its end if nothing interrupts it. */
  function Left(s: State, pc: Pc): nat {
    match pc
    case Idle => 0
    case IncrementBucket(_) => 4
    case IncrementCount(_) => 3
    case LoadSum(_) => 2
    case ExchangeSum(_, current) => if current == s.sum then 1 else 2
  }

  lemma RecorderStep(c: Config, s: State, t: int)
    requires Shaped(c, s) && !At(s, t).Idle?
    ensures var s' := After(c, s, Advance(t, false));
      && Left(s', At(s', t)) < Left(s, At(s, t)) && s'.recorders - {t} == s.recorders - {t} && s'.reader == s.reader
      && (At(s', t).Idle? ==> s'.sum == c.add(s.sum, At(s, t).v))
      && (!At(s', t).Idle? ==> At(s', t).v == At(s, t).v && s'.sum == s.sum)
  {
  }

  /** A recorder under way ends in at most four steps of its own, with its sample added
      to the sum once and everyone else where they were. */
  lemma RecorderFinishes(c: Config, s: State, t: int) returns (steps: seq<Step>)
    requires Shaped(c, s) && !At(s, t).Idle?
    ensures |steps| <= 4 && (forall i :: 0 <= i < |steps| ==> steps[i] == Advance(t, false)) && IsRun(c, s, steps)
    ensures var s' := Outcome(c, s, steps);
      && At(s', t).Idle? && s'.sum == c.add(s.sum, At(s, t).v)
      && s'.recorders - {t} == s.recorders - {t} && s'.reader == s.reader
  {
    steps := RecorderRuns(c, s, t);
  }

  lemma {:induction false} RecorderRuns(c: Config, s: State, t: int) returns (steps: seq<Step>)
    requires Shaped(c, s) && !At(s, t).Idle?
    ensures |steps| <= Left(s, At(s, t)) && (forall i :: 0 <= i < |steps| ==> steps[i] == Advance(t, false)) && IsRun(c, s, steps)
    ensures var s' := Outcome(c, s, steps);
      && At(s', t).Idle? && s'.sum == c.add(s.sum, At(s, t).v)
      && s'.recorders - {t} == s.recorders - {t} && s'.reader == s.reader
    decreases Left(s, At(s, t))
  {
    var step := Advance(t, false);
    var s1, rest := After(c, s, step), [];
    RecorderStep(c, s, t);
    if !At(s1, t).Idle? {
      rest := RecorderRuns(c, s1, t);
    }
    steps := [step] + rest;
    Prepend(c, s, step, rest);
  }

  // ---- the snapshot ----

  function ReaderLeft(c: Config, r: Reader): int {
    match r
    case NotStarted => |c.bounds| + 4
    case Walking(_, _, buckets) => |c.bounds| + 3 - |buckets|
    case LoadCount(_, _) => 2
    case LoadTotal(_, _, _) => 1
    case Done(_, _, _, _) => 0
  }

  /** A snapshot ends by its own steps, which change nothing else. */
  lemma {:induction false} ReaderFinishes(c: Config, s: State) returns (steps: seq<Step>)
    requires Shaped(c, s)
    ensures (forall i :: 0 <= i < |steps| ==> steps[i] == AdvanceReader) && IsRun(c, s, steps)
    ensures var s' := Outcome(c, s, steps); s'.reader.Done? && s' == s.(reader := s'.reader)
    decreases ReaderLeft(c, s.reader)
  {
    steps := [];
    if !s.reader.Done? {
      var s1 := After(c, s, AdvanceReader);
      var rest := ReaderFinishes(c, s1);
      steps := [AdvanceReader] + rest;
      Prepend(c, s, AdvanceReader, rest);
    }
  }

  /** Uninterrupted, a snapshot is exact: each bucket holds the samples at or below its
      bound that were bucketed, and count and sum are the ones held. */
  lemma QuietSnapshot(c: Config, s: State, before: seq<Step>) returns (later: seq<Step>)
    requires Initial(c, s) && IsRun(c, s, before) && Sorted(c.bounds) && Outcome(c, s, before).reader.NotStarted?
    ensures (forall i :: 0 <= i < |later| ==> later[i] == AdvanceReader)
    ensures var first := Outcome(c, s, before);
      && IsRun(c, After(c, first, AdvanceReader), later)
      && var r := Outcome(c, After(c, first, AdvanceReader), later).reader;
      && r.Done? && |r.buckets| == |c.bounds| + 1 && r.count == first.count && r.sum == first.sum
      && forall i :: 0 <= i < |r.buckets| ==> r.buckets[i] == UpTo(c.bounds, first.log.bucketed, i)
  {
    var first := Outcome(c, s, before);
    later := ReaderFinishes(c, After(c, first, AdvanceReader));
    SnapshotIsBracketed(c, s, before, later);
    InitialInvariant(c, s);
    EveryInterleaving(c, s, before);
    assert first.log.summed[..|first.log.summed|] == first.log.summed;
  }
}
