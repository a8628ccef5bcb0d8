/** What holds in every reachable state of the histogram, and what a snapshot
    taken in the middle of it all can report. */
module HistogramRuns {
  import opened Sums
  import opened Histogram

  // ---- the totals ----

  ghost predicate TotalsOk(c: Config, s: State) {
    && |s.counts| == |c.bounds| + 1
    && (forall i :: 0 <= i < |s.counts| ==> s.counts[i] == InBucket(c.bounds, s.log.bucketed, i))
    && s.count == |s.log.counted|
    && s.sum == Fold(c.add, s.log.summed)
  }

  lemma StepKeepsTotals(c: Config, s: State, step: Step)
    requires Shaped(c, s) && Enabled(s, step) && TotalsOk(c, s)
    ensures TotalsOk(c, After(c, s, step))
  {
    if step.Advance? {
      var pc := At(s, step.thread);
      if pc.IncrementBucket? {
        assert (s.log.bucketed + [pc.v])[..|s.log.bucketed|] == s.log.bucketed;
      } else if pc.ExchangeSum? {
        assert (s.log.summed + [pc.v])[..|s.log.summed|] == s.log.summed;
      }
    }
  }

  // ---- where each recorded sample is ----

  datatype Stage = ToBucket | ToCount | ToSum

  predicate AtStage(pc: Pc, stage: Stage) {
    match stage
    case ToBucket => pc.IncrementBucket?
    case ToCount => pc.IncrementCount?
    case ToSum => pc.LoadSum? || pc.ExchangeSum?
  }

  /** 1 for a recorder at the stage, with the given sample if one is given. */
  function Held(pc: Pc, stage: Stage, sample: Option): int {
    if AtStage(pc, stage) && (sample.Some? ==> pc.v == sample.v) then 1 else 0
  }

  datatype Option = None | Some(v: real)

  ghost function Holdings(recorders: map<int, Pc>, stage: Stage, sample: Option): map<int, int> {
    map t | t in recorders :: Held(recorders[t], stage, sample)
  }

  /** How many recorders are at the stage, with the given sample if one is given. */
  ghost function InTransit(recorders: map<int, Pc>, stage: Stage, sample: Option): int {
    Sum(Holdings(recorders, stage, sample))
  }

  function Before(log: Log, stage: Stage): seq<real> {
    match stage
    case ToBucket => log.recorded
    case ToCount => log.bucketed
    case ToSum => log.counted
  }

  function Beyond(log: Log, stage: Stage): seq<real> {
    match stage
    case ToBucket => log.bucketed
    case ToCount => log.counted
    case ToSum => log.summed
  }

  function Occurrences(xs: seq<real>, sample: Option): int {
    if sample.Some? then multiset(xs)[sample.v] else |xs|
  }

  lemma OccurrencesAppend(xs: seq<real>, v: real, sample: Option)
    ensures Occurrences(xs + [v], sample) == Occurrences(xs, sample) + if sample == None || sample == Some(v) then 1 else 0
  {
  }

  ghost predicate Balanced(log: Log, recorders: map<int, Pc>, stage: Stage, sample: Option) {
    Occurrences(Before(log, stage), sample) == Occurrences(Beyond(log, stage), sample) + InTransit(recorders, stage, sample)
  }

  /** No sample is lost or counted twice between one stage and the next. */
  ghost predicate SamplesOk(s: State) {
    forall stage: Stage, sample: Option :: Balanced(s.log, s.recorders, stage, sample)
  }

  lemma TransitWith(recorders: map<int, Pc>, t: int, pc: Pc, stage: Stage, sample: Option)
    ensures InTransit(recorders[t := pc], stage, sample) ==
      InTransit(recorders, stage, sample) + Held(pc, stage, sample)
      - if t in recorders then Held(recorders[t], stage, sample) else 0
  {
    SumWith(Holdings(recorders, stage, sample), t, Held(pc, stage, sample));
    assert Holdings(recorders[t := pc], stage, sample) ==
      Holdings(recorders, stage, sample)[t := Held(pc, stage, sample)];
  }

  /** Moving one recorder from `pc` to `pc'` while the logs grow to match. */
  lemma MoveKeepsBalance(log: Log, log': Log, recorders: map<int, Pc>, t: int, pc': Pc, stage: Stage, sample: Option)
    requires Balanced(log, recorders, stage, sample)
    requires var pc := if t in recorders then recorders[t] else Idle;
      Occurrences(Before(log', stage), sample) - Occurrences(Before(log, stage), sample) + Held(pc, stage, sample) ==
      Occurrences(Beyond(log', stage), sample) - Occurrences(Beyond(log, stage), sample) + Held(pc', stage, sample)
    ensures Balanced(log', recorders[t := pc'], stage, sample)
  {
    TransitWith(recorders, t, pc', stage, sample);
  }

  lemma RecordKeepsBalance(s: State, t: int, v: real, stage: Stage, sample: Option)
    requires At(s, t).Idle? && Balanced(s.log, s.recorders, stage, sample)
    ensures Balanced(s.log.(recorded := s.log.recorded + [v]), s.recorders[t := IncrementBucket(v)], stage, sample)
  {
    OccurrencesAppend(s.log.recorded, v, sample);
    MoveKeepsBalance(s.log, s.log.(recorded := s.log.recorded + [v]), s.recorders, t, IncrementBucket(v), stage, sample);
  }

  lemma CountingKeepsBalance(c: Config, s: State, t: int, spurious: bool, stage: Stage, sample: Option)
    requires Shaped(c, s) && (At(s, t).IncrementBucket? || At(s, t).IncrementCount?)
    requires Balanced(s.log, s.recorders, stage, sample)
    ensures Balanced(Advanced(c, s, t, spurious).log, Advanced(c, s, t, spurious).recorders, stage, sample)
  {
    var pc, log' := At(s, t), Advanced(c, s, t, spurious).log;
    if pc.IncrementBucket? {
      OccurrencesAppend(s.log.bucketed, pc.v, sample);
      MoveKeepsBalance(s.log, log', s.recorders, t, IncrementCount(pc.v), stage, sample);
    } else {
      OccurrencesAppend(s.log.counted, pc.v, sample);
      MoveKeepsBalance(s.log, log', s.recorders, t, LoadSum(pc.v), stage, sample);
    }
  }

  lemma SummingKeepsBalance(c: Config, s: State, t: int, spurious: bool, stage: Stage, sample: Option)
    requires Shaped(c, s) && (At(s, t).LoadSum? || At(s, t).ExchangeSum?)
    requires Balanced(s.log, s.recorders, stage, sample)
    ensures Balanced(Advanced(c, s, t, spurious).log, Advanced(c, s, t, spurious).recorders, stage, sample)
  {
    var pc, log' := At(s, t), Advanced(c, s, t, spurious).log;
    if pc.ExchangeSum? && s.sum == pc.current && !spurious {
      OccurrencesAppend(s.log.summed, pc.v, sample);
      MoveKeepsBalance(s.log, log', s.recorders, t, Idle, stage, sample);
    } else {
      MoveKeepsBalance(s.log, log', s.recorders, t, ExchangeSum(pc.v, s.sum), stage, sample);
    }
  }

  /** A step moves its sample into a stage, out of it, or neither. */
  lemma StepKeepsBalance(c: Config, s: State, step: Step, stage: Stage, sample: Option)
    requires Shaped(c, s) && Enabled(s, step) && !step.AdvanceReader?
    requires Balanced(s.log, s.recorders, stage, sample)
    ensures Balanced(After(c, s, step).log, After(c, s, step).recorders, stage, sample)
  {
    match step
    case Record(t, v) =>
      RecordKeepsBalance(s, t, v, stage, sample);
    case Advance(t, spurious) =>
      if At(s, t).IncrementBucket? || At(s, t).IncrementCount? {
        CountingKeepsBalance(c, s, t, spurious, stage, sample);
      } else {
        SummingKeepsBalance(c, s, t, spurious, stage, sample);
      }
  }

  lemma StepKeepsSamples(c: Config, s: State, step: Step)
    requires Shaped(c, s) && Enabled(s, step) && SamplesOk(s)
    ensures SamplesOk(After(c, s, step))
  {
    if !step.AdvanceReader? {
      forall stage: Stage, sample: Option
        ensures Balanced(After(c, s, step).log, After(c, s, step).recorders, stage, sample)
      {
        StepKeepsBalance(c, s, step, stage, sample);
      }
    }
  }

  /** With every recorder idle the samples beyond a stage are those before it. */
  lemma IdleStage(s: State, stage: Stage)
    requires SamplesOk(s) && forall t :: t in s.recorders ==> s.recorders[t].Idle?
    ensures multiset(Before(s.log, stage)) == multiset(Beyond(s.log, stage))
  {
    forall v: real
      ensures multiset(Before(s.log, stage))[v] == multiset(Beyond(s.log, stage))[v]
    {
      SumOfZeros(Holdings(s.recorders, stage, Some(v)));
      assert Balanced(s.log, s.recorders, stage, Some(v));
    }
  }

  // ---- the snapshot ----

  /** Each reported bucket lies between what was bucketed when the snapshot began
      and what is bucketed now, and the reported buckets never decrease. */
  ghost predicate Bracketed(c: Config, bucketed: seq<real>, began: nat, buckets: seq<nat>) {
    && began <= |bucketed|
    && (forall i :: 0 <= i < |buckets| ==>
      Cumulative(c.bounds, bucketed[..began], i + 1) <= buckets[i] <= Cumulative(c.bounds, bucketed, i + 1))
    && (forall i, j :: 0 <= i <= j < |buckets| ==> buckets[i] <= buckets[j])
  }

  /** The reported count lies between what was counted when the snapshot began and
      what is counted now. */
  ghost predicate CountBracketed(log: Log, began: Mark, count: nat) {
    began.counted <= count <= |log.counted|
  }

  /** The reported sum is one that was held since the snapshot began. */
  ghost predicate SumHeld(c: Config, log: Log, began: Mark, sum: real) {
    exists n :: began.summed <= n <= |log.summed| && sum == Fold(c.add, log.summed[..n])
  }

  ghost predicate ReaderOk(c: Config, s: State) {
    match s.reader
    case NotStarted => true
    case Walking(began, cumulative, buckets) =>
      && |buckets| <= |c.bounds|
      && Started(c, s.log, began, buckets)
      && cumulative == if buckets == [] then 0 else buckets[|buckets| - 1]
    case LoadCount(began, buckets) => |buckets| == |c.bounds| + 1 && Started(c, s.log, began, buckets)
    case LoadTotal(began, buckets, count) =>
      |buckets| == |c.bounds| + 1 && Started(c, s.log, began, buckets) && CountBracketed(s.log, began, count)
    case Done(began, buckets, count, sum) =>
      && |buckets| == |c.bounds| + 1 && Started(c, s.log, began, buckets)
      && CountBracketed(s.log, began, count) && SumHeld(c, s.log, began, sum)
  }

  ghost predicate Started(c: Config, log: Log, began: Mark, buckets: seq<nat>) {
    && began.counted <= |log.counted| && began.summed <= |log.summed|
    && Bracketed(c, log.bucketed, began.bucketed, buckets)
  }

  lemma SumHeldGrows(c: Config, log: Log, v: real, began: Mark, sum: real)
    requires SumHeld(c, log, began, sum)
    ensures SumHeld(c, log.(summed := log.summed + [v]), began, sum)
  {
    var n :| began.summed <= n <= |log.summed| && sum == Fold(c.add, log.summed[..n]);
    assert (log.summed + [v])[..n] == log.summed[..n];
  }

  lemma SumHeldNow(c: Config, log: Log, began: Mark)
    requires began.summed <= |log.summed|
    ensures SumHeld(c, log, began, Fold(c.add, log.summed))
  {
    assert log.summed[..|log.summed|] == log.summed;
  }

  lemma BracketedGrows(c: Config, bucketed: seq<real>, v: real, began: nat, buckets: seq<nat>)
    requires Bracketed(c, bucketed, began, buckets)
    ensures Bracketed(c, bucketed + [v], began, buckets)
  {
    assert (bucketed + [v])[..began] == bucketed[..began];
    forall i | 0 <= i < |buckets|
      ensures buckets[i] <= Cumulative(c.bounds, bucketed + [v], i + 1)
    {
      CumulativeAppend(c.bounds, bucketed, v, i + 1);
    }
  }

  lemma {:induction false} InBucketGrows(bounds: seq<real>, samples: seq<real>, b: nat, i: nat)
    requires b <= |samples|
    ensures InBucket(bounds, samples[..b], i) <= InBucket(bounds, samples, i)
    decreases |samples|
  {
    var n := |samples| - 1;
    if b <= n {
      InBucketGrows(bounds, samples[..n], b, i);
      assert samples[..n][..b] == samples[..b];
    } else {
      assert samples[..b] == samples;
    }
  }

  lemma BracketedExtends(c: Config, bucketed: seq<real>, began: nat, buckets: seq<nat>)
    requires Bracketed(c, bucketed, began, buckets)
    ensures Bracketed(c, bucketed, began,
      buckets + [(if buckets == [] then 0 else buckets[|buckets| - 1]) + InBucket(c.bounds, bucketed, |buckets|)])
  {
    var n := |buckets|;
    var last := if n == 0 then 0 else buckets[n - 1];
    InBucketGrows(c.bounds, bucketed, began, n);
    assert Cumulative(c.bounds, bucketed[..began], n) <= last <= Cumulative(c.bounds, bucketed, n);
  }

  lemma ReaderStepKeepsReader(c: Config, s: State)
    requires Shaped(c, s) && !s.reader.Done? && TotalsOk(c, s) && ReaderOk(c, s)
    ensures ReaderOk(c, ReaderAdvanced(c, s))
  {
    var r := s.reader;
    if r.Walking? {
      BracketedExtends(c, s.log.bucketed, r.began.bucketed, r.buckets);
      assert s.counts[|r.buckets|] == InBucket(c.bounds, s.log.bucketed, |r.buckets|);
    } else if r.LoadTotal? {
      SumHeldNow(c, s.log, r.began);
    }
  }

  lemma StepKeepsReader(c: Config, s: State, step: Step)
    requires Shaped(c, s) && Enabled(s, step) && TotalsOk(c, s) && ReaderOk(c, s)
    ensures ReaderOk(c, After(c, s, step))
  {
    var r := s.reader;
    if step.AdvanceReader? {
      ReaderStepKeepsReader(c, s);
    } else if step.Advance? && !r.NotStarted? {
      var pc := At(s, step.thread);
      if pc.IncrementBucket? {
        BracketedGrows(c, s.log.bucketed, pc.v, r.began.bucketed, r.buckets);
      } else if pc.ExchangeSum? && r.Done? {
        SumHeldGrows(c, s.log, pc.v, r.began, r.sum);
      }
    }
  }

  // ---- every interleaving ----

  ghost predicate Invariant(c: Config, s: State) {
    TotalsOk(c, s) && SamplesOk(s) && ReaderOk(c, s)
  }

  ghost predicate IsRun(c: Config, s: State, steps: seq<Step>)
    requires Shaped(c, s)
    decreases |steps|
  {
    steps == [] || (Enabled(s, steps[0]) && IsRun(c, After(c, s, steps[0]), steps[1..]))
  }

  ghost function Outcome(c: Config, s: State, steps: seq<Step>): (s': State)
    requires Shaped(c, s) && IsRun(c, s, steps)
    ensures Shaped(c, s')
    decreases |steps|
  {
    if steps == [] then s else Outcome(c, After(c, s, steps[0]), steps[1..])
  }

  lemma {:induction false} EveryInterleaving(c: Config, s: State, steps: seq<Step>)
    requires Shaped(c, s) && IsRun(c, s, steps) && Invariant(c, s)
    ensures Invariant(c, Outcome(c, s, steps))
    decreases |steps|
  {
    if steps != [] {
      StepKeepsTotals(c, s, steps[0]);
      StepKeepsSamples(c, s, steps[0]);
      StepKeepsReader(c, s, steps[0]);
      EveryInterleaving(c, After(c, s, steps[0]), steps[1..]);
    }
  }

  lemma InitialInvariant(c: Config, s: State)
    requires Initial(c, s)
    ensures Invariant(c, s)
  {
    forall stage: Stage, sample: Option ensures InTransit(s.recorders, stage, sample) == 0 {
      SumOfZeros(Holdings(s.recorders, stage, sample));
    }
  }

  /** Everything logged stays logged, and a snapshot under way keeps its mark. */
  ghost predicate LogsGrow(s: State, s': State) {
    && s.log.bucketed <= s'.log.bucketed && s.log.counted <= s'.log.counted && s.log.summed <= s'.log.summed
    && (!s.reader.NotStarted? ==> !s'.reader.NotStarted? && s'.reader.began == s.reader.began)
  }

  lemma {:induction false} RunLogsGrow(c: Config, s: State, steps: seq<Step>)
    requires Shaped(c, s) && IsRun(c, s, steps)
    ensures LogsGrow(s, Outcome(c, s, steps))
    decreases |steps|
  {
    if steps != [] {
      RunLogsGrow(c, After(c, s, steps[0]), steps[1..]);
    }
  }

  /** A snapshot that starts after the steps `before`, among the steps `later`. A
      reported `le` bucket lies between the number of samples at or below its bound that
      were bucketed when it started and the number bucketed by now; the count likewise;
      and the sum is the fold of samples in the order they were added, up to some moment
      since it started. */
  lemma SnapshotIsBracketed(c: Config, s: State, before: seq<Step>, later: seq<Step>)
    requires Initial(c, s) && IsRun(c, s, before) && Sorted(c.bounds)
    requires Outcome(c, s, before).reader.NotStarted?
    requires IsRun(c, After(c, Outcome(c, s, before), AdvanceReader), later)
    ensures var first := Outcome(c, s, before);
      var now := Outcome(c, After(c, first, AdvanceReader), later);
      && !now.reader.NotStarted? && |now.reader.buckets| <= |c.bounds| + 1
      && (forall i :: 0 <= i < |now.reader.buckets| ==>
        UpTo(c.bounds, first.log.bucketed, i) <= now.reader.buckets[i] <= UpTo(c.bounds, now.log.bucketed, i))
      && (forall i, j :: 0 <= i <= j < |now.reader.buckets| ==> now.reader.buckets[i] <= now.reader.buckets[j])
      && (now.reader.Done? ==>
        && |now.reader.buckets| == |c.bounds| + 1 && first.count <= now.reader.count <= now.count
        && exists n :: |first.log.summed| <= n <= |now.log.summed| && now.reader.sum == Fold(c.add, now.log.summed[..n]))
  {
    InitialInvariant(c, s);
    EveryInterleaving(c, s, before);
    var first := Outcome(c, s, before);
    var started := After(c, first, AdvanceReader);
    StepKeepsReader(c, first, AdvanceReader);
    EveryInterleaving(c, started, later);
    RunLogsGrow(c, started, later);
    var now := Outcome(c, started, later);
    assert now.log.bucketed[..now.reader.began.bucketed] == first.log.bucketed;
    forall i | 0 <= i < |now.reader.buckets|
      ensures UpTo(c.bounds, first.log.bucketed, i) <= now.reader.buckets[i] <= UpTo(c.bounds, now.log.bucketed, i)
    {
      CumulativeMeaning(c.bounds, now.log.bucketed, i);
      CumulativeMeaning(c.bounds, first.log.bucketed, i);
    }
  }

  // ---- the samples that the recorders were given ----

  /** The samples recorded in a run, in the order their calls began. */
  function Samples(steps: seq<Step>): seq<real> {
    if steps == [] then []
    else (if steps[0].Record? then [steps[0].v] else []) + Samples(steps[1..])
  }

  lemma {:induction false} RecordedAreSamples(c: Config, s: State, steps: seq<Step>)
    requires Shaped(c, s) && IsRun(c, s, steps)
    ensures Outcome(c, s, steps).log.recorded == s.log.recorded + Samples(steps)
    decreases |steps|
  {
    if steps != [] {
      RecordedAreSamples(c, After(c, s, steps[0]), steps[1..]);
    }
  }

  /** The sample thread `t` was last given, `prior` being the last before the run. */
  function Given(prior: Option, steps: seq<Step>, t: int): Option
    decreases |steps|
  {
    if steps == [] then prior
    else Given(if steps[0].Record? && steps[0].thread == t then Some(steps[0].v) else prior, steps[1..], t)
  }

  /** A recorder under way carries the sample it was given. */
  lemma {:induction false} CarriesGiven(c: Config, s: State, steps: seq<Step>, t: int, prior: Option)
    requires Shaped(c, s) && IsRun(c, s, steps) && (!At(s, t).Idle? ==> prior == Some(At(s, t).v))
    ensures var pc := At(Outcome(c, s, steps), t); !pc.Idle? ==> Given(prior, steps, t) == Some(pc.v)
    decreases |steps|
  {
    if steps != [] {
      var step := steps[0];
      CarriesGiven(c, After(c, s, step), steps[1..], t,
                   if step.Record? && step.thread == t then Some(step.v) else prior);
    }
  }

  function Total(counts: seq<nat>): nat {
    if counts == [] then 0 else Total(counts[..|counts| - 1]) + counts[|counts| - 1]
  }

  lemma {:induction false} TotalIsCumulative(bounds: seq<real>, samples: seq<real>, counts: seq<nat>)
    requires forall i :: 0 <= i < |counts| ==> counts[i] == InBucket(bounds, samples, i)
    ensures Total(counts) == Cumulative(bounds, samples, |counts|)
  {
    if counts != [] {
      TotalIsCumulative(bounds, samples, counts[..|counts| - 1]);
    }
  }

  /** The recorders that still have to add `v` to the sum. */
  ghost function Waiting(recorders: map<int, Pc>, v: real): int {
    InTransit(recorders, ToBucket, Some(v)) + InTransit(recorders, ToCount, Some(v)) + InTransit(recorders, ToSum, Some(v))
  }

  /** The buckets add up to the total count plus the recorders between the two
      increments; the sum is the fold of the exchanged samples, and every recorded
      sample has either been exchanged or is still carried by a recorder. */
  lemma EveryStateBalances(c: Config, s: State, steps: seq<Step>)
    requires Initial(c, s) && IsRun(c, s, steps)
    ensures var s' := Outcome(c, s, steps);
      && Total(s'.counts) == s'.count + InTransit(s'.recorders, ToCount, None)
      && s'.sum == Fold(c.add, s'.log.summed)
      && (forall v: real :: multiset(Samples(steps))[v] == multiset(s'.log.summed)[v] + Waiting(s'.recorders, v))
  {
    InitialInvariant(c, s);
    EveryInterleaving(c, s, steps);
    RecordedAreSamples(c, s, steps);
    assert [] + Samples(steps) == Samples(steps);
    var s' := Outcome(c, s, steps);
    TotalIsCumulative(c.bounds, s'.log.bucketed, s'.counts);
    AllBuckets(c.bounds, s'.log.bucketed);
    assert Balanced(s'.log, s'.recorders, ToCount, None);
    forall v: real
      ensures multiset(Samples(steps))[v] == multiset(s'.log.summed)[v] + Waiting(s'.recorders, v)
    {
      assert Balanced(s'.log, s'.recorders, ToBucket, Some(v));
      assert Balanced(s'.log, s'.recorders, ToCount, Some(v));
      assert Balanced(s'.log, s'.recorders, ToSum, Some(v));
    }
  }

  lemma {:induction false} InBucketTally(bounds: seq<real>, samples: seq<real>, i: nat, w: real -> real)
    requires forall v :: w(v) == if Bucket(bounds, v) == i then 1.0 else 0.0
    ensures InBucket(bounds, samples, i) as real == Tally(w, samples)
    decreases |samples|
  {
    if samples != [] {
      InBucketTally(bounds, samples[..|samples| - 1], i, w);
    }
  }

  lemma {:induction false} FoldTally(add: (real, real) -> real, samples: seq<real>, w: real -> real)
    requires forall x, y :: add(x, y) == x + y
    requires forall v :: w(v) == v
    ensures Fold(add, samples) == Tally(w, samples)
    decreases |samples|
  {
    if samples != [] {
      FoldTally(add, samples[..|samples| - 1], w);
    }
  }

  /** With every recorder idle all three totals are those of the recorded samples. */
  lemma IdleTotals(c: Config, s: State)
    requires Invariant(c, s) && forall t :: t in s.recorders ==> s.recorders[t].Idle?
    ensures forall i :: 0 <= i < |s.counts| ==> s.counts[i] == InBucket(c.bounds, s.log.recorded, i)
    ensures s.count == |s.log.recorded| && multiset(s.log.summed) == multiset(s.log.recorded)
    ensures (forall x, y :: c.add(x, y) == x + y) ==> s.sum == Fold(c.add, s.log.recorded)
  {
    IdleStage(s, ToBucket);
    IdleStage(s, ToCount);
    IdleStage(s, ToSum);
    var log, same := s.log, (v: real) => v;
    TallyPermutation(same, log.counted, log.recorded);
    TallyPermutation(same, log.summed, log.recorded);
    forall i | 0 <= i < |s.counts|
      ensures s.counts[i] == InBucket(c.bounds, log.recorded, i)
    {
      var w := (v: real) => if Bucket(c.bounds, v) == i then 1.0 else 0.0;
      TallyPermutation(w, log.bucketed, log.recorded);
      InBucketTally(c.bounds, log.bucketed, i, w);
      InBucketTally(c.bounds, log.recorded, i, w);
    }
    if forall x, y :: c.add(x, y) == x + y {
      FoldTally(c.add, log.summed, same);
      FoldTally(c.add, log.recorded, same);
    }
  }

  /** When every recorder has finished, all three totals are those of the samples that
      the recorders were given; with exact addition the sum is theirs too, in whatever
      order. */
  lemma FinishedTotals(c: Config, s: State, steps: seq<Step>)
    requires Initial(c, s) && IsRun(c, s, steps)
    requires forall t :: t in Outcome(c, s, steps).recorders ==> Outcome(c, s, steps).recorders[t].Idle?
    ensures var s' := Outcome(c, s, steps);
      && (forall i :: 0 <= i < |s'.counts| ==> s'.counts[i] == InBucket(c.bounds, Samples(steps), i))
      && s'.count == |Samples(steps)|
      && multiset(s'.log.summed) == multiset(Samples(steps))
      && s'.sum == Fold(c.add, s'.log.summed)
      && ((forall x, y :: c.add(x, y) == x + y) ==> s'.sum == Fold(c.add, Samples(steps)))
  {
    InitialInvariant(c, s);
    EveryInterleaving(c, s, steps);
    IdleTotals(c, Outcome(c, s, steps));
    RecordedAreSamples(c, s, steps);
    assert [] + Samples(steps) == Samples(steps);
  }
}
