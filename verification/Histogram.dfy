/** The bucketed histogram under any interleaving of recorders with one snapshot:
    each atomic operation is one step, and a compare-exchange may fail spuriously. */
module Histogram {

  /** `add` is the addition the sum is kept with; it need not be exact. */
  datatype Config = Config(bounds: seq<real>, add: (real, real) -> real)

  ghost predicate Sorted(bounds: seq<real>) {
    forall i, j :: 0 <= i <= j < |bounds| ==> bounds[i] <= bounds[j]
  }

  /** The number of leading bounds below `v`: where `partition_point` lands. */
  function Bucket(bounds: seq<real>, v: real): (i: nat)
    ensures i <= |bounds|
  {
    if bounds == [] || bounds[0] >= v then 0 else 1 + Bucket(bounds[1..], v)
  }

  /** The atomic operation a recorder performs next, with the sample it carries. */
  datatype Pc =
    | Idle
    | IncrementBucket(v: real)
    | IncrementCount(v: real)
    | LoadSum(v: real)
    | ExchangeSum(v: real, current: real)

  /** How many samples had passed each stage when the snapshot started. */
  datatype Mark = Mark(bucketed: nat, counted: nat, summed: nat)

  /** No step reads `began`. */
  datatype Reader =
    | NotStarted
    | Walking(began: Mark, cumulative: nat, buckets: seq<nat>)
    | LoadCount(began: Mark, buckets: seq<nat>)
    | LoadTotal(began: Mark, buckets: seq<nat>, count: nat)
    | Done(began: Mark, buckets: seq<nat>, count: nat, sum: real)

  /** The samples that have passed each stage, in the order they passed it. No step
      reads them. */
  datatype Log = Log(recorded: seq<real>, bucketed: seq<real>, counted: seq<real>, summed: seq<real>)

  datatype State = State(
    counts: seq<nat>, count: nat, sum: real,
    recorders: map<int, Pc>, reader: Reader, log: Log)

  datatype Step =
    | Record(thread: int, v: real)
    | Advance(thread: int, spurious: bool)
    | AdvanceReader

  function At(s: State, thread: int): Pc {
    if thread in s.recorders then s.recorders[thread] else Idle
  }

  ghost predicate Initial(c: Config, s: State) {
    && s.counts == seq(|c.bounds| + 1, i => 0) && s.count == 0 && s.sum == 0.0
    && s.recorders == map[] && s.reader == NotStarted && s.log == Log([], [], [], [])
  }

  predicate Enabled(s: State, step: Step) {
    match step
    case Record(t, _) => At(s, t).Idle?
    case Advance(t, _) => !At(s, t).Idle?
    case AdvanceReader => !s.reader.Done?
  }

  /** One counter for each bound and one for +Inf; the walk stays inside them. */
  predicate Shaped(c: Config, s: State) {
    && |s.counts| == |c.bounds| + 1
    && (s.reader.Walking? ==> |s.reader.buckets| <= |c.bounds|)
  }

  function Advanced(c: Config, s: State, t: int, spurious: bool): (s': State)
    requires Shaped(c, s) && !At(s, t).Idle?
    ensures Shaped(c, s')
  {
    match At(s, t)
    case IncrementBucket(v) =>
      var i := Bucket(c.bounds, v);
      s.(counts := s.counts[i := s.counts[i] + 1],
      recorders := s.recorders[t := IncrementCount(v)],
      log := s.log.(bucketed := s.log.bucketed + [v]))
    case IncrementCount(v) =>
      s.(count := s.count + 1,
      recorders := s.recorders[t := LoadSum(v)],
      log := s.log.(counted := s.log.counted + [v]))
    case LoadSum(v) =>
      s.(recorders := s.recorders[t := ExchangeSum(v, s.sum)])
    case ExchangeSum(v, current) =>
      if s.sum == current && !spurious then
        s.(sum := c.add(current, v),
        recorders := s.recorders[t := Idle],
        log := s.log.(summed := s.log.summed + [v]))
      else
        s.(recorders := s.recorders[t := ExchangeSum(v, s.sum)])
  }

  function ReaderAdvanced(c: Config, s: State): (s': State)
    requires Shaped(c, s) && !s.reader.Done?
    ensures Shaped(c, s')
  {
    match s.reader
    case NotStarted => s.(reader := Walking(Mark(|s.log.bucketed|, |s.log.counted|, |s.log.summed|), 0, []))
    case Walking(began, cumulative, buckets) =>
      var cumulative' := cumulative + s.counts[|buckets|];
      var buckets' := buckets + [cumulative'];
      s.(reader := if |buckets'| == |s.counts| then LoadCount(began, buckets') else Walking(began, cumulative', buckets'))
    case LoadCount(began, buckets) => s.(reader := LoadTotal(began, buckets, s.count))
    case LoadTotal(began, buckets, count) => s.(reader := Done(began, buckets, count, s.sum))
  }

  function After(c: Config, s: State, step: Step): (s': State)
    requires Shaped(c, s) && Enabled(s, step)
    ensures Shaped(c, s')
  {
    match step
    case Record(t, v) =>
      s.(recorders := s.recorders[t := IncrementBucket(v)], log := s.log.(recorded := s.log.recorded + [v]))
    case Advance(t, spurious) => Advanced(c, s, t, spurious)
    case AdvanceReader => ReaderAdvanced(c, s)
  }

  // ---- what the numbers should be ----

  function InBucket(bounds: seq<real>, samples: seq<real>, i: nat): nat {
    if samples == [] then 0
    else
      var n := |samples| - 1;
      InBucket(bounds, samples[..n], i) + if Bucket(bounds, samples[n]) == i then 1 else 0
  }

  function AtOrBelow(samples: seq<real>, bound: real): nat {
    if samples == [] then 0
    else
      var n := |samples| - 1;
      AtOrBelow(samples[..n], bound) + if samples[n] <= bound then 1 else 0
  }

  /** What the bucket labelled `le` should report: +Inf is the last label. */
  function UpTo(bounds: seq<real>, samples: seq<real>, i: nat): nat
    requires i <= |bounds|
  {
    if i < |bounds| then AtOrBelow(samples, bounds[i]) else |samples|
  }

  function Cumulative(bounds: seq<real>, samples: seq<real>, n: nat): nat {
    if n == 0 then 0 else Cumulative(bounds, samples, n - 1) + InBucket(bounds, samples, n - 1)
  }

  function Fold(add: (real, real) -> real, samples: seq<real>): real {
    if samples == [] then 0.0
    else
      var n := |samples| - 1;
      add(Fold(add, samples[..n]), samples[n])
  }

  /** A sample goes to a bucket up to `i` exactly when it is at or below bound `i`. */
  lemma {:induction false} BucketMeaning(bounds: seq<real>, v: real, i: nat)
    requires Sorted(bounds) && i < |bounds|
    ensures Bucket(bounds, v) <= i <==> v <= bounds[i]
  {
    if bounds[0] < v && i > 0 {
      BucketMeaning(bounds[1..], v, i - 1);
    }
  }

  lemma {:induction false} CumulativeAppend(bounds: seq<real>, samples: seq<real>, v: real, n: nat)
    ensures Cumulative(bounds, samples + [v], n) == Cumulative(bounds, samples, n) + if Bucket(bounds, v) < n then 1 else 0
  {
    if n > 0 {
      CumulativeAppend(bounds, samples, v, n - 1);
      assert (samples + [v])[..|samples|] == samples;
    }
  }

  lemma {:induction false} CumulativeEmpty(bounds: seq<real>, n: nat)
    ensures Cumulative(bounds, [], n) == 0
  {
    if n > 0 {
      CumulativeEmpty(bounds, n - 1);
    }
  }

  /** Adding up the buckets to `i` counts the samples at or below bound `i`. */
  lemma {:induction false} CumulativeMeaning(bounds: seq<real>, samples: seq<real>, i: nat)
    requires Sorted(bounds) && i <= |bounds|
    ensures Cumulative(bounds, samples, i + 1) == UpTo(bounds, samples, i)
    decreases |samples|
  {
    if samples == [] {
      CumulativeEmpty(bounds, i + 1);
    } else {
      var n := |samples| - 1;
      CumulativeMeaning(bounds, samples[..n], i);
      CumulativeAppend(bounds, samples[..n], samples[n], i + 1);
      assert samples[..n] + [samples[n]] == samples;
      if i < |bounds| {
        BucketMeaning(bounds, samples[n], i);
      }
    }
  }

  /** All buckets together hold every sample, whatever the bounds. */
  lemma {:induction false} AllBuckets(bounds: seq<real>, samples: seq<real>)
    ensures Cumulative(bounds, samples, |bounds| + 1) == |samples|
    decreases |samples|
  {
    if samples == [] {
      CumulativeEmpty(bounds, |bounds| + 1);
    } else {
      var n := |samples| - 1;
      AllBuckets(bounds, samples[..n]);
      CumulativeAppend(bounds, samples[..n], samples[n], |bounds| + 1);
      assert samples[..n] + [samples[n]] == samples;
    }
  }
}
