/** The histogram as an object, used by one thread at a time. */
module BucketedHistogram {
  import opened Histogram

  lemma {:induction false} BucketIsCut(bounds: seq<real>, v: real, i: nat)
    requires i <= |bounds|
    requires forall j :: 0 <= j < i ==> bounds[j] < v
    requires forall j :: i <= j < |bounds| ==> bounds[j] >= v
    ensures Bucket(bounds, v) == i
  {
    if i > 0 {
      BucketIsCut(bounds[1..], v, i - 1);
    }
  }

  /** Halves the bounds until it finds the first that is not below the sample. */
  method PartitionPoint(bounds: seq<real>, v: real) returns (i: nat)
    requires Sorted(bounds)
    ensures i == Bucket(bounds, v)
  {
    i := 0;
    var high := |bounds|;
    while i < high
      invariant 0 <= i <= high <= |bounds|
      invariant forall j :: 0 <= j < i ==> bounds[j] < v
      invariant forall j :: high <= j < |bounds| ==> bounds[j] >= v
    {
      var middle := (i + high) / 2;
      if bounds[middle] < v {
        i := middle + 1;
      } else {
        high := middle;
      }
    }
    BucketIsCut(bounds, v, i);
  }

  class Recorder {
    const bounds: seq<real>
    const add: (real, real) -> real
    const counts: array<nat>
    var count: nat
    var sum: real
    ghost var samples: seq<real>

    /** The numbers are those of the recorded samples. */
    ghost predicate Valid()
      reads this, counts
    {
      && Sorted(bounds) && counts.Length == |bounds| + 1
      && (forall i :: 0 <= i < counts.Length ==> counts[i] == InBucket(bounds, samples, i))
      && count == |samples| && sum == Fold(add, samples)
    }

    constructor (bounds: seq<real>, add: (real, real) -> real)
      requires Sorted(bounds)
      ensures Valid() && fresh(counts) && samples == [] && this.bounds == bounds && this.add == add
    {
      this.bounds, this.add := bounds, add;
      counts := new nat[|bounds| + 1](_ => 0);
      count, sum, samples := 0, 0.0, [];
    }

    /** The exchange may fail spuriously any number of times before it succeeds. */
    method AddToSum(v: real, failures: nat)
      modifies this`sum
      ensures sum == add(old(sum), v)
    {
      var current, left, done := sum, failures, false;
      while !done
        invariant current == old(sum) && sum == if done then add(old(sum), v) else old(sum)
        decreases !done, left
      {
        var updated := add(current, v);
        if left == 0 && sum == current {
          sum, done := updated, true;
        } else {
          current := sum;
          left := left - 1;
        }
      }
    }

    method Record(v: real, failures: nat)
      requires Valid()
      modifies this, counts
      ensures Valid() && samples == old(samples) + [v]
    {
      var i := PartitionPoint(bounds, v);
      counts[i] := counts[i] + 1;
      count := count + 1;
      AddToSum(v, failures);
      samples := samples + [v];
      assert samples[..|samples| - 1] == old(samples);
    }

    /** Each reported bucket counts the samples at or below its bound, the last all of them. */
    method Snapshot() returns (buckets: seq<nat>, total: nat, s: real)
      requires Valid()
      ensures |buckets| == |bounds| + 1
      ensures forall i :: 0 <= i <= |bounds| ==> buckets[i] == UpTo(bounds, samples, i)
      ensures total == |samples| == buckets[|bounds|] && s == Fold(add, samples)
    {
      var cumulative := 0;
      buckets := [];
      for i := 0 to |bounds|
        invariant |buckets| == i && cumulative == Cumulative(bounds, samples, i)
        invariant forall j :: 0 <= j < i ==> buckets[j] == UpTo(bounds, samples, j)
      {
        cumulative := cumulative + counts[i];
        CumulativeMeaning(bounds, samples, i);
        buckets := buckets + [cumulative];
      }
      cumulative := cumulative + counts[|bounds|];
      CumulativeMeaning(bounds, samples, |bounds|);
      buckets := buckets + [cumulative];
      total, s := count, sum;
    }
  }
}
