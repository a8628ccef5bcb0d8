/** Probe budgets as fractions of Auto's, the recall they reach and the least one that suffices. */
module RoutingRecall {
  import Sums

  /** One corpus, metric and k: Auto's budget and the partition ranks of the true
      neighbours of every calibration query. */
  datatype Group = Group(metric: string, k: nat, auto: seq<real>, ranks: seq<seq<int>>)

  /** What loading a group asserts. */
  predicate Loaded(g: Group) {
    && g.k >= 1 && |g.auto| > 0 && |g.ranks| == |g.auto|
    && (forall q :: 0 <= q < |g.auto| ==> g.auto[q] >= 1.0)
    && (forall q :: 0 <= q < |g.ranks| ==> |g.ranks[q]| == g.k)
    && (forall q, j :: 0 <= q < |g.ranks| && 0 <= j < |g.ranks[q]| ==> g.ranks[q][j] >= 1)
  }

  function Ceil(x: real): (n: int)
    ensures n as real - 1.0 < x <= n as real
  {
    if x.Floor as real == x then x.Floor else x.Floor + 1
  }

  function Budget(auto: real, scale: real): (b: int)
    ensures b >= 1
  {
    var n := Ceil(auto * scale);
    if n < 1 then 1 else n
  }

  /** How many neighbours lie in the first `budget` partitions. */
  function Hits(ranks: seq<int>, budget: int): (n: nat)
    ensures n <= |ranks|
  {
    if ranks == [] then 0 else (if ranks[0] <= budget then 1 else 0) + Hits(ranks[1..], budget)
  }

  function QueryRecall(g: Group, q: nat, scale: real): real
    requires Loaded(g) && q < |g.auto|
  {
    Hits(g.ranks[q], Budget(g.auto[q], scale)) as real / g.k as real
  }

  function RecallSum(g: Group, n: nat, scale: real): real
    requires Loaded(g) && n <= |g.auto|
  {
    if n == 0 then 0.0 else RecallSum(g, n - 1, scale) + QueryRecall(g, n - 1, scale)
  }

  function Recall(g: Group, scale: real): real
    requires Loaded(g)
  {
    RecallSum(g, |g.auto|, scale) / |g.auto| as real
  }

  function BudgetSum(g: Group, n: nat, scale: real): (s: int)
    requires n <= |g.auto|
    ensures s >= n
  {
    if n == 0 then 0 else BudgetSum(g, n - 1, scale) + Budget(g.auto[n - 1], scale)
  }

  function MeanBudget(g: Group, scale: real): (m: real)
    requires Loaded(g)
    ensures m >= 1.0
  {
    MeanAtLeastOne(BudgetSum(g, |g.auto|, scale), |g.auto|);
    BudgetSum(g, |g.auto|, scale) as real / |g.auto| as real
  }

  lemma MeanAtLeastOne(sum: int, n: nat)
    requires sum >= n > 0
    ensures sum as real / n as real >= 1.0
  {
    QuotientMonotone(n as real, sum as real, n as real);
  }

  // ---- what the numbers mean ----

  /** The least whole number of probes, and at least one, that is not below the scaled
      budget. */
  lemma BudgetIsLeast(auto: real, scale: real, n: int)
    ensures auto * scale <= Budget(auto, scale) as real
    ensures n >= 1 && auto * scale <= n as real ==> Budget(auto, scale) <= n
  {
  }

  ghost function Found(ranks: seq<int>, budget: int): set<int> {
    set j | 0 <= j < |ranks| && ranks[j] <= budget
  }

  lemma FoundLast(ranks: seq<int>, budget: int)
    requires ranks != []
    ensures |Found(ranks, budget)| == |Found(ranks[..|ranks| - 1], budget)| + if ranks[|ranks| - 1] <= budget then 1 else 0
  {
    var n := |ranks| - 1;
    if ranks[n] <= budget {
      assert Found(ranks, budget) == Found(ranks[..n], budget) + {n};
    } else {
      assert Found(ranks, budget) == Found(ranks[..n], budget);
    }
  }

  lemma {:induction false} HitsCount(ranks: seq<int>, budget: int)
    ensures Hits(ranks, budget) == |Found(ranks, budget)|
  {
    if ranks != [] {
      var n := |ranks| - 1;
      HitsCount(ranks[..n], budget);
      HitsLast(ranks, budget);
      FoundLast(ranks, budget);
    }
  }

  lemma {:induction false} HitsLast(ranks: seq<int>, budget: int)
    requires ranks != []
    ensures Hits(ranks, budget) == Hits(ranks[..|ranks| - 1], budget) + if ranks[|ranks| - 1] <= budget then 1 else 0
  {
    if |ranks| > 1 {
      HitsLast(ranks[1..], budget);
      assert ranks[1..][..|ranks| - 2] == ranks[..|ranks| - 1][1..];
    }
  }

  /** The mean, over the queries, of the number of neighbours found divided by k. */
  lemma RecallIsMean(g: Group, scale: real, share: nat -> real)
    requires Loaded(g)
    requires forall q: nat :: q < |g.auto| ==>
      share(q) == |Found(g.ranks[q], Budget(g.auto[q], scale))| as real / g.k as real
    ensures Recall(g, scale) == Sums.SumTo(share, |g.auto|) / |g.auto| as real
  {
    RecallSumIs(g, |g.auto|, scale, share);
  }

  lemma {:induction false} RecallSumIs(g: Group, n: nat, scale: real, share: nat -> real)
    requires Loaded(g) && n <= |g.auto|
    requires forall q: nat :: q < n ==> share(q) == |Found(g.ranks[q], Budget(g.auto[q], scale))| as real / g.k as real
    ensures RecallSum(g, n, scale) == Sums.SumTo(share, n)
  {
    if n > 0 {
      RecallSumIs(g, n - 1, scale, share);
      HitsCount(g.ranks[n - 1], Budget(g.auto[n - 1], scale));
    }
  }

  /** The mean of the queries' budgets. */
  lemma MeanBudgetIsMean(g: Group, scale: real, probes: nat -> real)
    requires Loaded(g)
    requires forall q: nat :: q < |g.auto| ==> probes(q) == Budget(g.auto[q], scale) as real
    ensures MeanBudget(g, scale) == Sums.SumTo(probes, |g.auto|) / |g.auto| as real
  {
    BudgetSumIs(g, |g.auto|, scale, probes);
  }

  lemma {:induction false} BudgetSumIs(g: Group, n: nat, scale: real, probes: nat -> real)
    requires n <= |g.auto| && forall q: nat :: q < n ==> probes(q) == Budget(g.auto[q], scale) as real
    ensures BudgetSum(g, n, scale) as real == Sums.SumTo(probes, n)
  {
    if n > 0 {
      BudgetSumIs(g, n - 1, scale, probes);
    }
  }

  // ---- a larger scale never hurts and never costs less ----

  lemma QuotientMonotone(x: real, y: real, d: real)
    requires x <= y && d > 0.0
    ensures x / d <= y / d
  {
  }

  lemma BudgetMonotone(auto: real, s: real, t: real)
    requires auto >= 0.0 && s <= t
    ensures Budget(auto, s) <= Budget(auto, t)
  {
    ProductNonNegative(auto, t - s);
    assert auto * s <= auto * t;
  }

  lemma ProductNonNegative(x: real, y: real)
    requires x >= 0.0 && y >= 0.0
    ensures x * y >= 0.0
  {
  }

  lemma {:induction false} HitsMonotone(ranks: seq<int>, b: int, c: int)
    requires b <= c
    ensures Hits(ranks, b) <= Hits(ranks, c)
  {
    if ranks != [] {
      HitsMonotone(ranks[1..], b, c);
    }
  }

  lemma {:induction false} SumsMonotone(g: Group, n: nat, s: real, t: real)
    requires Loaded(g) && n <= |g.auto| && s <= t
    ensures RecallSum(g, n, s) <= RecallSum(g, n, t)
    ensures BudgetSum(g, n, s) <= BudgetSum(g, n, t)
  {
    if n > 0 {
      SumsMonotone(g, n - 1, s, t);
      BudgetMonotone(g.auto[n - 1], s, t);
      var b, c := Budget(g.auto[n - 1], s), Budget(g.auto[n - 1], t);
      HitsMonotone(g.ranks[n - 1], b, c);
      QuotientMonotone(Hits(g.ranks[n - 1], b) as real, Hits(g.ranks[n - 1], c) as real, g.k as real);
    }
  }

  lemma RecallMonotone(g: Group, s: real, t: real)
    requires Loaded(g) && s <= t
    ensures Recall(g, s) <= Recall(g, t)
    ensures MeanBudget(g, s) <= MeanBudget(g, t)
  {
    var n := |g.auto|;
    SumsMonotone(g, n, s, t);
    QuotientMonotone(RecallSum(g, n, s), RecallSum(g, n, t), n as real);
    QuotientMonotone(BudgetSum(g, n, s) as real, BudgetSum(g, n, t) as real, n as real);
  }

  // ---- the binary search ----

  ghost predicate AllLoaded(groups: seq<Group>) {
    forall i :: 0 <= i < |groups| ==> Loaded(groups[i])
  }

  predicate Meets(groups: seq<Group>, scale: real, required: real)
    requires AllLoaded(groups)
  {
    forall i :: 0 <= i < |groups| ==> Recall(groups[i], scale) >= required
  }

  function GridScale(step: int): real {
    step as real / 1000.0
  }

  /** `step` is the threshold: on the grid the groups meet the target from there on only. */
  ghost predicate IsThreshold(groups: seq<Group>, required: real, step: int)
    requires AllLoaded(groups)
  {
    && 1 <= step <= 1000
    && forall n :: 1 <= n <= 1000 ==> (Meets(groups, GridScale(n), required) <==> step <= n)
  }

  lemma MeetsMonotone(groups: seq<Group>, required: real, m: int, n: int)
    requires AllLoaded(groups) && m <= n && Meets(groups, GridScale(m), required)
    ensures Meets(groups, GridScale(n), required)
  {
    forall i | 0 <= i < |groups| ensures Recall(groups[i], GridScale(n)) >= required {
      RecallMonotone(groups[i], GridScale(m), GridScale(n));
    }
  }

  /** The least grid step at which all groups reach the target, unless Auto misses it. */
  method FindThreshold(groups: seq<Group>, required: real) returns (found: bool, step: int)
    requires AllLoaded(groups)
    ensures found <==> Meets(groups, 1.0, required)
    ensures found ==> IsThreshold(groups, required, step)
  {
    found := Meets(groups, 1.0, required);
    step := 1;
    if !found {
      return;
    }
    var high := 1000;
    assert GridScale(1000) == 1.0;
    while step < high
      invariant 1 <= step <= high <= 1000
      invariant Meets(groups, GridScale(high), required)
      invariant forall n :: 1 <= n < step ==> !Meets(groups, GridScale(n), required)
    {
      var middle := (step + high) / 2;
      if Meets(groups, GridScale(middle), required) {
        high := middle;
      } else {
        forall n | 1 <= n <= middle ensures !Meets(groups, GridScale(n), required) {
          if Meets(groups, GridScale(n), required) {
            MeetsMonotone(groups, required, n, middle);
          }
        }
        step := middle + 1;
      }
    }
    forall n | step <= n <= 1000 ensures Meets(groups, GridScale(n), required) {
      MeetsMonotone(groups, required, step, n);
    }
  }

  /** A stricter target never lowers the threshold. */
  lemma ThresholdMonotone(groups: seq<Group>, required: real, stricter: real, step: int, later: int)
    requires AllLoaded(groups) && required <= stricter
    requires IsThreshold(groups, required, step) && IsThreshold(groups, stricter, later)
    ensures step <= later
  {
    assert Meets(groups, GridScale(later), stricter);
    assert Meets(groups, GridScale(later), required);
  }

  /** The least of the first `n` grid steps at which the groups meet the target, if any does. */
  lemma {:induction false} LeastMeeting(groups: seq<Group>, required: real, n: int) returns (step: int)
    requires AllLoaded(groups) && 1 <= n && Meets(groups, GridScale(n), required)
    ensures 1 <= step <= n && Meets(groups, GridScale(step), required)
    ensures forall m :: 1 <= m < step ==> !Meets(groups, GridScale(m), required)
    decreases n
  {
    step := n;
    if m :| 1 <= m < n && Meets(groups, GridScale(m), required) {
      step := LeastMeeting(groups, required, m);
    }
  }

  /** There is a threshold exactly where Auto meets the target, and only one. */
  lemma ThresholdExistsIff(groups: seq<Group>, required: real)
    requires AllLoaded(groups)
    ensures (exists step :: IsThreshold(groups, required, step)) <==> Meets(groups, 1.0, required)
    ensures forall step, other :: IsThreshold(groups, required, step) && IsThreshold(groups, required, other) ==> step == other
  {
    assert GridScale(1000) == 1.0;
    if Meets(groups, 1.0, required) {
      var step := LeastMeeting(groups, required, 1000);
      forall n | step <= n <= 1000 ensures Meets(groups, GridScale(n), required) {
        MeetsMonotone(groups, required, step, n);
      }
      assert IsThreshold(groups, required, step);
    }
    forall step, other | IsThreshold(groups, required, step) && IsThreshold(groups, required, other) ensures step == other {
      ThresholdMonotone(groups, required, required, step, other);
      ThresholdMonotone(groups, required, required, other, step);
    }
  }
}
