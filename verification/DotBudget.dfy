/** Probe budgets from score margins: the calibrated search and the measured formula. */
module DotBudget {
  import opened RoutingRecall
  import opened Numbers

  // ---- how a row of scores is scaled ----

  datatype Mode = RelativeScore | StandardDeviation

  function Abs(x: real): real {
    if x < 0.0 then -x else x
  }

  function Sum(xs: seq<real>): real {
    if xs == [] then 0.0 else Sum(xs[..|xs| - 1]) + xs[|xs| - 1]
  }

  function Square(x: real): (s: real)
    ensures s >= 0.0 && (s == 0.0 <==> x == 0.0)
  {
    SquareSign(x);
    Times(x, x)
  }

  lemma SquareSign(x: real)
    ensures Times(x, x) >= 0.0 && (Times(x, x) == 0.0 <==> x == 0.0)
  {
    if x > 0.0 {
      PositiveProduct(x, x);
    } else if x < 0.0 {
      PositiveProduct(-x, -x);
      assert Times(x, x) == Times(-x, -x);
    } else {
      assert Times(0.0, 0.0) == 0.0;
    }
  }

  lemma PositiveProduct(x: real, y: real)
    requires x > 0.0 && y > 0.0
    ensures Times(x, y) > 0.0
  {
  }

  function SquaresAround(xs: seq<real>, m: real): (s: real)
    ensures s >= 0.0
  {
    if xs == [] then 0.0
    else SquaresAround(xs[..|xs| - 1], m) + Square(xs[|xs| - 1] - m)
  }

  function Mean(xs: seq<real>): real
    requires xs != []
  {
    Sum(xs) / |xs| as real
  }

  function Variance(xs: seq<real>): real
    requires xs != []
  {
    SquaresAround(xs, Mean(xs)) / |xs| as real
  }

  /** The first score's magnitude, or the root of the variance. */
  ghost predicate IsScale(mode: Mode, scores: seq<real>, scale: real)
    requires scores != []
  {
    match mode
    case RelativeScore => scale == Abs(scores[0])
    case StandardDeviation => scale >= 0.0 && Square(scale) == Variance(scores)
  }

  ghost predicate Descending(scores: seq<real>) {
    forall i, j :: 0 <= i <= j < |scores| ==> scores[i] >= scores[j]
  }

  // ---- the measured formula ----

  /** How many scores lie within the limit of the first. */
  function Within(scores: seq<real>, first: real, limit: real): (n: nat)
    ensures n <= |scores|
  {
    if scores == [] then 0
    else
      var rest := Within(scores[..|scores| - 1], first, limit);
      if first - scores[|scores| - 1] <= limit then rest + 1 else rest
  }

  function Clip(x: int, low: int, high: int): int {
    Min(Max(x, low), high)
  }

  function Predict(scores: seq<real>, scale: real, margin: real, floor: nat, cap: nat): (budget: int)
    requires scores != []
    ensures 0 <= budget <= |scores|
  {
    Clip(Within(scores, scores[0], Times(margin, scale)), floor, Min(cap, |scores|))
  }

  ghost function Near(scores: seq<real>, first: real, limit: real): set<int> {
    set j | 0 <= j < |scores| && first - scores[j] <= limit
  }

  lemma {:induction false} WithinCounts(scores: seq<real>, first: real, limit: real)
    ensures Within(scores, first, limit) == |Near(scores, first, limit)|
  {
    if scores != [] {
      var n := |scores| - 1;
      WithinCounts(scores[..n], first, limit);
      if first - scores[n] <= limit {
        assert Near(scores, first, limit) == Near(scores[..n], first, limit) + {n};
      } else {
        assert Near(scores, first, limit) == Near(scores[..n], first, limit);
      }
    }
  }

  /** The count, raised to the floor, then lowered to the cap and to what there is. */
  lemma PredictMeaning(scores: seq<real>, scale: real, margin: real, floor: nat, cap: nat)
    requires scores != []
    ensures var budget, near := Predict(scores, scale, margin, floor, cap), |Near(scores, scores[0], margin * scale)|;
      && budget <= cap && budget <= |scores|
      && (budget == cap || budget == |scores| || (budget >= floor && budget >= near))
      && (budget <= floor || budget <= near)
  {
    WithinCounts(scores, scores[0], Times(margin, scale));
  }

  // ---- the gap table and its search ----

  datatype Gap = Finite(gap: real) | Infinite

  predicate AtMost(g: Gap, margin: real) {
    g.Finite? && g.gap <= margin
  }

  ghost predicate Below(g: Gap, h: Gap) {
    h.Finite? ==> AtMost(g, h.gap)
  }

  function GapOf(scores: seq<real>, scale: real, j: nat): Gap
    requires j < |scores|
  {
    if scores[j] == scores[0] then Finite(0.0)
    else if scale != 0.0 then Finite((scores[0] - scores[j]) / scale)
    else Infinite
  }

  /** Starts from infinity, divides where the scale allows, then clears ties with the first score. */
  method Gaps(scores: seq<real>, scale: real) returns (gaps: array<Gap>)
    requires scores != []
    ensures gaps.Length == |scores|
    ensures forall j :: 0 <= j < |scores| ==> gaps[j] == GapOf(scores, scale, j)
  {
    gaps := new Gap[|scores|](_ => Infinite);
    if scale != 0.0 {
      for j := 0 to |scores|
        invariant forall i :: 0 <= i < j ==> gaps[i] == Finite((scores[0] - scores[i]) / scale)
      {
        gaps[j] := Finite((scores[0] - scores[j]) / scale);
      }
    }
    for j := 0 to |scores|
      invariant forall i :: 0 <= i < j ==> gaps[i] == GapOf(scores, scale, i)
      invariant forall i :: j <= i < |scores| ==>
        gaps[i] == if scale != 0.0 then Finite((scores[0] - scores[i]) / scale) else Infinite
    {
      if scores[j] == scores[0] {
        gaps[j] := Finite(0.0);
      }
    }
  }

  lemma QuotientLaw(x: real, d: real, y: real)
    requires d > 0.0
    ensures x / d <= y <==> x <= y * d
  {
    var q := x / d;
    assert q * d == x;
    if q <= y {
      assert (y - q) * d >= 0.0;
    } else {
      assert (q - y) * d > 0.0;
    }
  }

  /** A gap is within the margin exactly when the score is, also when the scale is zero. */
  lemma GapMeaning(scores: seq<real>, scale: real, margin: real, j: nat)
    requires Descending(scores) && scale >= 0.0 && margin >= 0.0 && j < |scores|
    ensures AtMost(GapOf(scores, scale, j), margin) <==> scores[0] - scores[j] <= Times(margin, scale)
  {
    assert Times(margin, scale) >= 0.0;
    if scores[j] != scores[0] && scale != 0.0 {
      QuotientLaw(scores[0] - scores[j], scale, margin);
    }
  }

  /** The gaps of a descending row ascend, so a sorted search applies. */
  lemma GapsAscend(scores: seq<real>, scale: real, i: nat, j: nat)
    requires Descending(scores) && scale >= 0.0 && i <= j < |scores|
    ensures Below(GapOf(scores, scale, i), GapOf(scores, scale, j))
  {
    var h := GapOf(scores, scale, j);
    if h.Finite? {
      assert scores[0] >= scores[i] >= scores[j];
      if scale != 0.0 && scores[j] != scores[0] {
        QuotientMonotone(scores[0] - scores[i], scores[0] - scores[j], scale);
        QuotientMonotone(0.0, scores[0] - scores[j], scale);
      }
    }
  }

  /** Exactly the gaps before the cut are within the margin. */
  ghost predicate IsRightCut(gaps: seq<Gap>, margin: real, cut: nat) {
    cut <= |gaps| && forall j :: 0 <= j < |gaps| ==> (AtMost(gaps[j], margin) <==> j < cut)
  }

  method SearchRight(gaps: array<Gap>, margin: real) returns (cut: nat)
    requires forall i, j :: 0 <= i <= j < gaps.Length ==> Below(gaps[i], gaps[j])
    ensures IsRightCut(gaps[..], margin, cut)
  {
    cut := 0;
    var high := gaps.Length;
    while cut < high
      invariant 0 <= cut <= high <= gaps.Length
      invariant forall j :: 0 <= j < cut ==> AtMost(gaps[j], margin)
      invariant forall j :: high <= j < gaps.Length ==> !AtMost(gaps[j], margin)
    {
      var middle := (cut + high) / 2;
      if AtMost(gaps[middle], margin) {
        assert forall j :: 0 <= j <= middle ==> Below(gaps[j], gaps[middle]);
        cut := middle + 1;
      } else {
        assert forall j :: middle <= j < gaps.Length ==> Below(gaps[middle], gaps[j]);
        high := middle;
      }
    }
  }

  /** A cut that parts the scores at the limit counts those within it. */
  lemma {:induction false} CutCounts(scores: seq<real>, first: real, limit: real, cut: nat)
    requires cut <= |scores|
    requires forall j :: 0 <= j < |scores| ==> (first - scores[j] <= limit <==> j < cut)
    ensures Within(scores, first, limit) == cut
  {
    if scores != [] {
      var n := |scores| - 1;
      CutCounts(scores[..n], first, limit, Min(cut, n));
    }
  }

  /** The calibrated budget: search, then floor, cap and partition count. */
  method CalibratedBudget(mode: Mode, scores: seq<real>, scale: real, margin: real, floor: nat, cap: nat)
    returns (budget: int)
    requires scores != [] && Descending(scores) && IsScale(mode, scores, scale) && margin >= 0.0
    ensures budget == Predict(scores, scale, margin, floor, cap)
  {
    var gaps := Gaps(scores, scale);
    forall i, j | 0 <= i <= j < gaps.Length ensures Below(gaps[i], gaps[j]) {
      GapsAscend(scores, scale, i, j);
    }
    var selected := SearchRight(gaps, margin);
    forall j | 0 <= j < |scores| ensures scores[0] - scores[j] <= Times(margin, scale) <==> j < selected {
      assert gaps[..][j] == GapOf(scores, scale, j);
      GapMeaning(scores, scale, margin, j);
    }
    CutCounts(scores, scores[0], Times(margin, scale), selected);
    budget := Min(Max(selected, floor), cap);
    budget := Min(budget, |scores|);
  }

  // ---- what the scale is ----

  /** The relative scale is the first score without its sign. */
  lemma RelativeScale(scores: seq<real>, scale: real)
    requires scores != []
    ensures IsScale(RelativeScore, scores, scale) <==> scale >= 0.0 && (scale == scores[0] || scale == -scores[0])
  {
  }

  lemma {:induction false} SquaresShift(xs: seq<real>, m: real, d: real)
    ensures SquaresAround(xs, m + d) == SquaresAround(xs, m) - 2.0 * Times(d, Sum(xs) - Times(|xs| as real, m)) + Times(|xs| as real, Square(d))
  {
    if xs != [] {
      var n := |xs| - 1;
      SquaresShift(xs[..n], m, d);
      ShiftOne(xs[n], m, d, Sum(xs[..n]), n as real);
    }
  }

  lemma ShiftOne(x: real, m: real, d: real, sum: real, n: real)
    ensures Square(x - (m + d)) - 2.0 * Times(d, sum - Times(n, m)) + Times(n, Square(d)) ==
      Square(x - m) - 2.0 * Times(d, sum + x - Times(n + 1.0, m)) + Times(n + 1.0, Square(d))
  {
    assert Times(n + 1.0, m) == Times(n, m) + m;
    assert Times(n + 1.0, Square(d)) == Times(n, Square(d)) + Square(d);
    Distributes(d, sum - Times(n, m), x - m);
    assert Square(x - (m + d)) == Square(x - m) - 2.0 * Times(d, x - m) + Square(d);
  }

  lemma MeanBalances(xs: seq<real>)
    requires xs != []
    ensures Times(|xs| as real, Mean(xs)) == Sum(xs) && Times(|xs| as real, Variance(xs)) == SquaresAround(xs, Mean(xs))
  {
    TimesBack(Sum(xs), |xs| as real);
    TimesBack(SquaresAround(xs, Mean(xs)), |xs| as real);
  }

  lemma TimesBack(x: real, d: real)
    requires d != 0.0
    ensures Times(d, x / d) == x
  {
  }

  /** Mean and variance are those that split the squares around any point into spread
      and distance from the mean. */
  lemma SpreadAround(xs: seq<real>, m: real)
    requires xs != []
    ensures SquaresAround(xs, m) == Times(|xs| as real, Variance(xs)) + Times(|xs| as real, Square(m - Mean(xs)))
  {
    MeanBalances(xs);
    SquaresShift(xs, Mean(xs), m - Mean(xs));
    assert Times(m - Mean(xs), 0.0) == 0.0;
    assert Mean(xs) + (m - Mean(xs)) == m;
  }

  // ---- what the scale is for ----

  lemma ScaledPrefix(xs: seq<real>, c: real)
    requires xs != []
    ensures Scaled(xs, c)[..|xs| - 1] == Scaled(xs[..|xs| - 1], c)
  {
    var n := |xs| - 1;
    forall i | 0 <= i < n ensures Scaled(xs, c)[..n][i] == Scaled(xs[..n], c)[i] {
      assert xs[..n][i] == xs[i];
    }
  }

  lemma {:induction false} ScaledSum(xs: seq<real>, c: real)
    ensures Sum(Scaled(xs, c)) == Times(c, Sum(xs))
  {
    if xs != [] {
      ScaledPrefix(xs, c);
      ScaledSum(xs[..|xs| - 1], c);
    }
  }

  lemma SquareOfProduct(c: real, d: real)
    ensures Square(Times(c, d)) == Times(Square(c), Square(d))
  {
  }

  lemma Distributes(c: real, x: real, y: real)
    ensures Times(c, x + y) == Times(c, x) + Times(c, y)
  {
  }

  lemma {:induction false} ScaledSquares(xs: seq<real>, c: real, m: real)
    ensures SquaresAround(Scaled(xs, c), Times(c, m)) == Times(Square(c), SquaresAround(xs, m))
  {
    if xs != [] {
      var rest, x := xs[..|xs| - 1], xs[|xs| - 1];
      ScaledPrefix(xs, c);
      ScaledSquares(rest, c, m);
      assert Times(c, x) - Times(c, m) == Times(c, x - m);
      SquareOfProduct(c, x - m);
      Distributes(Square(c), SquaresAround(rest, m), Square(x - m));
    }
  }

  lemma ScaledQuotient(c: real, x: real, d: real)
    requires d != 0.0
    ensures Times(c, x) / d == Times(c, x / d)
  {
  }

  lemma ScaledMean(xs: seq<real>, c: real)
    requires xs != []
    ensures Mean(Scaled(xs, c)) == Times(c, Mean(xs))
  {
    ScaledSum(xs, c);
    ScaledQuotient(c, Sum(xs), |xs| as real);
  }

  lemma ScaledVariance(xs: seq<real>, c: real)
    requires xs != []
    ensures Variance(Scaled(xs, c)) == Times(Square(c), Variance(xs))
  {
    var m := Mean(xs);
    ScaledMean(xs, c);
    ScaledSquares(xs, c, m);
    ScaledQuotient(Square(c), SquaresAround(xs, m), |xs| as real);
  }

  lemma ScaledScale(mode: Mode, scores: seq<real>, scale: real, c: real)
    requires scores != [] && c > 0.0 && IsScale(mode, scores, scale)
    ensures IsScale(mode, Scaled(scores, c), Times(c, scale))
  {
    if mode == StandardDeviation {
      ScaledVariance(scores, c);
      SquareOfProduct(c, scale);
    }
  }

  lemma {:induction false} ScaledWithin(scores: seq<real>, first: real, limit: real, c: real)
    requires c > 0.0
    ensures Within(Scaled(scores, c), Times(c, first), Times(c, limit)) == Within(scores, first, limit)
  {
    if scores != [] {
      ScaledPrefix(scores, c);
      ScaledWithin(scores[..|scores| - 1], first, limit, c);
      var x := scores[|scores| - 1];
      assert Times(c, first) - Times(c, x) == Times(c, first - x);
      ScaledOrder(first - x, limit, c);
    }
  }

  lemma ScaledOrder(x: real, y: real, c: real)
    requires c > 0.0
    ensures Times(c, x) <= Times(c, y) <==> x <= y
  {
  }

  lemma Commutes(x: real, y: real, z: real)
    ensures Times(x, Times(y, z)) == Times(y, Times(x, z))
  {
  }

  /** Scaling the query scales every score, and leaves the budget as it was. */
  lemma BudgetHomogeneous(mode: Mode, scores: seq<real>, scale: real, margin: real, floor: nat, cap: nat, c: real)
    requires scores != [] && c > 0.0 && IsScale(mode, scores, scale)
    ensures IsScale(mode, Scaled(scores, c), Times(c, scale))
    ensures Predict(Scaled(scores, c), Times(c, scale), margin, floor, cap) == Predict(scores, scale, margin, floor, cap)
  {
    ScaledScale(mode, scores, scale, c);
    PredictScaled(scores, scale, margin, floor, cap, c);
  }

  lemma PredictScaled(scores: seq<real>, scale: real, margin: real, floor: nat, cap: nat, c: real)
    requires scores != [] && c > 0.0
    ensures Predict(Scaled(scores, c), Times(c, scale), margin, floor, cap) == Predict(scores, scale, margin, floor, cap)
  {
    ScaledWithin(scores, scores[0], Times(margin, scale), c);
    Commutes(margin, c, scale);
  }

  lemma {:induction false} NoSpread(xs: seq<real>, m: real)
    requires SquaresAround(xs, m) == 0.0
    ensures forall j :: 0 <= j < |xs| ==> xs[j] == m
  {
    if xs != [] {
      var n := |xs| - 1;
      NoSpread(xs[..n], m);
      forall j | 0 <= j < |xs| ensures xs[j] == m {
        assert j < n ==> xs[..n][j] == xs[j];
      }
    }
  }

  /** With no deviation at all every partition is within the margin. */
  lemma FlatRowCountsAll(scores: seq<real>, margin: real)
    requires scores != [] && IsScale(StandardDeviation, scores, 0.0)
    ensures Within(scores, scores[0], Times(margin, 0.0)) == |scores|
  {
    var s := SquaresAround(scores, Mean(scores));
    assert s / |scores| as real * |scores| as real == s;
    NoSpread(scores, Mean(scores));
    CutCounts(scores, scores[0], Times(margin, 0.0), |scores|);
  }

  // ---- the coverage table ----

  lemma {:induction false} HitsAppend(ranks: seq<int>, r: int, budget: int)
    ensures Hits(ranks + [r], budget) == Hits(ranks, budget) + (if r <= budget then 1 else 0)
  {
    if ranks == [] {
      assert ranks + [r] == [r];
    } else {
      assert (ranks + [r])[1..] == ranks[1..] + [r];
      HitsAppend(ranks[1..], r, budget);
    }
  }

  /** How many neighbours have exactly this rank. */
  function Ties(ranks: seq<int>, rank: int): nat {
    Hits(ranks, rank) - HitsBelow(ranks, rank)
  }

  function HitsBelow(ranks: seq<int>, rank: int): (n: nat)
    ensures n <= Hits(ranks, rank)
  {
    HitsMonotone(ranks, rank - 1, rank);
    Hits(ranks, rank - 1)
  }

  lemma TiesAppend(ranks: seq<int>, r: int, rank: int)
    ensures Ties(ranks + [r], rank) == Ties(ranks, rank) + (if r == rank then 1 else 0)
  {
    HitsAppend(ranks, r, rank);
    HitsAppend(ranks, r, rank - 1);
  }

  lemma {:induction false} NoHits(ranks: seq<int>, budget: int)
    requires forall j :: 0 <= j < |ranks| ==> ranks[j] > budget
    ensures Hits(ranks, budget) == 0
  {
    if ranks != [] {
      NoHits(ranks[1..], budget);
    }
  }

  /** Counts each rank, then sums up: entry `b` is the number of the first k true
      neighbours whose partition ranks within the first `b`. */
  method Coverage(ranks: seq<int>, k: nat, partitions: nat) returns (coverage: array<int>)
    requires forall j :: 0 <= j < |ranks| ==> 0 <= ranks[j] <= partitions
    ensures coverage.Length == partitions + 1
    ensures forall b :: 0 <= b <= partitions ==> coverage[b] == Hits(ranks[..Min(k, |ranks|)], b)
  {
    var first := ranks[..Min(k, |ranks|)];
    coverage := new int[partitions + 1](_ => 0);
    for j := 0 to |first|
      invariant forall b :: 0 <= b <= partitions ==> coverage[b] == Ties(first[..j], b)
    {
      forall b | 0 <= b <= partitions
        ensures Ties(first[..j + 1], b) == Ties(first[..j], b) + (if first[j] == b then 1 else 0)
      {
        assert first[..j + 1] == first[..j] + [first[j]];
        TiesAppend(first[..j], first[j], b);
      }
      coverage[first[j]] := coverage[first[j]] + 1;
    }
    assert first[..|first|] == first;
    NoHits(first, -1);
    for b := 1 to partitions + 1
      invariant forall a :: 0 <= a < b ==> coverage[a] == Hits(first, a)
      invariant forall a :: b <= a <= partitions ==> coverage[a] == Ties(first, a)
    {
      coverage[b] := coverage[b - 1] + coverage[b];
    }
  }

  /** What the calibration reads off the table is the recall the measurement reports. */
  method CoveredByBudget(mode: Mode, scores: seq<real>, scale: real, margin: real, floor: nat, cap: nat,
                         ranks: seq<int>, k: nat)
    returns (covered: int)
    requires scores != [] && Descending(scores) && IsScale(mode, scores, scale) && margin >= 0.0
    requires forall j :: 0 <= j < |ranks| ==> 0 <= ranks[j] <= |scores|
    ensures covered == Hits(ranks[..Min(k, |ranks|)], Predict(scores, scale, margin, floor, cap))
  {
    var coverage := Coverage(ranks, k, |scores|);
    var budget := CalibratedBudget(mode, scores, scale, margin, floor, cap);
    covered := coverage[budget];
  }
}
