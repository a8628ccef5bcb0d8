/** Fitting a scale per metric, k and tier, and choosing the k at which to keep them. */
module EffortCalibration {
  import opened RoutingRecall
  import opened Minimum
  import Words

  datatype Problem = NoGroups | BadAnchors | NoData | AutoMisses | OutsideAnchors
  datatype Result<T> = Ok(value: T) | Failed(problem: Problem)

  /** The grid step of each tier, by k. */
  type Profiles = map<nat, seq<int>>

  /** How a scale between two anchors is made from theirs. */
  type Interpolation = (nat, nat, nat, real, real) -> real

  const TIERS: nat := 2

  /** The tier's recall target with its calibration headroom. */
  function Required(tier: nat): real {
    (if tier == 0 then 0.8 else 0.9) + 0.01
  }

  // ---- sorted anchors and the scale between them ----

  ghost predicate Rising(a: seq<nat>) {
    forall i, j :: 0 <= i < j < |a| ==> a[i] < a[j]
  }

  function Sorted(s: set<nat>): (a: seq<nat>)
    ensures Rising(a)
    ensures forall x :: x in a <==> x in s
  {
    if s == {} then []
    else
      var m := Least(s);
      [m] + Sorted(s - {m})
  }

  /** The first position whose anchor is not below `k`. */
  function BisectLeft(a: seq<nat>, k: nat): (i: nat)
    requires Rising(a)
    ensures i <= |a|
    ensures forall j :: 0 <= j < i ==> a[j] < k
    ensures forall j :: i <= j < |a| ==> k <= a[j]
  {
    if a == [] || k <= a[0] then 0 else 1 + BisectLeft(a[1..], k)
  }

  predicate Tiered(profiles: Profiles) {
    forall k :: k in profiles ==> |profiles[k]| == TIERS
  }

  /** `a` lists the members of `s` in order. */
  ghost predicate Lists(a: seq<nat>, s: set<nat>) {
    Rising(a) && forall x :: x in a <==> x in s
  }

  function ScaleAmong(anchors: seq<nat>, profiles: Profiles, k: nat, tier: nat, between: Interpolation): Result<real>
    requires Tiered(profiles) && tier < TIERS && Lists(anchors, profiles.Keys)
  {
    var upper := BisectLeft(anchors, k);
    if upper < |anchors| && anchors[upper] == k then Ok(GridScale(profiles[k][tier]))
    else if upper == 0 || upper == |anchors| then Failed(OutsideAnchors)
    else
      var a, b := anchors[upper - 1], anchors[upper];
      Ok(between(a, b, k, GridScale(profiles[a][tier]), GridScale(profiles[b][tier])))
  }

  function ScaleAt(profiles: Profiles, k: nat, tier: nat, between: Interpolation): Result<real>
    requires Tiered(profiles) && tier < TIERS
  {
    ScaleAmong(Sorted(profiles.Keys), profiles, k, tier, between)
  }

  ghost predicate Neighbours(s: set<nat>, k: nat, a: nat, b: nat) {
    && a in s && b in s && a < k < b
    && forall x :: x in s ==> x <= a || b <= x
  }

  ghost predicate IsCut(a: seq<nat>, k: nat, i: nat) {
    && i <= |a|
    && (forall j :: 0 <= j < i ==> a[j] < k)
    && (forall j :: i <= j < |a| ==> k <= a[j])
  }

  /** Where the search lands among the anchors. */
  lemma CutLands(a: seq<nat>, s: set<nat>, k: nat, i: nat)
    requires Lists(a, s) && IsCut(a, k, i)
    ensures k in s <==> i < |a| && a[i] == k
    ensures i == 0 <==> forall x :: x in s ==> k <= x
    ensures i == |a| <==> forall x :: x in s ==> x < k
  {
    if k in s {
      var j :| 0 <= j < |a| && a[j] == k;
      assert j == i;
    }
    if i < |a| {
      assert a[i] in s;
    }
    if i > 0 {
      assert a[i - 1] in s;
    }
  }

  lemma NeighboursFound(a: seq<nat>, s: set<nat>, k: nat, i: nat, low: nat, high: nat)
    requires Lists(a, s) && IsCut(a, k, i) && Neighbours(s, k, low, high)
    ensures 0 < i < |a| && low == a[i - 1] && high == a[i]
  {
    var p :| 0 <= p < |a| && a[p] == low;
    var q :| 0 <= q < |a| && a[q] == high;
    assert p < i <= q;
    assert a[i - 1] in s && a[i] in s;
  }

  /** An anchor gives its own scale, and only a k outside all anchors is refused. */
  lemma ScaleAtAnchor(profiles: Profiles, k: nat, tier: nat, between: Interpolation)
    requires Tiered(profiles) && tier < TIERS
    ensures k in profiles ==> ScaleAt(profiles, k, tier, between) == Ok(GridScale(profiles[k][tier]))
    ensures ScaleAt(profiles, k, tier, between).Failed? <==>
      (forall x :: x in profiles ==> k < x) || (forall x :: x in profiles ==> x < k)
  {
    AmongAnchors(Sorted(profiles.Keys), profiles, k, tier, between);
  }

  lemma AmongAnchors(anchors: seq<nat>, profiles: Profiles, k: nat, tier: nat, between: Interpolation)
    requires Tiered(profiles) && tier < TIERS && Lists(anchors, profiles.Keys)
    ensures k in profiles ==> ScaleAmong(anchors, profiles, k, tier, between) == Ok(GridScale(profiles[k][tier]))
    ensures ScaleAmong(anchors, profiles, k, tier, between).Failed? <==>
      (forall x :: x in profiles ==> k < x) || (forall x :: x in profiles ==> x < k)
  {
    CutLands(anchors, profiles.Keys, k, BisectLeft(anchors, k));
  }

  /** A k between two anchors gets a scale made from the nearest on either side. */
  lemma ScaleAtBetween(profiles: Profiles, k: nat, tier: nat, between: Interpolation, a: nat, b: nat)
    requires Tiered(profiles) && tier < TIERS && Neighbours(profiles.Keys, k, a, b)
    ensures ScaleAt(profiles, k, tier, between) ==
      Ok(between(a, b, k, GridScale(profiles[a][tier]), GridScale(profiles[b][tier])))
  {
    AmongNeighbours(Sorted(profiles.Keys), profiles, k, tier, between, a, b);
  }

  lemma AmongNeighbours(anchors: seq<nat>, profiles: Profiles, k: nat, tier: nat, between: Interpolation, a: nat, b: nat)
    requires Tiered(profiles) && tier < TIERS && Lists(anchors, profiles.Keys) && Neighbours(profiles.Keys, k, a, b)
    ensures ScaleAmong(anchors, profiles, k, tier, between) ==
      Ok(between(a, b, k, GridScale(profiles[a][tier]), GridScale(profiles[b][tier])))
  {
    NeighboursFound(anchors, profiles.Keys, k, BisectLeft(anchors, k), a, b);
  }

  /** Between two anchors larger scales give larger ones, as a weighted geometric mean
      of positive scales does. */
  ghost predicate RespectsOrder(between: Interpolation) {
    forall a: nat, b: nat, n: nat, lo, hi, lo', hi' :: a < n < b && 0.0 < lo <= lo' && 0.0 < hi <= hi' ==>
      between(a, b, n, lo, hi) <= between(a, b, n, lo', hi')
  }

  /** An interpolation that respects the order of scales keeps the tiers in order. */
  lemma TiersOrdered(profiles: Profiles, k: nat, between: Interpolation)
    requires Tiered(profiles) && RespectsOrder(between)
    requires forall x :: x in profiles ==> 1 <= profiles[x][0] <= profiles[x][1]
    requires ScaleAt(profiles, k, 0, between).Ok?
    ensures ScaleAt(profiles, k, 1, between).Ok?
    ensures ScaleAt(profiles, k, 0, between).value <= ScaleAt(profiles, k, 1, between).value
  {
    TiersAmong(Sorted(profiles.Keys), profiles, k, between);
  }

  lemma GridOrder(m: int, n: int)
    requires 1 <= m <= n
    ensures 0.0 < GridScale(m) <= GridScale(n)
  {
  }

  lemma OrderBetween(between: Interpolation, a: nat, b: nat, n: nat, lo: real, hi: real, lo': real, hi': real)
    requires RespectsOrder(between) && a < n < b && 0.0 < lo <= lo' && 0.0 < hi <= hi'
    ensures between(a, b, n, lo, hi) <= between(a, b, n, lo', hi')
  {
  }

  lemma TiersAmong(anchors: seq<nat>, profiles: Profiles, k: nat, between: Interpolation)
    requires Tiered(profiles) && RespectsOrder(between) && Lists(anchors, profiles.Keys)
    requires forall x :: x in profiles ==> 1 <= profiles[x][0] <= profiles[x][1]
    requires ScaleAmong(anchors, profiles, k, 0, between).Ok?
    ensures ScaleAmong(anchors, profiles, k, 1, between).Ok?
    ensures ScaleAmong(anchors, profiles, k, 0, between).value <= ScaleAmong(anchors, profiles, k, 1, between).value
  {
    var i := BisectLeft(anchors, k);
    assert anchors[i] in profiles;
    var b := profiles[anchors[i]];
    GridOrder(b[0], b[1]);
    if anchors[i] != k {
      assert anchors[i - 1] in profiles;
      var a := profiles[anchors[i - 1]];
      GridOrder(a[0], a[1]);
      OrderBetween(between, anchors[i - 1], anchors[i], k, GridScale(a[0]), GridScale(b[0]), GridScale(a[1]), GridScale(b[1]));
    }
  }

  // ---- fitting every k of every metric ----

  function Selected(groups: seq<Group>, metric: string, k: nat): (r: seq<Group>)
    ensures forall g :: g in r <==> g in groups && g.metric == metric && g.k == k
  {
    if groups == [] then []
    else
      (if groups[0].metric == metric && groups[0].k == k then [groups[0]] else []) + Selected(groups[1..], metric, k)
  }

  lemma SelectedLoaded(groups: seq<Group>, metric: string, k: nat)
    requires AllLoaded(groups)
    ensures AllLoaded(Selected(groups, metric, k))
  {
    var r := Selected(groups, metric, k);
    forall i | 0 <= i < |r| ensures Loaded(r[i]) {
      assert r[i] in groups;
    }
  }

  ghost predicate Fits(groups: seq<Group>, metric: string, k: nat, steps: seq<int>)
    requires AllLoaded(groups)
  {
    SelectedLoaded(groups, metric, k);
    && |steps| == TIERS
    && forall tier :: 0 <= tier < TIERS ==> IsThreshold(Selected(groups, metric, k), Required(tier), steps[tier])
  }

  /** The looser tier never has the larger scale. */
  lemma FitTiersOrdered(groups: seq<Group>, metric: string, k: nat, steps: seq<int>)
    requires AllLoaded(groups) && Fits(groups, metric, k, steps)
    ensures 1 <= steps[0] <= steps[1]
  {
    SelectedLoaded(groups, metric, k);
    ThresholdMonotone(Selected(groups, metric, k), Required(0), Required(1), steps[0], steps[1]);
  }

  ghost predicate HasData(groups: seq<Group>, metric: string, k: nat) {
    exists g :: g in groups && g.metric == metric && g.k == k
  }

  ghost predicate AutoMeets(groups: seq<Group>, metric: string, k: nat)
    requires AllLoaded(groups)
  {
    SelectedLoaded(groups, metric, k);
    forall tier :: 0 <= tier < TIERS ==> Meets(Selected(groups, metric, k), 1.0, Required(tier))
  }

  method FitPoint(groups: seq<Group>, metric: string, k: nat) returns (r: Result<seq<int>>)
    requires AllLoaded(groups)
    ensures r.Ok? <==> CanFitAt(groups, metric, k)
    ensures r.Ok? ==> Fits(groups, metric, k, r.value)
    ensures r.Failed? ==> r.problem == (if HasData(groups, metric, k) then AutoMisses else NoData)
  {
    var selected := Selected(groups, metric, k);
    SelectedLoaded(groups, metric, k);
    if selected == [] {
      return Failed(NoData);
    }
    assert HasData(groups, metric, k) by {
      assert selected[0] in groups;
    }
    var steps := [];
    for tier := 0 to TIERS
      invariant |steps| == tier
      invariant forall t :: 0 <= t < tier ==>
        Meets(selected, 1.0, Required(t)) && IsThreshold(selected, Required(t), steps[t])
    {
      var found, step := FindThreshold(selected, Required(tier));
      if !found {
        return Failed(AutoMisses);
      }
      steps := steps + [step];
    }
    return Ok(steps);
  }

  ghost predicate Fitted(groups: seq<Group>, metric: string, k: nat, fitted: Profiles)
    requires AllLoaded(groups)
  {
    k in fitted && Fits(groups, metric, k, fitted[k])
  }

  /** Every k asked for is fitted, and no other. */
  ghost predicate FitsAll(groups: seq<Group>, metric: string, ks: set<nat>, fitted: Profiles)
    requires AllLoaded(groups)
  {
    fitted.Keys == ks && forall k :: k in ks ==> Fitted(groups, metric, k, fitted)
  }

  ghost predicate CanFitAt(groups: seq<Group>, metric: string, k: nat)
    requires AllLoaded(groups)
  {
    HasData(groups, metric, k) && AutoMeets(groups, metric, k)
  }

  ghost predicate CanFit(groups: seq<Group>, metric: string, ks: set<nat>)
    requires AllLoaded(groups)
  {
    forall k :: k in ks ==> CanFitAt(groups, metric, k)
  }

  /** Why a metric and k cannot be fitted. */
  ghost function ProblemAt(groups: seq<Group>, metric: string, k: nat): Problem {
    if HasData(groups, metric, k) then AutoMisses else NoData
  }

  /** The problem is that of the least k that cannot be fitted. */
  ghost predicate FirstProblem(groups: seq<Group>, metric: string, ks: set<nat>, problem: Problem)
    requires AllLoaded(groups)
  {
    exists k :: k in ks && !CanFitAt(groups, metric, k) && problem == ProblemAt(groups, metric, k)
      && forall x :: x in ks && x < k ==> CanFitAt(groups, metric, x)
  }

  lemma SmallerAreBefore(order: seq<nat>, ks: set<nat>, i: nat, x: nat)
    requires Rising(order) && (forall y :: y in order <==> y in ks) && i < |order| && x in ks && x < order[i]
    ensures x in order[..i]
  {
    var j :| 0 <= j < |order| && order[j] == x;
    assert j < i;
    assert order[..i][j] == x;
  }

  /** The k that are done can be fitted, and are. */
  ghost predicate DoneAll(groups: seq<Group>, metric: string, done: seq<nat>, fitted: Profiles)
    requires AllLoaded(groups)
  {
    forall k :: k in done ==> CanFitAt(groups, metric, k) && Fitted(groups, metric, k, fitted)
  }

  lemma DoneOne(groups: seq<Group>, metric: string, done: seq<nat>, fitted: Profiles, k: nat, steps: seq<int>)
    requires AllLoaded(groups) && DoneAll(groups, metric, done, fitted)
    requires CanFitAt(groups, metric, k) && Fits(groups, metric, k, steps)
    ensures DoneAll(groups, metric, done + [k], fitted[k := steps])
  {
  }

  lemma ProblemFound(groups: seq<Group>, metric: string, ks: set<nat>, order: seq<nat>, i: nat, fitted: Profiles)
    requires AllLoaded(groups) && Lists(order, ks) && i < |order|
    requires DoneAll(groups, metric, order[..i], fitted) && !CanFitAt(groups, metric, order[i])
    ensures FirstProblem(groups, metric, ks, ProblemAt(groups, metric, order[i]))
  {
    forall x | x in ks && x < order[i] ensures CanFitAt(groups, metric, x) {
      SmallerAreBefore(order, ks, i, x);
    }
    assert order[i] in ks;
  }

  lemma AllDone(groups: seq<Group>, metric: string, ks: set<nat>, order: seq<nat>, fitted: Profiles)
    requires AllLoaded(groups) && Lists(order, ks) && DoneAll(groups, metric, order, fitted) && fitted.Keys <= ks
    ensures CanFit(groups, metric, ks) && FitsAll(groups, metric, ks, fitted)
  {
  }

  method FitMetric(groups: seq<Group>, metric: string, ks: set<nat>) returns (r: Result<Profiles>)
    requires AllLoaded(groups)
    ensures r.Ok? <==> CanFit(groups, metric, ks)
    ensures r.Ok? ==> FitsAll(groups, metric, ks, r.value)
    ensures r.Failed? ==> FirstProblem(groups, metric, ks, r.problem)
  {
    var order := Sorted(ks);
    var fitted: Profiles := map[];
    for i := 0 to |order|
      invariant fitted.Keys <= ks && DoneAll(groups, metric, order[..i], fitted)
    {
      var k := order[i];
      assert k in ks;
      var point := FitPoint(groups, metric, k);
      if point.Failed? {
        ProblemFound(groups, metric, ks, order, i, fitted);
        return Failed(point.problem);
      }
      DoneOne(groups, metric, order[..i], fitted, k, point.value);
      fitted := fitted[k := point.value];
      assert order[..i + 1] == order[..i] + [k];
    }
    assert order[..|order|] == order;
    AllDone(groups, metric, ks, order, fitted);
    return Ok(fitted);
  }

  /** The metrics that occur, in alphabetical order. */
  function Metrics(groups: seq<Group>): (ms: seq<string>)
    ensures Words.Ordered(ms)
    ensures forall m :: m in ms <==> exists g :: g in groups && g.metric == m
  {
    if groups == [] then []
    else
      assert forall g :: g in groups <==> g in groups[..|groups| - 1] || g == groups[|groups| - 1];
      Words.Insert(groups[|groups| - 1].metric, Metrics(groups[..|groups| - 1]))
  }

  type Pointwise = map<string, Profiles>

  ghost predicate IsPointwise(groups: seq<Group>, ks: set<nat>, p: Pointwise)
    requires AllLoaded(groups)
  {
    && (forall g :: g in groups ==> g.metric in p && g.k in ks)
    && (forall m :: m in p ==> FitsAll(groups, m, ks, p[m]))
  }

  function KsOf(groups: seq<Group>): (ks: set<nat>)
    ensures forall g :: g in groups ==> g.k in ks
  {
    if groups == [] then {} else {groups[0].k} + KsOf(groups[1..])
  }

  /** And nothing else. */
  lemma {:induction false} KsOccur(groups: seq<Group>, k: nat) returns (g: Group)
    requires k in KsOf(groups)
    ensures g in groups && g.k == k
  {
    if groups[0].k == k {
      g := groups[0];
    } else {
      g := KsOccur(groups[1..], k);
    }
  }

  ghost predicate FailsAt(groups: seq<Group>, ms: seq<string>, ks: set<nat>, problem: Problem, i: int)
    requires AllLoaded(groups)
  {
    && 0 <= i < |ms| && FirstProblem(groups, ms[i], ks, problem)
    && forall m :: m in ms[..i] ==> CanFit(groups, m, ks)
  }

  /** The problem is that of the first metric that cannot be fitted at every k. */
  ghost predicate FirstFailure(groups: seq<Group>, problem: Problem)
    requires AllLoaded(groups)
  {
    exists i :: FailsAt(groups, Metrics(groups), KsOf(groups), problem, i)
  }

  ghost predicate CanFitAll(groups: seq<Group>)
    requires AllLoaded(groups)
  {
    forall m :: m in Metrics(groups) ==> CanFit(groups, m, KsOf(groups))
  }

  method FitMetrics(groups: seq<Group>, ms: seq<string>, ks: set<nat>) returns (r: Result<Pointwise>)
    requires AllLoaded(groups)
    ensures r.Ok? <==> forall m :: m in ms ==> CanFit(groups, m, ks)
    ensures r.Ok? ==> forall m :: m in r.value <==> m in ms
    ensures r.Ok? ==> forall m :: m in r.value ==> FitsAll(groups, m, ks, r.value[m])
    ensures r.Failed? ==> exists i :: FailsAt(groups, ms, ks, r.problem, i)
  {
    var p := map[];
    for i := 0 to |ms|
      invariant forall m :: m in p ==> FitsAll(groups, m, ks, p[m])
      invariant forall m :: m in ms[..i] ==> m in p && CanFit(groups, m, ks)
      invariant forall m :: m in p ==> m in ms
    {
      var m := ms[i];
      var fitted := FitMetric(groups, m, ks);
      if fitted.Failed? {
        assert m in ms && !CanFit(groups, m, ks);
        assert FailsAt(groups, ms, ks, fitted.problem, i);
        return Failed(fitted.problem);
      }
      p := p[m := fitted.value];
      assert ms[..i + 1] == ms[..i] + [m];
    }
    assert ms[..|ms|] == ms;
    return Ok(p);
  }

  method FitEvery(groups: seq<Group>) returns (r: Result<Pointwise>)
    requires AllLoaded(groups)
    ensures r.Ok? <==> CanFitAll(groups)
    ensures r.Ok? ==> IsPointwise(groups, KsOf(groups), r.value)
    ensures r.Ok? ==> forall m :: m in r.value <==> m in Metrics(groups)
    ensures r.Failed? ==> FirstFailure(groups, r.problem)
  {
    r := FitMetrics(groups, Metrics(groups), KsOf(groups));
  }
}
