/** The whole calibration and what its frozen profiles guarantee. */
module Calibrate {
  import opened RoutingRecall
  import opened EffortCalibration
  import opened AnchorSelection

  datatype Calibration = Calibration(anchors: set<nat>, profiles: Pointwise)

  function Restricted(p: Profiles, anchors: set<nat>): Profiles {
    map k | k in p && k in anchors :: p[k]
  }

  function Kept(p: Pointwise, anchors: set<nat>): Pointwise {
    map m | m in p :: Restricted(p[m], anchors)
  }

  function LookupIn(p: Pointwise, between: Interpolation): Lookup {
    (metric: string, anchors: set<nat>, k: nat, tier: nat) =>
      if metric in p && tier < TIERS && Tiered(Restricted(p[metric], anchors)) then
        ScaleAt(Restricted(p[metric], anchors), k, tier, between)
      else Failed(OutsideAnchors)
  }

  // ---- anchors on both sides ----

  ghost predicate Spanned(anchors: set<nat>, k: nat) {
    (exists a :: a in anchors && a <= k) && (exists b :: b in anchors && k <= b)
  }

  /** The anchors lie among the ks and on both sides of each. */
  ghost predicate GoodAnchors(ks: set<nat>, anchors: set<nat>) {
    anchors <= ks && forall k :: k in ks ==> Spanned(anchors, k)
  }

  /** Anchors among the ks span them exactly when they hold both ends. */
  lemma EndsSpan(ks: set<nat>, anchors: set<nat>, a: seq<nat>)
    requires a != [] && Lists(a, ks) && anchors <= ks
    ensures GoodAnchors(ks, anchors) <==> a[0] in anchors && a[|a| - 1] in anchors
  {
    var first, last := a[0], a[|a| - 1];
    assert first in a && last in a;
    forall k | k in ks ensures first <= k <= last {
      assert k in a;
    }
    if GoodAnchors(ks, anchors) {
      assert Spanned(anchors, first) && Spanned(anchors, last);
    }
  }

  lemma MoreAnchorsSpan(anchors: set<nat>, more: set<nat>, k: nat)
    requires anchors <= more && Spanned(anchors, k)
    ensures Spanned(more, k)
  {
    var a :| a in anchors && a <= k;
    var b :| b in anchors && k <= b;
    assert a in more && b in more;
  }

  lemma MoreAnchorsGood(ks: set<nat>, anchors: set<nat>, more: set<nat>)
    requires GoodAnchors(ks, anchors) && anchors <= more <= ks
    ensures GoodAnchors(ks, more)
  {
    forall k | k in ks ensures Spanned(more, k) {
      MoreAnchorsSpan(anchors, more, k);
    }
  }

  // ---- what the fits give ----

  /** `step` is the least at which all groups with this metric and k meet the target. */
  ghost predicate IsFit(groups: seq<Group>, metric: string, k: nat, tier: nat, step: int)
    requires AllLoaded(groups)
  {
    SelectedLoaded(groups, metric, k);
    IsThreshold(Selected(groups, metric, k), Required(tier), step)
  }

  lemma PointwiseFits(groups: seq<Group>, ks: set<nat>, p: Pointwise, g: Group)
    requires AllLoaded(groups) && IsPointwise(groups, ks, p) && g in groups
    ensures g.metric in p && g.k in p[g.metric] && p[g.metric].Keys == ks && Tiered(p[g.metric])
    ensures forall tier :: 0 <= tier < TIERS ==> IsFit(groups, g.metric, g.k, tier, p[g.metric][g.k][tier])
  {
    var fitted := p[g.metric];
    assert FitsAll(groups, g.metric, ks, fitted);
    forall k | k in fitted ensures |fitted[k]| == TIERS {
      assert Fitted(groups, g.metric, k, fitted);
    }
    assert Fitted(groups, g.metric, g.k, fitted);
  }

  lemma FitMeets(groups: seq<Group>, g: Group, tier: nat, step: int)
    requires AllLoaded(groups) && g in groups && IsFit(groups, g.metric, g.k, tier, step)
    ensures Loaded(g) && Recall(g, GridScale(step)) >= Required(tier)
  {
    var selected := Selected(groups, g.metric, g.k);
    SelectedLoaded(groups, g.metric, g.k);
    assert Meets(selected, GridScale(step), Required(tier));
    assert g in selected;
  }

  // ---- the loop on an abstract lookup ----

  /** All that a lookup for the k needs. */
  ghost predicate Covered(p: Pointwise, anchors: set<nat>, metric: string, k: nat) {
    metric in p && Tiered(p[metric]) && anchors <= p[metric].Keys && Spanned(anchors, k)
  }

  /** Inside the anchors the lookup answers, and at an anchor it gives the fit. */
  ghost predicate FaithfulAt(lookup: Lookup, p: Pointwise, metric: string, anchors: set<nat>, k: nat, tier: nat)
    requires Covered(p, anchors, metric, k) && tier < TIERS
  {
    && lookup(metric, anchors, k, tier).Ok?
    && (k in anchors ==> lookup(metric, anchors, k, tier).value == GridScale(p[metric][k][tier]))
  }

  ghost predicate Faithful(lookup: Lookup, p: Pointwise) {
    forall metric, anchors, k, tier: nat :: Covered(p, anchors, metric, k) && tier < TIERS ==>
      FaithfulAt(lookup, p, metric, anchors, k, tier)
  }

  /** The target is met within 5% of the cost of the optimum, and at an anchor by it. */
  ghost predicate Compares(g: Group, anchors: set<nat>, tier: nat, scale: real, optimum: real)
    requires Loaded(g)
  {
    Serves(g, tier, scale, optimum) && (g.k in anchors ==> scale == optimum)
  }

  /** The scale meets the tier's target and compares well with the least grid scale
      that does so for all groups of this metric and k. */
  ghost predicate Met(groups: seq<Group>, anchors: set<nat>, g: Group, tier: nat, scale: real)
    requires AllLoaded(groups) && Loaded(g)
  {
    exists step :: IsFit(groups, g.metric, g.k, tier, step) && Compares(g, anchors, tier, scale, GridScale(step))
  }

  /** The group's metric is fitted at exactly the ks that occur. */
  ghost predicate GroundAt(g: Group, ks: set<nat>, p: Pointwise) {
    Loaded(g) && g.k in ks && g.metric in p && Tiered(p[g.metric]) && p[g.metric].Keys == ks
  }

  ghost predicate Ground(groups: seq<Group>, ks: set<nat>, p: Pointwise) {
    forall i {:trigger GroundAt(groups[i], ks, p)} :: 0 <= i < |groups| ==> GroundAt(groups[i], ks, p)
  }

  lemma GroundCovers(g: Group, ks: set<nat>, p: Pointwise, anchors: set<nat>)
    requires GroundAt(g, ks, p) && GoodAnchors(ks, anchors)
    ensures Covered(p, anchors, g.metric, g.k)
  {
    assert Spanned(anchors, g.k);
  }

  lemma AnswersAt(g: Group, ks: set<nat>, p: Pointwise, anchors: set<nat>, lookup: Lookup, tier: nat)
    requires GroundAt(g, ks, p) && GoodAnchors(ks, anchors) && Faithful(lookup, p) && tier < TIERS
    ensures lookup(g.metric, anchors, g.k, tier).Ok?
  {
    GroundCovers(g, ks, p, anchors);
    assert FaithfulAt(lookup, p, g.metric, anchors, g.k, tier);
  }

  lemma AlwaysAnswers(groups: seq<Group>, ks: set<nat>, p: Pointwise, anchors: set<nat>, lookup: Lookup)
    requires Ground(groups, ks, p) && GoodAnchors(ks, anchors) && Faithful(lookup, p)
    ensures AnswersAll(groups, anchors, lookup)
  {
    forall i, tier: nat | 0 <= i < |groups| && tier < TIERS
      ensures lookup(groups[i].metric, anchors, groups[i].k, tier).Ok?
    {
      assert GroundAt(groups[i], ks, p);
      AnswersAt(groups[i], ks, p, anchors, lookup, tier);
    }
  }

  lemma GroundReady(groups: seq<Group>, ks: set<nat>, p: Pointwise)
    requires Ground(groups, ks, p)
    ensures Ready(groups, p)
  {
    forall i | 0 <= i < |groups| ensures ReadyAt(groups[i], p) {
      assert GroundAt(groups[i], ks, p);
    }
  }

  /** On exit each group has an anchor at its k or is served by the interpolation. */
  ghost predicate Settled(g: Group, p: Pointwise, anchors: set<nat>, lookup: Lookup) {
    g.k in anchors || Served(g, p, anchors, lookup)
  }

  /** From fits at every k and good anchors, the loop always ends with all groups settled. */
  method Select(groups: seq<Group>, p: Pointwise, mandatory: set<nat>, lookup: Lookup)
    returns (anchors: set<nat>, rounds: nat)
    requires Ground(groups, KsOf(groups), p) && GoodAnchors(KsOf(groups), mandatory) && Faithful(lookup, p)
    ensures mandatory <= anchors <= KsOf(groups) && anchors == Grown(groups, p, lookup, mandatory)
    ensures rounds <= |KsOf(groups) - mandatory| + 1
    ensures forall i :: 0 <= i < |groups| ==> Settled(groups[i], p, anchors, lookup)
  {
    GroundReady(groups, KsOf(groups), p);
    forall tried | mandatory <= tried <= KsOf(groups) ensures AnswersAll(groups, tried, lookup) {
      MoreAnchorsGood(KsOf(groups), mandatory, tried);
      AlwaysAnswers(groups, KsOf(groups), p, tried, lookup);
    }
    var grown;
    grown, rounds := GrowAnchors(groups, p, mandatory, lookup);
    anchors := grown.value;
    forall i | 0 <= i < |groups| ensures Settled(groups[i], p, anchors, lookup) {
      MissedMeaning(groups, |groups|, p, anchors, lookup, groups[i].k);
    }
  }

  lemma AnchorServes(g: Group, tier: nat, scale: real)
    requires Loaded(g) && Recall(g, scale) >= Required(tier)
    ensures Serves(g, tier, scale, scale)
  {
    SelfQuotient(MeanBudget(g, scale));
  }

  lemma SelfQuotient(m: real)
    requires m > 0.0
    ensures m / m == 1.0
  {
  }

  lemma SettledCompares(g: Group, ks: set<nat>, p: Pointwise, anchors: set<nat>, tier: nat, lookup: Lookup)
    requires GroundAt(g, ks, p) && GoodAnchors(ks, anchors) && tier < TIERS
    requires Recall(g, GridScale(p[g.metric][g.k][tier])) >= Required(tier)
    requires Faithful(lookup, p) && Settled(g, p, anchors, lookup)
    ensures lookup(g.metric, anchors, g.k, tier).Ok?
    ensures Compares(g, anchors, tier, lookup(g.metric, anchors, g.k, tier).value, GridScale(p[g.metric][g.k][tier]))
  {
    GroundCovers(g, ks, p, anchors);
    assert FaithfulAt(lookup, p, g.metric, anchors, g.k, tier);
    if g.k in anchors {
      AnchorServes(g, tier, GridScale(p[g.metric][g.k][tier]));
    } else {
      assert TierServed(g, p, anchors, lookup, tier);
    }
  }

  /** A settled group meets its targets. */
  lemma SettledMeets(groups: seq<Group>, ks: set<nat>, p: Pointwise, anchors: set<nat>, g: Group, tier: nat, lookup: Lookup)
    requires AllLoaded(groups) && g in groups && GroundAt(g, ks, p) && GoodAnchors(ks, anchors) && tier < TIERS
    requires IsFit(groups, g.metric, g.k, tier, p[g.metric][g.k][tier])
    requires Faithful(lookup, p) && Settled(g, p, anchors, lookup)
    ensures lookup(g.metric, anchors, g.k, tier).Ok?
    ensures Met(groups, anchors, g, tier, lookup(g.metric, anchors, g.k, tier).value)
  {
    FitMeets(groups, g, tier, p[g.metric][g.k][tier]);
    SettledCompares(g, ks, p, anchors, tier, lookup);
  }

  // ---- the whole calibration ----

  lemma LookupDefined(p: Profiles, anchors: set<nat>, k: nat, tier: nat, between: Interpolation)
    requires Tiered(p) && anchors <= p.Keys && Spanned(anchors, k) && tier < TIERS
    ensures ScaleAt(Restricted(p, anchors), k, tier, between).Ok?
    ensures k in anchors ==> ScaleAt(Restricted(p, anchors), k, tier, between) == Ok(GridScale(p[k][tier]))
  {
    var r := Restricted(p, anchors);
    ScaleAtAnchor(r, k, tier, between);
    var a :| a in anchors && a <= k;
    var b :| b in anchors && k <= b;
    assert a in r && b in r;
  }

  lemma LookupIsFaithfulAt(p: Pointwise, between: Interpolation, metric: string, anchors: set<nat>, k: nat, tier: nat)
    requires Covered(p, anchors, metric, k) && tier < TIERS
    ensures FaithfulAt(LookupIn(p, between), p, metric, anchors, k, tier)
  {
    LookupDefined(p[metric], anchors, k, tier, between);
  }

  lemma LookupIsFaithful(p: Pointwise, between: Interpolation)
    ensures Faithful(LookupIn(p, between), p)
  {
    forall metric, anchors, k, tier: nat | Covered(p, anchors, metric, k) && tier < TIERS
      ensures FaithfulAt(LookupIn(p, between), p, metric, anchors, k, tier)
    {
      LookupIsFaithfulAt(p, between, metric, anchors, k, tier);
    }
  }

  /** What the frozen profiles promise one group and tier. */
  ghost predicate TargetMet(groups: seq<Group>, c: Calibration, g: Group, tier: nat, between: Interpolation)
    requires AllLoaded(groups) && Loaded(g) && tier < TIERS
  {
    && g.metric in c.profiles && Tiered(c.profiles[g.metric])
    && ScaleAt(c.profiles[g.metric], g.k, tier, between).Ok?
    && Met(groups, c.anchors, g, tier, ScaleAt(c.profiles[g.metric], g.k, tier, between).value)
  }

  ghost predicate AllMet(groups: seq<Group>, c: Calibration, between: Interpolation)
    requires AllLoaded(groups)
  {
    forall i, tier: nat :: 0 <= i < |groups| && tier < TIERS ==> TargetMet(groups, c, groups[i], tier, between)
  }

  lemma LookupIsScaleAt(groups: seq<Group>, p: Pointwise, anchors: set<nat>, g: Group, tier: nat, between: Interpolation)
    requires AllLoaded(groups) && Loaded(g) && tier < TIERS
    requires LookupIn(p, between)(g.metric, anchors, g.k, tier).Ok?
    requires Met(groups, anchors, g, tier, LookupIn(p, between)(g.metric, anchors, g.k, tier).value)
    ensures TargetMet(groups, Calibration(anchors, Kept(p, anchors)), g, tier, between)
  {
  }

  /** The looser tier's scale is never larger, at any k the profiles can serve. */
  ghost predicate InOrder(c: Calibration, between: Interpolation) {
    forall m, k: nat :: m in c.profiles ==> TierOrder(c.profiles[m], k, between)
  }

  ghost predicate TierOrder(p: Profiles, k: nat, between: Interpolation) {
    Tiered(p) && (ScaleAt(p, k, 0, between).Ok? ==>
      && ScaleAt(p, k, 1, between).Ok?
      && ScaleAt(p, k, 0, between).value <= ScaleAt(p, k, 1, between).value)
  }

  lemma FittedTierOrder(groups: seq<Group>, ks: set<nat>, metric: string, fitted: Profiles, anchors: set<nat>, k: nat,
                        between: Interpolation)
    requires AllLoaded(groups) && FitsAll(groups, metric, ks, fitted) && RespectsOrder(between)
    ensures TierOrder(Restricted(fitted, anchors), k, between)
  {
    var r := Restricted(fitted, anchors);
    forall x | x in r ensures |r[x]| == TIERS && 1 <= r[x][0] <= r[x][1] {
      assert Fitted(groups, metric, x, fitted);
      FitTiersOrdered(groups, metric, x, fitted[x]);
    }
    if ScaleAt(r, k, 0, between).Ok? {
      TiersOrdered(r, k, between);
    }
  }

  lemma FrozenInOrder(groups: seq<Group>, p: Pointwise, anchors: set<nat>, between: Interpolation)
    requires AllLoaded(groups) && IsPointwise(groups, KsOf(groups), p) && RespectsOrder(between)
    ensures InOrder(Calibration(anchors, Kept(p, anchors)), between)
  {
    forall m, k: nat | m in p ensures TierOrder(Restricted(p[m], anchors), k, between) {
      FittedTierOrder(groups, KsOf(groups), m, p[m], anchors, k, between);
    }
  }

  // ---- the same in plain numbers ----

  /** What the fit at a k is: the least of the thousand steps of Auto's budgets at which
      every group with this metric and k finds 81% or 91% of its neighbours. */
  lemma FitMeaning(groups: seq<Group>, metric: string, k: nat, tier: nat, step: int, n: int)
    requires AllLoaded(groups) && tier < TIERS && IsFit(groups, metric, k, tier, step) && 1 <= n <= 1000
    ensures 1 <= step <= 1000
    ensures step <= n <==> forall i :: 0 <= i < |groups| && groups[i].metric == metric && groups[i].k == k ==>
      Recall(groups[i], n as real / 1000.0) >= if tier == 0 then 0.81 else 0.91
  {
    var selected, target := Selected(groups, metric, k), if tier == 0 then 0.81 else 0.91;
    SelectedLoaded(groups, metric, k);
    assert Meets(selected, GridScale(n), Required(tier)) <==> step <= n;
    if step <= n {
      forall i | 0 <= i < |groups| && groups[i].metric == metric && groups[i].k == k
        ensures Recall(groups[i], n as real / 1000.0) >= target
      {
        assert groups[i] in selected;
      }
    } else {
      var j :| 0 <= j < |selected| && Recall(selected[j], GridScale(n)) < Required(tier);
      assert selected[j] in groups;
      var i :| 0 <= i < |groups| && groups[i] == selected[j];
    }
  }

  lemma MetMeaning(groups: seq<Group>, anchors: set<nat>, g: Group, tier: nat, scale: real) returns (step: int)
    requires AllLoaded(groups) && Loaded(g) && tier < TIERS && Met(groups, anchors, g, tier, scale)
    ensures IsFit(groups, g.metric, g.k, tier, step) && Recall(g, scale) >= (if tier == 0 then 0.81 else 0.91)
    ensures 100.0 * MeanBudget(g, scale) <= 105.0 * MeanBudget(g, step as real / 1000.0)
    ensures g.k in anchors ==> scale == step as real / 1000.0
  {
    step :| IsFit(groups, g.metric, g.k, tier, step) && Compares(g, anchors, tier, scale, GridScale(step));
  }

  /** What is promised of a group and tier: the frozen scale finds 81% or 91% of the
      neighbours, with at most 5% more probes than the fit at its own k needs. */
  lemma TargetMeaning(groups: seq<Group>, c: Calibration, g: Group, tier: nat, between: Interpolation) returns (step: int)
    requires AllLoaded(groups) && Loaded(g) && tier < TIERS && TargetMet(groups, c, g, tier, between)
    ensures IsFit(groups, g.metric, g.k, tier, step)
    ensures var scale := ScaleAt(c.profiles[g.metric], g.k, tier, between).value;
      && Recall(g, scale) >= (if tier == 0 then 0.81 else 0.91)
      && 100.0 * MeanBudget(g, scale) <= 105.0 * MeanBudget(g, step as real / 1000.0)
      && (g.k in c.anchors ==> scale == step as real / 1000.0)
  {
    step := MetMeaning(groups, c.anchors, g, tier, ScaleAt(c.profiles[g.metric], g.k, tier, between).value);
  }

  // ---- what is frozen ----

  /** Each metric keeps the fits at exactly the anchors. */
  ghost predicate Frozen(groups: seq<Group>, c: Calibration)
    requires AllLoaded(groups)
  {
    forall m :: m in c.profiles ==> FrozenFits(groups, m, c.anchors, c.profiles[m])
  }

  ghost predicate FrozenFits(groups: seq<Group>, metric: string, anchors: set<nat>, p: Profiles)
    requires AllLoaded(groups)
  {
    p.Keys == anchors && forall k, tier: nat :: k in anchors && tier < TIERS ==>
      |p[k]| == TIERS && IsFit(groups, metric, k, tier, p[k][tier])
  }

  lemma FreezesFits(groups: seq<Group>, p: Pointwise, anchors: set<nat>)
    requires AllLoaded(groups) && IsPointwise(groups, KsOf(groups), p) && anchors <= KsOf(groups)
    ensures Frozen(groups, Calibration(anchors, Kept(p, anchors)))
  {
    forall m | m in p ensures FrozenFits(groups, m, anchors, Restricted(p[m], anchors)) {
      assert FitsAll(groups, m, KsOf(groups), p[m]);
      forall k, tier: nat | k in anchors && tier < TIERS ensures |p[m][k]| == TIERS && IsFit(groups, m, k, tier, p[m][k][tier]) {
        assert Fitted(groups, m, k, p[m]);
      }
    }
  }

  // ---- every added anchor was needed ----

  /** Interpolated from the anchors `earlier` alone, the scale for the group misses its
      target or costs more than 5% over the fit that is kept at its k. */
  ghost predicate MissedBy(c: Calibration, earlier: set<nat>, g: Group, tier: nat, between: Interpolation) {
    && Loaded(g) && tier < TIERS && g.metric in c.profiles && Tiered(c.profiles[g.metric]) && g.k in c.profiles[g.metric]
    && var scale := ScaleAt(Restricted(c.profiles[g.metric], earlier), g.k, tier, between);
    && scale.Ok?
    && (Recall(g, scale.value) < Required(tier)
        || 100.0 * MeanBudget(g, scale.value) > 105.0 * MeanBudget(g, GridScale(c.profiles[g.metric][g.k][tier])))
  }

  /** The anchor was added because fewer anchors did not serve some group with this k. */
  ghost predicate WasNeeded(groups: seq<Group>, c: Calibration, mandatory: set<nat>, k: nat, between: Interpolation) {
    exists earlier, i, tier: nat {:trigger MissedBy(c, earlier, groups[i], tier, between)} ::
      && mandatory <= earlier <= c.anchors && k !in earlier
      && 0 <= i < |groups| && groups[i].k == k && MissedBy(c, earlier, groups[i], tier, between)
  }

  ghost predicate AllNeeded(groups: seq<Group>, c: Calibration, mandatory: set<nat>, between: Interpolation) {
    forall k :: k in c.anchors && k !in mandatory ==> WasNeeded(groups, c, mandatory, k, between)
  }

  lemma UnservedTier(g: Group, ks: set<nat>, p: Pointwise, anchors: set<nat>, lookup: Lookup) returns (tier: nat)
    requires GroundAt(g, ks, p) && GoodAnchors(ks, anchors) && Faithful(lookup, p) && !Served(g, p, anchors, lookup)
    ensures tier < TIERS && lookup(g.metric, anchors, g.k, tier).Ok?
    ensures !Serves(g, tier, lookup(g.metric, anchors, g.k, tier).value, GridScale(p[g.metric][g.k][tier]))
  {
    tier :| 0 <= tier < TIERS && !TierServed(g, p, anchors, lookup, tier);
    AnswersAt(g, ks, p, anchors, lookup, tier);
  }

  lemma UnservedIsMissed(ks: set<nat>, p: Pointwise, anchors: set<nat>, earlier: set<nat>, g: Group, tier: nat,
                         between: Interpolation)
    requires GroundAt(g, ks, p) && tier < TIERS && earlier <= anchors <= ks && g.k in anchors
    requires LookupIn(p, between)(g.metric, earlier, g.k, tier).Ok?
    requires !Serves(g, tier, LookupIn(p, between)(g.metric, earlier, g.k, tier).value, GridScale(p[g.metric][g.k][tier]))
    ensures MissedBy(Calibration(anchors, Kept(p, anchors)), earlier, g, tier, between)
  {
    assert Restricted(Restricted(p[g.metric], anchors), earlier) == Restricted(p[g.metric], earlier);
  }

  lemma AddedWasNeeded(groups: seq<Group>, p: Pointwise, mandatory: set<nat>, anchors: set<nat>, k: nat, between: Interpolation)
    requires Ground(groups, KsOf(groups), p) && GoodAnchors(KsOf(groups), mandatory) && Faithful(LookupIn(p, between), p)
    requires anchors == Grown(groups, p, LookupIn(p, between), mandatory) && anchors <= KsOf(groups)
    requires k in anchors && k !in mandatory
    ensures WasNeeded(groups, Calibration(anchors, Kept(p, anchors)), mandatory, k, between)
  {
    var lookup := LookupIn(p, between);
    var earlier := AddedWasMissed(groups, p, lookup, mandatory, k);
    var i :| 0 <= i < |groups| && groups[i].k == k && !Served(groups[i], p, earlier, lookup);
    assert GroundAt(groups[i], KsOf(groups), p);
    MoreAnchorsGood(KsOf(groups), mandatory, earlier);
    var tier := UnservedTier(groups[i], KsOf(groups), p, earlier, lookup);
    UnservedIsMissed(KsOf(groups), p, anchors, earlier, groups[i], tier, between);
  }

  /** Both ends of the ks are among the given anchors, and nothing but ks is. */
  method CheckAnchors(groups: seq<Group>, mandatory: set<nat>) returns (good: bool)
    requires groups != []
    ensures good <==> GoodAnchors(KsOf(groups), mandatory)
  {
    var ks := KsOf(groups);
    assert groups[0].k in ks;
    var order := Sorted(ks);
    assert groups[0].k in order;
    good := mandatory <= ks && order[0] in mandatory && order[|order| - 1] in mandatory;
    if mandatory <= ks {
      EndsSpan(ks, mandatory, order);
    }
  }

  /** Calibration fails exactly on empty input, bad anchors, or a metric and k that
      have no data or whose target even Auto misses, with the problem of the first such
      pair; otherwise every target is met. */
  method Calibrate(groups: seq<Group>, mandatory: set<nat>, between: Interpolation) returns (r: Result<Calibration>)
    requires AllLoaded(groups)
    ensures r == Failed(NoGroups) <==> groups == []
    ensures r == Failed(BadAnchors) <==> groups != [] && !GoodAnchors(KsOf(groups), mandatory)
    ensures r.Ok? <==> (groups != [] && GoodAnchors(KsOf(groups), mandatory) && CanFitAll(groups))
    ensures r.Failed? && groups != [] && GoodAnchors(KsOf(groups), mandatory) ==> FirstFailure(groups, r.problem)
    ensures r.Ok? ==> mandatory <= r.value.anchors <= KsOf(groups)
    ensures r.Ok? ==> AllMet(groups, r.value, between)
    ensures r.Ok? && RespectsOrder(between) ==> InOrder(r.value, between)
    ensures r.Ok? ==> Frozen(groups, r.value) && forall m :: m in r.value.profiles <==> m in Metrics(groups)
    ensures r.Ok? ==> AllNeeded(groups, r.value, mandatory, between)
  {
    if groups == [] {
      return Failed(NoGroups);
    }
    var good := CheckAnchors(groups, mandatory);
    if !good {
      return Failed(BadAnchors);
    }
    var fitted := FitEvery(groups);
    if fitted.Failed? {
      return Failed(fitted.problem);
    }
    var c := Freeze(groups, fitted.value, mandatory, between);
    return Ok(c);
  }

  method Freeze(groups: seq<Group>, p: Pointwise, mandatory: set<nat>, between: Interpolation) returns (c: Calibration)
    requires AllLoaded(groups) && IsPointwise(groups, KsOf(groups), p) && GoodAnchors(KsOf(groups), mandatory)
    ensures mandatory <= c.anchors <= KsOf(groups)
    ensures AllMet(groups, c, between)
    ensures RespectsOrder(between) ==> InOrder(c, between)
    ensures Frozen(groups, c) && c.profiles.Keys == p.Keys
    ensures AllNeeded(groups, c, mandatory, between)
  {
    LookupIsFaithful(p, between);
    PointwiseGround(groups, p);
    var anchors, rounds := Select(groups, p, mandatory, LookupIn(p, between));
    MoreAnchorsGood(KsOf(groups), mandatory, anchors);
    c := Calibration(anchors, Kept(p, anchors));
    FreezesFits(groups, p, anchors);
    GrownIsNeeded(groups, p, mandatory, anchors, between);
    SettledIsMet(groups, p, anchors, between);
    if RespectsOrder(between) {
      FrozenInOrder(groups, p, anchors, between);
    }
  }

  lemma GrownIsNeeded(groups: seq<Group>, p: Pointwise, mandatory: set<nat>, anchors: set<nat>, between: Interpolation)
    requires Ground(groups, KsOf(groups), p) && GoodAnchors(KsOf(groups), mandatory) && Faithful(LookupIn(p, between), p)
    requires anchors == Grown(groups, p, LookupIn(p, between), mandatory) && anchors <= KsOf(groups)
    ensures AllNeeded(groups, Calibration(anchors, Kept(p, anchors)), mandatory, between)
  {
    forall k | k in anchors && k !in mandatory
      ensures WasNeeded(groups, Calibration(anchors, Kept(p, anchors)), mandatory, k, between)
    {
      AddedWasNeeded(groups, p, mandatory, anchors, k, between);
    }
  }

  lemma SettledIsMet(groups: seq<Group>, p: Pointwise, anchors: set<nat>, between: Interpolation)
    requires AllLoaded(groups) && IsPointwise(groups, KsOf(groups), p) && GoodAnchors(KsOf(groups), anchors)
    requires Faithful(LookupIn(p, between), p) && Ground(groups, KsOf(groups), p)
    requires forall i :: 0 <= i < |groups| ==> Settled(groups[i], p, anchors, LookupIn(p, between))
    ensures AllMet(groups, Calibration(anchors, Kept(p, anchors)), between)
  {
    forall i, tier: nat | 0 <= i < |groups| && tier < TIERS
      ensures TargetMet(groups, Calibration(anchors, Kept(p, anchors)), groups[i], tier, between)
    {
      AllTargetsMet(groups, p, anchors, i, tier, between);
    }
  }

  lemma PointwiseGround(groups: seq<Group>, p: Pointwise)
    requires AllLoaded(groups) && IsPointwise(groups, KsOf(groups), p)
    ensures Ground(groups, KsOf(groups), p)
  {
    forall i | 0 <= i < |groups| ensures GroundAt(groups[i], KsOf(groups), p) {
      PointwiseFits(groups, KsOf(groups), p, groups[i]);
    }
  }

  lemma AllTargetsMet(groups: seq<Group>, p: Pointwise, anchors: set<nat>, i: nat, tier: nat, between: Interpolation)
    requires AllLoaded(groups) && IsPointwise(groups, KsOf(groups), p) && GoodAnchors(KsOf(groups), anchors)
    requires i < |groups| && tier < TIERS && Settled(groups[i], p, anchors, LookupIn(p, between))
    requires Faithful(LookupIn(p, between), p) && Ground(groups, KsOf(groups), p)
    ensures TargetMet(groups, Calibration(anchors, Kept(p, anchors)), groups[i], tier, between)
  {
    PointwiseFits(groups, KsOf(groups), p, groups[i]);
    assert GroundAt(groups[i], KsOf(groups), p);
    SettledMeets(groups, KsOf(groups), p, anchors, groups[i], tier, LookupIn(p, between));
    LookupIsScaleAt(groups, p, anchors, groups[i], tier, between);
  }
}
