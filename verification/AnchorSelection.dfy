/** Growing the set of anchors until interpolation serves every other k. */
module AnchorSelection {
  import opened RoutingRecall
  import opened EffortCalibration

  function Overhead(g: Group, scale: real, optimum: real): real
    requires Loaded(g)
  {
    MeanBudget(g, scale) / MeanBudget(g, optimum)
  }

  /** The recall target is met with at most 5% more probes than at the optimum. */
  predicate Serves(g: Group, tier: nat, scale: real, optimum: real)
    requires Loaded(g)
  {
    Recall(g, scale) >= Required(tier) && 100.0 * MeanBudget(g, scale) <= 105.0 * MeanBudget(g, optimum)
  }

  /** Which is what the overhead is compared with 1.05 for. */
  lemma OverheadIff(g: Group, scale: real, optimum: real)
    requires Loaded(g)
    ensures Overhead(g, scale, optimum) > 1.05 <==> 100.0 * MeanBudget(g, scale) > 105.0 * MeanBudget(g, optimum)
  {
    QuotientIff(MeanBudget(g, scale), MeanBudget(g, optimum));
  }

  lemma QuotientIff(x: real, d: real)
    requires d > 0.0
    ensures x / d > 1.05 <==> 100.0 * x > 105.0 * d
  {
    var q := x / d;
    assert q * d == x;
    if q > 1.05 {
      assert (q - 1.05) * d > 0.0;
    } else {
      assert (1.05 - q) * d >= 0.0;
    }
  }

  /** The scale the given anchors yield for a metric, k and tier. */
  type Lookup = (string, set<nat>, nat, nat) -> Result<real>

  // ---- one round ----

  ghost predicate ReadyAt(g: Group, p: Pointwise) {
    Loaded(g) && g.metric in p && g.k in p[g.metric] && |p[g.metric][g.k]| == TIERS
  }

  ghost predicate Ready(groups: seq<Group>, p: Pointwise) {
    forall i :: 0 <= i < |groups| ==> ReadyAt(groups[i], p)
  }

  ghost predicate TierServed(g: Group, p: Pointwise, anchors: set<nat>, lookup: Lookup, tier: nat) {
    && ReadyAt(g, p) && tier < TIERS
    && lookup(g.metric, anchors, g.k, tier).Ok?
    && Serves(g, tier, lookup(g.metric, anchors, g.k, tier).value, GridScale(p[g.metric][g.k][tier]))
  }

  ghost predicate Served(g: Group, p: Pointwise, anchors: set<nat>, lookup: Lookup) {
    forall tier :: 0 <= tier < TIERS ==> TierServed(g, p, anchors, lookup, tier)
  }

  ghost predicate Answers(g: Group, anchors: set<nat>, lookup: Lookup) {
    forall tier :: 0 <= tier < TIERS ==> lookup(g.metric, anchors, g.k, tier).Ok?
  }

  /** The lookup answers for every group whose k is no anchor. */
  ghost predicate AnswersAll(groups: seq<Group>, anchors: set<nat>, lookup: Lookup) {
    forall i :: 0 <= i < |groups| && groups[i].k !in anchors ==> Answers(groups[i], anchors, lookup)
  }

  /** Whether both tiers serve the group; a lookup outside the anchors is an error. */
  method CheckTiers(g: Group, p: Pointwise, anchors: set<nat>, lookup: Lookup) returns (r: Result<bool>)
    requires ReadyAt(g, p)
    ensures r.Ok? <==> Answers(g, anchors, lookup)
    ensures r.Ok? ==> r.value == Served(g, p, anchors, lookup)
  {
    var served := true;
    for tier := 0 to TIERS
      invariant forall t :: 0 <= t < tier ==> lookup(g.metric, anchors, g.k, t).Ok?
      invariant served <==> forall t :: 0 <= t < tier ==> TierServed(g, p, anchors, lookup, t)
    {
      var scale := lookup(g.metric, anchors, g.k, tier);
      if scale.Failed? {
        return Failed(scale.problem);
      }
      ghost var fine := TierServed(g, p, anchors, lookup, tier);
      var optimum := GridScale(p[g.metric][g.k][tier]);
      OverheadIff(g, scale.value, optimum);
      if Recall(g, scale.value) < Required(tier) || Overhead(g, scale.value, optimum) > 1.05 {
        served := false;
      }
    }
    return Ok(served);
  }

  /** The non-anchor k of the first `n` groups that are not served. */
  ghost function Missed(groups: seq<Group>, n: nat, p: Pointwise, anchors: set<nat>, lookup: Lookup): set<nat>
    requires n <= |groups|
  {
    if n == 0 then {}
    else
      var g, before := groups[n - 1], Missed(groups, n - 1, p, anchors, lookup);
      if g.k in anchors || Served(g, p, anchors, lookup) then before else before + {g.k}
  }

  lemma {:induction false} MissedMeaning(groups: seq<Group>, n: nat, p: Pointwise, anchors: set<nat>, lookup: Lookup, k: nat)
    requires n <= |groups|
    ensures k in Missed(groups, n, p, anchors, lookup) <==>
      k !in anchors && exists i :: 0 <= i < n && groups[i].k == k && !Served(groups[i], p, anchors, lookup)
  {
    if n > 0 {
      MissedMeaning(groups, n - 1, p, anchors, lookup, k);
    }
  }

  /** One round: which non-anchor k interpolation does not serve. */
  method CheckGroups(groups: seq<Group>, p: Pointwise, anchors: set<nat>, lookup: Lookup)
    returns (r: Result<set<nat>>)
    requires Ready(groups, p)
    ensures r.Ok? <==> AnswersAll(groups, anchors, lookup)
    ensures r.Ok? ==> r.value == Missed(groups, |groups|, p, anchors, lookup)
  {
    var added := {};
    for i := 0 to |groups|
      invariant forall j :: 0 <= j < i && groups[j].k !in anchors ==> Answers(groups[j], anchors, lookup)
      invariant added == Missed(groups, i, p, anchors, lookup)
    {
      var g := groups[i];
      if g.k !in anchors {
        var served := CheckTiers(g, p, anchors, lookup);
        if served.Failed? {
          return Failed(served.problem);
        }
        if !served.value {
          added := added + {g.k};
        }
      }
    }
    return Ok(added);
  }

  // ---- the loop ----

  lemma FewerLeft(ks: set<nat>, anchors: set<nat>, added: set<nat>)
    requires added != {} && added <= ks - anchors
    ensures |ks - (anchors + added)| < |ks - anchors|
  {
    assert ks - anchors == (ks - (anchors + added)) + added;
    assert (ks - (anchors + added)) !! added;
  }

  /** What the next round starts from. */
  ghost function Next(groups: seq<Group>, p: Pointwise, lookup: Lookup, anchors: set<nat>): set<nat> {
    anchors + Missed(groups, |groups|, p, anchors, lookup)
  }

  /** Each round that misses something leaves fewer k to add. */
  lemma RoundShrinks(groups: seq<Group>, p: Pointwise, lookup: Lookup, anchors: set<nat>)
    requires anchors <= KsOf(groups)
    ensures Next(groups, p, lookup, anchors) <= KsOf(groups)
    ensures Missed(groups, |groups|, p, anchors, lookup) != {} ==>
      |KsOf(groups) - Next(groups, p, lookup, anchors)| < |KsOf(groups) - anchors|
  {
    var added := Missed(groups, |groups|, p, anchors, lookup);
    forall k | k in added ensures k in KsOf(groups) - anchors {
      MissedMeaning(groups, |groups|, p, anchors, lookup, k);
    }
    if added != {} {
      FewerLeft(KsOf(groups), anchors, added);
    }
  }

  /** Where the rounds end: every round adds exactly what it missed. */
  ghost function Grown(groups: seq<Group>, p: Pointwise, lookup: Lookup, anchors: set<nat>): set<nat>
    requires anchors <= KsOf(groups)
    decreases |KsOf(groups) - anchors|
  {
    RoundShrinks(groups, p, lookup, anchors);
    if Missed(groups, |groups|, p, anchors, lookup) == {} then anchors
    else Grown(groups, p, lookup, Next(groups, p, lookup, anchors))
  }

  /** Adds every missed k as an anchor until none is missed, within one round for
      each k that was no anchor and one more; fails only where the lookup does. */
  method GrowAnchors(groups: seq<Group>, p: Pointwise, mandatory: set<nat>, lookup: Lookup)
    returns (r: Result<set<nat>>, rounds: nat)
    requires Ready(groups, p) && mandatory <= KsOf(groups)
    ensures r.Ok? ==> r.value == Grown(groups, p, lookup, mandatory)
    ensures r.Ok? ==> mandatory <= r.value <= KsOf(groups) && Missed(groups, |groups|, p, r.value, lookup) == {}
    ensures r.Failed? ==> exists anchors :: mandatory <= anchors <= KsOf(groups) && !AnswersAll(groups, anchors, lookup)
    ensures rounds <= |KsOf(groups) - mandatory| + 1
  {
    var anchors := mandatory;
    rounds := 0;
    while true
      invariant mandatory <= anchors <= KsOf(groups)
      invariant Grown(groups, p, lookup, anchors) == Grown(groups, p, lookup, mandatory)
      invariant rounds + |KsOf(groups) - anchors| <= |KsOf(groups) - mandatory|
      decreases |KsOf(groups) - anchors|
    {
      rounds := rounds + 1;
      var added := CheckGroups(groups, p, anchors, lookup);
      if added.Failed? {
        return Failed(added.problem), rounds;
      }
      if added.value == {} {
        return Ok(anchors), rounds;
      }
      RoundShrinks(groups, p, lookup, anchors);
      anchors := anchors + added.value;
    }
  }

  /** Some group with this k is not served by the anchors. */
  ghost predicate Misses(groups: seq<Group>, p: Pointwise, anchors: set<nat>, lookup: Lookup, k: nat) {
    exists i :: 0 <= i < |groups| && groups[i].k == k && !Served(groups[i], p, anchors, lookup)
  }

  lemma {:induction false} GrownHolds(groups: seq<Group>, p: Pointwise, lookup: Lookup, anchors: set<nat>)
    requires anchors <= KsOf(groups)
    ensures anchors <= Grown(groups, p, lookup, anchors)
    decreases |KsOf(groups) - anchors|
  {
    RoundShrinks(groups, p, lookup, anchors);
    if Missed(groups, |groups|, p, anchors, lookup) != {} {
      GrownHolds(groups, p, lookup, Next(groups, p, lookup, anchors));
    }
  }

  /** Every anchor that was added was missed by fewer anchors before. */
  lemma {:induction false} AddedWasMissed(groups: seq<Group>, p: Pointwise, lookup: Lookup, anchors: set<nat>, k: nat)
    returns (earlier: set<nat>)
    requires anchors <= KsOf(groups) && k in Grown(groups, p, lookup, anchors) - anchors
    ensures anchors <= earlier <= Grown(groups, p, lookup, anchors)
    ensures k !in earlier && Misses(groups, p, earlier, lookup, k)
    decreases |KsOf(groups) - anchors|
  {
    RoundShrinks(groups, p, lookup, anchors);
    GrownHolds(groups, p, lookup, anchors);
    if k in Missed(groups, |groups|, p, anchors, lookup) {
      earlier := anchors;
      MissedMeaning(groups, |groups|, p, anchors, lookup, k);
    } else {
      earlier := AddedWasMissed(groups, p, lookup, Next(groups, p, lookup, anchors), k);
    }
  }
}
