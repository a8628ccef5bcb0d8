/** The streaming exhaustive oracle and the independent full sort. */
module ExactOracle {
  import opened Sequences
  import opened TopK
  import opened Metrics

  datatype Result<T> = Ok(value: T) | InvalidArgument

  // ---- the dataset as the oracles see it ----

  function Rows(batches: seq<seq<Vector>>): seq<Vector> {
    if batches == [] then [] else Rows(batches[..|batches| - 1]) + batches[|batches| - 1]
  }

  ghost predicate WellFormed(s: Space, q: Vector, rows: seq<Vector>) {
    Scorable(s, q) && forall i :: 0 <= i < |rows| ==> |rows[i]| == |q| && Scorable(s, rows[i])
  }

  /** Every row with its score, in row order, the first of them at position `start`. */
  function Entries(s: Space, q: Vector, rows: seq<Vector>, start: int): (es: seq<Entry>)
    requires WellFormed(s, q, rows)
    ensures |es| == |rows|
    ensures forall i :: 0 <= i < |rows| ==> es[i] == Entry(Finite(Streamed(s, q, rows[i])), start + i)
  {
    seq(|rows|, i requires 0 <= i < |rows| => Entry(Finite(Streamed(s, q, rows[i])), start + i))
  }

  // ---- argpartition ----

  function Identity(n: nat): (p: seq<int>)
    ensures |p| == n && forall i :: 0 <= i < n ==> p[i] == i
  {
    seq(n, i => i)
  }

  function Pick(xs: seq<Entry>, i: int): Entry {
    if 0 <= i < |xs| then xs[i] else SENTINEL
  }

  function Picked(xs: seq<Entry>, p: seq<int>): (ys: seq<Entry>)
    ensures |ys| == |p| && forall i :: 0 <= i < |p| ==> ys[i] == Pick(xs, p[i])
  {
    Map(i => Pick(xs, i), p)
  }

  /** A permutation that puts position k - 1 where a sort would: what comes before
      is no larger, what comes after is no smaller. */
  predicate IsPartition(xs: seq<Entry>, k: nat, p: seq<int>) {
    && 1 <= k <= |xs| == |p|
    && multiset(p) == multiset(Identity(|xs|))
    && (forall i :: 0 <= i < k ==> Leq(Pick(xs, p[i]).score, Pick(xs, p[k - 1]).score))
    && (forall i :: k <= i < |p| ==> Leq(Pick(xs, p[k - 1]).score, Pick(xs, p[i]).score))
  }

  lemma PermutationPicksAll(xs: seq<Entry>, p: seq<int>)
    requires multiset(p) == multiset(Identity(|xs|))
    ensures multiset(Picked(xs, p)) == multiset(xs)
  {
    MapPermutation(i => Pick(xs, i), p, Identity(|xs|));
    assert Picked(xs, p) == Map(i => Pick(xs, i), p);
    assert Map(i => Pick(xs, i), Identity(|xs|)) == xs;
  }

  /** Taking the first k of any legal partition keeps the smallest. */
  lemma PartitionKeepsSmallest(xs: seq<Entry>, k: nat, p: seq<int>)
    requires IsPartition(xs, k, p)
    ensures KeepsSmallest(multiset(xs), Picked(xs, p[..k]))
  {
    var kept, rest := Picked(xs, p[..k]), Picked(xs, p[k..]);
    assert Picked(xs, p) == kept + rest;
    PermutationPicksAll(xs, p);
    assert multiset(xs) - multiset(kept) == multiset(rest);
    forall a, b | a in kept && b in multiset(rest) ensures Leq(a.score, b.score) {
      var i :| 0 <= i < k && a == kept[i];
      var j :| 0 <= j < |rest| && b == rest[j];
      assert b == Pick(xs, p[k + j]);
    }
  }

  function Numbered(xs: seq<Entry>): (ys: seq<Entry>)
    ensures |ys| == |xs| && forall i :: 0 <= i < |xs| ==> ys[i] == Entry(xs[i].score, i)
  {
    seq(|xs|, i requires 0 <= i < |xs| => Entry(xs[i].score, i))
  }

  lemma PartitionExists(xs: seq<Entry>, k: nat)
    requires 1 <= k <= |xs|
    ensures exists p :: IsPartition(xs, k, p)
  {
    var sorted := Sort(Numbered(xs));
    var p := Map((e: Entry) => e.id, sorted);
    MapPermutation((e: Entry) => e.id, sorted, Numbered(xs));
    assert Map((e: Entry) => e.id, Numbered(xs)) == Identity(|xs|);
    assert |multiset(sorted)| == |multiset(Numbered(xs))|;
    forall i | 0 <= i < |sorted| ensures Pick(xs, p[i]).score == sorted[i].score {
      assert sorted[i] in multiset(Numbered(xs));
    }
    assert IsPartition(xs, k, p);
  }

  /** Any legal partition at all. */
  method ArgPartition(xs: seq<Entry>, k: nat) returns (p: seq<int>)
    requires 1 <= k <= |xs|
    ensures IsPartition(xs, k, p)
  {
    PartitionExists(xs, k);
    p :| IsPartition(xs, k, p);
  }

  // ---- the streaming oracle ----

  ghost function Row(bestScores: array2<Score>, bestIds: array2<int>, row: nat): (es: seq<Entry>)
    requires row < bestScores.Length0 == bestIds.Length0 && bestScores.Length1 == bestIds.Length1
    reads bestScores, bestIds
    ensures |es| == bestScores.Length1
    ensures forall j :: 0 <= j < |es| ==> es[j] == Entry(bestScores[row, j], bestIds[row, j])
  {
    seq(bestScores.Length1, j requires 0 <= j < bestScores.Length1 reads bestScores, bestIds =>
      Entry(bestScores[row, j], bestIds[row, j]))
  }

  method ReadRow(bestScores: array2<Score>, bestIds: array2<int>, row: nat) returns (slots: seq<Entry>)
    requires row < bestScores.Length0 == bestIds.Length0 && bestScores.Length1 == bestIds.Length1
    ensures slots == Row(bestScores, bestIds, row)
  {
    var k := bestScores.Length1;
    slots := seq(k, j requires 0 <= j < k reads bestScores, bestIds => Entry(bestScores[row, j], bestIds[row, j]));
  }

  method WriteRow(bestScores: array2<Score>, bestIds: array2<int>, row: nat, keep: seq<Entry>)
    requires row < bestScores.Length0 == bestIds.Length0 && |keep| == bestScores.Length1 == bestIds.Length1
    modifies bestScores, bestIds
    ensures Row(bestScores, bestIds, row) == keep
    ensures forall i :: 0 <= i < bestScores.Length0 && i != row ==>
      Row(bestScores, bestIds, i) == old(Row(bestScores, bestIds, i))
  {
    for j := 0 to |keep|
      invariant forall i, c :: 0 <= i < bestScores.Length0 && 0 <= c < |keep| && i != row ==>
        bestScores[i, c] == old(bestScores[i, c]) && bestIds[i, c] == old(bestIds[i, c])
      invariant forall c :: 0 <= c < j ==> bestScores[row, c] == keep[c].score && bestIds[row, c] == keep[c].id
    {
      bestScores[row, j], bestIds[row, j] := keep[j].score, keep[j].id;
    }
  }

  /** Merges one batch into the slots of one query, in place. */
  method Merge(bestScores: array2<Score>, bestIds: array2<int>, row: nat, batch: seq<Entry>)
    requires row < bestScores.Length0 == bestIds.Length0 && 1 <= bestScores.Length1 == bestIds.Length1
    modifies bestScores, bestIds
    ensures KeepsSmallest(multiset(old(Row(bestScores, bestIds, row))) + multiset(batch), Row(bestScores, bestIds, row))
    ensures forall i :: 0 <= i < bestScores.Length0 && i != row ==>
      Row(bestScores, bestIds, i) == old(Row(bestScores, bestIds, i))
  {
    var k := bestScores.Length1;
    var slots := ReadRow(bestScores, bestIds, row);
    var p := ArgPartition(slots + batch, k);
    PartitionKeepsSmallest(slots + batch, k, p);
    WriteRow(bestScores, bestIds, row, Picked(slots + batch, p[..k]));
  }

  lemma EntriesAppend(s: Space, q: Vector, rows: seq<Vector>, batch: seq<Vector>)
    requires WellFormed(s, q, rows) && WellFormed(s, q, batch)
    ensures WellFormed(s, q, rows + batch)
    ensures Entries(s, q, rows + batch, 0) == Entries(s, q, rows, 0) + Entries(s, q, batch, |rows|)
  {
  }

  /** What the slots of one query hold after some rows. */
  ghost predicate SlotsOk(s: Space, q: Vector, rows: seq<Vector>, k: nat, slots: seq<Entry>) {
    && |slots| == k && WellFormed(s, q, rows)
    && KeepsSmallest(Unfilled(k) + multiset(Entries(s, q, rows, 0)), slots)
  }

  lemma SlotsAfterBatch(s: Space, q: Vector, rows: seq<Vector>, batch: seq<Vector>, k: nat, slots: seq<Entry>, slots': seq<Entry>)
    requires SlotsOk(s, q, rows, k, slots) && WellFormed(s, q, batch) && |slots'| == k
    requires KeepsSmallest(multiset(slots) + multiset(Entries(s, q, batch, |rows|)), slots')
    ensures SlotsOk(s, q, rows + batch, k, slots')
  {
    var before, added := multiset(Entries(s, q, rows, 0)), multiset(Entries(s, q, batch, |rows|));
    EntriesAppend(s, q, rows, batch);
    MergeKeepsSmallest(Unfilled(k) + before, slots, Entries(s, q, batch, |rows|), slots');
    assert Unfilled(k) + before + added == Unfilled(k) + multiset(Entries(s, q, rows + batch, 0));
  }

  /** The exact top k of a query: k rows in order, none left out that scores lower. */
  ghost predicate IsTruth(s: Space, q: Vector, rows: seq<Vector>, k: nat, truth: seq<Entry>) {
    && |truth| == k && Ordered(truth) && WellFormed(s, q, rows)
    && KeepsSmallest(multiset(Entries(s, q, rows, 0)), truth)
  }

  lemma SlotsBecomeTruth(s: Space, q: Vector, rows: seq<Vector>, k: nat, slots: seq<Entry>)
    requires SlotsOk(s, q, rows, k, slots) && k <= |rows|
    ensures SENTINEL !in slots && IsTruth(s, q, rows, k, Sort(slots))
  {
    var es := Entries(s, q, rows, 0);
    forall e | e in es ensures e.score.Finite? {
    }
    NoSentinelRemains(es, k, slots);
    assert |multiset(Sort(slots))| == |multiset(slots)|;
    forall a | a in Sort(slots) ensures a in slots {
      assert a in multiset(Sort(slots));
    }
  }

  lemma RowsOfPrefix(batches: seq<seq<Vector>>, b: nat)
    requires b < |batches|
    ensures Rows(batches[..b + 1]) == Rows(batches[..b]) + batches[b]
  {
    assert batches[..b + 1][..b] == batches[..b];
  }

  lemma {:induction false} RowsContain(batches: seq<seq<Vector>>, b: nat)
    requires b <= |batches|
    ensures Rows(batches[..b]) <= Rows(batches)
    decreases |batches| - b
  {
    if b < |batches| {
      RowsContain(batches, b + 1);
      RowsOfPrefix(batches, b);
    } else {
      assert batches[..b] == batches;
    }
  }

  lemma BatchInRows(batches: seq<seq<Vector>>, b: nat)
    requires b < |batches|
    ensures forall v :: v in batches[b] ==> v in Rows(batches)
  {
    RowsOfPrefix(batches, b);
    RowsContain(batches, b + 1);
    var before := |Rows(batches[..b])|;
    forall v | v in batches[b] ensures v in Rows(batches) {
      var i :| 0 <= i < |batches[b]| && batches[b][i] == v;
      assert Rows(batches)[before + i] == Rows(batches[..b + 1])[before + i] == v;
    }
  }

  lemma BatchWellFormed(s: Space, q: Vector, batch: seq<Vector>, dim: nat)
    requires |q| == dim && Scorable(s, q) && forall v :: v in batch ==> |v| == dim && Scorable(s, v)
    ensures WellFormed(s, q, batch)
  {
  }

  method MergeBatch(s: Space, queries: seq<Vector>, ghost rows: seq<Vector>, batch: seq<Vector>, start: int,
                    bestScores: array2<Score>, bestIds: array2<int>)
    requires bestScores.Length0 == bestIds.Length0 == |queries| && 1 <= bestScores.Length1 == bestIds.Length1
    requires start == |rows|
    requires forall i :: 0 <= i < |queries| ==>
      WellFormed(s, queries[i], batch) && SlotsOk(s, queries[i], rows, bestScores.Length1, Row(bestScores, bestIds, i))
    modifies bestScores, bestIds
    ensures forall i :: 0 <= i < |queries| ==>
      SlotsOk(s, queries[i], rows + batch, bestScores.Length1, Row(bestScores, bestIds, i))
  {
    ghost var k := bestScores.Length1;
    for row := 0 to |queries|
      invariant forall i :: 0 <= i < row ==> SlotsOk(s, queries[i], rows + batch, k, Row(bestScores, bestIds, i))
      invariant forall i :: row <= i < |queries| ==> SlotsOk(s, queries[i], rows, k, Row(bestScores, bestIds, i))
    {
      ghost var slots := Row(bestScores, bestIds, row);
      Merge(bestScores, bestIds, row, Entries(s, queries[row], batch, start));
      SlotsAfterBatch(s, queries[row], rows, batch, k, slots, Row(bestScores, bestIds, row));
    }
  }

  /** Every query's slots. */
  method ReadRows(bestScores: array2<Score>, bestIds: array2<int>) returns (slots: seq<seq<Entry>>)
    requires bestScores.Length0 == bestIds.Length0 && bestScores.Length1 == bestIds.Length1
    ensures |slots| == bestScores.Length0
    ensures forall i :: 0 <= i < |slots| ==> slots[i] == Row(bestScores, bestIds, i)
  {
    slots := [];
    for row := 0 to bestScores.Length0
      invariant |slots| == row
      invariant forall i :: 0 <= i < row ==> slots[i] == Row(bestScores, bestIds, i)
    {
      var next := ReadRow(bestScores, bestIds, row);
      slots := slots + [next];
    }
  }

  /** The final ordering of every query's slots. */
  method OrderRows(s: Space, queries: seq<Vector>, ghost rows: seq<Vector>, bestScores: array2<Score>, bestIds: array2<int>)
    returns (truth: seq<seq<Entry>>)
    requires bestScores.Length0 == bestIds.Length0 == |queries| && bestScores.Length1 == bestIds.Length1 <= |rows|
    requires forall i {:trigger Row(bestScores, bestIds, i)} :: 0 <= i < |queries| ==>
      SlotsOk(s, queries[i], rows, bestScores.Length1, Row(bestScores, bestIds, i))
    ensures |truth| == |queries|
    ensures forall i :: 0 <= i < |queries| ==> IsTruth(s, queries[i], rows, bestScores.Length1, truth[i])
  {
    var slots := ReadRows(bestScores, bestIds);
    truth := Map(Sort, slots);
    forall i | 0 <= i < |queries| ensures IsTruth(s, queries[i], rows, bestScores.Length1, truth[i]) {
      SlotsBecomeTruth(s, queries[i], rows, bestScores.Length1, Row(bestScores, bestIds, i));
    }
  }

  lemma EmptySlots(s: Space, q: Vector, k: nat, slots: seq<Entry>)
    requires Scorable(s, q) && slots == seq(k, i => SENTINEL)
    ensures SlotsOk(s, q, [], k, slots)
  {
    assert multiset(Entries(s, q, [], 0)) == multiset{};
  }

  /** Streams every batch through the slots; stops at a zero cosine norm. */
  method Scan(s: Space, batches: seq<seq<Vector>>, queries: seq<Vector>, ghost dim: nat,
              bestScores: array2<Score>, bestIds: array2<int>) returns (ok: bool)
    requires bestScores.Length0 == bestIds.Length0 == |queries| && 1 <= bestScores.Length1 == bestIds.Length1
    requires forall v :: v in Rows(batches) ==> |v| == dim
    requires forall i :: 0 <= i < |queries| ==> |queries[i]| == dim && Scorable(s, queries[i])
    requires forall i :: 0 <= i < |queries| ==> SlotsOk(s, queries[i], [], bestScores.Length1, Row(bestScores, bestIds, i))
    modifies bestScores, bestIds
    ensures ok <==> forall v :: v in Rows(batches) ==> Scorable(s, v)
    ensures ok ==> forall i :: 0 <= i < |queries| ==>
      SlotsOk(s, queries[i], Rows(batches), bestScores.Length1, Row(bestScores, bestIds, i))
  {
    var start := 0;
    ghost var rows := [];
    for b := 0 to |batches|
      invariant rows == Rows(batches[..b]) && start == |rows|
      invariant forall v :: v in rows ==> Scorable(s, v)
      invariant forall i :: 0 <= i < |queries| ==>
        SlotsOk(s, queries[i], rows, bestScores.Length1, Row(bestScores, bestIds, i))
    {
      RowsOfPrefix(batches, b);
      BatchInRows(batches, b);
      if exists v :: v in batches[b] && !Scorable(s, v) {
        return false;
      }
      forall i | 0 <= i < |queries| ensures WellFormed(s, queries[i], batches[b]) {
        BatchWellFormed(s, queries[i], batches[b], dim);
      }
      MergeBatch(s, queries, rows, batches[b], start, bestScores, bestIds);
      start, rows := start + |batches[b]|, rows + batches[b];
    }
    assert batches[..|batches|] == batches;
    ok := true;
  }

  /** Succeeds exactly when k is in range and no cosine norm is zero, and then
      returns the exact top k of every query. */
  method ExactTruth(s: Space, batches: seq<seq<Vector>>, queries: seq<Vector>, k: int, ghost dim: nat)
    returns (r: Result<seq<seq<Entry>>>)
    requires forall v :: v in queries || v in Rows(batches) ==> |v| == dim
    ensures r.Ok? <==>
      1 <= k <= |Rows(batches)| && forall v :: v in queries || v in Rows(batches) ==> Scorable(s, v)
    ensures r.Ok? ==> |r.value| == |queries|
    ensures r.Ok? ==> forall i :: 0 <= i < |queries| ==> IsTruth(s, queries[i], Rows(batches), k, r.value[i])
  {
    if !(1 <= k <= |Rows(batches)|) || exists q :: q in queries && !Scorable(s, q) {
      return InvalidArgument;
    }
    var bestScores := new Score[|queries|, k]((_, _) => Infinite);
    var bestIds := new int[|queries|, k]((_, _) => -1);
    forall i | 0 <= i < |queries| ensures SlotsOk(s, queries[i], [], k, Row(bestScores, bestIds, i)) {
      EmptySlots(s, queries[i], k, Row(bestScores, bestIds, i));
    }
    var ok := Scan(s, batches, queries, dim, bestScores, bestIds);
    if !ok {
      return InvalidArgument;
    }
    var truth := OrderRows(s, queries, Rows(batches), bestScores, bestIds);
    r := Ok(truth);
  }

  // ---- what the oracle's answer means ----

  lemma EntryOnce(s: Space, q: Vector, rows: seq<Vector>, m: nat)
    requires WellFormed(s, q, rows) && m < |rows|
    ensures multiset(Entries(s, q, rows, 0))[Entries(s, q, rows, 0)[m]] == 1
  {
    var es := Entries(s, q, rows, 0);
    var before, after := es[..m], es[m + 1..];
    assert es == before + ([es[m]] + after);
    assert es[m] !in before && es[m] !in after;
  }

  lemma RepeatedTwice(xs: seq<Entry>, i: nat, j: nat)
    requires i < j < |xs| && xs[i] == xs[j]
    ensures multiset(xs)[xs[i]] >= 2
  {
    assert xs == xs[..j] + ([xs[j]] + xs[j + 1..]);
    assert xs[i] in xs[..j];
  }

  /** The positions are distinct rows and the stored scores are their true scores. */
  lemma TruthIsDistinctRows(s: Space, q: Vector, rows: seq<Vector>, k: nat, truth: seq<Entry>, i: nat, j: nat)
    requires IsTruth(s, q, rows, k, truth) && i < k && j < k
    ensures 0 <= truth[i].id < |rows| && truth[i].score == Finite(Streamed(s, q, rows[truth[i].id]))
    ensures i != j ==> truth[i].id != truth[j].id
  {
    var es := Entries(s, q, rows, 0);
    assert truth[i] in multiset(truth) && truth[j] in multiset(truth);
    var m, n :| 0 <= m < |es| && es[m] == truth[i] && 0 <= n < |es| && es[n] == truth[j];
    if i != j && m == n {
      EntryOnce(s, q, rows, m);
      RepeatedTwice(truth, if i < j then i else j, if i < j then j else i);
    }
  }

  /** Lower scores come first, and equal ones in row order. */
  lemma TruthIsInOrder(s: Space, q: Vector, rows: seq<Vector>, k: nat, truth: seq<Entry>, i: nat, j: nat)
    requires IsTruth(s, q, rows, k, truth) && i < j < k
    ensures 0 <= truth[i].id < |rows| && 0 <= truth[j].id < |rows|
    ensures var x, y := Streamed(s, q, rows[truth[i].id]), Streamed(s, q, rows[truth[j].id]);
      x < y || (x == y && truth[i].id < truth[j].id)
  {
    TruthIsDistinctRows(s, q, rows, k, truth, i, j);
    TruthIsDistinctRows(s, q, rows, k, truth, j, i);
    assert Before(truth[i], truth[j]);
  }

  /** No row left out scores below one that is returned. */
  lemma NothingSmallerLeftOut(s: Space, q: Vector, rows: seq<Vector>, k: nat, truth: seq<Entry>, i: nat, m: nat)
    requires IsTruth(s, q, rows, k, truth) && i < k && m < |rows|
    requires forall j :: 0 <= j < k ==> truth[j].id != m
    ensures 0 <= truth[i].id < |rows| && Streamed(s, q, rows[truth[i].id]) <= Streamed(s, q, rows[m])
  {
    TruthIsDistinctRows(s, q, rows, k, truth, i, i);
    var es := Entries(s, q, rows, 0);
    assert es[m] !in truth;
    assert es[m] in multiset(es) - multiset(truth);
    assert truth[i] in truth;
  }

  // ---- the independent oracle ----

  function DirectEntries(s: Space, q: Vector, rows: seq<Vector>): (es: seq<Entry>)
    requires WellFormed(s, q, rows)
    ensures |es| == |rows|
    ensures forall i :: 0 <= i < |rows| ==> es[i] == Entry(Finite(Direct(s, q, rows[i])), i)
  {
    seq(|rows|, i requires 0 <= i < |rows| => Entry(Finite(Direct(s, q, rows[i])), i))
  }

  /** Fills the scores batch by batch. */
  method FillScores(s: Space, batches: seq<seq<Vector>>, query: Vector) returns (scores: array<real>)
    requires WellFormed(s, query, Rows(batches))
    ensures scores.Length == |Rows(batches)|
    ensures forall i :: 0 <= i < |Rows(batches)| ==> scores[i] == Direct(s, query, Rows(batches)[i])
  {
    ghost var rows := Rows(batches);
    scores := new real[|Rows(batches)|](_ => 0.0);
    var start := 0;
    for b := 0 to |batches|
      invariant start == |Rows(batches[..b])| <= scores.Length
      invariant forall i :: 0 <= i < start ==> scores[i] == Direct(s, query, rows[i])
    {
      RowsOfPrefix(batches, b);
      RowsContain(batches, b + 1);
      for i := 0 to |batches[b]|
        invariant forall j :: 0 <= j < start + i ==> scores[j] == Direct(s, query, rows[j])
      {
        assert batches[b][i] == Rows(batches[..b + 1])[start + i] == rows[start + i];
        scores[start + i] := Direct(s, query, batches[b][i]);
      }
      start := start + |batches[b]|;
    }
    assert batches[..|batches|] == batches;
  }

  /** Scores every row directly and sorts them all; a zero cosine norm would leave a
      score that is not finite. */
  method DirectTruth(s: Space, batches: seq<seq<Vector>>, query: Vector, k: int) returns (r: Result<seq<Entry>>)
    requires forall v :: v in Rows(batches) ==> |v| == |query|
    ensures r.Ok? <==> 1 <= k <= |Rows(batches)| && WellFormed(s, query, Rows(batches))
    ensures r.Ok? ==> |Sort(DirectEntries(s, query, Rows(batches)))| == |Rows(batches)|
    ensures r.Ok? ==> r.value == Sort(DirectEntries(s, query, Rows(batches)))[..k]
  {
    if !(1 <= k <= |Rows(batches)|) || !Scorable(s, query) || exists v :: v in Rows(batches) && !Scorable(s, v) {
      return InvalidArgument;
    }
    var scores := FillScores(s, batches, query);
    var n := scores.Length;
    var es := seq(n, i requires 0 <= i < n reads scores => Entry(Finite(scores[i]), i));
    assert es == DirectEntries(s, query, Rows(batches));
    assert |multiset(Sort(es))| == |multiset(es)|;
    r := Ok(Sort(es)[..k]);
  }

  /** The two oracles return the same scores, however the dataset was cut into
      batches and whatever the partitions chose. */
  lemma OraclesAgree(s: Space, q: Vector, rows: seq<Vector>, k: nat, truth: seq<Entry>)
    requires IsTruth(s, q, rows, k, truth)
    requires IsNorm(s, q) && forall v :: v in rows ==> IsNorm(s, v)
    ensures k <= |Sort(DirectEntries(s, q, rows))|
    ensures Scores(truth) == Scores(Sort(DirectEntries(s, q, rows))[..k])
  {
    forall i | 0 <= i < |rows| ensures Streamed(s, q, rows[i]) == Direct(s, q, rows[i]) {
      FormulasAgree(s, q, rows[i]);
    }
    assert DirectEntries(s, q, rows) == Entries(s, q, rows, 0);
    SmallestHaveSortedScores(Entries(s, q, rows, 0), truth);
  }
}
