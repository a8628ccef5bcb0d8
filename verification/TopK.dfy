/** Keeping the k smallest scored rows of a stream, batch by batch. */
module TopK {
  import opened Sequences

  datatype Score = Finite(v: real) | Infinite

  predicate Leq(a: Score, b: Score) {
    b.Infinite? || (a.Finite? && a.v <= b.v)
  }

  /** A row position with its score; a slot not yet filled holds `SENTINEL`. */
  datatype Entry = Entry(score: Score, id: int)

  const SENTINEL := Entry(Infinite, -1)

  /** Nothing left out scores below anything kept. */
  ghost predicate KeepsSmallest(all: multiset<Entry>, kept: seq<Entry>) {
    && multiset(kept) <= all
    && forall a, b :: a in kept && b in all - multiset(kept) ==> Leq(a.score, b.score)
  }

  lemma StrictlySmaller(xs: multiset<Entry>, ys: multiset<Entry>, a: Entry)
    requires (forall e :: e in xs ==> xs[e] <= ys[e]) && ys[a] > xs[a]
    ensures |xs| < |ys|
  {
    assert xs + multiset{a} <= ys;
    assert ys == xs + multiset{a} + (ys - (xs + multiset{a}));
  }

  /** If `ys` has more of `a` than `xs` without being larger, it has less of something. */
  lemma Pigeonhole(xs: multiset<Entry>, ys: multiset<Entry>, a: Entry)
    ensures |xs| >= |ys| && ys[a] > xs[a] ==> exists c :: c in xs && xs[c] > ys[c]
  {
    if (forall e :: e in xs ==> xs[e] <= ys[e]) && ys[a] > xs[a] {
      StrictlySmaller(xs, ys, a);
    }
  }

  /** Merging a batch into the rows kept so far keeps the smallest of everything
      seen, whichever of the legal choices the merge makes. */
  lemma MergeKeepsSmallest(all: multiset<Entry>, kept: seq<Entry>, batch: seq<Entry>, kept': seq<Entry>)
    requires KeepsSmallest(all, kept)
    requires KeepsSmallest(multiset(kept) + multiset(batch), kept') && |kept'| == |kept|
    ensures KeepsSmallest(all + multiset(batch), kept')
  {
    var dropped := multiset(kept) + multiset(batch) - multiset(kept');
    assert all + multiset(batch) - multiset(kept') == (all - multiset(kept)) + dropped;
    forall a, b | a in kept' && b in all - multiset(kept)
      ensures Leq(a.score, b.score)
    {
      if a !in kept {
        Pigeonhole(multiset(kept), multiset(kept'), a);
        assert |multiset(kept)| == |multiset(kept')|;
        var c :| c in multiset(kept) && multiset(kept)[c] > multiset(kept')[c];
        assert c in dropped;
      }
    }
  }

  ghost function Unfilled(k: nat): multiset<Entry> {
    multiset(seq(k, i => SENTINEL))
  }

  lemma UnfilledMembers(k: nat, e: Entry)
    ensures Unfilled(k)[e] > 0 ==> e == SENTINEL
  {
    assert e in Unfilled(k) ==> e in seq(k, i => SENTINEL);
  }

  lemma SentinelLeavesRow(rows: seq<Entry>, kept: seq<Entry>)
    requires |kept| <= |rows| && SENTINEL !in rows && SENTINEL in kept
    ensures exists c :: c in rows && multiset(rows)[c] > multiset(kept)[c]
  {
    Pigeonhole(multiset(rows), multiset(kept), SENTINEL);
    assert |multiset(rows)| == |rows| && |multiset(kept)| == |kept|;
    assert multiset(rows)[SENTINEL] == 0 && multiset(kept)[SENTINEL] > 0;
  }

  /** With at least as many rows as slots, no slot is left unfilled. */
  lemma NoSentinelRemains(rows: seq<Entry>, k: nat, kept: seq<Entry>)
    requires forall e :: e in rows ==> e.score.Finite?
    requires |kept| == k <= |rows|
    requires KeepsSmallest(Unfilled(k) + multiset(rows), kept)
    ensures SENTINEL !in kept
    ensures KeepsSmallest(multiset(rows), kept)
  {
    if SENTINEL in kept {
      SentinelLeavesRow(rows, kept);
    }
    forall e | e in multiset(kept) ensures multiset(kept)[e] <= multiset(rows)[e] {
      UnfilledMembers(k, e);
    }
  }

  // ---- orders ----

  /** By score, then by row position: a stable sort of rows in order. */
  predicate Before(a: Entry, b: Entry) {
    Leq(a.score, b.score) && (Leq(b.score, a.score) ==> a.id <= b.id)
  }

  lemma BeforeMeaning(x: real, i: int, y: real, j: int)
    ensures Before(Entry(Finite(x), i), Entry(Finite(y), j)) <==> x < y || (x == y && i <= j)
  {
  }

  ghost predicate Ordered(xs: seq<Entry>) {
    forall i, j :: 0 <= i <= j < |xs| ==> Before(xs[i], xs[j])
  }

  lemma PrependOrdered(x: Entry, xs: seq<Entry>)
    requires Ordered(xs) && forall y :: y in xs ==> Before(x, y)
    ensures Ordered([x] + xs)
  {
    var ys := [x] + xs;
    forall i, j | 0 <= i <= j < |ys| ensures Before(ys[i], ys[j]) {
      if i > 0 {
        assert Before(xs[i - 1], xs[j - 1]);
      }
    }
  }

  lemma BeforeTransitive(x: Entry, y: Entry, z: Entry)
    ensures Before(x, y) && Before(y, z) ==> Before(x, z)
    ensures Before(x, y) || Before(y, x)
  {
  }

  function Insert(x: Entry, xs: seq<Entry>): (ys: seq<Entry>)
    ensures multiset(ys) == multiset(xs) + multiset{x}
  {
    if xs == [] || Before(x, xs[0]) then [x] + xs
    else
      assert xs == [xs[0]] + xs[1..];
      [xs[0]] + Insert(x, xs[1..])
  }

  lemma {:induction false} InsertOrdered(x: Entry, xs: seq<Entry>)
    requires Ordered(xs)
    ensures Ordered(Insert(x, xs))
  {
    if xs == [] {
    } else if Before(x, xs[0]) {
      forall y | y in xs ensures Before(x, y) {
        BeforeTransitive(x, xs[0], y);
      }
      PrependOrdered(x, xs);
    } else {
      InsertOrdered(x, xs[1..]);
      var ys := Insert(x, xs[1..]);
      forall y | y in ys ensures Before(xs[0], y) {
        assert y in multiset(ys);
        BeforeTransitive(xs[0], x, y);
      }
      PrependOrdered(xs[0], ys);
    }
  }

  function Sort(xs: seq<Entry>): (ys: seq<Entry>)
    ensures Ordered(ys) && multiset(ys) == multiset(xs)
  {
    if xs == [] then []
    else
      assert xs == [xs[0]] + xs[1..];
      InsertOrdered(xs[0], Sort(xs[1..]));
      Insert(xs[0], Sort(xs[1..]))
  }

  function Scores(xs: seq<Entry>): (ys: seq<Score>)
    ensures |ys| == |xs| && forall i :: 0 <= i < |xs| ==> ys[i] == xs[i].score
  {
    Map((e: Entry) => e.score, xs)
  }

  ghost predicate Rising(xs: seq<Score>) {
    forall i, j :: 0 <= i <= j < |xs| ==> Leq(xs[i], xs[j])
  }

  lemma HeadRemoved(xs: seq<Score>)
    requires xs != []
    ensures multiset(xs[1..]) == multiset(xs) - multiset{xs[0]}
  {
    assert xs == [xs[0]] + xs[1..];
  }

  lemma LowestFirst(xs: seq<Score>, ys: seq<Score>)
    requires Rising(xs) && xs != [] && ys != [] && ys[0] in multiset(xs)
    ensures Leq(xs[0], ys[0])
  {
    var i :| 0 <= i < |xs| && xs[i] == ys[0];
  }

  lemma {:induction false} RisingIsUnique(xs: seq<Score>, ys: seq<Score>)
    requires Rising(xs) && Rising(ys) && multiset(xs) == multiset(ys)
    ensures xs == ys
  {
    assert |multiset(xs)| == |xs| && |multiset(ys)| == |ys|;
    if xs != [] {
      LowestFirst(xs, ys);
      LowestFirst(ys, xs);
      HeadRemoved(xs);
      HeadRemoved(ys);
      RisingIsUnique(xs[1..], ys[1..]);
      assert xs == [xs[0]] + xs[1..] && ys == [ys[0]] + ys[1..];
    }
  }

  ghost function Listing(m: multiset<Entry>): (xs: seq<Entry>)
    ensures multiset(xs) == m
    decreases |m|
  {
    if m == multiset{} then []
    else
      var e :| e in m;
      [e] + Listing(m - multiset{e})
  }

  lemma SortedPrefix(kept: seq<Entry>, rest: seq<Entry>, sorted: seq<Entry>)
    requires Ordered(kept) && Ordered(rest) && Ordered(sorted)
    requires multiset(kept + rest) == multiset(sorted)
    requires forall a, b :: a in kept && b in rest ==> Leq(a.score, b.score)
    ensures |kept| <= |sorted| && Scores(kept) == Scores(sorted[..|kept|])
  {
    var joined := kept + rest;
    MapPermutation((e: Entry) => e.score, joined, sorted);
    assert Scores(joined) == Map((e: Entry) => e.score, joined);
    assert Scores(sorted) == Map((e: Entry) => e.score, sorted);
    JoinedRises(kept, rest);
    JoinedRises(sorted, []);
    assert sorted + [] == sorted;
    RisingIsUnique(Scores(joined), Scores(sorted));
    assert |Scores(joined)| == |Scores(sorted)|;
    assert Scores(kept) == Scores(joined)[..|kept|];
    assert Scores(sorted[..|kept|]) == Scores(sorted)[..|kept|];
  }

  /** Any choice of the k smallest, put in order, has exactly the scores of the
      first k of a full sort. */
  lemma SmallestHaveSortedScores(rows: seq<Entry>, kept: seq<Entry>)
    requires KeepsSmallest(multiset(rows), kept) && Ordered(kept)
    ensures |kept| <= |Sort(rows)| && Scores(kept) == Scores(Sort(rows)[..|kept|])
  {
    var rest := Sort(Listing(multiset(rows) - multiset(kept)));
    forall a, b | a in kept && b in rest ensures Leq(a.score, b.score) {
      assert b in multiset(rest);
    }
    SortedPrefix(kept, rest, Sort(rows));
  }

  lemma JoinedRises(xs: seq<Entry>, ys: seq<Entry>)
    requires Ordered(xs) && Ordered(ys)
    requires forall a, b :: a in xs && b in ys ==> Leq(a.score, b.score)
    ensures Rising(Scores(xs + ys))
  {
    var zs := xs + ys;
    forall i, j | 0 <= i <= j < |zs| ensures Leq(zs[i].score, zs[j].score) {
      if j < |xs| {
        assert Before(xs[i], xs[j]);
      } else if i >= |xs| {
        assert Before(ys[i - |xs|], ys[j - |xs|]);
      } else {
        assert zs[i] in xs && zs[j] in ys;
      }
    }
  }
}
