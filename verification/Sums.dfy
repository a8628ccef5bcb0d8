/** Sums of the values of a finite map, whatever order they are taken in. */
module Sums {
  import opened Sequences

  lemma NonEmpty(s: set<int>)
    ensures s != {} ==> exists x :: x in s
  {
    if forall x: int :: x !in s {
      assert s == {};
    }
  }

  ghost function Sum(m: map<int, int>): int
    decreases |m|
  {
    if m.Keys == {} then 0
    else
      NonEmpty(m.Keys);
      var k :| k in m.Keys;
      m[k] + Sum(m - {k})
  }

  lemma {:induction false} SumWithout(m: map<int, int>, k: int)
    requires k in m
    ensures Sum(m) == m[k] + Sum(m - {k})
    decreases |m|
  {
    var q :| q in m && Sum(m) == m[q] + Sum(m - {q});
    if q != k {
      SumWithout(m - {q}, k);
      SumWithout(m - {k}, q);
      assert m - {q} - {k} == m - {k} - {q};
    }
  }

  lemma SumWith(m: map<int, int>, k: int, v: int)
    ensures Sum(m[k := v]) == Sum(m) + v - if k in m then m[k] else 0
  {
    SumWithout(m[k := v], k);
    assert m[k := v] - {k} == m - {k};
    if k in m {
      SumWithout(m, k);
    } else {
      assert m - {k} == m;
    }
  }

  lemma {:induction false} SumNonNegative(m: map<int, int>)
    requires forall k :: k in m ==> m[k] >= 0
    ensures Sum(m) >= 0
    decreases |m|
  {
    if m.Keys != {} {
      NonEmpty(m.Keys);
      var k :| k in m.Keys;
      SumWithout(m, k);
      SumNonNegative(m - {k});
    }
  }

  lemma {:induction false} SumOfZeros(m: map<int, int>)
    requires forall k :: k in m ==> m[k] == 0
    ensures Sum(m) == 0
    decreases |m|
  {
    if m.Keys != {} {
      NonEmpty(m.Keys);
      var k :| k in m.Keys;
      SumWithout(m, k);
      SumOfZeros(m - {k});
    }
  }

  // ---- totals over a sequence ----

  /** The sum of the first `n` values. */
  function SumTo(f: nat -> real, n: nat): real {
    if n == 0 then 0.0 else SumTo(f, n - 1) + f(n - 1)
  }

  function Tally(w: real -> real, xs: seq<real>): real {
    if xs == [] then 0.0 else Tally(w, xs[..|xs| - 1]) + w(xs[|xs| - 1])
  }

  lemma {:induction false} TallyRemove(w: real -> real, xs: seq<real>, k: nat)
    requires k < |xs|
    ensures Tally(w, xs) == Tally(w, Without(xs, k)) + w(xs[k])
  {
    var n := |xs| - 1;
    if k < n {
      var ys := Without(xs, k);
      TallyRemove(w, xs[..n], k);
      assert ys[..n - 1] == Without(xs[..n], k);
    } else {
      assert Without(xs, k) == xs[..n];
    }
  }

  /** A total does not depend on the order. */
  lemma {:induction false} TallyPermutation(w: real -> real, xs: seq<real>, ys: seq<real>)
    requires multiset(xs) == multiset(ys)
    ensures |xs| == |ys| && Tally(w, xs) == Tally(w, ys)
    decreases |xs|
  {
    assert |multiset(xs)| == |xs| && |multiset(ys)| == |ys|;
    if xs != [] {
      var n := |xs| - 1;
      assert xs[n] in multiset(ys);
      var k :| 0 <= k < |ys| && ys[k] == xs[n];
      TallyRemove(w, ys, k);
      WithoutOne(w, ys, k);
      WithoutOne(w, xs, n);
      assert Without(xs, n) == xs[..n];
      TallyPermutation(w, xs[..n], Without(ys, k));
    }
  }
}
