/** Mapping over sequences, and what it does to their elements taken together. */
module Sequences {

  function Map<A, B>(f: A -> B, xs: seq<A>): (ys: seq<B>)
    ensures |ys| == |xs| && forall i :: 0 <= i < |xs| ==> ys[i] == f(xs[i])
  {
    seq(|xs|, i requires 0 <= i < |xs| => f(xs[i]))
  }

  function Without<A>(xs: seq<A>, k: nat): (ys: seq<A>)
    requires k < |xs|
    ensures |ys| == |xs| - 1
  {
    xs[..k] + xs[k + 1..]
  }

  lemma WithoutOne<A, B>(f: A -> B, xs: seq<A>, k: nat)
    requires k < |xs|
    ensures multiset(Without(xs, k)) == multiset(xs) - multiset{xs[k]}
    ensures multiset(Map(f, xs)) == multiset(Map(f, Without(xs, k))) + multiset{f(xs[k])}
  {
    assert xs == xs[..k] + ([xs[k]] + xs[k + 1..]);
    assert Map(f, xs) == Map(f, xs[..k]) + ([f(xs[k])] + Map(f, xs[k + 1..]));
    assert Map(f, Without(xs, k)) == Map(f, xs[..k]) + Map(f, xs[k + 1..]);
  }

  /** Equal collections have equal images. */
  lemma {:induction false} MapPermutation<A, B>(f: A -> B, xs: seq<A>, ys: seq<A>)
    requires multiset(xs) == multiset(ys)
    ensures multiset(Map(f, xs)) == multiset(Map(f, ys))
    decreases |xs|
  {
    assert |multiset(xs)| == |xs| && |multiset(ys)| == |ys|;
    if xs == [] {
      assert Map(f, xs) == [] && Map(f, ys) == [];
    } else {
      assert xs[0] in multiset(ys);
      var k :| 0 <= k < |ys| && ys[k] == xs[0];
      WithoutOne(f, xs, 0);
      WithoutOne(f, ys, k);
      MapPermutation(f, Without(xs, 0), Without(ys, k));
    }
  }
}
