/** A sequence in which some stretches are replaced by pieces one longer, and where
    everything ends up. */
module Splices {

  /** `piece` takes the place of the elements from `start` up to `stop`. */
  datatype Cut<T> = Cut(start: nat, stop: nat, piece: seq<T>)

  /** For every position the cuts from there on and what comes out of them. */
  datatype Plan<T> = Plan(xs: seq<T>, cuts: nat -> seq<Cut<T>>, out: nat -> seq<T>)

  /** Up to the first cut the elements stay, then comes its piece, then the rest. */
  ghost predicate SplitsAt<T>(p: Plan<T>, i: nat)
    requires i <= |p.xs|
  {
    if p.cuts(i) == [] then p.out(i) == p.xs[i..]
    else
      var c := p.cuts(i)[0];
      && i <= c.start <= c.stop <= |p.xs| && |c.piece| == c.stop - c.start + 1
      && p.cuts(i)[1..] == p.cuts(c.stop)
      && p.out(i) == p.xs[i..c.start] + (c.piece + p.out(c.stop))
  }

  lemma CutFirst<T>(p: Plan<T>, i: nat, c: Cut<T>, rest: seq<Cut<T>>, tail: seq<T>)
    requires i <= c.start <= c.stop <= |p.xs| && |c.piece| == c.stop - c.start + 1
    requires p.cuts(i) == [c] + rest && p.cuts(c.stop) == rest
    requires p.out(i) == p.xs[i..c.start] + (c.piece + tail) && p.out(c.stop) == tail
    ensures SplitsAt(p, i)
  {
    assert p.cuts(i)[1..] == rest;
  }

  ghost predicate Splits<T>(p: Plan<T>) {
    forall i: nat {:trigger SplitsAt(p, i)} :: i <= |p.xs| ==> SplitsAt(p, i)
  }

  /** Position `k` lies behind the first `n` cuts and before the others. */
  ghost predicate Between<T>(p: Plan<T>, i: nat, n: nat, k: nat) {
    && n <= |p.cuts(i)| && (if n == 0 then i else p.cuts(i)[n - 1].stop) <= k < |p.xs|
    && (n < |p.cuts(i)| ==> k < p.cuts(i)[n].start)
  }

  ghost predicate Inside<T>(p: Plan<T>, i: nat, n: nat, k: nat) {
    n < |p.cuts(i)| && p.cuts(i)[n].start <= k < p.cuts(i)[n].stop
  }

  lemma LastAt<T>(a: seq<T>, b: seq<T>, c: seq<T>, m: nat)
    requires m < |c|
    ensures |a| + |b| + m < |a + (b + c)| && (a + (b + c))[|a| + |b| + m] == c[m]
  {
  }

  lemma MiddleAt<T>(a: seq<T>, b: seq<T>, c: seq<T>, m: nat)
    requires m < |b|
    ensures |a| + m < |a + (b + c)| && (a + (b + c))[|a| + m] == b[m]
  {
  }

  /** What comes out behind the first cut. */
  lemma BehindCut<T>(p: Plan<T>, i: nat, m: nat)
    requires Splits(p) && i <= |p.xs| && p.cuts(i) != [] && m < |p.out(p.cuts(i)[0].stop)|
    ensures var next := p.cuts(i)[0].stop;
      0 <= next - i + 1 + m < |p.out(i)| && p.out(i)[next - i + 1 + m] == p.out(next)[m]
  {
    assert SplitsAt(p, i);
    var c := p.cuts(i)[0];
    LastAt(p.xs[i..c.start], c.piece, p.out(c.stop), m);
  }

  /** Each cut adds one element. */
  lemma {:induction false} OutLength<T>(p: Plan<T>, i: nat)
    requires Splits(p) && i <= |p.xs|
    ensures |p.out(i)| == |p.xs| - i + |p.cuts(i)|
    decreases |p.cuts(i)|
  {
    assert SplitsAt(p, i);
    if p.cuts(i) != [] {
      OutLength(p, p.cuts(i)[0].stop);
    }
  }

  /** An element outside every cut is kept, moved by one for each cut before it. */
  lemma {:induction false} OutsideAt<T>(p: Plan<T>, i: nat, n: nat, k: nat)
    requires Splits(p) && i <= |p.xs| && Between(p, i, n, k)
    ensures 0 <= k - i + n < |p.out(i)| && p.out(i)[k - i + n] == p.xs[k]
    decreases n
  {
    assert SplitsAt(p, i);
    if n > 0 {
      var next := p.cuts(i)[0].stop;
      OutsideAt(p, next, n - 1, k);
      BehindCut(p, i, k - next + n - 1);
    }
  }

  /** Element `m` of piece `n` comes where the element it stands for was, moved by one
      for each cut before. */
  lemma {:induction false} PieceAt<T>(p: Plan<T>, i: nat, n: nat, m: nat)
    requires Splits(p) && i <= |p.xs| && n < |p.cuts(i)| && m < |p.cuts(i)[n].piece|
    ensures var at := p.cuts(i)[n].start + m - i + n;
      0 <= at < |p.out(i)| && p.out(i)[at] == p.cuts(i)[n].piece[m]
    decreases n
  {
    assert SplitsAt(p, i);
    var c := p.cuts(i)[0];
    if n == 0 {
      MiddleAt(p.xs[i..c.start], c.piece, p.out(c.stop), m);
    } else {
      assert p.cuts(i)[n] == p.cuts(c.stop)[n - 1];
      PieceAt(p, c.stop, n - 1, m);
      BehindCut(p, i, p.cuts(i)[n].start + m - c.stop + n - 1);
    }
  }

  /** Every position is in some cut or between two of them. */
  lemma {:induction false} InsideOrBetween<T>(p: Plan<T>, i: nat, k: nat) returns (n: nat)
    requires Splits(p) && i <= k < |p.xs|
    ensures Inside(p, i, n, k) || Between(p, i, n, k)
    decreases |p.cuts(i)|
  {
    assert SplitsAt(p, i);
    if p.cuts(i) == [] || k < p.cuts(i)[0].stop {
      n := 0;
    } else {
      var m := InsideOrBetween(p, p.cuts(i)[0].stop, k);
      n := m + 1;
    }
  }
}
