/** The two formulas for the score of a source vector against a query, in exact
    arithmetic: the one the streaming oracle uses and the direct one. */
module Metrics {
  import opened Numbers

  type Vector = seq<real>

  datatype Metric = L2 | Dot | Cosine

  /** `norm` stands for the square root of a vector's product with itself. */
  datatype Space = Space(metric: Metric, norm: Vector -> real)

  function Product(u: Vector, v: Vector): real
    requires |u| == |v|
  {
    if u == [] then 0.0 else u[0] * v[0] + Product(u[1..], v[1..])
  }

  ghost predicate IsNorm(s: Space, v: Vector) {
    s.norm(v) >= 0.0 && s.norm(v) * s.norm(v) == Product(v, v)
  }

  function SquaredDistance(u: Vector, v: Vector): real
    requires |u| == |v|
  {
    if u == [] then 0.0 else (u[0] - v[0]) * (u[0] - v[0]) + SquaredDistance(u[1..], v[1..])
  }

  /** Only cosine divides by norms, and both oracles reject zero ones. */
  predicate Scorable(s: Space, v: Vector) {
    s.metric == Cosine ==> s.norm(v) != 0.0
  }

  function Normalised(s: Space, q: Vector, v: Vector): real
    requires |q| == |v| && s.norm(q) != 0.0 && s.norm(v) != 0.0
  {
    Product(Scaled(q, 1.0 / s.norm(q)), Scaled(v, 1.0 / s.norm(v)))
  }

  /** The streaming oracle: query and rows are normalised first for cosine, and the
      query's own norm is left out of L2. */
  function Streamed(s: Space, q: Vector, v: Vector): real
    requires |q| == |v| && Scorable(s, q) && Scorable(s, v)
  {
    match s.metric
    case L2 => Product(v, v) - 2.0 * Product(q, v)
    case Dot => -Product(q, v)
    case Cosine => -Normalised(s, q, v)
  }

  /** The independent oracle. */
  function Direct(s: Space, q: Vector, v: Vector): real
    requires |q| == |v| && Scorable(s, q) && Scorable(s, v)
  {
    match s.metric
    case L2 => SquaredDistance(v, q) - s.norm(q) * s.norm(q)
    case Dot => -Product(v, q)
    case Cosine => Divided(-Product(v, q), Times(s.norm(v), s.norm(q)))
  }

  function Divided(x: real, y: real): real {
    if y == 0.0 then 0.0 else x / y
  }

  lemma {:induction false} ProductCommutes(u: Vector, v: Vector)
    requires |u| == |v|
    ensures Product(u, v) == Product(v, u)
  {
    if u != [] {
      ProductCommutes(u[1..], v[1..]);
    }
  }

  lemma {:induction false} SquareExpands(u: Vector, v: Vector)
    requires |u| == |v|
    ensures SquaredDistance(v, u) == Product(v, v) - 2.0 * Product(u, v) + Product(u, u)
  {
    if u != [] {
      SquareExpands(u[1..], v[1..]);
    }
  }

  lemma {:induction false} ProductScalesLeft(u: Vector, c: real, v: Vector)
    requires |u| == |v|
    ensures Product(Scaled(u, c), v) == Times(c, Product(u, v))
  {
    if u != [] {
      var rest := Product(u[1..], v[1..]);
      ProductScalesLeft(u[1..], c, v[1..]);
      assert Scaled(u, c)[1..] == Scaled(u[1..], c);
      Distribute(c, u[0], v[0], rest);
    }
  }

  lemma Distribute(c: real, a: real, b: real, rest: real)
    ensures (c * a) * b + c * rest == c * (a * b + rest)
  {
    var p := a * b;
    assert (c * a) * b == c * p;
  }

  lemma ProductScales(u: Vector, c: real, v: Vector, d: real)
    requires |u| == |v|
    ensures Product(Scaled(u, c), Scaled(v, d)) == Times(c, Times(d, Product(u, v)))
  {
    ProductScalesLeft(u, c, Scaled(v, d));
    ProductCommutes(u, Scaled(v, d));
    ProductScalesLeft(v, d, u);
    ProductCommutes(u, v);
  }

  lemma QuotientOfNorms(x: real, a: real, b: real)
    requires a != 0.0 && b != 0.0
    ensures -Times(1.0 / b, Times(1.0 / a, x)) == Divided(-x, Times(a, b))
  {
    var c, d := 1.0 / b, 1.0 / a;
    assert c * b == 1.0 && d * a == 1.0;
    var y := d * x;
    var n := c * y;
    assert n * b == (c * b) * y;
    assert y * a == (d * a) * x;
    assert n * (a * b) == (n * b) * a;
    assert a * b != 0.0;
  }

  lemma CosinesAgree(s: Space, q: Vector, v: Vector)
    requires |q| == |v| && s.norm(q) != 0.0 && s.norm(v) != 0.0
    ensures -Normalised(s, q, v) == Divided(-Product(v, q), Times(s.norm(v), s.norm(q)))
  {
    calc {
      -Normalised(s, q, v);
      { ProductScales(q, 1.0 / s.norm(q), v, 1.0 / s.norm(v)); }
      -Times(1.0 / s.norm(q), Times(1.0 / s.norm(v), Product(q, v)));
      { QuotientOfNorms(Product(q, v), s.norm(v), s.norm(q)); }
      Divided(-Product(q, v), Times(s.norm(v), s.norm(q)));
      { ProductCommutes(q, v); }
      Divided(-Product(v, q), Times(s.norm(v), s.norm(q)));
    }
  }

  /** Both formulas give every row the same score, for all three metrics. */
  lemma FormulasAgree(s: Space, q: Vector, v: Vector)
    requires |q| == |v| && IsNorm(s, q) && IsNorm(s, v) && Scorable(s, q) && Scorable(s, v)
    ensures Streamed(s, q, v) == Direct(s, q, v)
  {
    ProductCommutes(q, v);
    match s.metric
    case L2 => SquareExpands(q, v);
    case Dot =>
    case Cosine => CosinesAgree(s, q, v);
  }

  // ---- what a score says ----

  /** The product and the distance add up coordinates, from whichever end. */
  lemma {:induction false} LastCoordinate(u: Vector, x: real, v: Vector, y: real)
    requires |u| == |v|
    ensures Product(u + [x], v + [y]) == Product(u, v) + x * y
    ensures SquaredDistance(u + [x], v + [y]) == SquaredDistance(u, v) + (x - y) * (x - y)
  {
    if u == [] {
      assert (u + [x])[1..] == [] && (v + [y])[1..] == [];
    } else {
      LastCoordinate(u[1..], x, v[1..], y);
      assert (u + [x])[1..] == u[1..] + [x] && (v + [y])[1..] == v[1..] + [y];
    }
  }

  lemma {:induction false} DistanceCommutes(u: Vector, v: Vector)
    requires |u| == |v|
    ensures SquaredDistance(u, v) == SquaredDistance(v, u)
  {
    if u != [] {
      DistanceCommutes(u[1..], v[1..]);
    }
  }

  lemma DividedBack(x: real, y: real)
    requires y != 0.0
    ensures Times(Divided(x, y), y) == x
  {
  }

  /** The squared distance less a constant of the query, the product negated, or the
      cosine negated. */
  lemma ScoreMeaning(s: Space, q: Vector, v: Vector)
    requires |q| == |v| && Scorable(s, q) && Scorable(s, v)
    ensures match s.metric
      case L2 => Streamed(s, q, v) == SquaredDistance(q, v) - Product(q, q)
      case Dot => Streamed(s, q, v) == -Product(q, v)
      case Cosine => Times(Streamed(s, q, v), Times(s.norm(v), s.norm(q))) == -Product(q, v)
  {
    match s.metric
    case L2 =>
      SquareExpands(q, v);
      DistanceCommutes(q, v);
    case Dot =>
    case Cosine =>
      CosinesAgree(s, q, v);
      ProductCommutes(q, v);
      NonZeroProduct(s.norm(v), s.norm(q));
      DividedBack(-Product(q, v), Times(s.norm(v), s.norm(q)));
  }

  lemma NonZeroProduct(x: real, y: real)
    requires x != 0.0 && y != 0.0
    ensures Times(x, y) != 0.0
  {
  }

  lemma ScaledOrder(x: real, y: real, c: real)
    requires c > 0.0
    ensures x <= y <==> Times(x, c) <= Times(y, c)
  {
  }

  lemma PositiveTimes(x: real, y: real)
    requires x > 0.0 && y > 0.0
    ensures Times(x, y) > 0.0
  {
  }

  lemma Regroup(x: real, a: real, b: real, c: real)
    ensures Times(x, Times(a, Times(b, c))) == Times(Times(x, Times(b, c)), a)
    ensures Times(x, Times(a, Times(b, c))) == Times(Times(x, Times(a, c)), b)
  {
    var p, r := b * c, a * c;
    assert x * (a * p) == (x * p) * a;
    assert a * p == b * r;
    assert x * (b * r) == (x * r) * b;
  }

  /** Quotients with the same positive factor compare as their cross products. */
  lemma CrossProducts(x: real, y: real, a: real, b: real, c: real, p: real, r: real)
    requires a > 0.0 && b > 0.0 && c > 0.0
    requires Times(x, Times(a, c)) == -p && Times(y, Times(b, c)) == -r
    ensures x <= y <==> Times(p, b) >= Times(r, a)
  {
    PositiveTimes(b, c);
    PositiveTimes(a, Times(b, c));
    ScaledOrder(x, y, Times(a, Times(b, c)));
    Regroup(x, a, b, c);
    Regroup(y, a, b, c);
    assert Times(-p, b) == -Times(p, b) && Times(-r, a) == -Times(r, a);
  }

  /** A lower score is a nearer row, a larger product, or a larger cosine. */
  lemma NearerScoresLower(s: Space, q: Vector, u: Vector, v: Vector)
    requires |q| == |u| == |v| && IsNorm(s, q) && IsNorm(s, u) && IsNorm(s, v)
    requires Scorable(s, q) && Scorable(s, u) && Scorable(s, v)
    ensures Streamed(s, q, u) <= Streamed(s, q, v) <==>
      match s.metric
      case L2 => SquaredDistance(q, u) <= SquaredDistance(q, v)
      case Dot => Product(q, u) >= Product(q, v)
      case Cosine => Times(Product(q, u), s.norm(v)) >= Times(Product(q, v), s.norm(u))
  {
    ScoreMeaning(s, q, u);
    ScoreMeaning(s, q, v);
    if s.metric == Cosine {
      CrossProducts(Streamed(s, q, u), Streamed(s, q, v), s.norm(u), s.norm(v), s.norm(q), Product(q, u), Product(q, v));
    }
  }
}
