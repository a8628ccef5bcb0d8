/** Small arithmetic that several modules share. */
module Numbers {

  function Min(x: int, y: int): int {
    if x <= y then x else y
  }

  function Max(x: int, y: int): int {
    if x <= y then y else x
  }

  /** A product kept as one term. */
  function Times(x: real, y: real): real {
    x * y
  }

  function Scaled(xs: seq<real>, c: real): (ys: seq<real>)
    ensures |ys| == |xs| && forall i :: 0 <= i < |xs| ==> ys[i] == Times(c, xs[i])
  {
    seq(|xs|, i requires 0 <= i < |xs| => Times(c, xs[i]))
  }
}
