/** Sums, dot products, powers and extrema over sequences of reals. */
module Sums {

  /** Sum of a sequence, folded left to right as Python's built-in `sum`. */
  function Sum(s: seq<real>): real
    decreases |s|
  {
    if s == [] then 0.0 else Sum(s[..|s| - 1]) + s[|s| - 1]
  }

  /** `sum(w * v for w, v in zip(ws, vs))` for sequences of equal length. */
  function Dot(ws: seq<real>, vs: seq<real>): real
    requires |ws| == |vs|
    decreases |ws|
  {
    if ws == [] then 0.0
    else Dot(ws[..|ws| - 1], vs[..|vs| - 1]) + ws[|ws| - 1] * vs[|vs| - 1]
  }

  /** `x ** n` for a natural exponent; a positive base gives a positive power. */
  function Pow(x: real, n: nat): (r: real)
    ensures x > 0.0 ==> r > 0.0
  {
    if n == 0 then 1.0 else x * Pow(x, n - 1)
  }

  /** The smallest element: it occurs in `s` and bounds every element from below. */
  function Min(s: seq<real>): (m: real)
    requires |s| > 0
    ensures m in s
    ensures forall i :: 0 <= i < |s| ==> m <= s[i]
    decreases |s|
  {
    if |s| == 1 then s[0]
    else
      var m := Min(s[..|s| - 1]);
      if s[|s| - 1] < m then s[|s| - 1] else m
  }

  /** The largest element: it occurs in `s` and bounds every element from above. */
  function Max(s: seq<real>): (m: real)
    requires |s| > 0
    ensures m in s
    ensures forall i :: 0 <= i < |s| ==> s[i] <= m
    decreases |s|
  {
    if |s| == 1 then s[0]
    else
      var m := Max(s[..|s| - 1]);
      if s[|s| - 1] > m then s[|s| - 1] else m
  }

  /** A non-empty sequence of positive reals has a positive sum. */
  lemma {:induction false} SumPositive(s: seq<real>)
    requires forall i :: 0 <= i < |s| ==> s[i] > 0.0
    ensures s != [] ==> Sum(s) > 0.0
    decreases |s|
  {
    if |s| > 1 {
      SumPositive(s[..|s| - 1]);
    }
  }

  /** `cs` is `ws` with every element multiplied by `k`. */
  predicate IsScaled(cs: seq<real>, ws: seq<real>, k: real)
  {
    |cs| == |ws| && forall i :: 0 <= i < |cs| ==> cs[i] == ws[i] * k
  }

  /** Scaling every element by `k` scales the sum by `k`. */
  lemma {:induction false} SumScaled(cs: seq<real>, ws: seq<real>, k: real)
    requires IsScaled(cs, ws, k)
    ensures Sum(cs) == Sum(ws) * k
    decreases |cs|
  {
    if cs != [] {
      var n := |cs| - 1;
      SumScaled(cs[..n], ws[..n], k);
    }
  }

  /** `cs` holds the pointwise products of `ws` and `vs`. */
  predicate IsProducts(cs: seq<real>, ws: seq<real>, vs: seq<real>)
  {
    |cs| == |ws| == |vs| && forall i :: 0 <= i < |cs| ==> cs[i] == ws[i] * vs[i]
  }

  /** A sequence of pointwise products sums to the dot product. */
  lemma {:induction false} SumOfProducts(cs: seq<real>, ws: seq<real>, vs: seq<real>)
    requires IsProducts(cs, ws, vs)
    ensures Sum(cs) == Dot(ws, vs)
    decreases |cs|
  {
    if cs != [] {
      var n := |cs| - 1;
      SumOfProducts(cs[..n], ws[..n], vs[..n]);
    }
  }

  /**
   * With non-negative weights, a dot product with values in [lo, hi] lies
   * between lo and hi times the total weight.
   */
  lemma {:induction false} DotBetween(ws: seq<real>, vs: seq<real>, lo: real, hi: real)
    requires |ws| == |vs|
    requires forall i :: 0 <= i < |ws| ==> ws[i] >= 0.0
    requires forall i :: 0 <= i < |vs| ==> lo <= vs[i] <= hi
    ensures lo * Sum(ws) <= Dot(ws, vs) <= hi * Sum(ws)
    decreases |ws|
  {
    if ws != [] {
      var n := |ws| - 1;
      var s, d, w, p := Sum(ws[..n]), Dot(ws[..n], vs[..n]), ws[n], ws[n] * vs[n];
      assert Sum(ws) == s + w && Dot(ws, vs) == d + p;
      DotBetween(ws[..n], vs[..n], lo, hi);
      BoundStep(lo, hi, s, d, w, vs[n]);
    }
  }

  lemma ScaleBetween(w: real, v: real, lo: real, hi: real)
    requires w >= 0.0 && lo <= v <= hi
    ensures lo * w <= w * v <= hi * w
  {
    assert w * (v - lo) >= 0.0;
    assert w * (hi - v) >= 0.0;
  }

  /** One step of `DotBetween`: adding a weight `w` with a value in range keeps the bounds. */
  lemma BoundStep(lo: real, hi: real, s: real, d: real, w: real, v: real)
    requires w >= 0.0 && lo <= v <= hi && lo * s <= d <= hi * s
    ensures lo * (s + w) <= d + w * v <= hi * (s + w)
  {
    ScaleBetween(w, v, lo, hi);
    AddBounds(lo * s, d, hi * s, lo * w, w * v, hi * w);
    Distribute(lo, s, w);
    Distribute(hi, s, w);
  }

  lemma AddBounds(lo1: real, x1: real, hi1: real, lo2: real, x2: real, hi2: real)
    requires lo1 <= x1 <= hi1 && lo2 <= x2 <= hi2
    ensures lo1 + lo2 <= x1 + x2 <= hi1 + hi2
  {
  }

  lemma Distribute(k: real, a: real, b: real)
    ensures k * (a + b) == k * a + k * b
  {
  }
}
