/** Exact-arithmetic stand-ins for the float scalars and reductions that the
    losses and the anomaly scorer use: sums, means, weighted sums (the value of
    one convolution window) and the weighted variance inequalities behind the
    structural similarity index. */
module Numerics {

  /** A float result: a finite value, or the infinity/NaN that an IEEE
      division by zero or the mean of an empty tensor produces. */
  datatype Scalar = Finite(value: real) | NonFinite

  /** The result of a tensor computation: a scalar, or the runtime error the
      tensor library raises (and nobody catches) when shapes do not fit. */
  datatype Outcome = Value(s: Scalar) | ShapeError

  datatype Option<T> = None | Some(value: T)

  function Abs(x: real): (r: real)
    ensures r >= 0.0 && (r == x || r == -x)
    ensures r == 0.0 <==> x == 0.0
  {
    if x < 0.0 then -x else x
  }

  /** t * t: never negative, and positive unless t is 0. */
  function Square(t: real): (r: real)
    ensures r >= 0.0
    ensures t != 0.0 ==> r > 0.0
  {
    if t == 0.0 then 0.0
    else
      assert t * t * (1.0 / t) == t;
      t * t
  }

  /** The product of two non-negative numbers is non-negative, and positive
      when both are. */
  lemma ProductSign(x: real, y: real)
    requires x >= 0.0 && y >= 0.0
    ensures x * y >= 0.0
    ensures x > 0.0 && y > 0.0 ==> x * y > 0.0
  {
  }

  /** Unary minus on a float scalar: NaN and infinities stay non-finite. */
  function Negate(s: Scalar): (r: Scalar)
    ensures r.Finite? <==> s.Finite?
    ensures r.Finite? ==> r.value == -s.value
  {
    match s
    case Finite(v) => Finite(-v)
    case NonFinite => NonFinite
  }

  /** Division of a float scalar; a zero divisor gives infinity or NaN. */
  function Ratio(num: real, den: real): (r: Scalar)
    ensures r.Finite? <==> den != 0.0
    ensures r.Finite? ==> r.value * den == num
  {
    if den == 0.0 then NonFinite else Finite(num / den)
  }

  function Sum(s: seq<real>): real
  {
    if |s| == 0 then 0.0 else s[0] + Sum(s[1..])
  }

  lemma {:induction false} SumConcat(a: seq<real>, b: seq<real>)
    ensures Sum(a + b) == Sum(a) + Sum(b)
  {
    if |a| > 0 {
      assert (a + b)[1..] == a[1..] + b;
      SumConcat(a[1..], b);
    } else {
      assert a + b == b;
    }
  }

  lemma SumAppend(a: seq<real>, x: real)
    ensures Sum(a + [x]) == Sum(a) + x
  {
    SumConcat(a, [x]);
  }

  /** Every entry lies in [lo, hi], so the sum lies in [n*lo, n*hi]. */
  lemma {:induction false} SumBounds(s: seq<real>, lo: real, hi: real)
    requires forall k :: 0 <= k < |s| ==> lo <= s[k] <= hi
    ensures |s| as real * lo <= Sum(s) <= |s| as real * hi
  {
    if |s| > 0 {
      SumBounds(s[1..], lo, hi);
    }
  }

  lemma {:induction false} SumPositive(s: seq<real>)
    requires |s| > 0
    requires forall k :: 0 <= k < |s| ==> s[k] > 0.0
    ensures Sum(s) > 0.0
  {
    if |s| > 1 {
      SumPositive(s[1..]);
    }
  }

  lemma {:induction false} SumNonnegative(s: seq<real>)
    requires forall k :: 0 <= k < |s| ==> s[k] >= 0.0
    ensures Sum(s) >= 0.0
  {
    if |s| > 0 {
      SumNonnegative(s[1..]);
    }
  }

  /** A sum of non-negative terms is zero exactly when every term is. */
  lemma {:induction false} SumZeroIffAllZero(s: seq<real>)
    requires forall k :: 0 <= k < |s| ==> s[k] >= 0.0
    ensures Sum(s) == 0.0 <==> forall k :: 0 <= k < |s| ==> s[k] == 0.0
  {
    if |s| > 0 {
      SumZeroIffAllZero(s[1..]);
      SumNonnegative(s[1..]);
      assert forall k :: 1 <= k < |s| ==> s[k] == s[1..][k - 1];
    }
  }

  /** torch's mean over all elements; the mean of no elements is NaN. */
  function Mean(s: seq<real>): (r: Scalar)
    ensures r.Finite? <==> |s| > 0
    ensures r.Finite? ==> r.value * |s| as real == Sum(s)
  {
    if |s| == 0 then NonFinite else Finite(Sum(s) / |s| as real)
  }

  /** Float addition: anything non-finite absorbs. */
  function Add(a: Scalar, b: Scalar): Scalar
  {
    if a.Finite? && b.Finite? then Finite(a.value + b.value) else NonFinite
  }

  function SumScalars(s: seq<Scalar>): Scalar
  {
    if |s| == 0 then Finite(0.0) else Add(s[0], SumScalars(s[1..]))
  }

  /** The mean of a tensor whose entries may already be non-finite. */
  function MeanScalars(s: seq<Scalar>): (r: Scalar)
    ensures r.Finite? <==> |s| > 0 && SumScalars(s).Finite?
    ensures r.Finite? ==> r.value * |s| as real == SumScalars(s).value
  {
    if |s| == 0 then NonFinite
    else
      var t := SumScalars(s);
      if t.Finite? then Finite(t.value / |s| as real) else NonFinite
  }

  /** One NaN or infinite entry makes the sum non-finite. */
  lemma {:induction false} SumScalarsNonFinite(s: seq<Scalar>, k: nat)
    requires k < |s| && s[k] == NonFinite
    ensures SumScalars(s) == NonFinite
  {
    if k > 0 {
      SumScalarsNonFinite(s[1..], k - 1);
    }
  }

  /** Every entry is finite and lies in [lo, hi]. */
  predicate FiniteWithin(s: seq<Scalar>, lo: real, hi: real)
  {
    forall k :: 0 <= k < |s| ==> s[k].Finite? && lo <= s[k].value <= hi
  }

  /** Finite entries in [lo, hi] give a finite sum t in [n*lo, n*hi]. */
  lemma {:induction false} SumScalarsBounds(s: seq<Scalar>, lo: real, hi: real) returns (t: real)
    requires FiniteWithin(s, lo, hi)
    ensures SumScalars(s) == Finite(t)
    ensures |s| as real * lo <= t <= |s| as real * hi
  {
    if |s| == 0 {
      t := 0.0;
    } else {
      assert FiniteWithin(s[1..], lo, hi) by {
        assert forall k :: 0 <= k < |s| - 1 ==> s[1..][k] == s[k + 1];
      }
      var u := SumScalarsBounds(s[1..], lo, hi);
      t := s[0].value + u;
      var n := (|s| - 1) as real;
      assert |s| as real * lo == n * lo + lo;
      assert |s| as real * hi == n * hi + hi;
    }
  }

  /** One non-finite entry makes the mean non-finite. */
  lemma MeanScalarsNonFinite(s: seq<Scalar>, k: nat)
    requires k < |s| && s[k] == NonFinite
    ensures MeanScalars(s) == NonFinite
  {
    SumScalarsNonFinite(s, k);
  }

  /** The mean of finite entries in [lo, hi] is finite and in [lo, hi]. */
  lemma MeanScalarsBounds(s: seq<Scalar>, lo: real, hi: real)
    requires |s| > 0 && FiniteWithin(s, lo, hi)
    ensures MeanScalars(s).Finite? && lo <= MeanScalars(s).value <= hi
  {
    var t := SumScalarsBounds(s, lo, hi);
    MeanFromSum(s, t, lo, hi);
  }

  lemma MeanFromSum(s: seq<Scalar>, t: real, lo: real, hi: real)
    requires |s| > 0 && SumScalars(s) == Finite(t)
    requires |s| as real * lo <= t <= |s| as real * hi
    ensures MeanScalars(s).Finite? && lo <= MeanScalars(s).value <= hi
  {
    var q := DivideBounds(t, |s| as real, lo, hi);
  }

  lemma DivideBounds(t: real, n: real, lo: real, hi: real) returns (q: real)
    requires n > 0.0 && n * lo <= t <= n * hi
    ensures q == t / n && lo <= q <= hi
  {
    q := t / n;
  }

  // ---------------------------------------------------------------------------
  // Weighted sums: the value of a convolution at one output position is the
  // dot product of the flattened kernel with the flattened input patch.
  // ---------------------------------------------------------------------------

  function Dot(w: seq<real>, v: seq<real>): real
    requires |w| == |v|
  {
    if |w| == 0 then 0.0 else w[0] * v[0] + Dot(w[1..], v[1..])
  }

  function Prod(u: seq<real>, v: seq<real>): (r: seq<real>)
    requires |u| == |v|
    ensures |r| == |u|
  {
    seq(|u|, k requires 0 <= k < |u| => u[k] * v[k])
  }

  lemma ProdTail(u: seq<real>, v: seq<real>)
    requires 0 < |u| == |v|
    ensures Prod(u, v)[1..] == Prod(u[1..], v[1..])
  {
    forall k | 0 <= k < |u| - 1
      ensures Prod(u, v)[1..][k] == Prod(u[1..], v[1..])[k]
    {
      assert Prod(u, v)[1..][k] == u[k + 1] * v[k + 1];
    }
  }

  /** The sequence u + v (plus) or u - v (not plus), entry by entry. */
  function Combine(u: seq<real>, v: seq<real>, plus: bool): (r: seq<real>)
    requires |u| == |v|
    ensures |r| == |u|
  {
    seq(|u|, k requires 0 <= k < |u| => if plus then u[k] + v[k] else u[k] - v[k])
  }

  lemma CombineTail(u: seq<real>, v: seq<real>, plus: bool)
    requires 0 < |u| == |v|
    ensures Combine(u, v, plus)[1..] == Combine(u[1..], v[1..], plus)
  {
  }

  /** Non-negative weights that sum to one. */
  ghost predicate IsDistribution(w: seq<real>)
  {
    (forall k :: 0 <= k < |w| ==> w[k] >= 0.0) && Sum(w) == 1.0
  }

  /** Non-negative weights, each paired with a value in [lo, hi]. */
  predicate WeightedWithin(w: seq<real>, v: seq<real>, lo: real, hi: real)
  {
    |w| == |v| && forall k :: 0 <= k < |w| ==> w[k] >= 0.0 && lo <= v[k] <= hi
  }

  lemma WeightedWithinTail(w: seq<real>, v: seq<real>, lo: real, hi: real)
    requires WeightedWithin(w, v, lo, hi) && |w| > 0
    ensures WeightedWithin(w[1..], v[1..], lo, hi) && w[0] >= 0.0 && lo <= v[0] <= hi
  {
    assert forall k :: 0 <= k < |w| - 1 ==> w[1..][k] == w[k + 1] && v[1..][k] == v[k + 1];
  }

  /** Non-negative weights applied to values in [lo, hi] give a weighted sum
      between lo and hi times the total weight. */
  lemma {:induction false} DotBounds(w: seq<real>, v: seq<real>, lo: real, hi: real)
    requires WeightedWithin(w, v, lo, hi)
    ensures lo * Sum(w) <= Dot(w, v) <= hi * Sum(w)
  {
    if |w| > 0 {
      WeightedWithinTail(w, v, lo, hi);
      var s, d := Sum(w[1..]), Dot(w[1..], v[1..]);
      DotBounds(w[1..], v[1..], lo, hi);
      assert Sum(w) == w[0] + s && Dot(w, v) == w[0] * v[0] + d;
      WeightedTermBounds(w[0], v[0], lo, hi, s, d);
    }
  }

  /** One more weighted term keeps the bounds of the weighted sum. */
  lemma WeightedTermBounds(a: real, x: real, lo: real, hi: real, s: real, d: real)
    requires a >= 0.0 && lo <= x <= hi
    requires lo * s <= d <= hi * s
    ensures lo * (a + s) <= a * x + d <= hi * (a + s)
  {
    assert a * x - lo * a == a * (x - lo);
    assert hi * a - a * x == a * (hi - x);
  }

  /** A raw second moment minus the product of the means. */
  function Spread(e: real, m1: real, m2: real): real
  {
    e - m1 * m2
  }

  /** E[v^2] - E[v]^2 under the weights w. */
  function Variance(w: seq<real>, v: seq<real>): real
    requires |w| == |v|
  {
    Spread(Dot(w, Prod(v, v)), Dot(w, v), Dot(w, v))
  }

  /** E[u*v] - E[u]*E[v] under the weights w. */
  function Covariance(w: seq<real>, u: seq<real>, v: seq<real>): real
    requires |w| == |u| == |v|
  {
    Spread(Dot(w, Prod(u, v)), Dot(w, u), Dot(w, v))
  }

  /** Sum of w[k] * (v[k] - m)^2. */
  function SquaredDeviation(w: seq<real>, v: seq<real>, m: real): real
    requires |w| == |v|
  {
    if |w| == 0 then 0.0 else w[0] * ((v[0] - m) * (v[0] - m)) + SquaredDeviation(w[1..], v[1..], m)
  }

  lemma {:induction false} SquaredDeviationNonnegative(w: seq<real>, v: seq<real>, m: real)
    requires |w| == |v|
    requires forall k :: 0 <= k < |w| ==> w[k] >= 0.0
    ensures SquaredDeviation(w, v, m) >= 0.0
  {
    if |w| > 0 {
      SquaredDeviationNonnegative(w[1..], v[1..], m);
      var d := v[0] - m;
      assert d * d >= 0.0;
      assert w[0] * (d * d) >= 0.0;
    }
  }

  /** E[v^2] - 2 m E[v] + m^2 sum(w), the expanded sum of w[k] (v[k] - m)^2. */
  function DeviationExpansion(p: real, m: real, mean: real, total: real): real
  {
    p - 2.0 * m * mean + m * m * total
  }

  lemma {:induction false} SquaredDeviationExpand(w: seq<real>, v: seq<real>, m: real)
    requires |w| == |v|
    ensures SquaredDeviation(w, v, m) == DeviationExpansion(Dot(w, Prod(v, v)), m, Dot(w, v), Sum(w))
  {
    if |w| == 0 {
      assert DeviationExpansion(0.0, m, 0.0, 0.0) == 0.0 by {
        assert 2.0 * m * 0.0 == 0.0 && m * m * 0.0 == 0.0;
      }
    } else {
      SquaredDeviationExpand(w[1..], v[1..], m);
      ExpandCons(w, v, m);
    }
  }

  /** The expansion carries over from the tails to the whole lists. */
  lemma ExpandCons(w: seq<real>, v: seq<real>, m: real)
    requires 0 < |w| == |v|
    requires SquaredDeviation(w[1..], v[1..], m) ==
             DeviationExpansion(Dot(w[1..], Prod(v[1..], v[1..])), m, Dot(w[1..], v[1..]), Sum(w[1..]))
    ensures SquaredDeviation(w, v, m) == DeviationExpansion(Dot(w, Prod(v, v)), m, Dot(w, v), Sum(w))
  {
    var w', v' := w[1..], v[1..];
    DotSquaresCons(w, v);
    ExpandStep(w[0], v[0], m, Dot(w', Prod(v', v')), Dot(w', v'), Sum(w'),
               SquaredDeviation(w, v, m), Dot(w, Prod(v, v)), Dot(w, v), Sum(w));
  }

  /** The first step of the weighted sum of squares. */
  lemma DotSquaresCons(w: seq<real>, v: seq<real>)
    requires 0 < |w| == |v|
    ensures Dot(w, Prod(v, v)) == w[0] * (v[0] * v[0]) + Dot(w[1..], Prod(v[1..], v[1..]))
  {
    var sq := Prod(v, v);
    assert sq[0] == v[0] * v[0];
    ProdTail(v, v);
    assert Dot(w, sq) == w[0] * sq[0] + Dot(w[1..], sq[1..]);
  }

  /** One step of the expansion: adding the term a (x - m)^2 to an expanded
      sum gives the expansion of the extended moments. */
  lemma ExpandStep(a: real, x: real, m: real, p: real, d: real, s: real,
                   sd: real, p': real, d': real, s': real)
    requires sd == a * ((x - m) * (x - m)) + DeviationExpansion(p, m, d, s)
    requires p' == a * (x * x) + p && d' == a * x + d && s' == a + s
    ensures sd == DeviationExpansion(p', m, d', s')
  {
    assert a * ((x - m) * (x - m)) == a * (x * x) - 2.0 * m * (a * x) + m * m * a;
    assert 2.0 * m * (a * x + d) == 2.0 * m * (a * x) + 2.0 * m * d;
    assert m * m * (a + s) == m * m * a + m * m * s;
  }

  /** The weighted variance is never negative. */
  lemma VarianceNonnegative(w: seq<real>, v: seq<real>)
    requires |w| == |v| && IsDistribution(w)
    ensures Variance(w, v) >= 0.0
  {
    var m := Dot(w, v);
    SquaredDeviationNonnegative(w, v, m);
    SquaredDeviationExpand(w, v, m);
    DeviationStep(SquaredDeviation(w, v, m), Dot(w, Prod(v, v)), m, Dot(w, v), Sum(w));
  }

  lemma DeviationStep(d: real, p: real, m: real, mean: real, total: real)
    requires d >= 0.0 && total == 1.0 && mean == m
    requires d == DeviationExpansion(p, m, mean, total)
    ensures Spread(p, m, mean) >= 0.0
  {
  }

  lemma {:induction false} DotCombine(w: seq<real>, u: seq<real>, v: seq<real>, plus: bool)
    requires |w| == |u| == |v|
    ensures plus ==> Dot(w, Combine(u, v, plus)) == Dot(w, u) + Dot(w, v)
    ensures !plus ==> Dot(w, Combine(u, v, plus)) == Dot(w, u) - Dot(w, v)
  {
    if |w| > 0 {
      DotCombine(w[1..], u[1..], v[1..], plus);
      CombineTail(u, v, plus);
      assert w[0] * (u[0] + v[0]) == w[0] * u[0] + w[0] * v[0];
      assert w[0] * (u[0] - v[0]) == w[0] * u[0] - w[0] * v[0];
    }
  }

  /** (u +- v)^2 = u^2 +- uv +- uv + v^2, entry by entry. */
  lemma CombineSquared(u: seq<real>, v: seq<real>, plus: bool)
    requires |u| == |v|
    ensures var c := Combine(u, v, plus);
            Prod(c, c) == Combine(Combine(Combine(Prod(u, u), Prod(u, v), plus), Prod(u, v), plus), Prod(v, v), true)
  {
    var c := Combine(u, v, plus);
    var r := Combine(Combine(Combine(Prod(u, u), Prod(u, v), plus), Prod(u, v), plus), Prod(v, v), true);
    forall k | 0 <= k < |u|
      ensures Prod(c, c)[k] == r[k]
    {
      SquareOfCombine(c[k], u[k], v[k], plus);
    }
  }

  lemma SquareOfCombine(c: real, x: real, y: real, plus: bool)
    requires c == if plus then x + y else x - y
    ensures plus ==> c * c == x * x + x * y + x * y + y * y
    ensures !plus ==> c * c == x * x - x * y - x * y + y * y
  {
  }

  lemma DotCombineSquared(w: seq<real>, u: seq<real>, v: seq<real>, plus: bool)
    requires |w| == |u| == |v|
    ensures var c := Combine(u, v, plus);
            var uu, uv, vv := Dot(w, Prod(u, u)), Dot(w, Prod(u, v)), Dot(w, Prod(v, v));
            Dot(w, Prod(c, c)) == if plus then uu + 2.0 * uv + vv else uu - 2.0 * uv + vv
  {
    var uu, uv, vv := Prod(u, u), Prod(u, v), Prod(v, v);
    CombineSquared(u, v, plus);
    DotCombine(w, uu, uv, plus);
    DotCombine(w, Combine(uu, uv, plus), uv, plus);
    DotCombine(w, Combine(Combine(uu, uv, plus), uv, plus), vv, true);
  }

  /** Var(u +- v) = Var(u) +- 2 Cov(u, v) + Var(v). */
  lemma VarianceOfCombine(w: seq<real>, u: seq<real>, v: seq<real>, plus: bool)
    requires |w| == |u| == |v|
    ensures plus ==> Variance(w, Combine(u, v, plus)) == Variance(w, u) + 2.0 * Covariance(w, u, v) + Variance(w, v)
    ensures !plus ==> Variance(w, Combine(u, v, plus)) == Variance(w, u) - 2.0 * Covariance(w, u, v) + Variance(w, v)
  {
    var c := Combine(u, v, plus);
    DotCombine(w, u, v, plus);
    DotCombineSquared(w, u, v, plus);
    CombineMoments(Dot(w, Prod(c, c)), Dot(w, c), Dot(w, Prod(u, u)), Dot(w, u), Dot(w, Prod(v, v)), Dot(w, v),
                 Dot(w, Prod(u, v)), plus);
  }

  /** The moment identity behind VarianceOfCombine, on plain numbers: cc and c
      are the second moment and mean of u +- v, uu, u, vv, v, uv those of u
      and v. */
  lemma CombineMoments(cc: real, c: real, uu: real, u: real, vv: real, v: real, uv: real, plus: bool)
    requires c == if plus then u + v else u - v
    requires cc == if plus then uu + 2.0 * uv + vv else uu - 2.0 * uv + vv
    ensures plus ==> Spread(cc, c, c) == Spread(uu, u, u) + 2.0 * Spread(uv, u, v) + Spread(vv, v, v)
    ensures !plus ==> Spread(cc, c, c) == Spread(uu, u, u) - 2.0 * Spread(uv, u, v) + Spread(vv, v, v)
  {
    SquareOfCombine(c, u, v, plus);
  }

  /** |2 Cov(u, v)| <= Var(u) + Var(v), from Var(u + v) >= 0 and Var(u - v) >= 0. */
  lemma CovarianceBound(w: seq<real>, u: seq<real>, v: seq<real>)
    requires |w| == |u| == |v| && IsDistribution(w)
    ensures 2.0 * Covariance(w, u, v) <= Variance(w, u) + Variance(w, v)
    ensures -2.0 * Covariance(w, u, v) <= Variance(w, u) + Variance(w, v)
  {
    VarianceOfCombine(w, u, v, true);
    VarianceOfCombine(w, u, v, false);
    VarianceNonnegative(w, Combine(u, v, true));
    VarianceNonnegative(w, Combine(u, v, false));
  }
}
