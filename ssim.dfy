/** The structural similarity criterion of ConvAE/src/loss.cpp: local
    Gaussian-weighted means, variances and covariance of two images, combined
    position by position into the SSIM index of Wang et al. and averaged;
    the loss is the negated average. */
module Ssim {
  import opened Numerics
  import opened Tensors
  import opened GaussWindow

  // ---------------------------------------------------------------------------
  // One position
  // ---------------------------------------------------------------------------

  /** The SSIM index at one position, from the five local moments: the means
      m1, m2 and the raw second moments e11 = E[x x], e22 = E[y y],
      e12 = E[x y]. Variances and covariance are the raw moments minus the
      products of the means. */
  function SsimValue(c1: real, c2: real, m1: real, m2: real, e11: real, e22: real, e12: real): (r: Scalar)
    ensures r.Finite? <==> (m1 * m1 + m2 * m2 + c1) * ((e11 - m1 * m1) + (e22 - m2 * m2) + c2) != 0.0
    ensures r.Finite? ==>
              r.value * ((m1 * m1 + m2 * m2 + c1) * ((e11 - m1 * m1) + (e22 - m2 * m2) + c2)) ==
              (2.0 * (m1 * m2) + c1) * (2.0 * (e12 - m1 * m2) + c2)
  {
    var v1 := e11 - m1 * m1;
    var v2 := e22 - m2 * m2;
    var cov := e12 - m1 * m2;
    Ratio((2.0 * (m1 * m2) + c1) * (2.0 * cov + c2), (m1 * m1 + m2 * m2 + c1) * (v1 + v2 + c2))
  }

  /** The formula is symmetric in its two images. */
  lemma SsimValueSymmetric(c1: real, c2: real, m1: real, m2: real, e11: real, e22: real, e12: real)
    ensures SsimValue(c1, c2, m1, m2, e11, e22, e12) == SsimValue(c1, c2, m2, m1, e22, e11, e12)
  {
    assert m1 * m2 == m2 * m1;
  }

  /** An image compared with itself: the index is exactly 1 wherever the
      denominator is non-zero, and non-finite (0/0) elsewhere. */
  lemma SsimValueSelf(c1: real, c2: real, m: real, e: real)
    ensures var den := (m * m + m * m + c1) * ((e - m * m) + (e - m * m) + c2);
            SsimValue(c1, c2, m, m, e, e, e) == if den == 0.0 then NonFinite else Finite(1.0)
  {
    var den := (m * m + m * m + c1) * ((e - m * m) + (e - m * m) + c2);
    var num := (2.0 * (m * m) + c1) * (2.0 * (e - m * m) + c2);
    assert num == den;
    if den != 0.0 {
      assert num / den == 1.0;
    }
  }

  /** |a| <= p and |b| <= q give |a b| <= p q. */
  lemma ProductWithin(a: real, p: real, b: real, q: real)
    requires -p <= a <= p && -q <= b <= q
    ensures -(p * q) <= a * b <= p * q
  {
    if a >= 0.0 {
      if b >= 0.0 {
        assert a * b <= p * b;
        assert p * b <= p * q;
      } else {
        assert a * b >= a * (-q);
        assert a * (-q) >= -(p * q);
      }
    } else {
      if b >= 0.0 {
        assert a * b >= (-p) * b;
        assert (-p) * b >= -(p * q);
      } else {
        assert a * b <= (-p) * b;
        assert (-p) * b <= p * q;
      }
    }
  }

  /** A quotient whose numerator is bounded by a positive denominator lies
      in [-1, 1]. */
  lemma QuotientWithin(q: real, num: real, den: real)
    requires den > 0.0 && q * den == num && -den <= num <= den
    ensures -1.0 <= q <= 1.0
  {
  }

  /** Two factors of the index: the luminance term (2 m1 m2 + c1) against
      (m1^2 + m2^2 + c1), and the contrast-structure term (2 cov + c2)
      against (v1 + v2 + c2). Each numerator is bounded by its own
      denominator. */
  lemma FactorsWithin(c1: real, c2: real, m1: real, m2: real, v1: real, v2: real, cov: real)
    requires c1 >= 0.0 && c2 >= 0.0 && v1 >= 0.0 && v2 >= 0.0
    requires 2.0 * cov <= v1 + v2 && -2.0 * cov <= v1 + v2
    ensures -(m1 * m1 + m2 * m2 + c1) <= 2.0 * (m1 * m2) + c1 <= m1 * m1 + m2 * m2 + c1
    ensures -(v1 + v2 + c2) <= 2.0 * cov + c2 <= v1 + v2 + c2
  {
    assert Square(m1 - m2) == (m1 - m2) * (m1 - m2) >= 0.0;
    assert Square(m1 + m2) == (m1 + m2) * (m1 + m2) >= 0.0;
    assert (m1 - m2) * (m1 - m2) == m1 * m1 + m2 * m2 - 2.0 * (m1 * m2);
    assert (m1 + m2) * (m1 + m2) == m1 * m1 + m2 * m2 + 2.0 * (m1 * m2);
  }


  /** With non-negative constants, non-negative variances and a covariance
      bounded by them, a finite index lies in [-1, 1]; positive constants
      make it finite. */
  lemma SsimValueWithin(c1: real, c2: real, m1: real, m2: real, e11: real, e22: real, e12: real)
    requires c1 >= 0.0 && c2 >= 0.0
    requires Spread(e11, m1, m1) >= 0.0 && Spread(e22, m2, m2) >= 0.0
    requires 2.0 * Spread(e12, m1, m2) <= Spread(e11, m1, m1) + Spread(e22, m2, m2)
    requires -2.0 * Spread(e12, m1, m2) <= Spread(e11, m1, m1) + Spread(e22, m2, m2)
    ensures var r := SsimValue(c1, c2, m1, m2, e11, e22, e12);
            (r.Finite? ==> -1.0 <= r.value <= 1.0) && (c1 > 0.0 && c2 > 0.0 ==> r.Finite?)
  {
    var v1, v2, cov := e11 - m1 * m1, e22 - m2 * m2, e12 - m1 * m2;
    var a, p := 2.0 * (m1 * m2) + c1, m1 * m1 + m2 * m2 + c1;
    var b, q := 2.0 * cov + c2, v1 + v2 + c2;
    FactorsWithin(c1, c2, m1, m2, v1, v2, cov);
    ProductWithin(a, p, b, q);
    var r := SsimValue(c1, c2, m1, m2, e11, e22, e12);
    assert r == Ratio(a * b, p * q);
    if p * q != 0.0 {
      ProductSign(p, q);
      QuotientWithin(r.value, a * b, p * q);
    }
    if c1 > 0.0 && c2 > 0.0 {
      ProductSign(p, q);
    }
  }

  // ---------------------------------------------------------------------------
  // The SSIM map and its mean
  // ---------------------------------------------------------------------------

  /** Two images the criterion can compare without a runtime error: the
      same well-formed shape, one kernel of the window per channel, and
      planes at least as large as the kernel once padded by ws/2. */
  predicate Accepts(window: Tensor<real>, ws: nat, x: Tensor<real>, y: Tensor<real>)
  {
    SameShape(x, y) && ConvFits(x, window, ws, ws / 2)
  }

  /** The second image and the three products fit the convolution as well,
      and they all share the first image's shape. */
  lemma AcceptedFits(window: Tensor<real>, ws: nat, x: Tensor<real>, y: Tensor<real>)
    requires Accepts(window, ws, x, y)
    ensures ShapeOf(y) == ShapeOf(x) && ConvFits(y, window, ws, ws / 2)
    ensures ShapeOf(Mul(x, x)) == ShapeOf(x) && ConvFits(Mul(x, x), window, ws, ws / 2)
    ensures ShapeOf(Mul(y, y)) == ShapeOf(x) && ConvFits(Mul(y, y), window, ws, ws / 2)
    ensures ShapeOf(Mul(x, y)) == ShapeOf(x) && ConvFits(Mul(x, y), window, ws, ws / 2)
  {
    CanonicalShape(x, y);
    CanonicalShape(x, Mul(x, x));
    CanonicalShape(y, Mul(y, y));
    CanonicalShape(x, Mul(x, y));
  }

  /** Symmetric acceptance. */
  lemma AcceptsSymmetric(window: Tensor<real>, ws: nat, x: Tensor<real>, y: Tensor<real>)
    requires Accepts(window, ws, x, y)
    ensures Accepts(window, ws, y, x)
  {
    CanonicalShape(x, y);
  }

  /** The per-position SSIM map: mu1, mu2 are the window-weighted means of
      the two images, and the variances and the covariance come from the
      window-weighted means of x*x, y*y and x*y; all five use padding ws/2
      and one kernel per channel. c1 and c2 are the squares of the bases. */
  function SsimMap(window: Tensor<real>, ws: nat, c1Base: real, c2Base: real, x: Tensor<real>, y: Tensor<real>): (r: Tensor<Scalar>)
    requires Accepts(window, ws, x, y)
    ensures var s := ShapeOf(x);
            HasShape(r, Shape(s.n, s.c, OutSize(s.h, ws, ws / 2), OutSize(s.w, ws, ws / 2)))
  {
    AcceptedFits(window, ws, x, y);
    var pad := ws / 2;
    var mu1 := Conv(x, window, ws, pad);
    var mu2 := Conv(y, window, ws, pad);
    var e11 := Conv(Mul(x, x), window, ws, pad);
    var e22 := Conv(Mul(y, y), window, ws, pad);
    var e12 := Conv(Mul(x, y), window, ws, pad);
    var c1 := Square(c1Base);
    var c2 := Square(c2Base);
    var s := ShapeOf(x);
    Zip5(Shape(s.n, s.c, OutSize(s.h, ws, pad), OutSize(s.w, ws, pad)), mu1, mu2, e11, e22, e12,
         (m1, m2, s11, s22, s12) => SsimValue(c1, c2, m1, m2, s11, s22, s12))
  }

  /** The mean of the SSIM map, or the runtime error of the convolution. */
  function StructuralSimilarity(window: Tensor<real>, ws: nat, c1Base: real, c2Base: real, x: Tensor<real>, y: Tensor<real>): (r: Outcome)
    ensures r.ShapeError? <==> !Accepts(window, ws, x, y)
    ensures r.Value? && r.s.Finite? ==> |Flat4(SsimMap(window, ws, c1Base, c2Base, x, y))| > 0
  {
    if Accepts(window, ws, x, y) then Value(MeanScalars(Flat4(SsimMap(window, ws, c1Base, c2Base, x, y))))
    else ShapeError
  }

  // ---------------------------------------------------------------------------
  // One entry of the map as weighted moments of two patches
  // ---------------------------------------------------------------------------

  /** The ws-by-ws patch of a plane read at output position (i, j) under
      padding ws/2, flattened row by row. */
  function PatchVector(p: Plane<real>, i: nat, j: nat, ws: nat): (r: seq<real>)
    ensures |r| == ws * ws
  {
    FlattenUniform(Patch(p, i, j, ws, ws / 2), ws);
    Flatten(Patch(p, i, j, ws, ws / 2))
  }

  /** A convolution output entry is the dot product of the flattened kernel
      with the flattened patch. */
  lemma ConvAsDot(x: Tensor<real>, window: Tensor<real>, ws: nat, b: nat, ch: nat, i: nat, j: nat)
    requires ConvFits(x, window, ws, ws / 2)
    requires b < ShapeOf(x).n && ch < ShapeOf(x).c
    requires i < OutSize(ShapeOf(x).h, ws, ws / 2) && j < OutSize(ShapeOf(x).w, ws, ws / 2)
    ensures |Flatten(window[ch][0])| == ws * ws
    ensures Conv(x, window, ws, ws / 2)[b][ch][i][j] == Dot(Flatten(window[ch][0]), PatchVector(x[b][ch], i, j, ws))
  {
    FlattenUniform(window[ch][0], ws);
    ConvEntry(x, window, ws, ws / 2, b, ch, i, j);
  }

  /** The convolution of a product x*y at one position is the weighted sum
      of the entry-wise product of the two patches. */
  lemma ConvOfProduct(x: Tensor<real>, y: Tensor<real>, window: Tensor<real>, ws: nat, b: nat, ch: nat, i: nat, j: nat)
    requires SameShape(x, y) && ConvFits(x, window, ws, ws / 2)
    requires b < ShapeOf(x).n && ch < ShapeOf(x).c
    requires i < OutSize(ShapeOf(x).h, ws, ws / 2) && j < OutSize(ShapeOf(x).w, ws, ws / 2)
    ensures ShapeOf(Mul(x, y)) == ShapeOf(x) && ConvFits(Mul(x, y), window, ws, ws / 2)
    ensures |Flatten(window[ch][0])| == ws * ws
    ensures Conv(Mul(x, y), window, ws, ws / 2)[b][ch][i][j] ==
            Dot(Flatten(window[ch][0]), Prod(PatchVector(x[b][ch], i, j, ws), PatchVector(y[b][ch], i, j, ws)))
  {
    CanonicalShape(x, Mul(x, y));
    ConvAsDot(Mul(x, y), window, ws, b, ch, i, j);
    PatchOfProduct(x, y, b, ch, i, j, ws, ws / 2);
    FlattenProd(Patch(x[b][ch], i, j, ws, ws / 2), Patch(y[b][ch], i, j, ws, ws / 2));
  }

  /** Entry (b, ch, i, j) of the SSIM map is the index of the weighted
      moments of the two patches: with w the flattened kernel of channel ch
      and u, v the flattened patches of the two images, the means are w.u
      and w.v and the raw second moments w.(u*u), w.(v*v), w.(u*v). */
  lemma SsimMapEntry(window: Tensor<real>, ws: nat, c1Base: real, c2Base: real, x: Tensor<real>, y: Tensor<real>,
                     b: nat, ch: nat, i: nat, j: nat)
    requires Accepts(window, ws, x, y)
    requires b < ShapeOf(x).n && ch < ShapeOf(x).c
    requires i < OutSize(ShapeOf(x).h, ws, ws / 2) && j < OutSize(ShapeOf(x).w, ws, ws / 2)
    ensures ch < |window| && |window[ch]| == 1 && |Flatten(window[ch][0])| == ws * ws
    ensures b < |y| && ch < |y[b]|
    ensures var w, u, v := Flatten(window[ch][0]), PatchVector(x[b][ch], i, j, ws), PatchVector(y[b][ch], i, j, ws);
            SsimMap(window, ws, c1Base, c2Base, x, y)[b][ch][i][j] ==
            SsimValue(Square(c1Base), Square(c2Base), Dot(w, u), Dot(w, v), Dot(w, Prod(u, u)), Dot(w, Prod(v, v)), Dot(w, Prod(u, v)))
  {
    AcceptedFits(window, ws, x, y);
    ConvAsDot(x, window, ws, b, ch, i, j);
    ConvAsDot(y, window, ws, b, ch, i, j);
    ConvOfProduct(x, x, window, ws, b, ch, i, j);
    ConvOfProduct(y, y, window, ws, b, ch, i, j);
    ConvOfProduct(x, y, window, ws, b, ch, i, j);
  }

  // ---------------------------------------------------------------------------
  // Bounds
  // ---------------------------------------------------------------------------

  /** Every kernel of the window is a probability distribution over its
      ws*ws positions. */
  ghost predicate WeightsAreDistributions(window: Tensor<real>)
  {
    forall ch :: 0 <= ch < |window| ==> |window[ch]| > 0 && IsDistribution(Flatten(window[ch][0]))
  }

  /** The Gaussian window is such a window. */
  lemma GaussianWeights(exp: ExpFn, nc: nat, ws: nat, std: real)
    requires std != 0.0 && ws >= 1
    ensures WeightsAreDistributions(GaussianWindow(exp, nc, ws, std))
  {
    WindowShape(exp, nc, ws, std);
    forall ch | 0 <= ch < nc
      ensures IsDistribution(Flatten(GaussianWindow(exp, nc, ws, std)[ch][0]))
    {
      WindowIsDistribution(exp, nc, ws, std, ch);
    }
  }

  /** Under a distribution window every finite entry of the map lies in
      [-1, 1], and non-zero bases make every entry finite. */
  lemma SsimMapEntryWithin(window: Tensor<real>, ws: nat, c1Base: real, c2Base: real, x: Tensor<real>, y: Tensor<real>,
                           b: nat, ch: nat, i: nat, j: nat)
    requires Accepts(window, ws, x, y) && WeightsAreDistributions(window)
    requires b < ShapeOf(x).n && ch < ShapeOf(x).c
    requires i < OutSize(ShapeOf(x).h, ws, ws / 2) && j < OutSize(ShapeOf(x).w, ws, ws / 2)
    ensures var e := SsimMap(window, ws, c1Base, c2Base, x, y)[b][ch][i][j];
            (e.Finite? ==> -1.0 <= e.value <= 1.0) && (c1Base != 0.0 && c2Base != 0.0 ==> e.Finite?)
  {
    SsimMapEntry(window, ws, c1Base, c2Base, x, y, b, ch, i, j);
    MomentsWithin(Square(c1Base), Square(c2Base), Flatten(window[ch][0]),
                  PatchVector(x[b][ch], i, j, ws), PatchVector(y[b][ch], i, j, ws));
  }

  /** The index of the weighted moments of two patches under distribution
      weights: finite values lie in [-1, 1]; positive constants make it
      finite. */
  lemma MomentsWithin(c1: real, c2: real, w: seq<real>, u: seq<real>, v: seq<real>)
    requires c1 >= 0.0 && c2 >= 0.0
    requires |w| == |u| == |v| && IsDistribution(w)
    ensures var e := SsimValue(c1, c2, Dot(w, u), Dot(w, v), Dot(w, Prod(u, u)), Dot(w, Prod(v, v)), Dot(w, Prod(u, v)));
            (e.Finite? ==> -1.0 <= e.value <= 1.0) && (c1 > 0.0 && c2 > 0.0 ==> e.Finite?)
  {
    var m1, m2, e11, e22, e12 := Dot(w, u), Dot(w, v), Dot(w, Prod(u, u)), Dot(w, Prod(v, v)), Dot(w, Prod(u, v));
    VarianceNonnegative(w, u);
    VarianceNonnegative(w, v);
    CovarianceBound(w, u, v);
    assert Spread(e11, m1, m1) == Variance(w, u) && Spread(e22, m2, m2) == Variance(w, v);
    assert Spread(e12, m1, m2) == Covariance(w, u, v);
    SsimValueWithin(c1, c2, m1, m2, e11, e22, e12);
  }

  /** The shape of the SSIM map. */
  function MapShape(window: Tensor<real>, ws: nat, x: Tensor<real>, y: Tensor<real>): Shape
    requires Accepts(window, ws, x, y)
  {
    var s := ShapeOf(x);
    Shape(s.n, s.c, OutSize(s.h, ws, ws / 2), OutSize(s.w, ws, ws / 2))
  }

  lemma SsimMapWithin(window: Tensor<real>, ws: nat, c1Base: real, c2Base: real, x: Tensor<real>, y: Tensor<real>)
    requires Accepts(window, ws, x, y) && WeightsAreDistributions(window)
    ensures var m, s := SsimMap(window, ws, c1Base, c2Base, x, y), MapShape(window, ws, x, y);
            forall b, ch, i, j :: 0 <= b < s.n && 0 <= ch < s.c && 0 <= i < s.h && 0 <= j < s.w ==>
              (m[b][ch][i][j].Finite? ==> -1.0 <= m[b][ch][i][j].value <= 1.0) &&
              (c1Base != 0.0 && c2Base != 0.0 ==> m[b][ch][i][j].Finite?)
  {
    var s := MapShape(window, ws, x, y);
    forall b: nat, ch: nat, i: nat, j: nat | b < s.n && ch < s.c && i < s.h && j < s.w
      ensures var e := SsimMap(window, ws, c1Base, c2Base, x, y)[b][ch][i][j];
              (e.Finite? ==> -1.0 <= e.value <= 1.0) && (c1Base != 0.0 && c2Base != 0.0 ==> e.Finite?)
    {
      SsimMapEntryWithin(window, ws, c1Base, c2Base, x, y, b, ch, i, j);
    }
  }

  /** A finite structural similarity lies in [-1, 1]. */
  lemma StructuralSimilarityWithin(window: Tensor<real>, ws: nat, c1Base: real, c2Base: real, x: Tensor<real>, y: Tensor<real>)
    requires WeightsAreDistributions(window)
    ensures var r := StructuralSimilarity(window, ws, c1Base, c2Base, x, y);
            r.Value? && r.s.Finite? ==> -1.0 <= r.s.value <= 1.0
  {
    if Accepts(window, ws, x, y) {
      SsimMapWithin(window, ws, c1Base, c2Base, x, y);
      MeanOfEntries(SsimMap(window, ws, c1Base, c2Base, x, y), MapShape(window, ws, x, y), -1.0, 1.0);
    }
  }

  /** With non-zero bases, accepted non-empty images have a finite
      structural similarity. */
  lemma StructuralSimilarityFinite(window: Tensor<real>, ws: nat, c1Base: real, c2Base: real, x: Tensor<real>, y: Tensor<real>)
    requires WeightsAreDistributions(window) && c1Base != 0.0 && c2Base != 0.0
    requires Accepts(window, ws, x, y) && ShapeOf(x).n > 0 && ShapeOf(x).c > 0
    ensures var r := StructuralSimilarity(window, ws, c1Base, c2Base, x, y);
            r.Value? && r.s.Finite? && -1.0 <= r.s.value <= 1.0
  {
    SsimMapWithin(window, ws, c1Base, c2Base, x, y);
    MeanOfFiniteEntries(SsimMap(window, ws, c1Base, c2Base, x, y), MapShape(window, ws, x, y), -1.0, 1.0);
  }

  // ---------------------------------------------------------------------------
  // Symmetry and self-similarity
  // ---------------------------------------------------------------------------

  /** Swapping the two images leaves every entry of the map unchanged. */
  lemma SsimMapSymmetric(window: Tensor<real>, ws: nat, c1Base: real, c2Base: real, x: Tensor<real>, y: Tensor<real>)
    requires Accepts(window, ws, x, y)
    ensures Accepts(window, ws, y, x)
    ensures SsimMap(window, ws, c1Base, c2Base, x, y) == SsimMap(window, ws, c1Base, c2Base, y, x)
  {
    AcceptsSymmetric(window, ws, x, y);
    AcceptedFits(window, ws, x, y);
    AcceptedFits(window, ws, y, x);
    MulCommutes(x, y);
    var pad := ws / 2;
    var c1, c2 := Square(c1Base), Square(c2Base);
    var s := MapShape(window, ws, x, y);
    var mxy, myx := SsimMap(window, ws, c1Base, c2Base, x, y), SsimMap(window, ws, c1Base, c2Base, y, x);
    forall b, ch, i, j | 0 <= b < s.n && 0 <= ch < s.c && 0 <= i < s.h && 0 <= j < s.w
      ensures mxy[b][ch][i][j] == myx[b][ch][i][j]
    {
      SsimValueSymmetric(c1, c2, Conv(x, window, ws, pad)[b][ch][i][j], Conv(y, window, ws, pad)[b][ch][i][j],
                         Conv(Mul(x, x), window, ws, pad)[b][ch][i][j], Conv(Mul(y, y), window, ws, pad)[b][ch][i][j],
                         Conv(Mul(x, y), window, ws, pad)[b][ch][i][j]);
    }
    ShapedExt(mxy, myx, s);
  }

  /** The structural similarity is symmetric in its two images, errors
      included. */
  lemma StructuralSimilaritySymmetric(window: Tensor<real>, ws: nat, c1Base: real, c2Base: real, x: Tensor<real>, y: Tensor<real>)
    ensures StructuralSimilarity(window, ws, c1Base, c2Base, x, y) == StructuralSimilarity(window, ws, c1Base, c2Base, y, x)
  {
    if Accepts(window, ws, x, y) {
      SsimMapSymmetric(window, ws, c1Base, c2Base, x, y);
    } else if Accepts(window, ws, y, x) {
      AcceptsSymmetric(window, ws, y, x);
    }
  }

  /** Comparing an image with itself: every finite entry of the map is 1. */
  lemma SsimMapSelf(window: Tensor<real>, ws: nat, c1Base: real, c2Base: real, x: Tensor<real>, b: nat, ch: nat, i: nat, j: nat)
    requires Accepts(window, ws, x, x)
    requires b < ShapeOf(x).n && ch < ShapeOf(x).c
    requires i < OutSize(ShapeOf(x).h, ws, ws / 2) && j < OutSize(ShapeOf(x).w, ws, ws / 2)
    ensures SsimMap(window, ws, c1Base, c2Base, x, x)[b][ch][i][j].Finite? ==>
            SsimMap(window, ws, c1Base, c2Base, x, x)[b][ch][i][j] == Finite(1.0)
  {
    AcceptedFits(window, ws, x, x);
    var pad := ws / 2;
    SsimValueSelf(Square(c1Base), Square(c2Base), Conv(x, window, ws, pad)[b][ch][i][j], Conv(Mul(x, x), window, ws, pad)[b][ch][i][j]);
  }

  /** A finite self-similarity is exactly 1. */
  lemma StructuralSimilaritySelf(window: Tensor<real>, ws: nat, c1Base: real, c2Base: real, x: Tensor<real>)
    ensures var r := StructuralSimilarity(window, ws, c1Base, c2Base, x, x);
            r.Value? && r.s.Finite? ==> r.s.value == 1.0
  {
    if Accepts(window, ws, x, x) {
      var s := MapShape(window, ws, x, x);
      forall b: nat, ch: nat, i: nat, j: nat | b < s.n && ch < s.c && i < s.h && j < s.w
        ensures var e := SsimMap(window, ws, c1Base, c2Base, x, x)[b][ch][i][j];
                e.Finite? ==> 1.0 <= e.value <= 1.0
      {
        SsimMapSelf(window, ws, c1Base, c2Base, x, b, ch, i, j);
      }
      MeanOfEntries(SsimMap(window, ws, c1Base, c2Base, x, x), s, 1.0, 1.0);
    }
  }

  /** With a distribution window and non-zero bases, an accepted non-empty
      image has self-similarity exactly 1. */
  lemma StructuralSimilaritySelfDefined(window: Tensor<real>, ws: nat, c1Base: real, c2Base: real, x: Tensor<real>)
    requires WeightsAreDistributions(window) && c1Base != 0.0 && c2Base != 0.0
    requires Accepts(window, ws, x, x) && ShapeOf(x).n > 0 && ShapeOf(x).c > 0
    ensures StructuralSimilarity(window, ws, c1Base, c2Base, x, x) == Value(Finite(1.0))
  {
    StructuralSimilarityFinite(window, ws, c1Base, c2Base, x, x);
    StructuralSimilaritySelf(window, ws, c1Base, c2Base, x);
  }

  // ---------------------------------------------------------------------------
  // The criterion object
  // ---------------------------------------------------------------------------

  /** The SSIM criterion: its parameters and the Gaussian window built from
      them once, at construction. */
  class SSIMLoss {
    const exp: ExpFn
    const nc: nat
    const windowSize: nat
    const gaussStd: real
    const c1Base: real
    const c2Base: real
    const window: Tensor<real>

    /** The window is the normalised Gaussian window of the parameters. */
    predicate Valid()
    {
      windowSize >= 1 && gaussStd != 0.0 && window == GaussianWindow(exp, nc, windowSize, gaussStd)
    }

    /** Fills the list of Gaussian densities entry by entry, then normalises
        it, takes its outer product and copies it once per channel. */
    constructor (exp: ExpFn, nc: nat, windowSize: nat := 11, gaussStd: real := 1.5, c1Base: real := 0.01, c2Base: real := 0.03)
      requires windowSize >= 1 && gaussStd != 0.0
      ensures this.exp == exp && this.nc == nc && this.windowSize == windowSize && this.gaussStd == gaussStd
      ensures this.c1Base == c1Base && this.c2Base == c2Base
      ensures Valid()
    {
      var gaussList := FillGaussList(exp, windowSize, gaussStd);
      GaussListPositive(exp, windowSize, gaussStd);
      this.exp := exp;
      this.nc := nc;
      this.windowSize := windowSize;
      this.gaussStd := gaussStd;
      this.c1Base := c1Base;
      this.c2Base := c2Base;
      window := Replicate(nc, Outer(Normalize(gaussList[..])));
    }

    /** Images with a channel count other than nc, or of different shapes,
        or too small for the window, are a runtime error; a finite result
        lies in [-1, 1]. */
    function Similarity(x: Tensor<real>, y: Tensor<real>): (r: Outcome)
      requires Valid()
      ensures r.ShapeError? <==> !Accepts(window, windowSize, x, y)
      ensures Channels(x) != nc ==> r.ShapeError?
      ensures r.Value? && r.s.Finite? ==> -1.0 <= r.s.value <= 1.0
    {
      GaussianWeights(exp, nc, windowSize, gaussStd);
      WindowShape(exp, nc, windowSize, gaussStd);
      StructuralSimilarityWithin(window, windowSize, c1Base, c2Base, x, y);
      StructuralSimilarity(window, windowSize, c1Base, c2Base, x, y)
    }

    /** The loss: the negated similarity, so -1 is the best match. */
    function Apply(x: Tensor<real>, y: Tensor<real>): (r: Outcome)
      requires Valid()
      ensures r.ShapeError? <==> Similarity(x, y).ShapeError?
      ensures r.Value? ==> r.s == Negate(Similarity(x, y).s)
      ensures r.Value? && r.s.Finite? ==> -1.0 <= r.s.value <= 1.0
    {
      match Similarity(x, y)
      case ShapeError => ShapeError
      case Value(s) => Value(Negate(s))
    }
  }

  /** The constructor's loop: entry i of a fresh list of ws entries is the
      Gaussian density at i around the mean ws/2. */
  method FillGaussList(exp: ExpFn, ws: nat, std: real) returns (gaussList: array<real>)
    requires std != 0.0
    ensures fresh(gaussList) && gaussList[..] == GaussList(exp, ws, std)
  {
    var mean := Centre(ws) as real;
    gaussList := new real[ws];
    for i := 0 to ws
      invariant gaussList[..i] == GaussList(exp, ws, std)[..i]
    {
      GaussListEntry(exp, ws, std, i);
      gaussList[i] := GaussianPdf(exp, mean, std, i as real);
      assert gaussList[..i + 1] == gaussList[..i] + [gaussList[i]];
    }
    assert gaussList[..] == gaussList[..ws];
  }

  /** The loss of an image against itself is -1, the best possible value,
      once the bases are non-zero and the image is non-empty. */
  lemma ApplyIdentical(loss: SSIMLoss, x: Tensor<real>)
    requires loss.Valid() && loss.c1Base != 0.0 && loss.c2Base != 0.0
    requires Accepts(loss.window, loss.windowSize, x, x) && ShapeOf(x).n > 0 && ShapeOf(x).c > 0
    ensures loss.Apply(x, x) == Value(Finite(-1.0))
  {
    GaussianWeights(loss.exp, loss.nc, loss.windowSize, loss.gaussStd);
    StructuralSimilaritySelfDefined(loss.window, loss.windowSize, loss.c1Base, loss.c2Base, x);
  }

  /** The loss does not depend on the order of its two images. */
  lemma ApplySymmetric(loss: SSIMLoss, x: Tensor<real>, y: Tensor<real>)
    requires loss.Valid()
    ensures loss.Apply(x, y) == loss.Apply(y, x)
  {
    StructuralSimilaritySymmetric(loss.window, loss.windowSize, loss.c1Base, loss.c2Base, x, y);
  }

  /** With an odd window size the SSIM map has the shape of the images. */
  lemma SsimMapSameSize(window: Tensor<real>, ws: nat, c1Base: real, c2Base: real, x: Tensor<real>, y: Tensor<real>)
    requires ws % 2 == 1 && Accepts(window, ws, x, y)
    ensures HasShape(SsimMap(window, ws, c1Base, c2Base, x, y), ShapeOf(x))
  {
  }
}
