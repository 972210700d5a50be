/** The Gaussian comparison window of the structural similarity loss
    (ConvAE/src/loss.cpp, the SSIMLoss constructor): a 1-D list of Gaussian
    densities, normalised to sum 1, turned into a 2-D window by the outer
    product of the list with itself, and copied once per channel. */
module GaussWindow {
  import opened Numerics
  import opened Tensors

  /** The exponential function: only its positivity is part of the type,
      not its numeric values. */
  type ExpFn = f: real -> real | forall x :: f(x) > 0.0
    witness (x: real) => 1.0

  /** The exponential is also monotone; the one property that needs this
      (the peak at the centre) asks for it. */
  ghost predicate Increasing(f: real -> real)
  {
    forall x, y :: x <= y ==> f(x) <= f(y)
  }

  /** -(x - mean)^2 / (2 std^2), written as minus half the square of the
      standardised distance (x - mean) / std. */
  function Exponent(mean: real, std: real, x: real): real
    requires std != 0.0
  {
    -(((x - mean) / std) * ((x - mean) / std)) / 2.0
  }

  /** exp(-(x - mean)^2 / (2 std^2)), the unnormalised Gaussian density. */
  function GaussianPdf(exp: ExpFn, mean: real, std: real, x: real): (r: real)
    requires std != 0.0
    ensures r > 0.0
  {
    exp(Exponent(mean, std, x))
  }

  /** The centre of a window: window_size / 2 in unsigned integer division. */
  function Centre(ws: nat): nat
  {
    ws / 2
  }

  /** Entry i is the density at i around the centre. */
  function GaussList(exp: ExpFn, ws: nat, std: real): (g: seq<real>)
    requires std != 0.0
    ensures |g| == ws
  {
    seq(ws, i requires 0 <= i < ws => GaussianPdf(exp, Centre(ws) as real, std, i as real))
  }

  function DivideAll(v: seq<real>, d: real): (r: seq<real>)
    requires d != 0.0
    ensures |r| == |v|
  {
    seq(|v|, i requires 0 <= i < |v| => v[i] / d)
  }

  /** The list divided by its sum. */
  function Normalize(g: seq<real>): (r: seq<real>)
    requires Sum(g) != 0.0
    ensures |r| == |g|
    ensures forall i :: 0 <= i < |g| ==> r[i] * Sum(g) == g[i]
  {
    DivideAll(g, Sum(g))
  }

  function Scale(c: real, v: seq<real>): (r: seq<real>)
    ensures |r| == |v|
  {
    seq(|v|, j requires 0 <= j < |v| => c * v[j])
  }

  /** The product of the column vector v with its transpose. */
  function Outer(v: seq<real>): (r: Plane<real>)
    ensures IsPlane(r, |v|, |v|)
    ensures forall i, j :: 0 <= i < |v| && 0 <= j < |v| ==> r[i][j] == r[j][i]
  {
    seq(|v|, i requires 0 <= i < |v| => Scale(v[i], v))
  }

  /** The plane, given leading dimensions (nc, 1) by copying. */
  function Replicate(nc: nat, p: Plane<real>): (r: Tensor<real>)
    ensures |r| == nc
    ensures forall ch :: 0 <= ch < nc ==> |r[ch]| == 1 && r[ch][0] == p
  {
    seq(nc, ch => [p])
  }

  /** The entries of the list are positive, so a non-empty list has a
      positive sum. */
  lemma GaussListPositive(exp: ExpFn, ws: nat, std: real)
    requires std != 0.0 && ws >= 1
    ensures forall i :: 0 <= i < ws ==> GaussList(exp, ws, std)[i] > 0.0
    ensures Sum(GaussList(exp, ws, std)) > 0.0
  {
    SumPositive(GaussList(exp, ws, std));
  }

  /** The window the constructor stores, of shape (nc, 1, ws, ws). */
  function GaussianWindow(exp: ExpFn, nc: nat, ws: nat, std: real): (r: Tensor<real>)
    requires std != 0.0 && ws >= 1
    ensures IsDepthwise(r, nc, ws)
  {
    GaussListPositive(exp, ws, std);
    Replicate(nc, Outer(Normalize(GaussList(exp, ws, std))))
  }

  // ---------------------------------------------------------------------------
  // The Gaussian list
  // ---------------------------------------------------------------------------

  /** Entry i depends on i only through its distance |i - ws/2| from the
      centre (equivalently, through (i - ws/2)^2). */
  lemma GaussDependsOnDistance(exp: ExpFn, ws: nat, std: real, i: nat, j: nat)
    requires std != 0.0 && i < ws && j < ws
    requires Distance(i, Centre(ws)) == Distance(j, Centre(ws))
    ensures GaussList(exp, ws, std)[i] == GaussList(exp, ws, std)[j]
  {
    var c := Centre(ws) as real;
    if i != j {
      ExponentMirror(c, std, i as real, j as real);
    }
  }

  /** Points at the same distance on either side of the mean have the same
      exponent. */
  lemma ExponentMirror(mean: real, std: real, x: real, y: real)
    requires std != 0.0 && y - mean == -(x - mean)
    ensures Exponent(mean, std, x) == Exponent(mean, std, y)
  {
    var z := (x - mean) / std;
    assert (y - mean) / std == -z;
    assert (-z) * (-z) == z * z;
  }

  function Distance(i: int, j: int): nat
  {
    if i < j then j - i else i - j
  }

  /** For an odd window size the list reads the same backwards. */
  lemma GaussSymmetric(exp: ExpFn, ws: nat, std: real, i: nat)
    requires std != 0.0 && ws % 2 == 1 && i < ws
    ensures GaussList(exp, ws, std)[i] == GaussList(exp, ws, std)[ws - 1 - i]
  {
    GaussDependsOnDistance(exp, ws, std, i, ws - 1 - i);
  }

  /** No entry exceeds the one at the centre ws/2. */
  lemma GaussPeak(exp: ExpFn, ws: nat, std: real, i: nat)
    requires Increasing(exp) && std != 0.0 && i < ws
    ensures Centre(ws) < ws
    ensures GaussList(exp, ws, std)[i] <= GaussList(exp, ws, std)[Centre(ws)]
  {
    var c := Centre(ws) as real;
    ExponentNonpositive(c, std, i as real);
    GaussListEntry(exp, ws, std, i);
    GaussListEntry(exp, ws, std, Centre(ws));
    IncreasingAt(exp, Exponent(c, std, i as real), Exponent(c, std, c));
  }

  lemma GaussListEntry(exp: ExpFn, ws: nat, std: real, i: nat)
    requires std != 0.0 && i < ws
    ensures GaussList(exp, ws, std)[i] == exp(Exponent(Centre(ws) as real, std, i as real))
  {
  }

  lemma IncreasingAt(f: real -> real, x: real, y: real)
    requires Increasing(f) && x <= y
    ensures f(x) <= f(y)
  {
  }

  /** The exponent is never positive and is 0 at the mean. */
  lemma ExponentNonpositive(mean: real, std: real, x: real)
    requires std != 0.0
    ensures Exponent(mean, std, x) <= 0.0 == Exponent(mean, std, mean)
  {
    var z := (x - mean) / std;
    if z < 0.0 {
      assert (-z) * (-z) == z * z;
    }
  }

  // ---------------------------------------------------------------------------
  // Normalisation and the outer product
  // ---------------------------------------------------------------------------

  lemma {:induction false} SumDivide(v: seq<real>, d: real)
    requires d != 0.0
    ensures Sum(DivideAll(v, d)) == Sum(v) / d
  {
    if |v| > 0 {
      SumDivide(v[1..], d);
      assert DivideAll(v, d)[1..] == DivideAll(v[1..], d);
      assert v[0] / d + Sum(v[1..]) / d == (v[0] + Sum(v[1..])) / d;
    }
  }

  lemma {:induction false} SumScale(c: real, v: seq<real>)
    ensures Sum(Scale(c, v)) == c * Sum(v)
  {
    if |v| > 0 {
      SumScale(c, v[1..]);
      forall j | 0 <= j < |v| - 1
        ensures Scale(c, v)[1..][j] == Scale(c, v[1..])[j]
      {
        assert Scale(c, v)[1..][j] == c * v[j + 1];
      }
      assert Scale(c, v)[1..] == Scale(c, v[1..]);
      assert c * v[0] + c * Sum(v[1..]) == c * (v[0] + Sum(v[1..]));
    }
  }

  /** A list with a non-zero sum normalises to a list summing to 1. */
  lemma NormalizeSum(g: seq<real>)
    requires Sum(g) != 0.0
    ensures Sum(Normalize(g)) == 1.0
  {
    SumDivide(g, Sum(g));
    assert Sum(g) / Sum(g) == 1.0;
  }

  /** The outer product of a list summing to 1 sums to 1. */
  lemma OuterSum(v: seq<real>)
    requires Sum(v) == 1.0
    ensures Sum(Flatten(Outer(v))) == 1.0
  {
    var rows := Outer(v);
    SumFlatten(rows);
    var sums := seq(|rows|, i requires 0 <= i < |rows| => Sum(rows[i]));
    forall i | 0 <= i < |v|
      ensures sums[i] == v[i]
    {
      SumScale(v[i], v);
    }
    assert sums == v;
  }

  // ---------------------------------------------------------------------------
  // The window
  // ---------------------------------------------------------------------------

  lemma OuterEntry(v: seq<real>, i: nat, j: nat)
    requires i < |v| && j < |v|
    ensures Outer(v)[i][j] == v[i] * v[j]
  {
  }

  /** Entries of a normalised list of positive numbers are positive. */
  lemma NormalizePositive(g: seq<real>)
    requires forall i :: 0 <= i < |g| ==> g[i] > 0.0
    requires Sum(g) > 0.0
    ensures forall i :: 0 <= i < |g| ==> Normalize(g)[i] > 0.0
  {
  }

  /** The window built from any list of positive numbers: every channel
      slice is the outer product of the normalised list, non-negative and
      summing to 1. */
  lemma {:induction false} ReplicatedOuter(nc: nat, g: seq<real>, ch: nat)
    requires forall i :: 0 <= i < |g| ==> g[i] > 0.0
    requires Sum(g) > 0.0 && ch < nc
    ensures Replicate(nc, Outer(Normalize(g)))[ch][0] == Outer(Normalize(g))
    ensures IsDistribution(Flatten(Outer(Normalize(g))))
  {
    var n := Normalize(g);
    NormalizeSum(g);
    NormalizePositive(g);
    OuterSum(n);
    OuterNonnegative(n);
  }

  /** The outer product of a positive list has non-negative entries. */
  lemma OuterNonnegative(n: seq<real>)
    requires forall i :: 0 <= i < |n| ==> n[i] > 0.0
    ensures forall k :: 0 <= k < |Flatten(Outer(n))| ==> Flatten(Outer(n))[k] >= 0.0
  {
    var plane := Outer(n);
    var flat := Flatten(plane);
    forall k | 0 <= k < |flat|
      ensures flat[k] >= 0.0
    {
      var i := FlattenMember(plane, flat[k]);
      var j :| 0 <= j < |plane[i]| && plane[i][j] == flat[k];
      OuterEntry(n, i, j);
      ProductSign(n[i], n[j]);
    }
  }

  /** The window has shape (nc, 1, ws, ws) and every channel holds the
      same plane. */
  lemma WindowShape(exp: ExpFn, nc: nat, ws: nat, std: real)
    requires std != 0.0 && ws >= 1
    ensures IsDepthwise(GaussianWindow(exp, nc, ws, std), nc, ws)
    ensures forall d, e :: 0 <= d < nc && 0 <= e < nc ==>
              GaussianWindow(exp, nc, ws, std)[d] == GaussianWindow(exp, nc, ws, std)[e]
  {
    var g := GaussList(exp, ws, std);
    GaussListPositive(exp, ws, std);
    assert GaussianWindow(exp, nc, ws, std) == Replicate(nc, Outer(Normalize(g)));
  }

  /** Every channel slice of the window is the outer product n n^T, where n
      is the Gaussian list divided by its (positive) sum; entry (i, j) is
      therefore n[i] n[j] (OuterEntry). */
  lemma WindowSlice(exp: ExpFn, nc: nat, ws: nat, std: real, ch: nat)
    requires std != 0.0 && ws >= 1 && ch < nc
    ensures Sum(GaussList(exp, ws, std)) > 0.0
    ensures GaussianWindow(exp, nc, ws, std)[ch][0] == Outer(Normalize(GaussList(exp, ws, std)))
  {
    var g := GaussList(exp, ws, std);
    GaussListPositive(exp, ws, std);
    var p := Outer(Normalize(g));
    assert GaussianWindow(exp, nc, ws, std) == Replicate(nc, p);
    ReplicateSlice(nc, p, ch);
  }

  lemma ReplicateSlice(nc: nat, p: Plane<real>, ch: nat)
    requires ch < nc
    ensures Replicate(nc, p)[ch][0] == p
  {
  }

  /** Each channel slice of the window is a symmetric matrix. */
  lemma WindowSymmetric(exp: ExpFn, nc: nat, ws: nat, std: real, ch: nat, i: nat, j: nat)
    requires std != 0.0 && ws >= 1 && ch < nc && i < ws && j < ws
    ensures GaussianWindow(exp, nc, ws, std)[ch][0][i][j] == GaussianWindow(exp, nc, ws, std)[ch][0][j][i]
  {
    var g := GaussList(exp, ws, std);
    GaussListPositive(exp, ws, std);
    var n := Normalize(g);
    assert GaussianWindow(exp, nc, ws, std) == Replicate(nc, Outer(n));
    OuterEntry(n, i, j);
    OuterEntry(n, j, i);
  }

  /** Each channel slice of the window, flattened, is a probability
      distribution: non-negative entries that sum to 1. */
  lemma WindowIsDistribution(exp: ExpFn, nc: nat, ws: nat, std: real, ch: nat)
    requires std != 0.0 && ws >= 1 && ch < nc
    ensures IsDistribution(Flatten(GaussianWindow(exp, nc, ws, std)[ch][0]))
  {
    var g := GaussList(exp, ws, std);
    GaussListPositive(exp, ws, std);
    assert GaussianWindow(exp, nc, ws, std) == Replicate(nc, Outer(Normalize(g)));
    ReplicatedOuter(nc, g, ch);
  }
}
