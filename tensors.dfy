/** Four-dimensional real tensors laid out as (batch, channel, row, column),
    the element-wise operations the losses use, and the zero-padded 2-D
    cross-correlation that the tensor library calls a convolution. */
module Tensors {
  import opened Numerics

  type Plane<T> = seq<seq<T>>
  type Tensor<T> = seq<seq<Plane<T>>>

  datatype Shape = Shape(n: nat, c: nat, h: nat, w: nat)

  predicate IsPlane<T>(p: Plane<T>, h: nat, w: nat)
  {
    |p| == h && forall r :: 0 <= r < h ==> |p[r]| == w
  }

  predicate HasShape<T>(t: Tensor<T>, s: Shape)
  {
    |t| == s.n &&
    forall b :: 0 <= b < s.n ==>
      |t[b]| == s.c && forall ch :: 0 <= ch < s.c ==> IsPlane(t[b][ch], s.h, s.w)
  }

  /** The sizes read off the first element along each axis (a dimension
      behind an empty one reads as 0). */
  function ShapeOf<T>(t: Tensor<T>): Shape
  {
    if |t| == 0 then Shape(0, 0, 0, 0)
    else if |t[0]| == 0 then Shape(|t|, 0, 0, 0)
    else if |t[0][0]| == 0 then Shape(|t|, |t[0]|, 0, 0)
    else Shape(|t|, |t[0]|, |t[0][0]|, |t[0][0][0]|)
  }

  /** A well-formed tensor: every slice along every axis has the same size. */
  predicate Rect<T>(t: Tensor<T>)
  {
    HasShape(t, ShapeOf(t))
  }

  /** `size(1)` of a tensor. */
  function Channels<T>(t: Tensor<T>): nat
  {
    ShapeOf(t).c
  }

  predicate SameShape<T, U>(x: Tensor<T>, y: Tensor<U>)
  {
    Rect(x) && HasShape(y, ShapeOf(x))
  }

  /** A tensor with the shape of a well-formed tensor reads off the same
      shape and is itself well formed. */
  lemma CanonicalShape<T, U>(x: Tensor<T>, t: Tensor<U>)
    requires Rect(x) && HasShape(t, ShapeOf(x))
    ensures ShapeOf(t) == ShapeOf(x) && Rect(t)
  {
  }

  /** Element-wise combination of two tensors of one shape. */
  function Map2<A, B, C>(x: Tensor<A>, y: Tensor<B>, f: (A, B) -> C): (r: Tensor<C>)
    requires SameShape(x, y)
    ensures HasShape(r, ShapeOf(x))
    ensures forall b, ch, i, j :: 0 <= b < |x| && 0 <= ch < |x[b]| && 0 <= i < |x[b][ch]| && 0 <= j < |x[b][ch][i]| ==>
              r[b][ch][i][j] == f(x[b][ch][i][j], y[b][ch][i][j])
  {
    var s := ShapeOf(x);
    seq(s.n, b requires 0 <= b < s.n =>
      seq(s.c, ch requires 0 <= ch < s.c =>
        seq(s.h, i requires 0 <= i < s.h =>
          seq(s.w, j requires 0 <= j < s.w => f(x[b][ch][i][j], y[b][ch][i][j])))))
  }

  /** `x * y`, element by element. */
  function Mul(x: Tensor<real>, y: Tensor<real>): (r: Tensor<real>)
    requires SameShape(x, y)
    ensures HasShape(r, ShapeOf(x))
  {
    Map2(x, y, (a: real, b: real) => a * b)
  }

  /** Entry-wise combination of five tensors of one shape. */
  function Zip5<C>(s: Shape, t1: Tensor<real>, t2: Tensor<real>, t3: Tensor<real>, t4: Tensor<real>, t5: Tensor<real>,
                   f: (real, real, real, real, real) -> C): (r: Tensor<C>)
    requires HasShape(t1, s) && HasShape(t2, s) && HasShape(t3, s) && HasShape(t4, s) && HasShape(t5, s)
    ensures HasShape(r, s)
    ensures forall b, ch, i, j :: 0 <= b < s.n && 0 <= ch < s.c && 0 <= i < s.h && 0 <= j < s.w ==>
              r[b][ch][i][j] == f(t1[b][ch][i][j], t2[b][ch][i][j], t3[b][ch][i][j], t4[b][ch][i][j], t5[b][ch][i][j])
  {
    seq(s.n, b requires 0 <= b < s.n =>
      seq(s.c, ch requires 0 <= ch < s.c =>
        seq(s.h, i requires 0 <= i < s.h =>
          seq(s.w, j requires 0 <= j < s.w =>
            f(t1[b][ch][i][j], t2[b][ch][i][j], t3[b][ch][i][j], t4[b][ch][i][j], t5[b][ch][i][j])))))
  }

  /** The entry-wise product does not depend on the order of its operands. */
  lemma MulCommutes(x: Tensor<real>, y: Tensor<real>)
    requires SameShape(x, y)
    ensures SameShape(y, x) && Mul(x, y) == Mul(y, x)
  {
    CanonicalShape(x, y);
    TensorExt(Mul(x, y), Mul(y, x));
  }

  // ---------------------------------------------------------------------------
  // Flattening
  // ---------------------------------------------------------------------------

  function Flatten<T>(rows: seq<seq<T>>): seq<T>
  {
    if |rows| == 0 then [] else rows[0] + Flatten(rows[1..])
  }

  /** All the entries of a tensor in row-major order. */
  function Flat4<T>(t: Tensor<T>): seq<T>
  {
    Flatten(seq(|t|, b requires 0 <= b < |t| =>
      Flatten(seq(|t[b]|, ch requires 0 <= ch < |t[b]| => Flatten(t[b][ch])))))
  }

  lemma {:induction false} FlattenUniform<T>(rows: seq<seq<T>>, w: nat)
    requires forall i :: 0 <= i < |rows| ==> |rows[i]| == w
    ensures |Flatten(rows)| == |rows| * w
  {
    if |rows| > 0 {
      FlattenUniform(rows[1..], w);
      assert |rows| * w == w + (|rows| - 1) * w;
    }
  }

  /** Every entry of a flattening comes from one of its rows. */
  lemma {:induction false} FlattenMember<T>(rows: seq<seq<T>>, x: T) returns (i: nat)
    requires x in Flatten(rows)
    ensures i < |rows| && x in rows[i]
  {
    assert |rows| > 0;
    if x in rows[0] {
      i := 0;
    } else {
      var i' := FlattenMember(rows[1..], x);
      i := i' + 1;
    }
  }

  /** Every entry of every row appears in the flattening. */
  lemma {:induction false} FlattenContains<T>(rows: seq<seq<T>>, i: nat, x: T)
    requires i < |rows| && x in rows[i]
    ensures x in Flatten(rows)
  {
    if i > 0 {
      FlattenContains(rows[1..], i - 1, x);
    }
  }

  /** Every entry of Flat4(t) is an entry of t. */
  lemma Flat4Member<T>(t: Tensor<T>, x: T) returns (b: nat, ch: nat, i: nat, j: nat)
    requires x in Flat4(t)
    ensures b < |t| && ch < |t[b]| && i < |t[b][ch]| && j < |t[b][ch][i]| && t[b][ch][i][j] == x
  {
    var outer := seq(|t|, b requires 0 <= b < |t| =>
      Flatten(seq(|t[b]|, ch requires 0 <= ch < |t[b]| => Flatten(t[b][ch]))));
    b := FlattenMember(outer, x);
    ch := FlattenMember(seq(|t[b]|, ch requires 0 <= ch < |t[b]| => Flatten(t[b][ch])), x);
    i := FlattenMember(t[b][ch], x);
    j :| 0 <= j < |t[b][ch][i]| && t[b][ch][i][j] == x;
  }

  /** Every entry of t is an entry of Flat4(t). */
  lemma Flat4Contains<T>(t: Tensor<T>, b: nat, ch: nat, i: nat, j: nat)
    requires b < |t| && ch < |t[b]| && i < |t[b][ch]| && j < |t[b][ch][i]|
    ensures t[b][ch][i][j] in Flat4(t)
  {
    var x := t[b][ch][i][j];
    var mid := seq(|t[b]|, ch requires 0 <= ch < |t[b]| => Flatten(t[b][ch]));
    FlattenContains(t[b][ch], i, x);
    FlattenContains(mid, ch, x);
    FlattenContains(seq(|t|, b requires 0 <= b < |t| =>
      Flatten(seq(|t[b]|, ch requires 0 <= ch < |t[b]| => Flatten(t[b][ch])))), b, x);
  }

  /** Entry-wise equality over a common shape is equality. */
  lemma ShapedExt<T>(x: Tensor<T>, y: Tensor<T>, s: Shape)
    requires HasShape(x, s) && HasShape(y, s)
    requires forall b, ch, i, j :: 0 <= b < s.n && 0 <= ch < s.c && 0 <= i < s.h && 0 <= j < s.w ==>
               x[b][ch][i][j] == y[b][ch][i][j]
    ensures x == y
  {
    forall b | 0 <= b < s.n
      ensures x[b] == y[b]
    {
      forall ch | 0 <= ch < s.c
        ensures x[b][ch] == y[b][ch]
      {
        forall i | 0 <= i < s.h
          ensures x[b][ch][i] == y[b][ch][i]
        {
        }
      }
    }
  }

  /** The mean of a tensor of float scalars: when every finite entry lies in
      [lo, hi], so does a finite mean. */
  lemma MeanOfEntries(m: Tensor<Scalar>, s: Shape, lo: real, hi: real)
    requires HasShape(m, s)
    requires forall b, ch, i, j :: 0 <= b < s.n && 0 <= ch < s.c && 0 <= i < s.h && 0 <= j < s.w ==>
               (m[b][ch][i][j].Finite? ==> lo <= m[b][ch][i][j].value <= hi)
    ensures MeanScalars(Flat4(m)).Finite? ==> lo <= MeanScalars(Flat4(m)).value <= hi
  {
    var flat := Flat4(m);
    if k :| 0 <= k < |flat| && flat[k] == NonFinite {
      MeanScalarsNonFinite(flat, k);
    } else if |flat| > 0 {
      forall k | 0 <= k < |flat|
        ensures flat[k].Finite? && lo <= flat[k].value <= hi
      {
        var b, ch, i, j := Flat4Member(m, flat[k]);
      }
      MeanScalarsBounds(flat, lo, hi);
    }
  }

  /** A non-empty tensor whose entries are all finite and in [lo, hi] has a
      finite mean in [lo, hi]. */
  lemma MeanOfFiniteEntries(m: Tensor<Scalar>, s: Shape, lo: real, hi: real)
    requires HasShape(m, s) && s.n > 0 && s.c > 0 && s.h > 0 && s.w > 0
    requires forall b, ch, i, j :: 0 <= b < s.n && 0 <= ch < s.c && 0 <= i < s.h && 0 <= j < s.w ==>
               m[b][ch][i][j].Finite? && lo <= m[b][ch][i][j].value <= hi
    ensures MeanScalars(Flat4(m)).Finite? && lo <= MeanScalars(Flat4(m)).value <= hi
  {
    var flat := Flat4(m);
    Flat4Contains(m, 0, 0, 0, 0);
    forall k | 0 <= k < |flat|
      ensures flat[k].Finite? && lo <= flat[k].value <= hi
    {
      var b, ch, i, j := Flat4Member(m, flat[k]);
    }
    MeanScalarsBounds(flat, lo, hi);
  }

  /** Two planes whose rows pair up with equal lengths. */
  predicate SameRows(p: Plane<real>, q: Plane<real>)
  {
    |p| == |q| && forall a :: 0 <= a < |p| ==> |p[a]| == |q[a]|
  }

  /** Row-by-row entry-wise product. */
  function RowProd(p: Plane<real>, q: Plane<real>): (r: Plane<real>)
    requires SameRows(p, q)
    ensures SameRows(r, p)
  {
    seq(|p|, a requires 0 <= a < |p| => Prod(p[a], q[a]))
  }

  lemma ProdConcat(u1: seq<real>, u2: seq<real>, v1: seq<real>, v2: seq<real>)
    requires |u1| == |v1| && |u2| == |v2|
    ensures Prod(u1 + u2, v1 + v2) == Prod(u1, v1) + Prod(u2, v2)
  {
    forall k | 0 <= k < |u1| + |u2|
      ensures Prod(u1 + u2, v1 + v2)[k] == (Prod(u1, v1) + Prod(u2, v2))[k]
    {
      if k < |u1| {
        assert (u1 + u2)[k] == u1[k] && (v1 + v2)[k] == v1[k];
      } else {
        assert (u1 + u2)[k] == u2[k - |u1|] && (v1 + v2)[k] == v2[k - |u1|];
      }
    }
  }

  /** Flattening commutes with the entry-wise product. */
  lemma {:induction false} FlattenProd(p: Plane<real>, q: Plane<real>)
    requires SameRows(p, q)
    ensures |Flatten(p)| == |Flatten(q)|
    ensures Flatten(RowProd(p, q)) == Prod(Flatten(p), Flatten(q))
  {
    if |p| > 0 {
      FlattenProd(p[1..], q[1..]);
      assert RowProd(p, q)[1..] == RowProd(p[1..], q[1..]);
      ProdConcat(p[0], Flatten(p[1..]), q[0], Flatten(q[1..]));
    }
  }

  /** The sum of a flattening is the sum of the row sums. */
  lemma {:induction false} SumFlatten(rows: seq<seq<real>>)
    ensures Sum(Flatten(rows)) == Sum(seq(|rows|, i requires 0 <= i < |rows| => Sum(rows[i])))
  {
    if |rows| > 0 {
      SumFlatten(rows[1..]);
      SumConcat(rows[0], Flatten(rows[1..]));
      var sums := seq(|rows|, i requires 0 <= i < |rows| => Sum(rows[i]));
      assert sums[1..] == seq(|rows| - 1, i requires 0 <= i < |rows| - 1 => Sum(rows[1..][i]));
    }
  }

  /** Entry-wise equality of two tensors of one shape is equality. */
  lemma TensorExt<T>(x: Tensor<T>, y: Tensor<T>)
    requires SameShape(x, y)
    requires forall b, ch, i, j :: 0 <= b < |x| && 0 <= ch < |x[b]| && 0 <= i < |x[b][ch]| && 0 <= j < |x[b][ch][i]| ==>
               x[b][ch][i][j] == y[b][ch][i][j]
    ensures x == y
  {
    forall b | 0 <= b < |x|
      ensures x[b] == y[b]
    {
      forall ch | 0 <= ch < |x[b]|
        ensures x[b][ch] == y[b][ch]
      {
        forall i | 0 <= i < |x[b][ch]|
          ensures x[b][ch][i] == y[b][ch][i]
        {
        }
      }
    }
  }

  // ---------------------------------------------------------------------------
  // Zero-padded cross-correlation
  // ---------------------------------------------------------------------------

  /** A plane read with zero padding: positions outside it read as 0. */
  function PadAt(p: Plane<real>, i: int, j: int): real
  {
    if 0 <= i < |p| && 0 <= j < |p[i]| then p[i][j] else 0.0
  }

  /** The k-by-k patch of the padded plane whose top-left corner sits at
      output position (i, j). */
  function Patch(p: Plane<real>, i: int, j: int, k: nat, pad: nat): (r: Plane<real>)
    ensures IsPlane(r, k, k)
    ensures forall a, b :: 0 <= a < k && 0 <= b < k ==>
              if 0 <= i + a - pad < |p| && 0 <= j + b - pad < |p[i + a - pad]|
              then r[a][b] == p[i + a - pad][j + b - pad]
              else r[a][b] == 0.0
  {
    var r := seq(k, a => seq(k, b => PadAt(p, i + a - pad, j + b - pad)));
    assert forall a, b :: 0 <= a < k && 0 <= b < k ==> r[a][b] == PadAt(p, i + a - pad, j + b - pad);
    r
  }

  /** The output size of a correlation along one axis. */
  function OutSize(n: nat, k: nat, pad: nat): nat
    requires k <= n + 2 * pad
  {
    n + 2 * pad + 1 - k
  }

  /** Sum of kernel[a][b] * padded[i + a][j + b], the value of one output
      position. */
  function Window(kernel: Plane<real>, p: Plane<real>, i: int, j: int, k: nat, pad: nat): real
    requires IsPlane(kernel, k, k)
  {
    FlattenUniform(kernel, k);
    FlattenUniform(Patch(p, i, j, k, pad), k);
    Dot(Flatten(kernel), Flatten(Patch(p, i, j, k, pad)))
  }

  /** A kernel whose weights form a distribution keeps the window's value
      within the bounds of the patch it reads. */
  lemma WindowBounds(kernel: Plane<real>, p: Plane<real>, i: int, j: int, k: nat, pad: nat, lo: real, hi: real)
    requires IsPlane(kernel, k, k) && IsDistribution(Flatten(kernel))
    requires forall a, b :: 0 <= a < k && 0 <= b < k ==> lo <= Patch(p, i, j, k, pad)[a][b] <= hi
    ensures lo <= Window(kernel, p, i, j, k, pad) <= hi
  {
    var w, q := Flatten(kernel), Patch(p, i, j, k, pad);
    FlattenUniform(kernel, k);
    FlattenUniform(q, k);
    forall t | 0 <= t < |Flatten(q)|
      ensures lo <= Flatten(q)[t] <= hi
    {
      var a := FlattenMember(q, Flatten(q)[t]);
      var b :| 0 <= b < |q[a]| && q[a][b] == Flatten(q)[t];
    }
    DotBounds(w, Flatten(q), lo, hi);
  }

  /** One channel: the cross-correlation of an h-by-w plane with a k-by-k
      kernel under zero padding pad. */
  function Correlate(p: Plane<real>, h: nat, w: nat, kernel: Plane<real>, k: nat, pad: nat): (r: Plane<real>)
    requires IsPlane(kernel, k, k)
    requires k <= h + 2 * pad && k <= w + 2 * pad
    ensures IsPlane(r, OutSize(h, k, pad), OutSize(w, k, pad))
  {
    seq(OutSize(h, k, pad), i =>
      seq(OutSize(w, k, pad), j => Window(kernel, p, i, j, k, pad)))
  }

  /** A depthwise weight of shape (c, 1, k, k). */
  predicate IsDepthwise(weight: Tensor<real>, c: nat, k: nat)
  {
    HasShape(weight, Shape(c, 1, k, k))
  }

  /** Whether a depthwise correlation with k-by-k kernels and padding pad
      accepts the tensor x: one kernel per channel and planes at least as
      large as the kernel once padded. */
  predicate ConvFits(x: Tensor<real>, weight: Tensor<real>, k: nat, pad: nat)
  {
    Rect(x) && IsDepthwise(weight, Channels(x), k) &&
    k <= ShapeOf(x).h + 2 * pad && k <= ShapeOf(x).w + 2 * pad
  }

  /** The grouped convolution with groups equal to the channel count: every
      channel of every batch element is correlated with its own kernel. */
  function Conv(x: Tensor<real>, weight: Tensor<real>, k: nat, pad: nat): (r: Tensor<real>)
    requires ConvFits(x, weight, k, pad)
    ensures var s := ShapeOf(x);
            HasShape(r, Shape(s.n, s.c, OutSize(s.h, k, pad), OutSize(s.w, k, pad)))
  {
    var s := ShapeOf(x);
    seq(s.n, b requires 0 <= b < s.n =>
      seq(s.c, ch requires 0 <= ch < s.c =>
        Correlate(x[b][ch], s.h, s.w, weight[ch][0], k, pad)))
  }

  /** With an odd kernel size and padding k/2 the output keeps the input's
      height and width. */
  lemma SamePadding(x: Tensor<real>, weight: Tensor<real>, k: nat)
    requires k % 2 == 1 && ConvFits(x, weight, k, k / 2)
    ensures HasShape(Conv(x, weight, k, k / 2), ShapeOf(x))
  {
  }

  /** Every output entry is the kernel-weighted sum of its input patch. */
  lemma ConvEntry(x: Tensor<real>, weight: Tensor<real>, k: nat, pad: nat, b: nat, ch: nat, i: nat, j: nat)
    requires ConvFits(x, weight, k, pad)
    requires b < ShapeOf(x).n && ch < ShapeOf(x).c
    requires i < OutSize(ShapeOf(x).h, k, pad) && j < OutSize(ShapeOf(x).w, k, pad)
    ensures Conv(x, weight, k, pad)[b][ch][i][j] == Window(weight[ch][0], x[b][ch], i, j, k, pad)
  {
  }

  /** The patch of x * y is the entry-wise product of the patches. */
  lemma PatchOfProduct(x: Tensor<real>, y: Tensor<real>, b: nat, ch: nat, i: int, j: int, k: nat, pad: nat)
    requires SameShape(x, y) && b < |x| && ch < |x[b]|
    ensures Patch(Mul(x, y)[b][ch], i, j, k, pad) == RowProd(Patch(x[b][ch], i, j, k, pad), Patch(y[b][ch], i, j, k, pad))
  {
    var p, q, m := x[b][ch], y[b][ch], Mul(x, y)[b][ch];
    var px, py := Patch(p, i, j, k, pad), Patch(q, i, j, k, pad);
    forall a | 0 <= a < k
      ensures Patch(m, i, j, k, pad)[a] == RowProd(px, py)[a]
    {
      forall c | 0 <= c < k
        ensures Patch(m, i, j, k, pad)[a][c] == RowProd(px, py)[a][c]
      {
        var r, t := i + a - pad, j + c - pad;
        assert PadAt(m, r, t) == PadAt(p, r, t) * PadAt(q, r, t);
        assert RowProd(px, py)[a][c] == px[a][c] * py[a][c];
      }
    }
  }
}
