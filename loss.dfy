/** The loss selector of ConvAE/src/loss.cpp: a name chooses one of three
    criteria, and the call operator dispatches on that choice. The SSIM
    criterion lives in a function-local static, built on the first SSIM call
    and shared by every later call. */
module Losses {
  import opened Numerics
  import opened Tensors
  import opened GaussWindow
  import opened Ssim

  // ---------------------------------------------------------------------------
  // Selection
  // ---------------------------------------------------------------------------

  /** A constructed selector: flag 0 is the mean absolute error, flag 1 the
      mean squared error, anything else the SSIM criterion. */
  datatype Loss = Loss(flag: nat)

  /** The constructor: "l1", "l2" and "ssim" give flags 0, 1 and 2; any
      other name ends the program, so no selector exists for it. */
  function Select(name: string): (r: Option<Loss>)
    ensures r == Some(Loss(0)) <==> name == "l1"
    ensures r == Some(Loss(1)) <==> name == "l2"
    ensures r == Some(Loss(2)) <==> name == "ssim"
    ensures r.None? <==> name != "l1" && name != "l2" && name != "ssim"
  {
    if name == "l1" then Some(Loss(0))
    else if name == "l2" then Some(Loss(1))
    else if name == "ssim" then Some(Loss(2))
    else None
  }

  /** The name each constructed flag was chosen by. */
  function Name(loss: Loss): string
    requires loss.flag <= 2
  {
    if loss.flag == 0 then "l1" else if loss.flag == 1 then "l2" else "ssim"
  }

  /** Select and Name are inverse: every constructed selector comes from
      exactly one name. */
  lemma SelectName(name: string, loss: Loss)
    ensures Select(name) == Some(loss) <==> loss.flag <= 2 && Name(loss) == name
  {
  }

  /** Different accepted names give different criteria. */
  lemma SelectInjective(a: string, b: string)
    requires Select(a).Some? && Select(a) == Select(b)
    ensures a == b
  {
    SelectName(a, Select(a).value);
    SelectName(b, Select(b).value);
  }

  // ---------------------------------------------------------------------------
  // The element-wise criteria
  // ---------------------------------------------------------------------------

  function AbsDiff(a: real, b: real): real
  {
    Abs(a - b)
  }

  function SquaredDiff(a: real, b: real): real
  {
    (a - b) * (a - b)
  }

  /** The mean of |input - target| over all entries; an empty tensor has a
      NaN mean, and tensors of different shapes are an error. */
  function MeanAbsolute(input: Tensor<real>, target: Tensor<real>): (r: Outcome)
    ensures r.ShapeError? <==> !SameShape(input, target)
    ensures r.Value? ==> (r.s.Finite? <==> |Flat4(input)| > 0)
  {
    if SameShape(input, target) then
      NonemptyMap(input, target, AbsDiff);
      Value(Mean(Flat4(Map2(input, target, AbsDiff))))
    else ShapeError
  }

  /** The mean of (input - target)^2 over all entries. */
  function MeanSquared(input: Tensor<real>, target: Tensor<real>): (r: Outcome)
    ensures r.ShapeError? <==> !SameShape(input, target)
    ensures r.Value? ==> (r.s.Finite? <==> |Flat4(input)| > 0)
  {
    if SameShape(input, target) then
      NonemptyMap(input, target, SquaredDiff);
      Value(Mean(Flat4(Map2(input, target, SquaredDiff))))
    else ShapeError
  }

  /** The entry-wise differences of two tensors of one shape are all zero
      exactly when the tensors are equal. */
  lemma ZeroDifferences(input: Tensor<real>, target: Tensor<real>, f: (real, real) -> real)
    requires SameShape(input, target)
    requires forall a, b :: f(a, b) >= 0.0 && (f(a, b) == 0.0 <==> a == b)
    ensures forall k :: 0 <= k < |Flat4(Map2(input, target, f))| ==> Flat4(Map2(input, target, f))[k] >= 0.0
    ensures Sum(Flat4(Map2(input, target, f))) >= 0.0
    ensures Sum(Flat4(Map2(input, target, f))) == 0.0 <==> input == target
  {
    var m := Map2(input, target, f);
    var flat := Flat4(m);
    CanonicalShape(input, target);
    forall k | 0 <= k < |flat|
      ensures flat[k] >= 0.0
    {
      var b, ch, i, j := Flat4Member(m, flat[k]);
      MapEntry(input, target, f, b, ch, i, j);
      var x, y := input[b][ch][i][j], target[b][ch][i][j];
      assert m[b][ch][i][j] == f(x, y);
      assert f(x, y) >= 0.0;
    }
    SumNonnegative(flat);
    SumZeroIffAllZero(flat);
    if Sum(flat) == 0.0 {
      forall b, ch, i, j | 0 <= b < |input| && 0 <= ch < |input[b]| && 0 <= i < |input[b][ch]| && 0 <= j < |input[b][ch][i]|
        ensures input[b][ch][i][j] == target[b][ch][i][j]
      {
        Flat4Contains(m, b, ch, i, j);
        var k :| 0 <= k < |flat| && flat[k] == m[b][ch][i][j];
      }
      TensorExt(input, target);
    }
    if input == target {
      forall k | 0 <= k < |flat|
        ensures flat[k] == 0.0
      {
        var b, ch, i, j := Flat4Member(m, flat[k]);
        MapEntry(input, target, f, b, ch, i, j);
        var x := input[b][ch][i][j];
        assert m[b][ch][i][j] == f(x, x);
        assert f(x, x) == 0.0;
      }
    }
  }

  /** An entry of the map, located by its position in the map. */
  lemma MapEntry(input: Tensor<real>, target: Tensor<real>, f: (real, real) -> real, b: nat, ch: nat, i: nat, j: nat)
    requires SameShape(input, target)
    requires var m := Map2(input, target, f);
             b < |m| && ch < |m[b]| && i < |m[b][ch]| && j < |m[b][ch][i]|
    ensures b < |input| && ch < |input[b]| && i < |input[b][ch]| && j < |input[b][ch][i]|
    ensures Map2(input, target, f)[b][ch][i][j] == f(input[b][ch][i][j], target[b][ch][i][j])
  {
  }

  /** A finite mean of non-negative entries is non-negative, and it is zero
      exactly when their sum is. */
  lemma MeanOfNonnegative(s: seq<real>)
    requires Sum(s) >= 0.0 && |s| > 0
    ensures Mean(s).Finite? && Mean(s).value >= 0.0
    ensures Mean(s).value == 0.0 <==> Sum(s) == 0.0
  {
  }

  /** The mean absolute error of two non-empty tensors of one shape is a
      finite non-negative number, zero exactly when they are equal. */
  lemma MeanAbsoluteZero(input: Tensor<real>, target: Tensor<real>)
    requires SameShape(input, target) && |Flat4(input)| > 0
    ensures MeanAbsolute(input, target).Value? && MeanAbsolute(input, target).s.Finite?
    ensures MeanAbsolute(input, target).s.value >= 0.0
    ensures MeanAbsolute(input, target).s.value == 0.0 <==> input == target
  {
    NonemptyMap(input, target, AbsDiff);
    ZeroDifferences(input, target, AbsDiff);
    MeanOfNonnegative(Flat4(Map2(input, target, AbsDiff)));
  }

  /** The mean squared error of two non-empty tensors of one shape is a
      finite non-negative number, zero exactly when they are equal. */
  lemma MeanSquaredZero(input: Tensor<real>, target: Tensor<real>)
    requires SameShape(input, target) && |Flat4(input)| > 0
    ensures MeanSquared(input, target).Value? && MeanSquared(input, target).s.Finite?
    ensures MeanSquared(input, target).s.value >= 0.0
    ensures MeanSquared(input, target).s.value == 0.0 <==> input == target
  {
    forall a: real, b: real
      ensures SquaredDiff(a, b) >= 0.0 && (SquaredDiff(a, b) == 0.0 <==> a == b)
    {
      SquaredDiffZero(a, b);
    }
    NonemptyMap(input, target, SquaredDiff);
    ZeroDifferences(input, target, SquaredDiff);
    MeanOfNonnegative(Flat4(Map2(input, target, SquaredDiff)));
  }

  lemma SquaredDiffZero(a: real, b: real)
    ensures SquaredDiff(a, b) >= 0.0 && (SquaredDiff(a, b) == 0.0 <==> a == b)
  {
    var d := a - b;
    if d < 0.0 {
      assert d * d == (-d) * (-d);
    }
    if d != 0.0 {
      assert Square(d) > 0.0;
    }
  }

  /** An entry-wise map has entries exactly when its arguments do. */
  lemma NonemptyMap(input: Tensor<real>, target: Tensor<real>, f: (real, real) -> real)
    requires SameShape(input, target)
    ensures |Flat4(Map2(input, target, f))| > 0 <==> |Flat4(input)| > 0
  {
    var m := Map2(input, target, f);
    if |Flat4(input)| > 0 {
      var b, ch, i, j := Flat4Member(input, Flat4(input)[0]);
      Flat4Contains(m, b, ch, i, j);
    }
    if |Flat4(m)| > 0 {
      var b, ch, i, j := Flat4Member(m, Flat4(m)[0]);
      MapEntry(input, target, f, b, ch, i, j);
      Flat4Contains(input, b, ch, i, j);
    }
  }

  // ---------------------------------------------------------------------------
  // Dispatch and the static criteria
  // ---------------------------------------------------------------------------

  /** The function-local statics of the call operator. The two element-wise
      criteria hold no parameters, so only the SSIM criterion is state: it
      is absent until the first SSIM call builds it. The statics are shared
      by every selector of the program. */
  class Criteria {
    const exp: ExpFn
    var ssim: Option<SSIMLoss>

    ghost predicate Valid()
      reads this
    {
      ssim.Some? ==> ssim.value.Valid() && ssim.value.exp == exp
    }

    constructor (exp: ExpFn)
      ensures this.exp == exp && ssim.None? && Valid()
    {
      this.exp := exp;
      ssim := None;
    }

    /** The call operator. Flags 0 and 1 compute the element-wise means and
        leave the statics alone; any other flag uses the SSIM criterion,
        building it, with the default parameters and the channel count of
        this input, when it does not exist yet. */
    method Call(loss: Loss, input: Tensor<real>, target: Tensor<real>) returns (r: Outcome)
      requires Valid()
      modifies this
      ensures Valid()
      ensures loss.flag == 0 ==> r == MeanAbsolute(input, target) && ssim == old(ssim)
      ensures loss.flag == 1 ==> r == MeanSquared(input, target) && ssim == old(ssim)
      ensures loss.flag >= 2 && old(ssim).Some? ==> ssim == old(ssim)
      ensures loss.flag >= 2 && old(ssim).None? ==>
                ssim.Some? && fresh(ssim.value) && ssim.value.nc == Channels(input) &&
                ssim.value.windowSize == 11 && ssim.value.gaussStd == 1.5 &&
                ssim.value.c1Base == 0.01 && ssim.value.c2Base == 0.03
      ensures loss.flag >= 2 ==> ssim.Some? && r == ssim.value.Apply(input, target)
    {
      if loss.flag == 0 {
        r := MeanAbsolute(input, target);
      } else if loss.flag == 1 {
        r := MeanSquared(input, target);
      } else {
        if ssim.None? {
          var criterion := new SSIMLoss(exp, Channels(input));
          ssim := Some(criterion);
        }
        r := ssim.value.Apply(input, target);
      }
    }
  }

  /** Once built, the SSIM criterion keeps the channel count of the first
      call: a later input with another channel count is a runtime error,
      even when it alone would have been accepted. */
  lemma StaticKeepsChannels(criterion: SSIMLoss, input: Tensor<real>, target: Tensor<real>)
    requires criterion.Valid() && Channels(input) != criterion.nc
    ensures criterion.Apply(input, target) == ShapeError
  {
  }
}
