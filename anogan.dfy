/** Anomaly scoring of Anomaly_Detection/AnoGAN2d/src/test.cpp: for every
    test image the latent vector z is moved by a fixed number of optimizer
    steps towards a generated image that resembles it, then the final
    generated image is scored against the real one; the per-image scores
    are logged and averaged. The networks and the optimizer's update rule
    are opaque functions. */
module AnoGan {
  import opened Numerics

  type Image = seq<real>
  type Latent = seq<real>

  // ---------------------------------------------------------------------------
  // The anomaly score
  // ---------------------------------------------------------------------------

  /** The sum of |u[k] - v[k]| over all entries. */
  function AbsDiffSum(u: seq<real>, v: seq<real>): (r: real)
    requires |u| == |v|
    ensures r >= 0.0
  {
    if |u| == 0 then 0.0 else Abs(u[0] - v[0]) + AbsDiffSum(u[1..], v[1..])
  }

  /** The sum of absolute differences is zero exactly for equal inputs. */
  lemma {:induction false} AbsDiffSumZero(u: seq<real>, v: seq<real>)
    requires |u| == |v|
    ensures AbsDiffSum(u, v) == 0.0 <==> u == v
  {
    if |u| > 0 {
      AbsDiffSumZero(u[1..], v[1..]);
      assert u == [u[0]] + u[1..] && v == [v[0]] + v[1..];
    }
  }

  /** The three values the scorer returns. */
  datatype Scores = Scores(score: real, res: real, dis: real)

  /** The residual loss is the distance between the image and the generated
      one, the discrimination loss the distance between their discriminator
      features, and the score mixes the two with weight lambda on the
      second. */
  function AnomalyScore(image: Image, fake: Image, disNet: (seq<real>, Image) -> seq<real>, disWeights: seq<real>,
                        lambda: real): (r: Scores)
    requires |image| == |fake| && |disNet(disWeights, image)| == |disNet(disWeights, fake)|
    ensures r.res >= 0.0 && r.dis >= 0.0
  {
    var res := AbsDiffSum(image, fake);
    var dis := AbsDiffSum(disNet(disWeights, image), disNet(disWeights, fake));
    Scores((1.0 - lambda) * res + lambda * dis, res, dis)
  }

  /** Weight 0 scores by the residual loss alone, weight 1 by the
      discrimination loss alone. */
  lemma ScoreAtEndpoints(image: Image, fake: Image, disNet: (seq<real>, Image) -> seq<real>, disWeights: seq<real>)
    requires |image| == |fake| && |disNet(disWeights, image)| == |disNet(disWeights, fake)|
    ensures AnomalyScore(image, fake, disNet, disWeights, 0.0).score == AnomalyScore(image, fake, disNet, disWeights, 0.0).res
    ensures AnomalyScore(image, fake, disNet, disWeights, 1.0).score == AnomalyScore(image, fake, disNet, disWeights, 1.0).dis
  {
  }

  /** A generated image equal to the real one has residual, discrimination
      and total score 0; the residual loss is 0 only then. */
  lemma PerfectFake(image: Image, fake: Image, disNet: (seq<real>, Image) -> seq<real>, disWeights: seq<real>, lambda: real)
    requires |image| == |fake| && |disNet(disWeights, image)| == |disNet(disWeights, fake)|
    ensures AnomalyScore(image, fake, disNet, disWeights, lambda).res == 0.0 <==> fake == image
    ensures fake == image ==> AnomalyScore(image, fake, disNet, disWeights, lambda) == Scores(0.0, 0.0, 0.0)
  {
    AbsDiffSumZero(image, fake);
    AbsDiffSumZero(disNet(disWeights, image), disNet(disWeights, fake));
  }

  /** For a weight in [0, 1] the score lies between the two losses. */
  lemma ScoreBetween(image: Image, fake: Image, disNet: (seq<real>, Image) -> seq<real>, disWeights: seq<real>, lambda: real)
    requires |image| == |fake| && |disNet(disWeights, image)| == |disNet(disWeights, fake)|
    requires 0.0 <= lambda <= 1.0
    ensures var r := AnomalyScore(image, fake, disNet, disWeights, lambda);
            Min(r.res, r.dis) <= r.score <= Max(r.res, r.dis)
  {
    var r := AnomalyScore(image, fake, disNet, disWeights, lambda);
    MixBetween(lambda, r.res, r.dis);
  }

  function Min(a: real, b: real): real
  {
    if a <= b then a else b
  }

  function Max(a: real, b: real): real
  {
    if a <= b then b else a
  }

  lemma MixBetween(t: real, a: real, b: real)
    requires 0.0 <= t <= 1.0
    ensures Min(a, b) <= (1.0 - t) * a + t * b <= Max(a, b)
  {
    assert (1.0 - t) * a + t * b == a + t * (b - a);
    assert (1.0 - t) * a + t * b == b - (1.0 - t) * (b - a);
    if a <= b {
      ProductSign(t, b - a);
      ProductSign(1.0 - t, b - a);
    } else {
      ProductSign(t, a - b);
      ProductSign(1.0 - t, a - b);
      assert t * (b - a) == -(t * (a - b)) && (1.0 - t) * (b - a) == -((1.0 - t) * (a - b));
    }
  }

  // ---------------------------------------------------------------------------
  // The latent search
  // ---------------------------------------------------------------------------

  /** The optimizer's state for z: its moment estimates and how many steps it
      has taken. */
  datatype Optimizer = Optimizer(moments: seq<real>, steps: nat)

  datatype Search = Search(z: Latent, opt: Optimizer)

  /** One optimizer step's update: from the image being fitted, z, the
      moment estimates and the number of the step, the new z and estimates.
      It stands for the forward pass, the score, zero_grad, backward and the
      update rule together. */
  type UpdateRule = (Image, Latent, seq<real>, nat) -> (Latent, seq<real>)

  /** z as drawn, and an optimizer that has not stepped. */
  function InitialSearch(z0: Latent): (r: Search)
    ensures r.z == z0 && r.opt.steps == 0 && r.opt.moments == []
  {
    Search(z0, Optimizer([], 0))
  }

  function Step(rule: UpdateRule, image: Image, s: Search): (r: Search)
    ensures r.opt.steps == s.opt.steps + 1
  {
    var t := s.opt.steps + 1;
    var (z, moments) := rule(image, s.z, s.opt.moments, t);
    Search(z, Optimizer(moments, t))
  }

  /** n optimizer steps fitting one image. */
  function Descend(rule: UpdateRule, image: Image, s: Search, n: nat): (r: Search)
    ensures r.opt.steps == s.opt.steps + n
  {
    if n == 0 then s else Step(rule, image, Descend(rule, image, s, n - 1))
  }

  /** What the test is given: the mixing weight, the number of steps per
      image, the update rule, the images with their names, the time each
      image took and the initial latent vector. */
  datatype Setup = Setup(lambda: real, searchEpoch: nat, rule: UpdateRule,
                         dataset: seq<Image>, names: seq<string>, seconds: seq<real>, z0: Latent)

  /** The two networks as functions of their weights. */
  datatype Nets = Nets(genNet: (seq<real>, Latent) -> Image, genWeights: seq<real>,
                       disNet: (seq<real>, Image) -> seq<real>, disWeights: seq<real>)

  /** One name and one time per image; generated images have the size of
      the real ones, and images of one size have features of one size. */
  ghost predicate WellFormed(nets: Nets, setup: Setup)
  {
    |setup.names| == |setup.dataset| && |setup.seconds| == |setup.dataset| &&
    (forall k, z :: 0 <= k < |setup.dataset| ==> |nets.genNet(nets.genWeights, z)| == |setup.dataset[k]|) &&
    (forall x, y :: |x| == |y| ==> |nets.disNet(nets.disWeights, x)| == |nets.disNet(nets.disWeights, y)|)
  }

  /** The search state when image k is reached: z and the optimizer are
      created once, so every image continues from where the previous one
      stopped, and the optimizer has taken k * searchEpoch steps. */
  function StateBefore(setup: Setup, k: nat): (r: Search)
    requires k <= |setup.dataset|
    ensures r.opt.steps == k * setup.searchEpoch
  {
    if k == 0 then InitialSearch(setup.z0)
    else
      var prev := StateBefore(setup, k - 1);
      assert (k - 1) * setup.searchEpoch + setup.searchEpoch == k * setup.searchEpoch;
      Descend(setup.rule, setup.dataset[k - 1], prev, setup.searchEpoch)
  }

  /** The search state at which image k is scored. */
  function StateAfter(setup: Setup, k: nat): (r: Search)
    requires k < |setup.dataset|
    ensures r.opt.steps == (k + 1) * setup.searchEpoch
    ensures r == StateBefore(setup, k + 1)
  {
    Descend(setup.rule, setup.dataset[k], StateBefore(setup, k), setup.searchEpoch)
  }

  /** The scores of image k: the generator's image at the searched z,
      against the real one. */
  function SampleScores(nets: Nets, setup: Setup, k: nat): (r: Scores)
    requires WellFormed(nets, setup) && k < |setup.dataset|
    ensures r.res >= 0.0 && r.dis >= 0.0
    ensures r.res == 0.0 <==> nets.genNet(nets.genWeights, StateAfter(setup, k).z) == setup.dataset[k]
  {
    var image := setup.dataset[k];
    var fake := nets.genNet(nets.genWeights, StateAfter(setup, k).z);
    PerfectFake(image, fake, nets.disNet, nets.disWeights, setup.lambda);
    AnomalyScore(image, fake, nets.disNet, nets.disWeights, setup.lambda)
  }

  /** With no search steps z never moves: every image is compared against
      the image generated from the initial z. */
  lemma {:induction false} NoSearch(setup: Setup, k: nat)
    requires setup.searchEpoch == 0 && k <= |setup.dataset|
    ensures StateBefore(setup, k) == InitialSearch(setup.z0)
  {
    if k > 0 {
      NoSearch(setup, k - 1);
    }
  }

  // ---------------------------------------------------------------------------
  // The report
  // ---------------------------------------------------------------------------

  /** One line of the loss log: the image's name, its three values and the
      time accumulated so far. */
  datatype LogLine = LogLine(name: string, score: real, res: real, dis: real, time: real)

  /** The four reported averages. */
  datatype Averages = Averages(score: Scalar, res: Scalar, dis: Scalar, time: Scalar)

  lemma AverageExample()
    ensures Mean([1.0, 2.0, 3.0]) == Finite(2.0)
  {
    assert Sum([1.0, 2.0, 3.0]) == 6.0 by {
      assert [1.0, 2.0, 3.0][1..] == [2.0, 3.0];
      assert [2.0, 3.0][1..] == [3.0];
    }
  }

  /** An average of values in [lo, hi] lies in [lo, hi]. */
  lemma AverageBounds(values: seq<real>, lo: real, hi: real)
    requires |values| > 0 && forall k :: 0 <= k < |values| ==> lo <= values[k] <= hi
    ensures Mean(values).Finite? && lo <= Mean(values).value <= hi
  {
    SumBounds(values, lo, hi);
    var q := DivideBounds(Sum(values), |values| as real, lo, hi);
  }

  function ScoreColumn(s: seq<Scores>): (r: seq<real>)
    ensures |r| == |s|
  {
    seq(|s|, k requires 0 <= k < |s| => s[k].score)
  }

  function ResColumn(s: seq<Scores>): (r: seq<real>)
    ensures |r| == |s|
  {
    seq(|s|, k requires 0 <= k < |s| => s[k].res)
  }

  function DisColumn(s: seq<Scores>): (r: seq<real>)
    ensures |r| == |s|
  {
    seq(|s|, k requires 0 <= k < |s| => s[k].dis)
  }

  /** The scores of the first n images. */
  function SamplesUpTo(nets: Nets, setup: Setup, n: nat): (r: seq<Scores>)
    requires WellFormed(nets, setup) && n <= |setup.dataset|
    ensures |r| == n
  {
    seq(n, k requires 0 <= k < n => SampleScores(nets, setup, k))
  }

  /** The log lines of the first n images. */
  function LogUpTo(nets: Nets, setup: Setup, n: nat): (r: seq<LogLine>)
    requires WellFormed(nets, setup) && n <= |setup.dataset|
    ensures |r| == n
    ensures forall k :: 0 <= k < n ==> r[k].name == setup.names[k] && r[k].res >= 0.0 && r[k].dis >= 0.0
  {
    seq(n, k requires 0 <= k < n =>
      var sc := SampleScores(nets, setup, k);
      LogLine(setup.names[k], sc.score, sc.res, sc.dis, Sum(setup.seconds[..k + 1])))
  }

  /** The averages over the whole dataset. */
  function Report(nets: Nets, setup: Setup): (r: Averages)
    requires WellFormed(nets, setup)
    ensures r.score.Finite? <==> |setup.dataset| > 0
    ensures r.res.Finite? <==> |setup.dataset| > 0
    ensures r.dis.Finite? <==> |setup.dataset| > 0
    ensures r.time.Finite? <==> |setup.dataset| > 0
  {
    var all := SamplesUpTo(nets, setup, |setup.dataset|);
    Averages(Mean(ScoreColumn(all)), Mean(ResColumn(all)), Mean(DisColumn(all)), Mean(setup.seconds))
  }

  /** The time on a log line is the running total: each line adds that
      image's time to the previous line's. */
  lemma LogTimeAccumulates(nets: Nets, setup: Setup, k: nat)
    requires WellFormed(nets, setup) && 0 < k < |setup.dataset|
    ensures LogUpTo(nets, setup, |setup.dataset|)[k].time ==
            LogUpTo(nets, setup, |setup.dataset|)[k - 1].time + setup.seconds[k]
  {
    assert setup.seconds[..k + 1] == setup.seconds[..k] + [setup.seconds[k]];
    SumAppend(setup.seconds[..k], setup.seconds[k]);
  }

  /** The residual and discrimination averages are never negative, and the
      score average lies between the smallest and the largest score. */
  lemma ReportBounds(nets: Nets, setup: Setup, lo: real, hi: real)
    requires WellFormed(nets, setup) && |setup.dataset| > 0
    requires forall k :: 0 <= k < |setup.dataset| ==> lo <= SampleScores(nets, setup, k).score <= hi
    ensures Report(nets, setup).score.Finite? && lo <= Report(nets, setup).score.value <= hi
    ensures Report(nets, setup).res.Finite? && Report(nets, setup).res.value >= 0.0
    ensures Report(nets, setup).dis.Finite? && Report(nets, setup).dis.value >= 0.0
  {
    var all := SamplesUpTo(nets, setup, |setup.dataset|);
    AverageBounds(ScoreColumn(all), lo, hi);
    var rmax := MaxOf(ResColumn(all));
    AverageBounds(ResColumn(all), 0.0, rmax);
    var dmax := MaxOf(DisColumn(all));
    AverageBounds(DisColumn(all), 0.0, dmax);
  }

  /** An upper bound of a list of non-negative values. */
  lemma {:induction false} MaxOf(s: seq<real>) returns (m: real)
    requires forall k :: 0 <= k < |s| ==> s[k] >= 0.0
    ensures m >= 0.0 && forall k :: 0 <= k < |s| ==> s[k] <= m
  {
    if |s| == 0 {
      m := 0.0;
    } else {
      var rest := MaxOf(s[1..]);
      m := if s[0] <= rest then rest else s[0];
      assert forall k :: 1 <= k < |s| ==> s[k] == s[1..][k - 1];
    }
  }

  // ---------------------------------------------------------------------------
  // The networks and the test loop
  // ---------------------------------------------------------------------------

  /** A network: a fixed architecture applied with mutable weights, and the
      training/evaluation switch. */
  class Generator {
    const net: (seq<real>, Latent) -> Image
    var weights: seq<real>
    var training: bool

    constructor (net: (seq<real>, Latent) -> Image, weights: seq<real>)
      ensures this.net == net && this.weights == weights && training
    {
      this.net := net;
      this.weights := weights;
      training := true;
    }

    method Eval()
      modifies this`training
      ensures !training
    {
      training := false;
    }
  }

  class Discriminator {
    const net: (seq<real>, Image) -> seq<real>
    var weights: seq<real>
    var training: bool

    constructor (net: (seq<real>, Image) -> seq<real>, weights: seq<real>)
      ensures this.net == net && this.weights == weights && training
    {
      this.net := net;
      this.weights := weights;
      training := true;
    }

    method Eval()
      modifies this`training
      ensures !training
    {
      training := false;
    }
  }

  /** The test: both networks are switched to evaluation mode; for every
      image, searchEpoch optimizer steps move z, the image generated from the
      final z is scored, the values and the time are added to the running
      totals and a log line is written; finally the totals are divided by
      the number of images. Only z is optimised: the networks' weights are
      left as they were. */
  method Test(gen: Generator, dis: Discriminator, setup: Setup) returns (log: seq<LogLine>, ave: Averages)
    requires WellFormed(Nets(gen.net, gen.weights, dis.net, dis.weights), setup)
    modifies gen`training, dis`training
    ensures !gen.training && !dis.training
    ensures gen.weights == old(gen.weights) && dis.weights == old(dis.weights)
    ensures log == LogUpTo(Nets(gen.net, gen.weights, dis.net, dis.weights), setup, |setup.dataset|)
    ensures ave == Report(Nets(gen.net, gen.weights, dis.net, dis.weights), setup)
  {
    ghost var nets := Nets(gen.net, gen.weights, dis.net, dis.weights);
    var aveScore, aveRes, aveDis, aveTime := 0.0, 0.0, 0.0, 0.0;
    var state := InitialSearch(setup.z0);
    gen.Eval();
    dis.Eval();
    log := [];
    var n := 0;
    while n < |setup.dataset|
      invariant 0 <= n <= |setup.dataset|
      invariant state == StateBefore(setup, n)
      invariant aveScore == Sum(ScoreColumn(SamplesUpTo(nets, setup, n)))
      invariant aveRes == Sum(ResColumn(SamplesUpTo(nets, setup, n)))
      invariant aveDis == Sum(DisColumn(SamplesUpTo(nets, setup, n)))
      invariant aveTime == Sum(setup.seconds[..n])
      invariant log == LogUpTo(nets, setup, n)
      invariant !gen.training && !dis.training
    {
      var image := setup.dataset[n];
      state := SearchLatent(setup.rule, image, state, setup.searchEpoch);
      var output := gen.net(gen.weights, state.z);
      var scores := AnomalyScore(image, output, dis.net, dis.weights, setup.lambda);
      assert scores == SampleScores(nets, setup, n);
      ColumnsAppend(nets, setup, n);
      aveScore := aveScore + scores.score;
      aveRes := aveRes + scores.res;
      aveDis := aveDis + scores.dis;
      aveTime := aveTime + setup.seconds[n];
      LogAppend(nets, setup, n);
      log := log + [LogLine(setup.names[n], scores.score, scores.res, scores.dis, aveTime)];
      n := n + 1;
    }
    assert setup.seconds[..n] == setup.seconds;
    var count := |setup.dataset| as real;
    ReportAsRatios(nets, setup);
    ave := Averages(Ratio(aveScore, count), Ratio(aveRes, count), Ratio(aveDis, count), Ratio(aveTime, count));
  }

  /** The report divides the four totals by the number of images. */
  lemma ReportAsRatios(nets: Nets, setup: Setup)
    requires WellFormed(nets, setup)
    ensures var all, count := SamplesUpTo(nets, setup, |setup.dataset|), |setup.dataset| as real;
            Report(nets, setup) ==
            Averages(Ratio(Sum(ScoreColumn(all)), count), Ratio(Sum(ResColumn(all)), count),
                     Ratio(Sum(DisColumn(all)), count), Ratio(Sum(setup.seconds), count))
  {
  }

  /** The search for one image: searchEpoch optimizer steps from where the
      previous image stopped. */
  method SearchLatent(rule: UpdateRule, image: Image, start: Search, epochs: nat) returns (s: Search)
    ensures s == Descend(rule, image, start, epochs)
  {
    s := start;
    for i := 0 to epochs
      invariant s == Descend(rule, image, start, i)
    {
      s := Step(rule, image, s);
    }
  }

  /** Image n's log line extends the log of the first n images, and its time
      is the running total that includes image n. */
  lemma LogAppend(nets: Nets, setup: Setup, n: nat)
    requires WellFormed(nets, setup) && n < |setup.dataset|
    ensures Sum(setup.seconds[..n + 1]) == Sum(setup.seconds[..n]) + setup.seconds[n]
    ensures var sc := SampleScores(nets, setup, n);
            LogUpTo(nets, setup, n + 1) ==
            LogUpTo(nets, setup, n) + [LogLine(setup.names[n], sc.score, sc.res, sc.dis, Sum(setup.seconds[..n + 1]))]
  {
    assert setup.seconds[..n + 1] == setup.seconds[..n] + [setup.seconds[n]];
    SumAppend(setup.seconds[..n], setup.seconds[n]);
  }

  /** Adding image n's scores to the totals of the first n images gives the
      totals of the first n + 1. */
  lemma ColumnsAppend(nets: Nets, setup: Setup, n: nat)
    requires WellFormed(nets, setup) && n < |setup.dataset|
    ensures var sc := SampleScores(nets, setup, n);
            Sum(ScoreColumn(SamplesUpTo(nets, setup, n + 1))) == Sum(ScoreColumn(SamplesUpTo(nets, setup, n))) + sc.score &&
            Sum(ResColumn(SamplesUpTo(nets, setup, n + 1))) == Sum(ResColumn(SamplesUpTo(nets, setup, n))) + sc.res &&
            Sum(DisColumn(SamplesUpTo(nets, setup, n + 1))) == Sum(DisColumn(SamplesUpTo(nets, setup, n))) + sc.dis
  {
    var sc := SampleScores(nets, setup, n);
    var before := SamplesUpTo(nets, setup, n);
    SamplesAppend(nets, setup, n);
    ColumnsOfAppend(before, sc);
    SumAppend(ScoreColumn(before), sc.score);
    SumAppend(ResColumn(before), sc.res);
    SumAppend(DisColumn(before), sc.dis);
  }

  /** The scores of the first n + 1 images extend those of the first n. */
  lemma SamplesAppend(nets: Nets, setup: Setup, n: nat)
    requires WellFormed(nets, setup) && n < |setup.dataset|
    ensures SamplesUpTo(nets, setup, n + 1) == SamplesUpTo(nets, setup, n) + [SampleScores(nets, setup, n)]
  {
  }

  /** Each column of an extended list is the column extended. */
  lemma ColumnsOfAppend(s: seq<Scores>, x: Scores)
    ensures ScoreColumn(s + [x]) == ScoreColumn(s) + [x.score]
    ensures ResColumn(s + [x]) == ResColumn(s) + [x.res]
    ensures DisColumn(s + [x]) == DisColumn(s) + [x.dis]
  {
  }
}
