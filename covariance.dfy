/** The pose covariance the scan matcher reports (`getCovarianceForPose`) and
    its conversion to world units (`getCovMatrixWorldCoords`), as functions of
    the likelihoods of seven sigma poses around the estimate. */
module Covariance {
  import opened LinAlg

  /** The sigma-point offsets, in map cells and radians. The program stores
      them as single-precision floats; here they are the exact decimals. */
  const DeltaTransX: real := 1.5
  const DeltaTransY: real := 1.5
  const DeltaAng: real := 0.05

  /** The unit vector along pose axis `k` (x, y, heading). */
  function Axis(k: int): Vec3
    requires 0 <= k < 3
  {
    if k == 0 then Vec3(1.0, 0.0, 0.0) else if k == 1 then Vec3(0.0, 1.0, 0.0) else Vec3(0.0, 0.0, 1.0)
  }

  /** The sigma-point offset along pose axis `k`. */
  function Delta(k: int): real
    requires 0 <= k < 3
  {
    if k == 0 then DeltaTransX else if k == 1 then DeltaTransY else DeltaAng
  }

  /** The seven columns of the sigma-point matrix: a step forward and a step
      back along each pose axis, then the pose itself. */
  function SigmaPoints(pose: Vec3): (sps: seq<Vec3>)
    ensures |sps| == 7
    ensures sps[6] == pose
  {
    var x, y, ang := pose.x, pose.y, pose.z;
    [Vec3(x + DeltaTransX, y, ang), Vec3(x - DeltaTransX, y, ang),
     Vec3(x, y + DeltaTransY, ang), Vec3(x, y - DeltaTransY, ang),
     Vec3(x, y, ang + DeltaAng), Vec3(x, y, ang - DeltaAng),
     pose]
  }

  /** Points 2k and 2k+1 are the pose stepped forward and back by the offset
      along axis k; the last is the pose. */
  lemma SigmaPointsAlongAxes(pose: Vec3)
    ensures forall k :: 0 <= k < 3 ==> SigmaPoints(pose)[2 * k] == Add3(pose, Scale3(Delta(k), Axis(k)))
    ensures forall k :: 0 <= k < 3 ==> SigmaPoints(pose)[2 * k + 1] == Sub3(pose, Scale3(Delta(k), Axis(k)))
  {
    var sps := SigmaPoints(pose);
    assert sps[0] == Add3(pose, Scale3(Delta(0), Axis(0)));
    assert sps[1] == Sub3(pose, Scale3(Delta(0), Axis(0)));
    assert sps[2] == Add3(pose, Scale3(Delta(1), Axis(1)));
    assert sps[3] == Sub3(pose, Scale3(Delta(1), Axis(1)));
    assert sps[4] == Add3(pose, Scale3(Delta(2), Axis(2)));
    assert sps[5] == Sub3(pose, Scale3(Delta(2), Axis(2)));
  }

  /** The sigma points are symmetric about the pose: each forward and back
      pair averages to it. */
  lemma SigmaPointsBalanced(pose: Vec3)
    ensures forall k :: 0 <= k < 3 ==> Add3(SigmaPoints(pose)[2 * k], SigmaPoints(pose)[2 * k + 1]) == Scale3(2.0, pose)
  {
  }

  /** The sum of a sequence of reals, as Eigen's `sum()`. */
  function Sum(xs: seq<real>): real
    decreases |xs|
  {
    if xs == [] then 0.0 else Sum(xs[..|xs| - 1]) + xs[|xs| - 1]
  }

  /** sum_i ws[i] * ps[i], accumulated front to back. */
  function WeightedSum(ps: seq<Vec3>, ws: seq<real>): Vec3
    requires |ps| == |ws|
    decreases |ps|
  {
    if ps == [] then Zero3
    else Add3(WeightedSum(ps[..|ps| - 1], ws[..|ws| - 1]), Scale3(ws[|ws| - 1], ps[|ps| - 1]))
  }

  /** One point's contribution w (p - mean)(p - mean)^T to the scatter. */
  function ScatterTerm(p: Vec3, w: real, mean: Vec3): Mat3 {
    var d := Sub3(p, mean);
    ScaleM(w, Outer(d, d))
  }

  /** sum_i ws[i] (ps[i] - mean)(ps[i] - mean)^T, accumulated front to back. */
  function ScatterSum(ps: seq<Vec3>, ws: seq<real>, mean: Vec3): Mat3
    requires |ps| == |ws|
    decreases |ps|
  {
    if ps == [] then ZeroMat3
    else AddM(ScatterSum(ps[..|ps| - 1], ws[..|ws| - 1], mean), ScatterTerm(ps[|ps| - 1], ws[|ws| - 1], mean))
  }

  /** Every entry multiplied by `k`; with `k` the reciprocal of the sum these
      are the weights `likelihoods[i] * invLhNormalizer`. */
  function ScaleEach(xs: seq<real>, k: real): (ys: seq<real>)
    ensures |ys| == |xs|
  {
    seq(|xs|, i requires 0 <= i < |xs| => xs[i] * k)
  }

  /** The likelihood-weighted mean of the sigma points. */
  function SigmaMean(pose: Vec3, lhs: seq<real>): Vec3
    requires |lhs| == 7 && Sum(lhs) != 0.0
  {
    Scale3(1.0 / Sum(lhs), WeightedSum(SigmaPoints(pose), lhs))
  }

  /** `getCovarianceForPose` as a function of the pose and the seven sigma-point
      likelihoods: the likelihood-weighted scatter of the sigma points about
      their weighted mean. */
  function CovarianceOf(pose: Vec3, lhs: seq<real>): Mat3
    requires |lhs| == 7 && Sum(lhs) != 0.0
  {
    ScatterSum(SigmaPoints(pose), ScaleEach(lhs, 1.0 / Sum(lhs)), SigmaMean(pose, lhs))
  }

  /** Scaling every term scales the sum. */
  lemma {:induction false} SumScaled(xs: seq<real>, ys: seq<real>, k: real)
    requires |ys| == |xs|
    requires forall i :: 0 <= i < |xs| ==> ys[i] == xs[i] * k
    ensures Sum(ys) == Sum(xs) * k
    decreases |xs|
  {
    if xs != [] {
      SumScaled(xs[..|xs| - 1], ys[..|ys| - 1], k);
    }
  }

  /** A constant sequence sums to its length times the constant. */
  lemma {:induction false} SumConstant(xs: seq<real>, l: real)
    requires forall i :: 0 <= i < |xs| ==> xs[i] == l
    ensures Sum(xs) == (|xs| as real) * l
    decreases |xs|
  {
    if xs != [] {
      SumConstant(xs[..|xs| - 1], l);
    }
  }

  /** The normalised weights `likelihoods[i] * invLhNormalizer` sum to one. */
  lemma WeightsSumToOne(lhs: seq<real>)
    requires Sum(lhs) != 0.0
    ensures Sum(ScaleEach(lhs, 1.0 / Sum(lhs))) == 1.0
  {
    var k := 1.0 / Sum(lhs);
    SumScaled(lhs, ScaleEach(lhs, k), k);
  }

  /** The scatter is a sum of symmetric terms, so it is symmetric. */
  lemma {:induction false} ScatterSymmetric(ps: seq<Vec3>, ws: seq<real>, mean: Vec3)
    requires |ps| == |ws|
    ensures ScatterSum(ps, ws, mean).Symmetric()
    decreases |ps|
  {
    if ps != [] {
      ScatterSymmetric(ps[..|ps| - 1], ws[..|ws| - 1], mean);
    }
  }

  /** With non-negative weights the scatter is positive semi-definite. */
  lemma {:induction false} ScatterPositiveSemidefinite(ps: seq<Vec3>, ws: seq<real>, mean: Vec3, v: Vec3)
    requires |ps| == |ws|
    requires forall i :: 0 <= i < |ws| ==> 0.0 <= ws[i]
    ensures QuadForm(ScatterSum(ps, ws, mean), v) >= 0.0
    decreases |ps|
  {
    if ps != [] {
      var n := |ps|;
      ScatterPositiveSemidefinite(ps[..n - 1], ws[..n - 1], mean, v);
      ScaledOuterNonnegative(ws[n - 1], Sub3(ps[n - 1], mean), v);
      QuadFormAdd(ScatterSum(ps[..n - 1], ws[..n - 1], mean), ScatterTerm(ps[n - 1], ws[n - 1], mean), v);
    }
  }

  /** Extending the points by one adds one term to the weighted sum. */
  lemma WeightedSumSnoc(ps: seq<Vec3>, ws: seq<real>, i: int)
    requires |ps| == |ws| && 0 <= i < |ps|
    ensures WeightedSum(ps[..i + 1], ws[..i + 1]) == Add3(WeightedSum(ps[..i], ws[..i]), Scale3(ws[i], ps[i]))
  {
    assert ps[..i + 1][..i] == ps[..i];
    assert ws[..i + 1][..i] == ws[..i];
  }

  /** Extending the points by one adds one term to the scatter. */
  lemma ScatterSnoc(ps: seq<Vec3>, ws: seq<real>, mean: Vec3, i: int)
    requires |ps| == |ws| && 0 <= i < |ps|
    ensures ScatterSum(ps[..i + 1], ws[..i + 1], mean)
            == AddM(ScatterSum(ps[..i], ws[..i], mean), ScatterTerm(ps[i], ws[i], mean))
  {
    assert ps[..i + 1][..i] == ps[..i];
    assert ws[..i + 1][..i] == ws[..i];
  }

  /** The covariance of a pose is symmetric. */
  lemma CovarianceSymmetric(pose: Vec3, lhs: seq<real>)
    requires |lhs| == 7 && Sum(lhs) != 0.0
    ensures CovarianceOf(pose, lhs).Symmetric()
  {
    ScatterSymmetric(SigmaPoints(pose), ScaleEach(lhs, 1.0 / Sum(lhs)), SigmaMean(pose, lhs));
  }

  /** Non-negative likelihoods that are not all zero give a positive
      semi-definite covariance. */
  lemma CovariancePositiveSemidefinite(pose: Vec3, lhs: seq<real>, v: Vec3)
    requires |lhs| == 7 && Sum(lhs) > 0.0
    requires forall i :: 0 <= i < 7 ==> 0.0 <= lhs[i]
    ensures QuadForm(CovarianceOf(pose, lhs), v) >= 0.0
  {
    var inv := 1.0 / Sum(lhs);
    var ws := ScaleEach(lhs, inv);
    forall i | 0 <= i < 7
      ensures 0.0 <= ws[i]
    {
      MulNonneg(lhs[i], inv);
    }
    ScatterPositiveSemidefinite(SigmaPoints(pose), ws, SigmaMean(pose, lhs), v);
  }

  /** Multiplying every likelihood by the same non-zero factor changes
      neither the mean nor the covariance: only the relative likelihoods of
      the sigma points matter. */
  lemma LikelihoodScaleInvariant(pose: Vec3, lhs: seq<real>, c: real)
    requires |lhs| == 7 && Sum(lhs) != 0.0 && c != 0.0
    ensures Sum(ScaleEach(lhs, c)) == Sum(lhs) * c
    ensures Sum(ScaleEach(lhs, c)) != 0.0
    ensures SigmaMean(pose, ScaleEach(lhs, c)) == SigmaMean(pose, lhs)
    ensures CovarianceOf(pose, ScaleEach(lhs, c)) == CovarianceOf(pose, lhs)
  {
    var scaled := ScaleEach(lhs, c);
    ScaledSum(lhs, scaled, c);
    ScaledMean(pose, lhs, scaled, c);
    ScaledWeights(lhs, scaled, c);
  }

  /** The scaled likelihoods sum to the scaled sum, which is again non-zero. */
  lemma ScaledSum(lhs: seq<real>, scaled: seq<real>, c: real)
    requires Sum(lhs) != 0.0 && c != 0.0 && scaled == ScaleEach(lhs, c)
    ensures Sum(scaled) == Sum(lhs) * c && Sum(scaled) != 0.0
  {
    SumScaled(lhs, scaled, c);
    NonzeroProduct(Sum(lhs), c);
  }

  /** The mean of the scaled likelihoods is the mean of the originals. */
  lemma ScaledMean(pose: Vec3, lhs: seq<real>, scaled: seq<real>, c: real)
    requires |lhs| == 7 && Sum(lhs) != 0.0 && c != 0.0 && scaled == ScaleEach(lhs, c)
    ensures Sum(scaled) != 0.0
    ensures SigmaMean(pose, scaled) == SigmaMean(pose, lhs)
  {
    var sps := SigmaPoints(pose);
    ScaledSum(lhs, scaled, c);
    WeightedSumScaleEach(sps, lhs, scaled, c);
    NormalisedRescaled(WeightedSum(sps, scaled), WeightedSum(sps, lhs), Sum(lhs), Sum(scaled), c);
  }

  /** Weighting by `ScaleEach(ws, c)` scales the weighted sum by c. */
  lemma WeightedSumScaleEach(ps: seq<Vec3>, ws: seq<real>, scaled: seq<real>, c: real)
    requires |ps| == |ws| && scaled == ScaleEach(ws, c)
    ensures WeightedSum(ps, scaled) == Scale3(c, WeightedSum(ps, ws))
  {
    forall i | 0 <= i < |ws| ensures scaled[i] == ws[i] * c {
      ScaledWeightAt(ws, c, i, ws[i] * c);
    }
    WeightedSumScaled(ps, ws, scaled, c);
  }

  /** Normalising v = c w by the sum s c gives w normalised by s. */
  lemma NormalisedRescaled(v: Vec3, w: Vec3, s: real, sc: real, c: real)
    requires s != 0.0 && c != 0.0 && sc == s * c && v == Scale3(c, w)
    ensures Scale3(1.0 / sc, v) == Scale3(1.0 / s, w)
  {
    var inv, inv' := 1.0 / s, 1.0 / sc;
    ReciprocalOfProduct(s, c, sc, inv, inv');
    ScaleTwice(inv', c, inv, w);
  }

  /** The normalised weights of the scaled likelihoods are the normalised
      weights of the originals. */
  lemma ScaledWeights(lhs: seq<real>, scaled: seq<real>, c: real)
    requires Sum(lhs) != 0.0 && c != 0.0 && scaled == ScaleEach(lhs, c)
    ensures Sum(scaled) != 0.0
    ensures ScaleEach(scaled, 1.0 / Sum(scaled)) == ScaleEach(lhs, 1.0 / Sum(lhs))
  {
    ScaledSum(lhs, scaled, c);
    var inv, inv' := 1.0 / Sum(lhs), 1.0 / Sum(scaled);
    ReciprocalOfProduct(Sum(lhs), c, Sum(scaled), inv, inv');
    ScaleEachCancels(lhs, scaled, c, inv, inv');
  }

  /** Weights scaled by c and then by inv / c are the weights scaled by inv. */
  lemma ScaleEachCancels(xs: seq<real>, ys: seq<real>, c: real, inv: real, inv': real)
    requires ys == ScaleEach(xs, c) && c != 0.0 && inv' * c == inv
    ensures ScaleEach(ys, inv') == ScaleEach(xs, inv)
  {
    forall i | 0 <= i < |xs|
      ensures ScaleEach(ys, inv')[i] == ScaleEach(xs, inv)[i]
    {
      assert ys[i] == xs[i] * c;
      ReciprocalCancels(c, inv, inv', xs[i], ys[i]);
    }
  }

  /** k (c v) == (k c) v, with `kc` standing for k c. */
  lemma ScaleTwice(k: real, c: real, kc: real, v: Vec3)
    requires kc == k * c
    ensures Scale3(k, Scale3(c, v)) == Scale3(kc, v)
  {
    assert k * (c * v.x) == (k * c) * v.x;
    assert k * (c * v.y) == (k * c) * v.y;
    assert k * (c * v.z) == (k * c) * v.z;
  }

  lemma NonzeroProduct(a: real, b: real)
    requires a != 0.0 && b != 0.0
    ensures a * b != 0.0
  {
  }

  /** 1 / (a c) == (1 / a) / c; `s` is a c, `inv` is 1 / a and `inv'` is 1 / s. */
  lemma ReciprocalOfProduct(a: real, c: real, s: real, inv: real, inv': real)
    requires a != 0.0 && c != 0.0 && s == a * c
    requires inv == 1.0 / a && inv' == 1.0 / s
    ensures inv' * c == inv
  {
  }

  /** (x c) (inv / c) == x inv; `y` is x c and `inv'` is inv / c. */
  lemma ReciprocalCancels(c: real, inv: real, inv': real, x: real, y: real)
    requires c != 0.0 && inv' * c == inv && y == x * c
    ensures inv' * y == inv * x && y * inv' == x * inv
  {
    assert inv' * y == (inv' * c) * x;
  }

  /** Scaling every weight scales the weighted sum. */
  lemma {:induction false} WeightedSumScaled(ps: seq<Vec3>, ws: seq<real>, scaled: seq<real>, c: real)
    requires |ps| == |ws| == |scaled|
    requires forall i :: 0 <= i < |ws| ==> scaled[i] == ws[i] * c
    ensures WeightedSum(ps, scaled) == Scale3(c, WeightedSum(ps, ws))
    decreases |ps|
  {
    if ps != [] {
      var n := |ps|;
      var rest, p, w := WeightedSum(ps[..n - 1], ws[..n - 1]), ps[n - 1], ws[n - 1];
      WeightedSumScaled(ps[..n - 1], ws[..n - 1], scaled[..n - 1], c);
      ScaledStep(c, rest, w, p, scaled[n - 1]);
    }
  }

  /** c r + (w c) p == c (r + w p) on vectors; `sw` is w c. */
  lemma ScaledStep(c: real, r: Vec3, w: real, p: Vec3, sw: real)
    requires sw == w * c
    ensures Add3(Scale3(c, r), Scale3(sw, p)) == Scale3(c, Add3(r, Scale3(w, p)))
  {
    ScaledTermSum(c, w, r.x, p.x, sw);
    ScaledTermSum(c, w, r.y, p.y, sw);
    ScaledTermSum(c, w, r.z, p.z, sw);
  }

  /** c r + (w c) p == c (r + w p); `sw` is w c. */
  lemma ScaledTermSum(c: real, w: real, r: real, p: real, sw: real)
    requires sw == w * c
    ensures c * r + sw * p == c * (r + w * p)
  {
  }

  /** The sigma points of any pose are those of the origin moved by the pose. */
  lemma SigmaPointsTranslate(pose: Vec3)
    ensures forall i :: 0 <= i < 7 ==> SigmaPoints(pose)[i] == Add3(SigmaPoints(Zero3)[i], pose)
  {
  }

  /** Moving every point by `t` moves the weighted sum by (sum of weights) t. */
  lemma {:induction false} WeightedSumTranslated(ps: seq<Vec3>, qs: seq<Vec3>, ws: seq<real>, t: Vec3)
    requires |ps| == |qs| == |ws|
    requires forall i :: 0 <= i < |ps| ==> qs[i] == Add3(ps[i], t)
    ensures WeightedSum(qs, ws) == Add3(WeightedSum(ps, ws), Scale3(Sum(ws), t))
    decreases |ps|
  {
    if ps != [] {
      var n := |ps|;
      WeightedSumTranslated(ps[..n - 1], qs[..n - 1], ws[..n - 1], t);
      TranslatedStep(WeightedSum(ps[..n - 1], ws[..n - 1]), Sum(ws[..n - 1]), ws[n - 1], ps[n - 1], t, Sum(ws));
    }
  }

  /** One step of the sum above: (r + s t) + w (p + t) == (r + w p) + (s + w) t. */
  lemma TranslatedStep(r: Vec3, s: real, w: real, p: Vec3, t: Vec3, total: real)
    requires total == s + w
    ensures Add3(Add3(r, Scale3(s, t)), Scale3(w, Add3(p, t))) == Add3(Add3(r, Scale3(w, p)), Scale3(total, t))
  {
    TranslatedTerm(r.x, s, t.x, w, p.x, total);
    TranslatedTerm(r.y, s, t.y, w, p.y, total);
    TranslatedTerm(r.z, s, t.z, w, p.z, total);
  }

  lemma TranslatedTerm(r: real, s: real, t: real, w: real, p: real, total: real)
    requires total == s + w
    ensures (r + s * t) + w * (p + t) == (r + w * p) + total * t
  {
  }

  /** Moving every point and the centre by the same amount leaves the scatter unchanged. */
  lemma {:induction false} ScatterTranslated(ps: seq<Vec3>, qs: seq<Vec3>, ws: seq<real>, m: Vec3, m': Vec3)
    requires |ps| == |qs| == |ws|
    requires forall i :: 0 <= i < |ps| ==> Sub3(ps[i], m) == Sub3(qs[i], m')
    ensures ScatterSum(ps, ws, m) == ScatterSum(qs, ws, m')
    decreases |ps|
  {
    if ps != [] {
      var n := |ps|;
      ScatterTranslated(ps[..n - 1], qs[..n - 1], ws[..n - 1], m, m');
    }
  }

  /** The mean moves with the pose, and the covariance does not depend on
      the pose at all: both are fixed by the seven likelihoods. */
  lemma CovarianceTranslationInvariant(pose: Vec3, lhs: seq<real>)
    requires |lhs| == 7 && Sum(lhs) != 0.0
    ensures SigmaMean(pose, lhs) == Add3(SigmaMean(Zero3, lhs), pose)
    ensures CovarianceOf(pose, lhs) == CovarianceOf(Zero3, lhs)
  {
    var total := Sum(lhs);
    var inv := 1.0 / total;
    var ps, qs := SigmaPoints(Zero3), SigmaPoints(pose);
    SigmaPointsTranslate(pose);
    WeightedSumTranslated(ps, qs, lhs, pose);
    MeanShift3(inv, total, WeightedSum(ps, lhs), pose);
    var m, m' := SigmaMean(Zero3, lhs), SigmaMean(pose, lhs);
    ScatterTranslated(qs, ps, ScaleEach(lhs, inv), m', m);
  }

  /** inv (a + s b) == inv a + b when inv is 1 / s, on vectors. */
  lemma MeanShift3(inv: real, s: real, a: Vec3, b: Vec3)
    requires s != 0.0 && inv == 1.0 / s
    ensures Scale3(inv, Add3(a, Scale3(s, b))) == Add3(Scale3(inv, a), b)
  {
    MeanShift(inv, s, a.x, b.x);
    MeanShift(inv, s, a.y, b.y);
    MeanShift(inv, s, a.z, b.z);
  }

  /** inv (a + s b) == inv a + b when inv is 1 / s. */
  lemma MeanShift(inv: real, s: real, a: real, b: real)
    requires s != 0.0 && inv == 1.0 / s
    ensures inv * (a + s * b) == inv * a + b
  {
    assert inv * s == 1.0;
    assert inv * (a + s * b) == inv * a + inv * (s * b);
    assert inv * (s * b) == (inv * s) * b;
  }

  /** With all seven likelihoods equal to one, the mean is the pose itself. */
  lemma UnitLikelihoodsMean(pose: Vec3, lhs: seq<real>)
    requires |lhs| == 7 && forall i :: 0 <= i < 7 ==> lhs[i] == 1.0
    ensures Sum(lhs) == 7.0
    ensures SigmaMean(pose, lhs) == pose
  {
    SumConstant(lhs, 1.0);
    UnitLikelihoodsMeanAtOrigin(lhs);
    CovarianceTranslationInvariant(pose, lhs);
  }

  lemma UnitLikelihoodsMeanAtOrigin(lhs: seq<real>)
    requires |lhs| == 7 && forall i :: 0 <= i < 7 ==> lhs[i] == 1.0
    ensures Sum(lhs) == 7.0
    ensures SigmaMean(Zero3, lhs) == Zero3
  {
    SumConstant(lhs, 1.0);
    UnitWeightedSumAtOrigin(lhs, SigmaPoints(Zero3));
  }

  /** The forward and back steps cancel in pairs. */
  lemma UnitWeightedSumAtOrigin(lhs: seq<real>, ps: seq<Vec3>)
    requires |lhs| == 7 && forall i :: 0 <= i < 7 ==> lhs[i] == 1.0
    requires ps == SigmaPoints(Zero3)
    ensures WeightedSum(ps, lhs) == Zero3
  {
    WeightedSumOfSeven(ps, lhs);
  }

  /** The weighted sum of seven points is the sum of their seven terms. */
  lemma WeightedSumOfSeven(ps: seq<Vec3>, ws: seq<real>)
    requires |ps| == 7 && |ws| == 7
    ensures WeightedSum(ps, ws)
         == Add3(Add3(Add3(Add3(Add3(Add3(Add3(Zero3,
              Scale3(ws[0], ps[0])), Scale3(ws[1], ps[1])), Scale3(ws[2], ps[2])),
              Scale3(ws[3], ps[3])), Scale3(ws[4], ps[4])), Scale3(ws[5], ps[5])),
              Scale3(ws[6], ps[6]))
  {
    assert ps[..0] == [] && ws[..0] == [];
    var s1 := Add3(Zero3, Scale3(ws[0], ps[0]));
    assert WeightedSum(ps[..1], ws[..1]) == s1 by { WeightedSumSnoc(ps, ws, 0); }
    var s2 := Add3(s1, Scale3(ws[1], ps[1]));
    assert WeightedSum(ps[..2], ws[..2]) == s2 by { WeightedSumSnoc(ps, ws, 1); }
    var s3 := Add3(s2, Scale3(ws[2], ps[2]));
    assert WeightedSum(ps[..3], ws[..3]) == s3 by { WeightedSumSnoc(ps, ws, 2); }
    var s4 := Add3(s3, Scale3(ws[3], ps[3]));
    assert WeightedSum(ps[..4], ws[..4]) == s4 by { WeightedSumSnoc(ps, ws, 3); }
    var s5 := Add3(s4, Scale3(ws[4], ps[4]));
    assert WeightedSum(ps[..5], ws[..5]) == s5 by { WeightedSumSnoc(ps, ws, 4); }
    var s6 := Add3(s5, Scale3(ws[5], ps[5]));
    assert WeightedSum(ps[..6], ws[..6]) == s6 by { WeightedSumSnoc(ps, ws, 5); }
    assert ps[..7] == ps && ws[..7] == ws;
    WeightedSumSnoc(ps, ws, 6);
  }

  // ---------------------------------------------------------------------
  // Conversion to world units

  /** `getCovMatrixWorldCoords`: the translational variances and their
      covariance are scaled by the square of the cell length, the
      translation-heading covariances by the cell length, and the heading
      variance is kept. Only the lower triangle of the input is read; the
      output is mirrored. */
  function CovMatrixWorldCoords(covMatMap: Mat3, cellLength: real): (w: Mat3)
    ensures w.Symmetric()
  {
    var scaleTransSq := Sqr(cellLength);
    var c00 := covMatMap.a00 * scaleTransSq;
    var c11 := covMatMap.a11 * scaleTransSq;
    var c10 := covMatMap.a10 * scaleTransSq;
    var c20 := covMatMap.a20 * cellLength;
    var c21 := covMatMap.a21 * cellLength;
    Mat3(c00, c10, c20,
         c10, c11, c21,
         c20, c21, covMatMap.a22)
  }

  /** The symmetric matrix whose lower triangle is that of `a`. */
  function LowerMirrored(a: Mat3): (s: Mat3)
    ensures s.Symmetric()
    ensures a.Symmetric() ==> s == a
  {
    Mat3(a.a00, a.a10, a.a20, a.a10, a.a11, a.a21, a.a20, a.a21, a.a22)
  }

  /** The variance along direction v in world units is the map variance along
      the direction scaled back into cells; hence a positive semi-definite map
      covariance stays one. */
  lemma WorldCoordsQuadForm(covMatMap: Mat3, cellLength: real, v: Vec3)
    ensures QuadForm(CovMatrixWorldCoords(covMatMap, cellLength), v)
         == QuadForm(LowerMirrored(covMatMap), Vec3(cellLength * v.x, cellLength * v.y, v.z))
  {
    var a := LowerMirrored(covMatMap);
    var l := cellLength;
    var u := Vec3(l * v.x, l * v.y, v.z);
    var w := CovMatrixWorldCoords(covMatMap, cellLength);
    var wv := MulV(w, v);
    var au := MulV(a, u);
    CongruenceIdentity(l, a.a00, a.a10, a.a20, a.a11, a.a21, a.a22, v.x, v.y, v.z,
                       w.a00, w.a10, w.a20, w.a11, w.a21,
                       wv.x, wv.y, wv.z, au.x, au.y, au.z);
  }

  lemma CongruenceIdentity(l: real, c00: real, c10: real, c20: real, c11: real, c21: real, c22: real,
                           v0: real, v1: real, v2: real,
                           w00: real, w10: real, w20: real, w11: real, w21: real,
                           wv0: real, wv1: real, wv2: real, au0: real, au1: real, au2: real)
    requires w00 == c00 * Sqr(l) && w10 == c10 * Sqr(l) && w11 == c11 * Sqr(l)
    requires w20 == c20 * l && w21 == c21 * l
    requires wv0 == w00 * v0 + w10 * v1 + w20 * v2
    requires wv1 == w10 * v0 + w11 * v1 + w21 * v2
    requires wv2 == w20 * v0 + w21 * v1 + c22 * v2
    requires au0 == c00 * (l * v0) + c10 * (l * v1) + c20 * v2
    requires au1 == c10 * (l * v0) + c11 * (l * v1) + c21 * v2
    requires au2 == c20 * (l * v0) + c21 * (l * v1) + c22 * v2
    ensures v0 * wv0 + v1 * wv1 + v2 * wv2 == (l * v0) * au0 + (l * v1) * au1 + v2 * au2
  {
    assert wv0 == l * au0;
    assert wv1 == l * au1;
  }

  /** Converting back with the reciprocal cell length recovers a symmetric
      map covariance. */
  lemma WorldCoordsRoundTrip(covMatMap: Mat3, cellLength: real)
    requires cellLength != 0.0 && covMatMap.Symmetric()
    ensures CovMatrixWorldCoords(CovMatrixWorldCoords(covMatMap, cellLength), 1.0 / cellLength) == covMatMap
  {
    var l, k := cellLength, 1.0 / cellLength;
    var c := covMatMap;
    UnscaleSq(c.a00, l, k);
    UnscaleSq(c.a11, l, k);
    UnscaleSq(c.a10, l, k);
    Unscale(c.a20, l, k);
    Unscale(c.a21, l, k);
  }

  /** (x l^2) (1/l)^2 == x. */
  lemma UnscaleSq(x: real, l: real, k: real)
    requires l != 0.0 && k == 1.0 / l
    ensures (x * Sqr(l)) * Sqr(k) == x
  {
    var m := (l * l) * (k * k);
    assert l * k == 1.0;
    assert m == (l * k) * (l * k) == 1.0;
    assert (x * Sqr(l)) * Sqr(k) == x * m;
    MulByOne(x, m);
  }

  lemma MulByOne(x: real, m: real)
    requires m == 1.0
    ensures x * m == x
  {
  }

  /** (x l) (1/l) == x. */
  lemma Unscale(x: real, l: real, k: real)
    requires l != 0.0 && k == 1.0 / l
    ensures (x * l) * k == x
  {
    assert l * k == 1.0;
  }

  /** The upper triangle of the input is never read. */
  lemma WorldCoordsReadsLowerTriangle(a: Mat3, b: Mat3, cellLength: real)
    requires LowerMirrored(a) == LowerMirrored(b)
    ensures CovMatrixWorldCoords(a, cellLength) == CovMatrixWorldCoords(b, cellLength)
  {
  }

  /** The i-th normalised weight is `likelihoods[i] * invLhNormalizer`. */
  lemma ScaledWeightAt(xs: seq<real>, k: real, i: int, w: real)
    requires 0 <= i < |xs| && w == xs[i] * k
    ensures ScaleEach(xs, k)[i] == w
  {
  }
}
