/** Specification of the scan-matching sums: the rigid transform of scan
    points into the map, the cache as it evolves over a scan, the residual and
    likelihood of a pose (`getResidualForState`, `getLikelihoodForResidual`,
    `getLikelihoodForState`) and the Gauss-Newton system
    (`getCompleteHessianDerivs`). */
module ScanMatching {
  import opened LinAlg
  import opened GridMaps
  import opened Interpolation

  /** The sine and cosine the program links against. Trigonometry is not
      modelled: every operation that turns a heading into a rotation takes
      them as a parameter. */
  datatype Trig = Trig(sin: real -> real, cos: real -> real)

  /** `getTransformForState(state) * p`: rotate `p` by the heading
      `state.z`, then translate by the position (`state.x`, `state.y`). */
  function TransformPoint(state: Vec3, trig: Trig, p: Vec2): Vec2 {
    var s, c := trig.sin(state.z), trig.cos(state.z);
    Vec2(c * p.x - s * p.y + state.x, s * p.x + c * p.y + state.y)
  }

  /** The inverse rigid motion: remove the translation, rotate back. */
  function UntransformPoint(state: Vec3, trig: Trig, q: Vec2): Vec2 {
    var s, c := trig.sin(state.z), trig.cos(state.z);
    var dx, dy := q.x - state.x, q.y - state.y;
    Vec2(c * dx + s * dy, c * dy - s * dx)
  }

  /** For a genuine rotation (sin^2 + cos^2 = 1) the transform is invertible. */
  lemma TransformRoundTrip(state: Vec3, trig: Trig, p: Vec2)
    requires Sqr(trig.sin(state.z)) + Sqr(trig.cos(state.z)) == 1.0
    ensures UntransformPoint(state, trig, TransformPoint(state, trig, p)) == p
  {
    var s, c := trig.sin(state.z), trig.cos(state.z);
    var q := TransformPoint(state, trig, p);
    var r := UntransformPoint(state, trig, q);
    RotationIdentity(s, c, p.x, p.y, q.x - state.x, q.y - state.y, r.x, r.y);
  }

  lemma RotationIdentity(s: real, c: real, px: real, py: real, dx: real, dy: real, rx: real, ry: real)
    requires s * s + c * c == 1.0
    requires dx == c * px - s * py && dy == s * px + c * py
    requires rx == c * dx + s * dy && ry == c * dy - s * dx
    ensures rx == px && ry == py
  {
    assert rx == (s * s + c * c) * px;
    assert ry == (s * s + c * c) * py;
  }

  /** The scan in map coordinates, point by point. */
  function TransformScan(state: Vec3, trig: Trig, pts: seq<Vec2>): (qs: seq<Vec2>)
    ensures |qs| == |pts|
  {
    seq(|pts|, k requires 0 <= k < |pts| => TransformPoint(state, trig, pts[k]))
  }

  /** The cache after interpolating at each of `qs` in turn. It only grows,
      never changes an entry, and stays consistent with the map if it was. */
  function CacheAfter(c: CacheTable, m: GridMap, qs: seq<Vec2>): (c': CacheTable)
    requires WellFormed(m)
    ensures forall k :: k in c ==> k in c' && c'[k] == c[k]
    ensures Consistent(c, m) ==> Consistent(c', m)
    decreases |qs|
  {
    if qs == [] then c
    else FillCorners(CacheAfter(c, m, qs[..|qs| - 1]), m, qs[|qs| - 1])
  }

  /** The values `interpMapValue` returns at each of `qs` in turn, each read
      through the cache as the previous reads left it. */
  function ValuesAlong(c: CacheTable, m: GridMap, qs: seq<Vec2>): (vs: seq<real>)
    requires WellFormed(m)
    ensures |vs| == |qs|
  {
    seq(|qs|, j requires 0 <= j < |qs| => InterpValue(CacheAfter(c, m, qs[..j]), m, qs[j]))
  }

  /** The samples `interpMapValueWithDerivatives` returns at each of `qs` in
      turn; their values are the ones `interpMapValue` would return. */
  function SamplesAlong(c: CacheTable, m: GridMap, qs: seq<Vec2>): (ss: seq<Sample>)
    requires WellFormed(m)
    ensures |ss| == |qs|
    ensures forall j :: 0 <= j < |qs| ==> ss[j].value == ValuesAlong(c, m, qs)[j]
  {
    seq(|qs|, j requires 0 <= j < |qs| => InterpSample(CacheAfter(c, m, qs[..j]), m, qs[j]))
  }

  /** Through a cache consistent with the map, every value and sample along a
      scan is the cache-free reference. */
  lemma ConsistentCacheAlong(c: CacheTable, m: GridMap, qs: seq<Vec2>)
    requires WellFormed(m) && Consistent(c, m)
    ensures forall j :: 0 <= j < |qs| ==> ValuesAlong(c, m, qs)[j] == MapValue(m, qs[j])
    ensures forall j :: 0 <= j < |qs| ==> SamplesAlong(c, m, qs)[j] == MapSample(m, qs[j])
  {
    forall j | 0 <= j < |qs|
      ensures ValuesAlong(c, m, qs)[j] == MapValue(m, qs[j])
      ensures SamplesAlong(c, m, qs)[j] == MapSample(m, qs[j])
    {
      ConsistentCacheIsTransparent(CacheAfter(c, m, qs[..j]), m, qs[j]);
    }
  }

  /** A cache of probabilities stays one over any number of reads. */
  lemma {:induction false} UnitCacheAfter(c: CacheTable, m: GridMap, qs: seq<Vec2>)
    requires WellFormed(m) && UnitMap(m) && UnitCache(c)
    ensures UnitCache(CacheAfter(c, m, qs))
    decreases |qs|
  {
    if qs != [] {
      UnitCacheAfter(c, m, qs[..|qs| - 1]);
      InterpValueInUnit(CacheAfter(c, m, qs[..|qs| - 1]), m, qs[|qs| - 1]);
    }
  }

  /** With probabilities in [0, 1], every value along a scan is in [0, 1]. */
  lemma ValuesAlongInUnit(c: CacheTable, m: GridMap, qs: seq<Vec2>)
    requires WellFormed(m) && UnitMap(m) && UnitCache(c)
    ensures forall j :: 0 <= j < |qs| ==> 0.0 <= ValuesAlong(c, m, qs)[j] <= 1.0
  {
    forall j | 0 <= j < |qs|
      ensures 0.0 <= ValuesAlong(c, m, qs)[j] <= 1.0
    {
      UnitCacheAfter(c, m, qs[..j]);
      InterpValueInUnit(CacheAfter(c, m, qs[..j]), m, qs[j]);
    }
  }

  // ---------------------------------------------------------------------
  // Residual and likelihood

  /** The sum over values `v` of the per-point residual `1 - v`, accumulated
      front to back. */
  function ResidualSum(vs: seq<real>): real
    decreases |vs|
  {
    if vs == [] then 0.0 else ResidualSum(vs[..|vs| - 1]) + (1.0 - vs[|vs| - 1])
  }

  /** Values in [0, 1] give a residual between 0 and the number of points. */
  lemma {:induction false} ResidualSumBounds(vs: seq<real>)
    requires forall j :: 0 <= j < |vs| ==> 0.0 <= vs[j] <= 1.0
    ensures 0.0 <= ResidualSum(vs) <= |vs| as real
    decreases |vs|
  {
    if vs != [] {
      ResidualSumBounds(vs[..|vs| - 1]);
    }
  }

  /** `getResidualForState` on cache `c`: the residual of the scan placed at
      `state`. */
  function ResidualForState(c: CacheTable, m: GridMap, state: Vec3, trig: Trig, pts: seq<Vec2>): real
    requires WellFormed(m)
  {
    ResidualSum(ValuesAlong(c, m, TransformScan(state, trig, pts)))
  }

  /** The residual read straight from the map, with no cache in between. */
  function MapResidual(m: GridMap, state: Vec3, trig: Trig, pts: seq<Vec2>): real
    requires WellFormed(m)
  {
    ResidualSum(seq(|pts|, k requires 0 <= k < |pts| => MapValue(m, TransformPoint(state, trig, pts[k]))))
  }

  /** Through a consistent cache the residual is the map's own. */
  lemma ConsistentResidual(c: CacheTable, m: GridMap, state: Vec3, trig: Trig, pts: seq<Vec2>)
    requires WellFormed(m) && Consistent(c, m)
    ensures ResidualForState(c, m, state, trig, pts) == MapResidual(m, state, trig, pts)
  {
    var qs := TransformScan(state, trig, pts);
    ConsistentCacheAlong(c, m, qs);
    assert ValuesAlong(c, m, qs) == seq(|pts|, k requires 0 <= k < |pts| => MapValue(m, TransformPoint(state, trig, pts[k])));
  }

  /** `getLikelihoodForResidual`: one minus the mean residual. The residual is
      recovered from the likelihood, and a residual between 0 and the number
      of points gives a likelihood in [0, 1]. */
  function LikelihoodForResidual(residual: real, numDataPoints: int): (l: real)
    requires numDataPoints > 0
    ensures (1.0 - l) * (numDataPoints as real) == residual
    ensures 0.0 <= residual <= numDataPoints as real ==> 0.0 <= l <= 1.0
  {
    1.0 - residual / (numDataPoints as real)
  }

  /** `getLikelihoodForState` on cache `c`. */
  function LikelihoodForState(c: CacheTable, m: GridMap, state: Vec3, trig: Trig, pts: seq<Vec2>): real
    requires WellFormed(m) && |pts| > 0
  {
    LikelihoodForResidual(ResidualForState(c, m, state, trig, pts), |pts|)
  }

  /** With probabilities in [0, 1] in the map and the cache, the likelihood of
      any pose for a non-empty scan is in [0, 1]. */
  lemma LikelihoodInUnit(c: CacheTable, m: GridMap, state: Vec3, trig: Trig, pts: seq<Vec2>)
    requires WellFormed(m) && UnitMap(m) && UnitCache(c) && |pts| > 0
    ensures 0.0 <= LikelihoodForState(c, m, state, trig, pts) <= 1.0
  {
    var qs := TransformScan(state, trig, pts);
    ValuesAlongInUnit(c, m, qs);
    ResidualSumBounds(ValuesAlong(c, m, qs));
  }

  /** The cache after evaluating the likelihood of each of `states` in turn. */
  function CacheAfterStates(c: CacheTable, m: GridMap, trig: Trig, states: seq<Vec3>, pts: seq<Vec2>): CacheTable
    requires WellFormed(m)
    decreases |states|
  {
    if states == [] then c
    else
      var last := states[|states| - 1];
      CacheAfter(CacheAfterStates(c, m, trig, states[..|states| - 1], pts), m, TransformScan(last, trig, pts))
  }

  /** The likelihoods of each of `states` in turn, each evaluated on the
      cache the previous evaluations left. */
  function StateLikelihoods(c: CacheTable, m: GridMap, trig: Trig, states: seq<Vec3>, pts: seq<Vec2>): (lhs: seq<real>)
    requires WellFormed(m) && |pts| > 0
    ensures |lhs| == |states|
  {
    seq(|states|, k requires 0 <= k < |states| =>
      LikelihoodForState(CacheAfterStates(c, m, trig, states[..k], pts), m, states[k], trig, pts))
  }

  lemma {:induction false} UnitCacheAfterStates(c: CacheTable, m: GridMap, trig: Trig, states: seq<Vec3>, pts: seq<Vec2>)
    requires WellFormed(m) && UnitMap(m) && UnitCache(c)
    ensures UnitCache(CacheAfterStates(c, m, trig, states, pts))
    decreases |states|
  {
    if states != [] {
      var init := states[..|states| - 1];
      UnitCacheAfterStates(c, m, trig, init, pts);
      UnitCacheAfter(CacheAfterStates(c, m, trig, init, pts), m, TransformScan(states[|states| - 1], trig, pts));
    }
  }

  /** Every likelihood of a sequence of poses is in [0, 1] when the map and
      the cache hold probabilities. */
  lemma StateLikelihoodsInUnit(c: CacheTable, m: GridMap, trig: Trig, states: seq<Vec3>, pts: seq<Vec2>)
    requires WellFormed(m) && UnitMap(m) && UnitCache(c) && |pts| > 0
    ensures forall k :: 0 <= k < |states| ==> 0.0 <= StateLikelihoods(c, m, trig, states, pts)[k] <= 1.0
  {
    forall k | 0 <= k < |states|
      ensures 0.0 <= StateLikelihoods(c, m, trig, states, pts)[k] <= 1.0
    {
      UnitCacheAfterStates(c, m, trig, states[..k], pts);
      LikelihoodInUnit(CacheAfterStates(c, m, trig, states[..k], pts), m, states[k], trig, pts);
    }
  }

  // ---------------------------------------------------------------------
  // Gauss-Newton system

  /** The derivative of the map value with respect to the heading, by the
      chain rule through the rotation: `(-sin px - cos py) dM/dx + (cos px - sin py) dM/dy`. */
  function RotDeriv(sinRot: real, cosRot: real, p: Vec2, smp: Sample): real {
    (-sinRot * p.x - cosRot * p.y) * smp.dx + (cosRot * p.x - sinRot * p.y) * smp.dy
  }

  /** One row of the Jacobian, [dM/dx, dM/dy, dM/dtheta]. */
  function PointJacobian(sinRot: real, cosRot: real, p: Vec2, smp: Sample): Vec3 {
    Vec3(smp.dx, smp.dy, RotDeriv(sinRot, cosRot, p, smp))
  }

  function ScanSamples(c: CacheTable, m: GridMap, state: Vec3, trig: Trig, pts: seq<Vec2>): (ss: seq<Sample>)
    requires WellFormed(m)
    ensures |ss| == |pts|
  {
    SamplesAlong(c, m, TransformScan(state, trig, pts))
  }

  /** The Jacobian rows of the scan at `state`. */
  function ScanJacobians(c: CacheTable, m: GridMap, state: Vec3, trig: Trig, pts: seq<Vec2>): (js: seq<Vec3>)
    requires WellFormed(m)
    ensures |js| == |pts|
  {
    var ss := ScanSamples(c, m, state, trig, pts);
    seq(|pts|, k requires 0 <= k < |pts| => PointJacobian(trig.sin(state.z), trig.cos(state.z), pts[k], ss[k]))
  }

  /** The per-point residuals `1 - M` of the scan at `state`. */
  function ScanResiduals(c: CacheTable, m: GridMap, state: Vec3, trig: Trig, pts: seq<Vec2>): (rs: seq<real>)
    requires WellFormed(m)
    ensures |rs| == |pts|
  {
    var ss := ScanSamples(c, m, state, trig, pts);
    seq(|pts|, k requires 0 <= k < |pts| => 1.0 - ss[k].value)
  }

  /** The approximate Hessian J^T J: the sum of the outer products of the
      Jacobian rows, accumulated front to back. */
  function HessianOf(js: seq<Vec3>): Mat3
    decreases |js|
  {
    if js == [] then ZeroMat3
    else AddM(HessianOf(js[..|js| - 1]), Outer(js[|js| - 1], js[|js| - 1]))
  }

  /** The gradient term J^T r: the Jacobian rows scaled by their residuals. */
  function GradientOf(js: seq<Vec3>, rs: seq<real>): Vec3
    requires |js| == |rs|
    decreases |js|
  {
    if js == [] then Zero3
    else Add3(GradientOf(js[..|js| - 1], rs[..|rs| - 1]), Scale3(rs[|rs| - 1], js[|js| - 1]))
  }

  /** J^T J is symmetric. */
  lemma {:induction false} HessianSymmetric(js: seq<Vec3>)
    ensures HessianOf(js).Symmetric()
    decreases |js|
  {
    if js != [] {
      HessianSymmetric(js[..|js| - 1]);
    }
  }

  /** The sum of the squared projections of the rows on `v`. */
  function SumSqProjections(js: seq<Vec3>, v: Vec3): real
    decreases |js|
  {
    if js == [] then 0.0 else SumSqProjections(js[..|js| - 1], v) + Sqr(Dot3(js[|js| - 1], v))
  }

  /** v^T (J^T J) v is the sum of the squared projections of the rows on `v`,
      so J^T J is positive semi-definite. */
  lemma {:induction false} HessianQuadForm(js: seq<Vec3>, v: Vec3)
    ensures QuadForm(HessianOf(js), v) == SumSqProjections(js, v)
    ensures QuadForm(HessianOf(js), v) >= 0.0
    decreases |js|
  {
    if js == [] {
      assert MulV(ZeroMat3, v) == Zero3;
    } else {
      var init, last := js[..|js| - 1], js[|js| - 1];
      HessianQuadForm(init, v);
      QuadFormAdd(HessianOf(init), Outer(last, last), v);
      QuadFormOfOuter(last, v);
    }
  }

  /** The diagonal of J^T J is non-negative. */
  lemma HessianDiagonalNonnegative(js: seq<Vec3>)
    ensures HessianOf(js).a00 >= 0.0 && HessianOf(js).a11 >= 0.0 && HessianOf(js).a22 >= 0.0
  {
    var h := HessianOf(js);
    HessianQuadForm(js, Vec3(1.0, 0.0, 0.0));
    HessianQuadForm(js, Vec3(0.0, 1.0, 0.0));
    HessianQuadForm(js, Vec3(0.0, 0.0, 1.0));
    assert QuadForm(h, Vec3(1.0, 0.0, 0.0)) == h.a00;
    assert QuadForm(h, Vec3(0.0, 1.0, 0.0)) == h.a11;
    assert QuadForm(h, Vec3(0.0, 0.0, 1.0)) == h.a22;
  }

  /** An empty scan leaves H and dTr at zero. */
  lemma EmptyScanGivesZeroSystem(c: CacheTable, m: GridMap, state: Vec3, trig: Trig)
    requires WellFormed(m)
    ensures HessianOf(ScanJacobians(c, m, state, trig, [])) == ZeroMat3
    ensures GradientOf(ScanJacobians(c, m, state, trig, []), ScanResiduals(c, m, state, trig, [])) == Zero3
  {
    assert ScanJacobians(c, m, state, trig, []) == [];
    assert ScanResiduals(c, m, state, trig, []) == [];
  }

  /** The i-th point of a scan is sampled through the cache the first i
      points left, and its Jacobian row and residual come from that sample. */
  lemma ScanStep(c: CacheTable, m: GridMap, pose: Vec3, trig: Trig, pts: seq<Vec2>, i: int, smp: Sample)
    requires WellFormed(m) && 0 <= i < |pts|
    requires smp == InterpSample(CacheAfter(c, m, TransformScan(pose, trig, pts)[..i]), m, TransformPoint(pose, trig, pts[i]))
    ensures ScanJacobians(c, m, pose, trig, pts)[i] == PointJacobian(trig.sin(pose.z), trig.cos(pose.z), pts[i], smp)
    ensures Scale3(ScanResiduals(c, m, pose, trig, pts)[i], ScanJacobians(c, m, pose, trig, pts)[i])
         == Scale3(1.0 - smp.value, PointJacobian(trig.sin(pose.z), trig.cos(pose.z), pts[i], smp))
  {
    var qs := TransformScan(pose, trig, pts);
    var ss := ScanSamples(c, m, pose, trig, pts);
    assert qs[i] == TransformPoint(pose, trig, pts[i]);
    assert ss[i] == smp;
    var r := ScanResiduals(c, m, pose, trig, pts)[i];
    assert r == 1.0 - ss[i].value;
  }

  /** Sampling point `i` adds its corners to the cache the first `i` points left. */
  lemma CacheStep(c: CacheTable, m: GridMap, qs: seq<Vec2>, i: int)
    requires WellFormed(m) && 0 <= i < |qs|
    ensures CacheAfter(c, m, qs[..i + 1]) == FillCorners(CacheAfter(c, m, qs[..i]), m, qs[i])
  {
    assert qs[..i + 1][..i] == qs[..i];
  }

  /** Evaluating one more pose extends the likelihoods by one and the cache
      by that pose's reads. */
  lemma StateLikelihoodStep(c: CacheTable, m: GridMap, trig: Trig, states: seq<Vec3>, pts: seq<Vec2>, k: int)
    requires WellFormed(m) && |pts| > 0 && 0 <= k < |states|
    ensures StateLikelihoods(c, m, trig, states, pts)[k]
         == LikelihoodForState(CacheAfterStates(c, m, trig, states[..k], pts), m, states[k], trig, pts)
    ensures CacheAfterStates(c, m, trig, states[..k + 1], pts)
         == CacheAfter(CacheAfterStates(c, m, trig, states[..k], pts), m, TransformScan(states[k], trig, pts))
  {
    assert states[..k + 1][..k] == states[..k];
  }

  /** Adding one point's outer product to J^T J. */
  lemma HessianStep(js: seq<Vec3>, i: int)
    requires 0 <= i < |js|
    ensures HessianOf(js[..i + 1]) == AddM(HessianOf(js[..i]), Outer(js[i], js[i]))
  {
    assert js[..i + 1][..i] == js[..i];
  }

  /** Adding one point's scaled Jacobian row to J^T r. */
  lemma GradientStep(js: seq<Vec3>, rs: seq<real>, i: int)
    requires |js| == |rs| && 0 <= i < |js|
    ensures GradientOf(js[..i + 1], rs[..i + 1]) == Add3(GradientOf(js[..i], rs[..i]), Scale3(rs[i], js[i]))
  {
    assert js[..i + 1][..i] == js[..i] && rs[..i + 1][..i] == rs[..i];
  }
}
