/** The scan matcher's view of one occupancy grid (`OccGridMapUtil`): it
    interpolates the map through a cache of cell probabilities, sums the scan
    residual at a pose, turns it into a likelihood, accumulates the
    Gauss-Newton system of the scan, and estimates the pose covariance from
    seven sigma poses. Each method is proved equal to the specification
    functions of `Interpolation`, `ScanMatching` and `Covariance`, whose
    properties are proved there. */
module ScanMatcherUtil {
  import opened LinAlg
  import opened GridMaps
  import opened GridCache
  import opened Interpolation
  import opened ScanMatching
  import opened Covariance

  class OccGridMapUtil {
    /** The grid being matched against. Its owner may update it between
        calls; the cache is not told (see `StaleCacheServesEarlierMap`). */
    var concreteGridMap: GridMap
    /** The four corner probabilities of the last interpolation. */
    const intensities: array<real>
    /** The read-through cache of cell probabilities. */
    const cacheMethod: GridMapCache

    ghost predicate Valid()
      reads this, intensities
    {
      WellFormed(concreteGridMap) && intensities.Length == 4
    }

    constructor (gridMap: GridMap)
      requires WellFormed(gridMap)
      ensures Valid() && concreteGridMap == gridMap
      ensures fresh(intensities) && fresh(cacheMethod) && cacheMethod.entries == map[]
    {
      concreteGridMap := gridMap;
      intensities := new real[4];
      cacheMethod := new GridMapCache();
    }

    /** `getUnfilteredGridPoint(int)`: the map's probability at a flattened index. */
    function GetUnfilteredGridPoint(index: int): real
      reads this
      requires 0 <= index < |concreteGridMap.cells|
    {
      concreteGridMap.cells[index]
    }

    /** One read-through: a hit copies the cached value into
        `intensities[slot]`, a miss reads the map, stores the value there and
        caches it. */
    method FetchIntensity(slot: int, index: int)
      requires Valid() && 0 <= slot < 4 && 0 <= index < |concreteGridMap.cells|
      modifies cacheMethod, intensities
      ensures cacheMethod.entries == Fetch(old(cacheMethod.entries), concreteGridMap, index)
      ensures intensities[..] == old(intensities[..])[slot := Lookup(old(cacheMethod.entries), concreteGridMap, index)]
    {
      var found, val := cacheMethod.ContainsCachedData(index);
      if found {
        intensities[slot] := val;
      } else {
        intensities[slot] := GetUnfilteredGridPoint(index);
        cacheMethod.CacheData(index, intensities[slot]);
      }
    }

    /** The four read-throughs of one interpolation, in the order the program
        makes them: start at the truncated cell, one right, one row up and
        back left, one right. Afterwards `intensities` holds the corner values
        as the cache first saw them, and the cache holds all four corners. */
    method FetchCorners(coords: Vec2)
      requires Valid() && !concreteGridMap.outOfBounds(coords)
      modifies cacheMethod, intensities
      ensures cacheMethod.entries == FillCorners(old(cacheMethod.entries), concreteGridMap, coords)
      ensures var p := CornerValues(old(cacheMethod.entries), concreteGridMap, coords);
              intensities[..] == [p.p00, p.p10, p.p01, p.p11]
    {
      ghost var m, c0 := concreteGridMap, cacheMethod.entries;
      ghost var ks := CornerIndices(m, coords);
      CornerIndicesOnMap(m, coords);
      var sizeX := concreteGridMap.sizeX;
      var index := TruncToInt(coords.y) * sizeX + TruncToInt(coords.x);
      FetchIntensity(0, index);
      ghost var c1 := cacheMethod.entries;
      index := index + 1;
      FetchIntensity(1, index);
      ghost var c2 := cacheMethod.entries;
      index := index + (sizeX - 1);
      FetchIntensity(2, index);
      ghost var c3 := cacheMethod.entries;
      index := index + 1;
      FetchIntensity(3, index);
      FetchFour(c0, m, ks);
      LookupAfterFetch(c0, m, ks[0], ks[1]);
      LookupAfterFetch(c0, m, ks[0], ks[2]);
      LookupAfterFetch(c1, m, ks[1], ks[2]);
      LookupAfterFetch(c0, m, ks[0], ks[3]);
      LookupAfterFetch(c1, m, ks[1], ks[3]);
      LookupAfterFetch(c2, m, ks[2], ks[3]);
    }

    /** `interpMapValue`: 0 outside the map, otherwise the bilinear blend of
        the four corners read through the cache, which then holds them. */
    method InterpMapValue(coords: Vec2) returns (v: real)
      requires Valid()
      modifies cacheMethod, intensities
      ensures Valid()
      ensures v == InterpValue(old(cacheMethod.entries), concreteGridMap, coords)
      ensures cacheMethod.entries == FillCorners(old(cacheMethod.entries), concreteGridMap, coords)
      ensures concreteGridMap.outOfBounds(coords) ==> intensities[..] == old(intensities[..])
      ensures !concreteGridMap.outOfBounds(coords) ==>
                var p := CornerValues(old(cacheMethod.entries), concreteGridMap, coords);
                intensities[..] == [p.p00, p.p10, p.p01, p.p11]
    {
      if concreteGridMap.outOfBounds(coords) {
        return 0.0;
      }
      ghost var p := CornerValues(cacheMethod.entries, concreteGridMap, coords);
      var indMinX, indMinY := TruncToInt(coords.x), TruncToInt(coords.y);
      var factorX, factorY := coords.x - indMinX as real, coords.y - indMinY as real;
      assert factorX == Frac(coords.x) && factorY == Frac(coords.y);
      FetchCorners(coords);
      assert p == Corners(intensities[0], intensities[1], intensities[2], intensities[3]);
      var xFacInv := 1.0 - factorX;
      var yFacInv := 1.0 - factorY;
      v := ((intensities[0] * xFacInv + intensities[1] * factorX) * yFacInv) +
           ((intensities[2] * xFacInv + intensities[3] * factorX) * factorY);
      BilinearBlend(Corners(intensities[0], intensities[1], intensities[2], intensities[3]), factorX, xFacInv, factorY, yFacInv, v);
    }

    /** `interpMapValueWithDerivatives`: the value and gradient [M, dM/dx,
        dM/dy], zero outside the map, with the same cache effect as
        `InterpMapValue`. */
    method InterpMapValueWithDerivatives(coords: Vec2) returns (s: Sample)
      requires Valid()
      modifies cacheMethod, intensities
      ensures Valid()
      ensures s == InterpSample(old(cacheMethod.entries), concreteGridMap, coords)
      ensures cacheMethod.entries == FillCorners(old(cacheMethod.entries), concreteGridMap, coords)
      ensures concreteGridMap.outOfBounds(coords) ==> intensities[..] == old(intensities[..])
      ensures !concreteGridMap.outOfBounds(coords) ==>
                var p := CornerValues(old(cacheMethod.entries), concreteGridMap, coords);
                intensities[..] == [p.p00, p.p10, p.p01, p.p11]
    {
      if concreteGridMap.outOfBounds(coords) {
        return Sample(0.0, 0.0, 0.0);
      }
      ghost var p := CornerValues(cacheMethod.entries, concreteGridMap, coords);
      var indMinX, indMinY := TruncToInt(coords.x), TruncToInt(coords.y);
      var factorX, factorY := coords.x - indMinX as real, coords.y - indMinY as real;
      assert factorX == Frac(coords.x) && factorY == Frac(coords.y);
      FetchCorners(coords);
      assert p == Corners(intensities[0], intensities[1], intensities[2], intensities[3]);
      var dx1 := intensities[0] - intensities[1];
      var dx2 := intensities[2] - intensities[3];
      var dy1 := intensities[0] - intensities[2];
      var dy2 := intensities[1] - intensities[3];
      var xFacInv := 1.0 - factorX;
      var yFacInv := 1.0 - factorY;
      s := Sample(((intensities[0] * xFacInv + intensities[1] * factorX) * yFacInv) +
                  ((intensities[2] * xFacInv + intensities[3] * factorX) * factorY),
                  -((dx1 * yFacInv) + (dx2 * factorY)),
                  -((dy1 * xFacInv) + (dy2 * factorX)));
      SampleBlend(Corners(intensities[0], intensities[1], intensities[2], intensities[3]), factorX, xFacInv, factorY, yFacInv,
                  dx1, dx2, dy1, dy2, s);
    }

    /** `resetCachedData`: the next reads go to the map. */
    method ResetCachedData()
      modifies cacheMethod
      ensures cacheMethod.entries == map[]
    {
      cacheMethod.ResetCache();
    }

    /** `getResidualForState`: the sum over the scan, placed at `state`, of
        one minus the interpolated map value, each point read through the
        cache the previous points left. */
    method GetResidualForState(state: Vec3, trig: Trig, dataPoints: seq<Vec2>) returns (residual: real)
      requires Valid()
      modifies cacheMethod, intensities
      ensures Valid()
      ensures residual == ResidualForState(old(cacheMethod.entries), concreteGridMap, state, trig, dataPoints)
      ensures cacheMethod.entries == CacheAfter(old(cacheMethod.entries), concreteGridMap, TransformScan(state, trig, dataPoints))
    {
      ghost var m, c0 := concreteGridMap, cacheMethod.entries;
      ghost var qs := TransformScan(state, trig, dataPoints);
      ghost var vs := ValuesAlong(c0, m, qs);
      var size := |dataPoints|;
      var stepSize := 1;
      residual := 0.0;
      var i := 0;
      while i < size
        invariant 0 <= i <= size
        invariant Valid() && concreteGridMap == m
        invariant cacheMethod.entries == CacheAfter(c0, m, qs[..i])
        invariant residual == ResidualSum(vs[..i])
      {
        var funval := InterpMapValue(TransformPoint(state, trig, dataPoints[i]));
        funval := 1.0 - funval;
        residual := residual + funval;
        assert qs[..i + 1][..i] == qs[..i] && vs[..i + 1][..i] == vs[..i];
        i := i + stepSize;
      }
      assert qs[..i] == qs && vs[..i] == vs;
    }

    /** `getLikelihoodForState`: the likelihood of the scan at `state`. */
    method GetLikelihoodForState(state: Vec3, trig: Trig, dataPoints: seq<Vec2>) returns (l: real)
      requires Valid() && |dataPoints| > 0
      modifies cacheMethod, intensities
      ensures Valid()
      ensures l == LikelihoodForState(old(cacheMethod.entries), concreteGridMap, state, trig, dataPoints)
      ensures cacheMethod.entries == CacheAfter(old(cacheMethod.entries), concreteGridMap, TransformScan(state, trig, dataPoints))
    {
      var resid := GetResidualForState(state, trig, dataPoints);
      l := LikelihoodForResidual(resid, |dataPoints|);
    }

    /** `getCompleteHessianDerivs`: H is set to J^T J and dTr to J^T r for
        the scan at `pose`, J holding the rows [dM/dx, dM/dy, dM/dtheta] and
        r the residuals 1 - M. The scan loop accumulates the upper triangle;
        the lower one is mirrored at the end. */
    method GetCompleteHessianDerivs(pose: Vec3, trig: Trig, dataPoints: seq<Vec2>, H: array2<real>, dTr: array<real>)
      requires Valid() && H.Length0 == 3 && H.Length1 == 3 && dTr.Length == 3 && dTr != intensities
      modifies cacheMethod, intensities, H, dTr
      ensures Valid()
      ensures MatrixOf(H) == HessianOf(ScanJacobians(old(cacheMethod.entries), concreteGridMap, pose, trig, dataPoints))
      ensures VectorOf(dTr) == GradientOf(ScanJacobians(old(cacheMethod.entries), concreteGridMap, pose, trig, dataPoints),
                                          ScanResiduals(old(cacheMethod.entries), concreteGridMap, pose, trig, dataPoints))
      ensures cacheMethod.entries == CacheAfter(old(cacheMethod.entries), concreteGridMap, TransformScan(pose, trig, dataPoints))
    {
      var sinRot := trig.sin(pose.z);
      var cosRot := trig.cos(pose.z);
      SetZero(H, dTr);
      AccumulateScan(pose, trig, dataPoints, sinRot, cosRot, H, dTr);
      MirrorUpper(H);
    }

    /** The last three assignments of `getCompleteHessianDerivs`: the lower
        triangle of H becomes the mirror image of the upper one. */
    static method MirrorUpper(H: array2<real>)
      requires H.Length0 == 3 && H.Length1 == 3
      modifies H
      ensures MatrixOf(H) == old(UpperOf(H))
    {
      H[1, 0] := H[0, 1];
      H[2, 0] := H[0, 2];
      H[2, 1] := H[1, 2];
    }

    /** The scan loop of `getCompleteHessianDerivs`: starting from zero,
        the upper triangle of H ends as that of J^T J and dTr as J^T r, and
        the cache holds every corner the scan read. */
    method AccumulateScan(pose: Vec3, trig: Trig, dataPoints: seq<Vec2>, sinRot: real, cosRot: real,
                          H: array2<real>, dTr: array<real>)
      requires Valid() && H.Length0 == 3 && H.Length1 == 3 && dTr.Length == 3 && dTr != intensities
      requires sinRot == trig.sin(pose.z) && cosRot == trig.cos(pose.z)
      requires UpperOf(H) == ZeroMat3 && VectorOf(dTr) == Zero3
      modifies cacheMethod, intensities, H, dTr
      ensures UpperOf(H) == HessianOf(ScanJacobians(old(cacheMethod.entries), concreteGridMap, pose, trig, dataPoints))
      ensures LowerOf(H) == old(LowerOf(H))
      ensures VectorOf(dTr) == GradientOf(ScanJacobians(old(cacheMethod.entries), concreteGridMap, pose, trig, dataPoints),
                                          ScanResiduals(old(cacheMethod.entries), concreteGridMap, pose, trig, dataPoints))
      ensures cacheMethod.entries == CacheAfter(old(cacheMethod.entries), concreteGridMap, TransformScan(pose, trig, dataPoints))
    {
      ghost var m, c0 := concreteGridMap, cacheMethod.entries;
      ghost var qs := TransformScan(pose, trig, dataPoints);
      ghost var js := ScanJacobians(c0, m, pose, trig, dataPoints);
      ghost var rs := ScanResiduals(c0, m, pose, trig, dataPoints);
      var size := |dataPoints|;
      for i := 0 to size
        invariant Valid() && concreteGridMap == m
        invariant cacheMethod.entries == CacheAfter(c0, m, qs[..i])
        invariant UpperOf(H) == HessianOf(js[..i])
        invariant LowerOf(H) == old(LowerOf(H))
        invariant VectorOf(dTr) == GradientOf(js[..i], rs[..i])
      {
        ScanPoint(c0, pose, trig, dataPoints, i, sinRot, cosRot, H, dTr);
        HessianStep(js, i);
        GradientStep(js, rs, i);
      }
      assert js[..size] == js;
      assert rs[..size] == rs;
      assert qs[..size] == qs;
    }

    /** Point `i` of the scan loop of `getCompleteHessianDerivs`: sample the
        map at the transformed point through the cache the earlier points
        left, and add the point's terms to H and dTr. */
    method ScanPoint(ghost c0: CacheTable, pose: Vec3, trig: Trig, dataPoints: seq<Vec2>, i: int,
                     sinRot: real, cosRot: real, H: array2<real>, dTr: array<real>)
      requires Valid() && 0 <= i < |dataPoints| && sinRot == trig.sin(pose.z) && cosRot == trig.cos(pose.z)
      requires H.Length0 == 3 && H.Length1 == 3 && dTr.Length == 3 && dTr != intensities
      requires cacheMethod.entries == CacheAfter(c0, concreteGridMap, TransformScan(pose, trig, dataPoints)[..i])
      modifies cacheMethod, intensities, H, dTr
      ensures cacheMethod.entries == CacheAfter(c0, concreteGridMap, TransformScan(pose, trig, dataPoints)[..i + 1])
      ensures var j := ScanJacobians(c0, concreteGridMap, pose, trig, dataPoints)[i];
              UpperOf(H) == AddM(old(UpperOf(H)), Outer(j, j))
      ensures LowerOf(H) == old(LowerOf(H))
      ensures VectorOf(dTr) == Add3(old(VectorOf(dTr)), Scale3(ScanResiduals(c0, concreteGridMap, pose, trig, dataPoints)[i],
                                                               ScanJacobians(c0, concreteGridMap, pose, trig, dataPoints)[i]))
    {
      var currPoint := dataPoints[i];
      var transformedPointData := SamplePoint(c0, pose, trig, dataPoints, i);
      AccumulatePoint(H, dTr, sinRot, cosRot, currPoint, transformedPointData);
    }

    /** The map sample of point `i` of the scan loop of
        `getCompleteHessianDerivs`, read through the cache the earlier points
        left: it gives the point's Jacobian row and residual, and the cache
        gains the point's corners. */
    method SamplePoint(ghost c0: CacheTable, pose: Vec3, trig: Trig, dataPoints: seq<Vec2>, i: int)
      returns (transformedPointData: Sample)
      requires Valid() && 0 <= i < |dataPoints|
      requires cacheMethod.entries == CacheAfter(c0, concreteGridMap, TransformScan(pose, trig, dataPoints)[..i])
      modifies cacheMethod, intensities
      ensures Valid()
      ensures cacheMethod.entries == CacheAfter(c0, concreteGridMap, TransformScan(pose, trig, dataPoints)[..i + 1])
      ensures ScanJacobians(c0, concreteGridMap, pose, trig, dataPoints)[i]
           == PointJacobian(trig.sin(pose.z), trig.cos(pose.z), dataPoints[i], transformedPointData)
      ensures Scale3(ScanResiduals(c0, concreteGridMap, pose, trig, dataPoints)[i], ScanJacobians(c0, concreteGridMap, pose, trig, dataPoints)[i])
           == Scale3(1.0 - transformedPointData.value, PointJacobian(trig.sin(pose.z), trig.cos(pose.z), dataPoints[i], transformedPointData))
    {
      transformedPointData := InterpMapValueWithDerivatives(TransformPoint(pose, trig, dataPoints[i]));
      ScanStep(c0, concreteGridMap, pose, trig, dataPoints, i, transformedPointData);
      CacheStep(c0, concreteGridMap, TransformScan(pose, trig, dataPoints), i);
    }

    /** One pass of the scan loop of `getCompleteHessianDerivs`, for the
        point `currPoint` whose map sample is `transformedPointData`: dTr
        gains the Jacobian row scaled by the residual 1 - M, and the upper
        triangle of H gains the row's outer product. */
    static method AccumulatePoint(H: array2<real>, dTr: array<real>, sinRot: real, cosRot: real,
                                  currPoint: Vec2, transformedPointData: Sample)
      requires H.Length0 == 3 && H.Length1 == 3 && dTr.Length == 3
      modifies H, dTr
      ensures var j := PointJacobian(sinRot, cosRot, currPoint, transformedPointData);
              UpperOf(H) == AddM(old(UpperOf(H)), Outer(j, j))
      ensures LowerOf(H) == old(LowerOf(H))
      ensures var j := PointJacobian(sinRot, cosRot, currPoint, transformedPointData);
              VectorOf(dTr) == Add3(old(VectorOf(dTr)), Scale3(1.0 - transformedPointData.value, j))
    {
      ghost var h, g := UpperOf(H), VectorOf(dTr);
      var funVal := 1.0 - transformedPointData.value;
      dTr[0] := dTr[0] + transformedPointData.dx * funVal;
      dTr[1] := dTr[1] + transformedPointData.dy * funVal;
      var rotDeriv := ((-sinRot * currPoint.x - cosRot * currPoint.y) * transformedPointData.dx +
                       (cosRot * currPoint.x - sinRot * currPoint.y) * transformedPointData.dy);
      dTr[2] := dTr[2] + rotDeriv * funVal;
      H[0, 0] := H[0, 0] + Sqr(transformedPointData.dx);
      H[1, 1] := H[1, 1] + Sqr(transformedPointData.dy);
      H[2, 2] := H[2, 2] + Sqr(rotDeriv);
      H[0, 1] := H[0, 1] + transformedPointData.dx * transformedPointData.dy;
      H[0, 2] := H[0, 2] + transformedPointData.dx * rotDeriv;
      H[1, 2] := H[1, 2] + transformedPointData.dy * rotDeriv;
      ghost var j := Vec3(transformedPointData.dx, transformedPointData.dy, rotDeriv);
      assert j == PointJacobian(sinRot, cosRot, currPoint, transformedPointData);
      GradientUpdate(g, funVal, j, dTr[0], dTr[1], dTr[2]);
      HessianUpdate(h, j, H[0, 0], H[1, 1], H[2, 2], H[0, 1], H[0, 2], H[1, 2]);
    }

    /** `H = Matrix3f::Zero(); dTr = Vector3f::Zero();` */
    static method SetZero(H: array2<real>, dTr: array<real>)
      requires H.Length0 == 3 && H.Length1 == 3 && dTr.Length == 3
      modifies H, dTr
      ensures MatrixOf(H) == ZeroMat3 && VectorOf(dTr) == Zero3
    {
      H[0, 0], H[0, 1], H[0, 2] := 0.0, 0.0, 0.0;
      H[1, 0], H[1, 1], H[1, 2] := 0.0, 0.0, 0.0;
      H[2, 0], H[2, 1], H[2, 2] := 0.0, 0.0, 0.0;
      dTr[0], dTr[1], dTr[2] := 0.0, 0.0, 0.0;
    }

    /** `getCovarianceForPose`: the likelihoods of the seven sigma poses, in
        order, each evaluated through the cache the previous ones left; their
        normalised weights; the weighted mean; and the weighted scatter of
        the sigma poses about it. The cache is left holding every cell the
        seven evaluations read. */
    method GetCovarianceForPose(mapPose: Vec3, trig: Trig, dataPoints: seq<Vec2>) returns (covMatrixMap: Mat3)
      requires Valid() && |dataPoints| > 0
      requires Sum(StateLikelihoods(cacheMethod.entries, concreteGridMap, trig, SigmaPoints(mapPose), dataPoints)) != 0.0
      modifies cacheMethod, intensities
      ensures Valid()
      ensures covMatrixMap == CovarianceOf(mapPose, StateLikelihoods(old(cacheMethod.entries), concreteGridMap, trig, SigmaPoints(mapPose), dataPoints))
      ensures cacheMethod.entries == CacheAfterStates(old(cacheMethod.entries), concreteGridMap, trig, SigmaPoints(mapPose), dataPoints)
    {
      ghost var lhs := StateLikelihoods(cacheMethod.entries, concreteGridMap, trig, SigmaPoints(mapPose), dataPoints);
      var sigmaPoints := SigmaPoints(mapPose);
      var likelihoods := SigmaLikelihoods(sigmaPoints, trig, dataPoints);
      ghost var cAfter := cacheMethod.entries;
      var invLhNormalizer := 1.0 / Sum(likelihoods);
      var mean := Zero3;
      for i := 0 to 7
        invariant mean == WeightedSum(sigmaPoints[..i], likelihoods[..i])
        invariant cacheMethod.entries == cAfter
      {
        WeightedSumSnoc(sigmaPoints, likelihoods, i);
        mean := Add3(mean, Scale3(likelihoods[i], sigmaPoints[i]));
      }
      assert sigmaPoints[..7] == sigmaPoints && likelihoods[..7] == likelihoods;
      mean := Scale3(invLhNormalizer, mean);
      ghost var ws := ScaleEach(likelihoods, invLhNormalizer);
      covMatrixMap := ZeroMat3;
      for i := 0 to 7
        invariant covMatrixMap == ScatterSum(sigmaPoints[..i], ws[..i], mean)
        invariant cacheMethod.entries == cAfter
      {
        ScatterSnoc(sigmaPoints, ws, mean, i);
        var sigPointMinusMean := Sub3(sigmaPoints[i], mean);
        var weight := likelihoods[i] * invLhNormalizer;
        ScaledWeightAt(likelihoods, invLhNormalizer, i, weight);
        covMatrixMap := AddM(covMatrixMap, ScaleM(weight, Outer(sigPointMinusMean, sigPointMinusMean)));
      }
      assert ws[..7] == ws;
    }

    /** `getCovMatrixWorldCoords`: the map-frame covariance converted to world
        units with the held map's cell length. */
    method GetCovMatrixWorldCoords(covMatMap: Mat3) returns (covMatWorld: Mat3)
      ensures covMatWorld == CovMatrixWorldCoords(covMatMap, concreteGridMap.cellLength)
      ensures covMatWorld.Symmetric()
    {
      var scaleTrans := concreteGridMap.cellLength;
      covMatWorld := CovMatrixWorldCoords(covMatMap, scaleTrans);
    }

    /** The seven likelihood evaluations, in the program's order: the k-th
        call evaluates sigma pose k through the cache the first k left. */
    method SigmaLikelihoods(sigmaPoints: seq<Vec3>, trig: Trig, dataPoints: seq<Vec2>) returns (likelihoods: seq<real>)
      requires Valid() && |sigmaPoints| == 7 && |dataPoints| > 0
      modifies cacheMethod, intensities
      ensures likelihoods == StateLikelihoods(old(cacheMethod.entries), concreteGridMap, trig, sigmaPoints, dataPoints)
      ensures cacheMethod.entries == CacheAfterStates(old(cacheMethod.entries), concreteGridMap, trig, sigmaPoints, dataPoints)
    {
      ghost var c0 := cacheMethod.entries;
      assert sigmaPoints[..0] == [];
      likelihoods := [];
      while |likelihoods| < 7
        invariant Valid() && |likelihoods| <= 7
        invariant cacheMethod.entries == CacheAfterStates(c0, concreteGridMap, trig, sigmaPoints[..|likelihoods|], dataPoints)
        invariant likelihoods == StateLikelihoods(c0, concreteGridMap, trig, sigmaPoints, dataPoints)[..|likelihoods|]
        decreases 7 - |likelihoods|
      {
        likelihoods := NextLikelihood(c0, sigmaPoints, trig, dataPoints, likelihoods);
      }
      assert sigmaPoints[..7] == sigmaPoints;
    }

    /** `likelihoods[k] = getLikelihoodForState(sigma pose k, dataPoints)`,
        with k the number of likelihoods evaluated so far. */
    method NextLikelihood(ghost c0: CacheTable, sigmaPoints: seq<Vec3>, trig: Trig, dataPoints: seq<Vec2>,
                          likelihoods: seq<real>) returns (likelihoods': seq<real>)
      requires Valid() && |dataPoints| > 0 && |likelihoods| < |sigmaPoints|
      requires cacheMethod.entries == CacheAfterStates(c0, concreteGridMap, trig, sigmaPoints[..|likelihoods|], dataPoints)
      requires likelihoods == StateLikelihoods(c0, concreteGridMap, trig, sigmaPoints, dataPoints)[..|likelihoods|]
      modifies cacheMethod, intensities
      ensures |likelihoods'| == |likelihoods| + 1
      ensures cacheMethod.entries == CacheAfterStates(c0, concreteGridMap, trig, sigmaPoints[..|likelihoods'|], dataPoints)
      ensures likelihoods' == StateLikelihoods(c0, concreteGridMap, trig, sigmaPoints, dataPoints)[..|likelihoods'|]
    {
      ghost var lhs := StateLikelihoods(c0, concreteGridMap, trig, sigmaPoints, dataPoints);
      var k := |likelihoods|;
      var l := GetLikelihoodForState(sigmaPoints[k], trig, dataPoints);
      StateLikelihoodStep(c0, concreteGridMap, trig, sigmaPoints, dataPoints, k);
      assert l == lhs[k];
      likelihoods' := likelihoods + [l];
      assert lhs[..k + 1] == lhs[..k] + [lhs[k]];
    }
  }

  /** The 3x3 matrix held in `H`. */
  function MatrixOf(H: array2<real>): Mat3
    reads H
    requires H.Length0 == 3 && H.Length1 == 3
  {
    Mat3(H[0, 0], H[0, 1], H[0, 2], H[1, 0], H[1, 1], H[1, 2], H[2, 0], H[2, 1], H[2, 2])
  }

  /** The symmetric matrix whose upper triangle is that of `H`. */
  function UpperOf(H: array2<real>): Mat3
    reads H
    requires H.Length0 == 3 && H.Length1 == 3
  {
    Mat3(H[0, 0], H[0, 1], H[0, 2], H[0, 1], H[1, 1], H[1, 2], H[0, 2], H[1, 2], H[2, 2])
  }

  /** The strictly lower triangle of `H`, row by row. */
  function LowerOf(H: array2<real>): seq<real>
    reads H
    requires H.Length0 == 3 && H.Length1 == 3
  {
    [H[1, 0], H[2, 0], H[2, 1]]
  }

  /** The vector held in `v`. */
  function VectorOf(v: array<real>): Vec3
    reads v
    requires v.Length == 3
  {
    Vec3(v[0], v[1], v[2])
  }

  /** The blend as the program writes it, with the complements of the
      factors held in their own variables, is `Bilinear`. */
  lemma BilinearBlend(p: Corners, fx: real, fxInv: real, fy: real, fyInv: real, v: real)
    requires fxInv == 1.0 - fx && fyInv == 1.0 - fy
    requires v == ((p.p00 * fxInv + p.p10 * fx) * fyInv) + ((p.p01 * fxInv + p.p11 * fx) * fy)
    ensures v == Bilinear(p, fx, fy)
  {
  }

  /** The value and gradient as the program writes them, with the corner
      differences and the complements of the factors in their own variables,
      are `Interpolate`. */
  lemma SampleBlend(p: Corners, fx: real, fxInv: real, fy: real, fyInv: real,
                    dx1: real, dx2: real, dy1: real, dy2: real, s: Sample)
    requires fxInv == 1.0 - fx && fyInv == 1.0 - fy
    requires dx1 == p.p00 - p.p10 && dx2 == p.p01 - p.p11 && dy1 == p.p00 - p.p01 && dy2 == p.p10 - p.p11
    requires s == Sample(((p.p00 * fxInv + p.p10 * fx) * fyInv) + ((p.p01 * fxInv + p.p11 * fx) * fy),
                         -((dx1 * fyInv) + (dx2 * fy)), -((dy1 * fxInv) + (dy2 * fx)))
    ensures s == Interpolate(p, fx, fy)
  {
  }

  /** Entry by entry, `g[k] += j[k] * r` is `g + r j`. */
  lemma GradientUpdate(g: Vec3, r: real, j: Vec3, d0: real, d1: real, d2: real)
    requires d0 == g.x + j.x * r && d1 == g.y + j.y * r && d2 == g.z + j.z * r
    ensures Vec3(d0, d1, d2) == Add3(g, Scale3(r, j))
  {
  }

  /** Entry by entry on the upper triangle, `H += j j^T` of a symmetric H. */
  lemma HessianUpdate(h: Mat3, j: Vec3, d00: real, d11: real, d22: real, d01: real, d02: real, d12: real)
    requires h.Symmetric()
    requires d00 == h.a00 + Sqr(j.x) && d11 == h.a11 + Sqr(j.y) && d22 == h.a22 + Sqr(j.z)
    requires d01 == h.a01 + j.x * j.y && d02 == h.a02 + j.x * j.z && d12 == h.a12 + j.y * j.z
    ensures Mat3(d00, d01, d02, d01, d11, d12, d02, d12, d22) == AddM(h, Outer(j, j))
  {
  }
}
