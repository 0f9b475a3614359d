# OccGridMapUtil — a verified model of Hector SLAM's scan-matching helper

`OccGridMapUtil` is the part of Hector SLAM's scan matcher that looks at one
occupancy grid. It does five jobs:

- It interpolates the map bilinearly at a continuous map coordinate. Each of
  the four corner cells is read through a read-through cache.
- It sums the scan residual `1 - M` over the scan placed at a pose, and turns
  that sum into a likelihood.
- It accumulates the Gauss-Newton system of the scan: H = JᵀJ and dTr = Jᵀr.
- It estimates the pose covariance from seven sigma poses.
- It converts that covariance from grid cells to world units.

The model has the following modules:

- `LinAlg` (`linalg.dfy`): 3-vectors and 3x3 matrices over `real`, with
  outer products and quadratic forms.
- `GridMaps` (`grid_map.dfy`): the grid as the helper sees it. The grid has
  sizes, cell length, row-major cell probabilities and its own bounds test.
  This module also holds the truncating cast and the flattened index
  arithmetic of the 2x2 neighbourhood.
- `GridCache` (`grid_cache.dfy`): the cache class. It has look up, store and
  reset over a table of cell probabilities keyed by flattened index.
- `Interpolation` (`interpolation.dfy`): specification functions of one
  interpolation. `Lookup` and `Fetch` describe a read-through.
  `InterpValue` and `InterpSample` give the results. `FillCorners` gives the
  cache afterwards. Lemmas cover the corner, gradient, bound and
  cache-transparency properties.
- `ScanMatching` (`scan_matching.dfy`): the scan transformed by a pose, and
  the cache threaded through the scan's points. It also defines the
  residual, the likelihood, and the Jacobian rows and residuals of the scan.
  H and dTr are defined as sums of those rows, with their symmetry and
  positive semi-definiteness proved.
- `Covariance` (`covariance.dfy`): the seven sigma points, the normalised
  weights, the weighted mean and the weighted scatter. Lemmas cover symmetry,
  positive semi-definiteness, invariance under scaling the likelihoods and
  under translating the pose, and the world-unit conversion.
- `ScanMatcherUtil` (`occ_grid_map_util.dfy`): the class `OccGridMapUtil`
  itself. It has the map it matches against, the `intensities` buffer of
  four corner values, and the cache. Its methods follow the source step by
  step: the four read-throughs, the accumulator loops over the scan, the
  in-place updates of the caller's `H` and `dTr`, and the mirroring of the
  upper triangle. Each method is proved equal to the specification functions
  above, and their properties are proved there.

The gradient returned by `interpMapValueWithDerivatives` is the one the code
computes. It pairs the x-differences with the y-factors and the
y-differences with the x-factors. The comments beside it suggest this looks
transposed, but `GradientIsSlope` proves it is the exact partial derivative
of the bilinear blend. The formula left commented out in the code would not
be.

## Model

| member | source | states |
|---|---|---|
| GridMaps.TruncToInt | hector_mapping/include/hector_slam_lib/map/OccGridMapUtil.h:246-247 | the float-to-int cast truncates toward zero: on non-negative coordinates it is the floor (i <= r < i+1), on negative ones the ceiling |
| GridMaps.CellIndexRoundTrip | hector_mapping/include/hector_slam_lib/map/OccGridMapUtil.h:252-254 | the row-major index y*sizeX + x of a cell decodes back to its column x and row y, so distinct cells have distinct indices |
| GridMaps.CellIndexOnMap | hector_mapping/include/hector_slam_lib/map/OccGridMapUtil.h:252-254 | a cell on the map has its index inside the flattened cell array |
| GridMaps.NeighbourhoodIndices | hector_mapping/include/hector_slam_lib/map/OccGridMapUtil.h:254-277 | starting at y0*sizeX+x0 and stepping +1, +(sizeX-1), +1 visits exactly the cells (x0,y0), (x0+1,y0), (x0,y0+1), (x0+1,y0+1) |
| GridMaps.NeighbourhoodIndicesOnMap | hector_mapping/include/hector_slam_lib/map/OccGridMapUtil.h:254-277 | when x0+1 < sizeX and y0+1 < sizeY the four indices are strictly increasing and all within the cell array |
| GridMaps.CornerIndices | hector_mapping/include/hector_slam_lib/map/OccGridMapUtil.h:246-277 | the four flattened indices the interpolation visits, those of `NeighbourhoodIndices` at the truncated cell; `CornerIndicesOnMap` shows they are distinct and on the map |
| GridMaps.CornerIndicesOnMap | hector_mapping/include/hector_slam_lib/map/OccGridMapUtil.h:242-277 | for every coordinate the bounds test admits, the four corner indices are distinct and on the map |
| GridCache.GridMapCache.ContainsCachedData | hector_mapping/include/hector_slam_lib/map/OccGridMapUtil.h:258 | reports whether the index is cached and, if so, yields the cached value |
| GridCache.GridMapCache.CacheData | hector_mapping/include/hector_slam_lib/map/OccGridMapUtil.h:260 | stores the value under the index and keeps every other entry |
| GridCache.GridMapCache.ResetCache | hector_mapping/include/hector_slam_lib/map/OccGridMapUtil.h:376-379 | leaves nothing cached |
| Interpolation.Lookup | hector_mapping/include/hector_slam_lib/map/OccGridMapUtil.h:258-261 | the value one read-through yields: the cached value on a hit, the map's cell on a miss; `Fetch` and `LookupAfterFetchAll` relate it to the cache afterwards |
| Interpolation.Fetch | hector_mapping/include/hector_slam_lib/map/OccGridMapUtil.h:258-261 | after one read-through the index is cached with the value the read saw, every earlier entry is kept, and no other index is added |
| Interpolation.FetchAll | hector_mapping/include/hector_slam_lib/map/OccGridMapUtil.h:258-282 | the cache after read-throughs of the given indices in order; its keys and values are stated by `FetchAllCaches` |
| Interpolation.CornerValues | hector_mapping/include/hector_slam_lib/map/OccGridMapUtil.h:256-282 | the four corner values P00, P10, P01, P11 as the given cache serves them, each a `Lookup` at one of `CornerIndices`; `FetchCorners` shows the code's four reads put exactly these into `intensities` |
| Interpolation.FetchAllCaches | hector_mapping/include/hector_slam_lib/map/OccGridMapUtil.h:258-282 | after a run of read-throughs the cached indices are the old ones plus the visited ones; old entries are unchanged, new ones hold the map's values, and a cache consistent with the map stays consistent |
| Interpolation.LookupAfterFetchAll | hector_mapping/include/hector_slam_lib/map/OccGridMapUtil.h:258-282 | a read-through never changes the value seen at any index, so the order of the four reads does not matter |
| Interpolation.Frac | hector_mapping/include/hector_slam_lib/map/OccGridMapUtil.h:249-250 | for non-negative coordinates the interpolation factor lies in [0, 1) |
| Interpolation.Bilinear | hector_mapping/include/hector_slam_lib/map/OccGridMapUtil.h:284-289 | the blend ((P00 (1-fx) + P10 fx) (1-fy)) + ((P01 (1-fx) + P11 fx) fy); `BilinearAtCorners`, `BilinearBounds` and `GradientIsSlope` state what it means |
| Interpolation.GradX | hector_mapping/include/hector_slam_lib/map/OccGridMapUtil.h:345-361 | the x component of the returned gradient, -((dx1 yFacInv) + (dx2 fy)); `GradientIsSlope` proves it is the exact slope of `Bilinear` along x |
| Interpolation.GradY | hector_mapping/include/hector_slam_lib/map/OccGridMapUtil.h:345-362 | the y component, -((dy1 xFacInv) + (dy2 fx)); `GradientIsSlope` proves it is the exact slope of `Bilinear` along y |
| Interpolation.Interpolate | hector_mapping/include/hector_slam_lib/map/OccGridMapUtil.h:356-363 | the returned triple [M, dM/dx, dM/dy] built from `Bilinear`, `GradX` and `GradY` |
| Interpolation.BilinearAtCorners | hector_mapping/include/hector_slam_lib/map/OccGridMapUtil.h:284-289 | the blend passes through each of the four corner values |
| Interpolation.BilinearBounds | hector_mapping/include/hector_slam_lib/map/OccGridMapUtil.h:284-289 | with factors in [0, 1] the blend lies between any common lower and upper bound of the corners |
| Interpolation.GradientIsSlope | hector_mapping/include/hector_slam_lib/map/OccGridMapUtil.h:345-362 | the gradient as the code computes it is the exact rate of change of the blend: moving by h along x (resp. y) changes the value by exactly h times the x (resp. y) component |
| Interpolation.UniformCorners | hector_mapping/include/hector_slam_lib/map/OccGridMapUtil.h:345-362 | four equal corners v give value v and a gradient of exactly zero |
| Interpolation.InterpValue | hector_mapping/include/hector_slam_lib/map/OccGridMapUtil.h:242-244 | a coordinate the map reports out of bounds yields the sentinel 0 |
| Interpolation.InterpSample | hector_mapping/include/hector_slam_lib/map/OccGridMapUtil.h:295-300 | the value component equals `interpMapValue` on the same cache and map; out of bounds the result is (0, 0, 0) |
| Interpolation.FillCorners | hector_mapping/include/hector_slam_lib/map/OccGridMapUtil.h:242-282 | out of bounds the cache is untouched; in bounds exactly the four corner indices are added, no existing entry changes, and consistency with the map is kept |
| Interpolation.ConsistentCacheIsTransparent | hector_mapping/include/hector_slam_lib/map/OccGridMapUtil.h:256-291 | through a cache whose entries equal the map's cells, value and gradient equal those computed from the map directly |
| Interpolation.ResetCacheReadsCurrentMap | hector_mapping/include/hector_slam_lib/map/OccGridMapUtil.h:376-379 | after a reset, interpolation reads the current map |
| Interpolation.StaleCacheServesEarlierMap | hector_mapping/include/hector_slam_lib/map/OccGridMapUtil.h:258-282 | once the corners are cached from an earlier map, a changed map is not seen until the cache is reset |
| Interpolation.ExactAtGridPoints | hector_mapping/include/hector_slam_lib/map/OccGridMapUtil.h:247-289 | at integer coordinates the value is the probability of that cell |
| Interpolation.UniformMap | hector_mapping/include/hector_slam_lib/map/OccGridMapUtil.h:284-362 | on a map whose cells all hold v, every in-bounds sample is (v, 0, 0) |
| Interpolation.InterpValueInUnit | hector_mapping/include/hector_slam_lib/map/OccGridMapUtil.h:239-291 | with probabilities and cache entries in [0, 1], the value lies in [0, 1] and the cache keeps its entries in [0, 1] |
| ScanMatching.TransformPoint | hector_mapping/include/hector_slam_lib/map/OccGridMapUtil.h:366-369 | `getTransformForState(state) * p`, as used at lines 83 and 222: rotate p by the pose angle, then translate by the pose's (x, y); `TransformRoundTrip` inverts it |
| ScanMatching.TransformRoundTrip | hector_mapping/include/hector_slam_lib/map/OccGridMapUtil.h:366-369 | placing a point by the pose's rotation and translation is undone by the inverse transform whenever sin² + cos² = 1 |
| ScanMatching.CacheAfter | hector_mapping/include/hector_slam_lib/map/OccGridMapUtil.h:218-224 | interpolating along a scan only adds cache entries, never changes one, and keeps a consistent cache consistent |
| ScanMatching.SamplesAlong | hector_mapping/include/hector_slam_lib/map/OccGridMapUtil.h:78-83 | along a scan, the value component of each sample equals the value the residual loop reads at that point |
| ScanMatching.ConsistentCacheAlong | hector_mapping/include/hector_slam_lib/map/OccGridMapUtil.h:218-224 | through a consistent cache each value and sample along a scan equals the map's own |
| ScanMatching.UnitCacheAfter | hector_mapping/include/hector_slam_lib/map/OccGridMapUtil.h:218-224 | with probabilities in [0, 1], a scan leaves every cache entry in [0, 1] |
| ScanMatching.ValuesAlongInUnit | hector_mapping/include/hector_slam_lib/map/OccGridMapUtil.h:218-224 | with probabilities in [0, 1], every value read along a scan lies in [0, 1] |
| ScanMatching.ResidualSumBounds | hector_mapping/include/hector_slam_lib/map/OccGridMapUtil.h:215-226 | the sum of 1 - M over n values in [0, 1] lies in [0, n] |
| ScanMatching.ResidualForState | hector_mapping/include/hector_slam_lib/map/OccGridMapUtil.h:210-227 | the sum of 1 - M over the scan placed at the pose, each point read through the cache the earlier points left; `ConsistentResidual` and `ResidualSumBounds` state what it is |
| ScanMatching.ConsistentResidual | hector_mapping/include/hector_slam_lib/map/OccGridMapUtil.h:210-227 | through a consistent cache the residual equals the residual computed from the map directly |
| ScanMatching.LikelihoodForResidual | hector_mapping/include/hector_slam_lib/map/OccGridMapUtil.h:202-208 | the likelihood l satisfies (1 - l) * n = residual, and lies in [0, 1] whenever the residual lies in [0, n] |
| ScanMatching.LikelihoodForState | hector_mapping/include/hector_slam_lib/map/OccGridMapUtil.h:195-200 | `LikelihoodForResidual` of `ResidualForState` and the scan size |
| ScanMatching.LikelihoodInUnit | hector_mapping/include/hector_slam_lib/map/OccGridMapUtil.h:195-227 | with probabilities and cache entries in [0, 1], the likelihood of a non-empty scan at any pose lies in [0, 1] |
| ScanMatching.UnitCacheAfterStates | hector_mapping/include/hector_slam_lib/map/OccGridMapUtil.h:135-141 | evaluating a run of poses keeps every cache entry in [0, 1] |
| ScanMatching.StateLikelihoodsInUnit | hector_mapping/include/hector_slam_lib/map/OccGridMapUtil.h:135-141 | each likelihood of a run of poses, each evaluated through the cache the previous ones left, lies in [0, 1] |
| ScanMatching.RotDeriv | hector_mapping/include/hector_slam_lib/map/OccGridMapUtil.h:91 | `rotDeriv`, the derivative of M along the pose angle: the gradient dotted with the derivative of the rotated point |
| ScanMatching.PointJacobian | hector_mapping/include/hector_slam_lib/map/OccGridMapUtil.h:83-91 | one Jacobian row [dM/dx, dM/dy, rotDeriv] from the point and its map sample |
| ScanMatching.HessianOf | hector_mapping/include/hector_slam_lib/map/OccGridMapUtil.h:74-108 | H as the code accumulates it: zero, plus the outer product of each Jacobian row; `HessianSymmetric` and `HessianQuadForm` state its properties |
| ScanMatching.GradientOf | hector_mapping/include/hector_slam_lib/map/OccGridMapUtil.h:74-93 | dTr as the code accumulates it: zero, plus each Jacobian row scaled by its residual 1 - M |
| ScanMatching.HessianSymmetric | hector_mapping/include/hector_slam_lib/map/OccGridMapUtil.h:96-108 | JᵀJ is symmetric |
| ScanMatching.HessianQuadForm | hector_mapping/include/hector_slam_lib/map/OccGridMapUtil.h:96-102 | vᵀ(JᵀJ)v is the sum of the squared projections of the Jacobian rows on v, hence never negative |
| ScanMatching.HessianDiagonalNonnegative | hector_mapping/include/hector_slam_lib/map/OccGridMapUtil.h:96-98 | the diagonal of H is non-negative |
| ScanMatching.EmptyScanGivesZeroSystem | hector_mapping/include/hector_slam_lib/map/OccGridMapUtil.h:74-75 | an empty scan leaves H = 0 and dTr = 0 |
| Covariance.SigmaPoints | hector_mapping/include/hector_slam_lib/map/OccGridMapUtil.h:115-131 | there are exactly seven sigma points and the last is the pose itself |
| Covariance.SigmaPointsAlongAxes | hector_mapping/include/hector_slam_lib/map/OccGridMapUtil.h:115-130 | points 2k and 2k+1 are the pose moved by +delta and -delta along axis k, with deltas 1.5 (x), 1.5 (y) and 0.05 (angle) |
| Covariance.SigmaPointsBalanced | hector_mapping/include/hector_slam_lib/map/OccGridMapUtil.h:125-130 | each pair of perturbed points is symmetric about the pose |
| Covariance.SumScaled | hector_mapping/include/hector_slam_lib/map/OccGridMapUtil.h:143 | scaling every likelihood by k scales their sum by k |
| Covariance.WeightsSumToOne | hector_mapping/include/hector_slam_lib/map/OccGridMapUtil.h:143-158 | the weights likelihood_i * invLhNormalizer sum to 1 whenever the likelihood sum is nonzero |
| Covariance.ScatterSymmetric | hector_mapping/include/hector_slam_lib/map/OccGridMapUtil.h:155-160 | a weighted sum of outer products (p - mean)(p - mean)ᵀ is symmetric |
| Covariance.ScatterPositiveSemidefinite | hector_mapping/include/hector_slam_lib/map/OccGridMapUtil.h:155-160 | with non-negative weights it is positive semi-definite |
| Covariance.SigmaMean | hector_mapping/include/hector_slam_lib/map/OccGridMapUtil.h:143-153 | the mean: the likelihood-weighted sum of the sigma points times invLhNormalizer = 1 / sum |
| Covariance.CovarianceOf | hector_mapping/include/hector_slam_lib/map/OccGridMapUtil.h:143-160 | the weighted scatter of the sigma points about `SigmaMean`, with weights likelihood_i * invLhNormalizer; the lemmas below state its symmetry, semi-definiteness and invariances |
| Covariance.CovarianceSymmetric | hector_mapping/include/hector_slam_lib/map/OccGridMapUtil.h:112-166 | the covariance of a pose is symmetric |
| Covariance.CovariancePositiveSemidefinite | hector_mapping/include/hector_slam_lib/map/OccGridMapUtil.h:112-166 | with non-negative likelihoods of positive sum, the covariance is positive semi-definite |
| Covariance.LikelihoodScaleInvariant | hector_mapping/include/hector_slam_lib/map/OccGridMapUtil.h:143-160 | multiplying all seven likelihoods by any c ≠ 0 changes neither the mean nor the covariance |
| Covariance.WeightedSumTranslated | hector_mapping/include/hector_slam_lib/map/OccGridMapUtil.h:149-151 | translating every point by t adds (sum of weights) * t to the weighted sum |
| Covariance.ScatterTranslated | hector_mapping/include/hector_slam_lib/map/OccGridMapUtil.h:157-160 | the scatter depends only on the points' offsets from the mean |
| Covariance.CovarianceTranslationInvariant | hector_mapping/include/hector_slam_lib/map/OccGridMapUtil.h:112-166 | the mean moves with the pose, and the covariance is the same at every pose for the same likelihoods |
| Covariance.UnitLikelihoodsMean | hector_mapping/include/hector_slam_lib/map/OccGridMapUtil.h:143-153 | seven equal likelihoods of 1 sum to 7 and put the mean exactly on the pose |
| Covariance.CovMatrixWorldCoords | hector_mapping/include/hector_slam_lib/map/OccGridMapUtil.h:168-193 | the world-frame matrix is symmetric whatever the input |
| Covariance.WorldCoordsQuadForm | hector_mapping/include/hector_slam_lib/map/OccGridMapUtil.h:175-190 | the conversion is the congruence by diag(l, l, 1) of the lower triangle mirrored: translational entries scale by l², translation-angle entries by l, and the angle entry is unchanged |
| Covariance.WorldCoordsRoundTrip | hector_mapping/include/hector_slam_lib/map/OccGridMapUtil.h:168-193 | converting a symmetric matrix with cell length l and then with 1/l gives it back |
| Covariance.WorldCoordsReadsLowerTriangle | hector_mapping/include/hector_slam_lib/map/OccGridMapUtil.h:178-190 | two inputs with the same lower triangle give the same output |
| ScanMatcherUtil.OccGridMapUtil.constructor | hector_mapping/include/hector_slam_lib/map/OccGridMapUtil.h:44-50 | holds the given map, a fresh empty cache and a fresh four-slot `intensities` buffer |
| ScanMatcherUtil.OccGridMapUtil.GetUnfilteredGridPoint | hector_mapping/include/hector_slam_lib/map/OccGridMapUtil.h:234-237 | the held map's probability at a flattened index inside the cell array |
| ScanMatcherUtil.OccGridMapUtil.FetchIntensity | hector_mapping/include/hector_slam_lib/map/OccGridMapUtil.h:258-261 | one read-through: the cache becomes `Fetch` of the old cache, and only the given slot of `intensities` changes, to the value the read saw |
| ScanMatcherUtil.OccGridMapUtil.FetchCorners | hector_mapping/include/hector_slam_lib/map/OccGridMapUtil.h:252-282 | the four read-throughs in the code's order leave the cache as `FillCorners` of the old one and `intensities` holding the four corners as the old cache saw them |
| ScanMatcherUtil.OccGridMapUtil.InterpMapValue | hector_mapping/include/hector_slam_lib/map/OccGridMapUtil.h:239-291 | returns `InterpValue` on the cache as it was on entry, leaves the cache as `FillCorners` of it, and leaves `intensities` untouched off the map and holding the four corners on it |
| ScanMatcherUtil.OccGridMapUtil.InterpMapValueWithDerivatives | hector_mapping/include/hector_slam_lib/map/OccGridMapUtil.h:295-364 | returns `InterpSample` on the cache as it was on entry, with the gradient of lines 361-362, leaves the cache as `FillCorners` of it, and leaves `intensities` as `InterpMapValue` does |
| ScanMatcherUtil.OccGridMapUtil.ResetCachedData | hector_mapping/include/hector_slam_lib/map/OccGridMapUtil.h:376-379 | empties the cache |
| ScanMatcherUtil.OccGridMapUtil.GetResidualForState | hector_mapping/include/hector_slam_lib/map/OccGridMapUtil.h:210-227 | returns the sum of 1 - M over the transformed scan, each point read through the cache the earlier points left, and leaves the cache as `CacheAfter` the whole scan |
| ScanMatcherUtil.OccGridMapUtil.GetLikelihoodForState | hector_mapping/include/hector_slam_lib/map/OccGridMapUtil.h:195-200 | returns `LikelihoodForResidual` of that residual and the scan size |
| ScanMatcherUtil.OccGridMapUtil.GetCompleteHessianDerivs | hector_mapping/include/hector_slam_lib/map/OccGridMapUtil.h:65-110 | on return H holds JᵀJ in full, with its lower triangle mirrored from the upper one, dTr holds Jᵀr, and the cache holds every corner the scan read |
| ScanMatcherUtil.OccGridMapUtil.MirrorUpper | hector_mapping/include/hector_slam_lib/map/OccGridMapUtil.h:105-108 | the lower triangle of H becomes the mirror image of the upper one, which is kept |
| ScanMatcherUtil.OccGridMapUtil.AccumulateScan | hector_mapping/include/hector_slam_lib/map/OccGridMapUtil.h:77-103 | from zero, the scan loop leaves the upper triangle of H as that of JᵀJ, its lower triangle as it was, and dTr as Jᵀr |
| ScanMatcherUtil.OccGridMapUtil.ScanPoint | hector_mapping/include/hector_slam_lib/map/OccGridMapUtil.h:80-102 | point i adds its Jacobian row's outer product to the upper triangle of H, leaves the lower triangle, adds the row scaled by its residual to dTr, and extends the cache by its corners |
| ScanMatcherUtil.OccGridMapUtil.SamplePoint | hector_mapping/include/hector_slam_lib/map/OccGridMapUtil.h:80-83 | the sample of point i, read through the cache the earlier points left, yields the scan's i-th Jacobian row and residual, and the cache gains the point's corners |
| ScanMatcherUtil.OccGridMapUtil.AccumulatePoint | hector_mapping/include/hector_slam_lib/map/OccGridMapUtil.h:85-102 | the six H and three dTr updates add Outer(j, j) to the upper triangle and (1 - M) j to dTr, for j = (dM/dx, dM/dy, rotDeriv), and leave the lower triangle of H as it was |
| ScanMatcherUtil.OccGridMapUtil.SetZero | hector_mapping/include/hector_slam_lib/map/OccGridMapUtil.h:74-75 | H and dTr become zero |
| ScanMatcherUtil.OccGridMapUtil.GetCovarianceForPose | hector_mapping/include/hector_slam_lib/map/OccGridMapUtil.h:112-166 | returns `CovarianceOf` the pose and the seven likelihoods, each evaluated through the cache the previous evaluations left, and leaves the cache as `CacheAfterStates` of the seven sigma poses |
| ScanMatcherUtil.OccGridMapUtil.SigmaLikelihoods | hector_mapping/include/hector_slam_lib/map/OccGridMapUtil.h:133-141 | the seven likelihood calls, in order, return `StateLikelihoods` of the sigma points and leave the cache as `CacheAfterStates` of them |
| ScanMatcherUtil.OccGridMapUtil.NextLikelihood | hector_mapping/include/hector_slam_lib/map/OccGridMapUtil.h:135-141 | one likelihood call extends the likelihoods and the cache by the next sigma pose's |
| ScanMatcherUtil.OccGridMapUtil.GetCovMatrixWorldCoords | hector_mapping/include/hector_slam_lib/map/OccGridMapUtil.h:168-193 | converts with the held map's cell length; the result is symmetric |

## Left out

- IEEE-754 `float` arithmetic is modelled as exact `real` arithmetic. This includes the `1.5f` and `0.05f` sigma deltas and the `1 / likelihoods.sum()` normaliser. Equalities such as symmetry are exact in the model.
- `sin` and `cos` are parameters (`Trig`). The Eigen `Affine2f` transform of `getTransformForState` is written out as rotation plus translation (`TransformPoint`). `getTranslationForState` (lines 371-374) is not modelled because nothing in the core uses it.
- The occupancy map class is not part of this model. It is a value `GridMap` whose bounds test `pointOutOfMapBounds` is an abstract function. Well-formedness requires that every admitted coordinate is non-negative with its 2x2 neighbourhood on the map. The map-coordinate and world-coordinate pass-throughs at lines 58-62 are not modelled.
- The concrete cache class is not part of this model. It is a table keyed by index with the three operations the helper uses. The constructor's `setMapSize` call (line 49) is not modelled.
- `mapObstacleThreshold` (line 48), the `std::cout` output (line 145), `samplePoints`, `resetSamplePoints` and `getSamplePoints` (lines 381-389) are left out. None of them affects a result.
- `getUnfilteredGridPoint(Vector2i)` (lines 229-232) is left out. The helper only uses the flat-index overload, which is `GetUnfilteredGridPoint`.
- ScanMatching.LikelihoodForResidual: requires a positive point count. The code would divide by zero for an empty scan, and that float result is not modelled.
- ScanMatcherUtil.OccGridMapUtil.GetLikelihoodForState: requires a non-empty scan, for the same reason.
- ScanMatcherUtil.OccGridMapUtil.GetCovarianceForPose: requires the seven likelihoods not to sum to zero. The code would divide by zero there, and that float result is not modelled.
- ScanMatcherUtil.OccGridMapUtil.GetCompleteHessianDerivs: the caller's `dTr` must not alias the helper's own `intensities` buffer. In the code they are distinct objects.
- Covariance.CovMatrixWorldCoords: the cell length is a parameter. The class method `GetCovMatrixWorldCoords` passes it the held map's cell length.
- The loop of `getCompleteHessianDerivs`, its body and its final mirroring are split into helper methods (`AccumulateScan`, `ScanPoint`, `SamplePoint`, `AccumulatePoint`, `MirrorUpper`). Their statements are the code's own, in its order.
- The seven likelihood calls of `getCovarianceForPose` are written as a loop in `SigmaLikelihoods` whose k-th pass makes the k-th call (`NextLikelihood`). The calls and their order are the code's.
- ScanMatcherUtil.OccGridMapUtil.GetResidualForState: does not state what `intensities` holds afterwards. The buffer is scratch: every interpolation writes the corners before it reads them. `GetLikelihoodForState`, `GetCompleteHessianDerivs` and `GetCovarianceForPose` likewise leave it unstated.
- Concurrency: the helper has none.
