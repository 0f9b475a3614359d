/** Bilinear interpolation of the occupancy map, and its analytic gradient,
    read through the cache: `interpMapValue` and
    `interpMapValueWithDerivatives`. This module holds the specification
    functions; the methods that step through the cache are in
    `ScanMatcherUtil`. */
module Interpolation {
  import opened LinAlg
  import opened GridMaps

  /** Contents of the cache: flattened cell index to cached probability. */
  type CacheTable = map<int, real>

  /** The value a read through the cache yields for index `k`: the cached
      entry on a hit, the map's probability on a miss. */
  function Lookup(c: CacheTable, m: GridMap, k: int): real
    requires 0 <= k < |m.cells|
  {
    if k in c then c[k] else m.cells[k]
  }

  /** The cache after one read through index `k`: a miss stores the map's
      probability, a hit changes nothing. */
  function Fetch(c: CacheTable, m: GridMap, k: int): (c': CacheTable)
    requires 0 <= k < |m.cells|
    ensures k in c' && c'[k] == Lookup(c, m, k)
    ensures forall j :: j in c ==> j in c' && c'[j] == c[j]
    ensures forall j :: j != k ==> (j in c' <==> j in c)
  {
    if k in c then c else c[k := m.cells[k]]
  }

  ghost predicate IndicesOnMap(m: GridMap, ks: seq<int>) {
    forall i :: 0 <= i < |ks| ==> 0 <= ks[i] < |m.cells|
  }

  /** The cache after reading through `ks`, in order. */
  function FetchAll(c: CacheTable, m: GridMap, ks: seq<int>): CacheTable
    requires IndicesOnMap(m, ks)
    decreases |ks|
  {
    if ks == [] then c else FetchAll(Fetch(c, m, ks[0]), m, ks[1..])
  }

  /** Every cached entry agrees with the map. */
  ghost predicate Consistent(c: CacheTable, m: GridMap) {
    forall k :: k in c ==> 0 <= k < |m.cells| && c[k] == m.cells[k]
  }

  /** Reading through `ks` caches exactly the indices of `ks` in addition to
      what was cached, never overwrites an entry, stores the map's value on a
      miss, and so keeps a consistent cache consistent. */
  lemma {:induction false} FetchAllCaches(c: CacheTable, m: GridMap, ks: seq<int>)
    requires IndicesOnMap(m, ks)
    ensures FetchAll(c, m, ks).Keys == c.Keys + (set i | 0 <= i < |ks| :: ks[i])
    ensures forall j :: j in c ==> FetchAll(c, m, ks)[j] == c[j]
    ensures forall j :: j in FetchAll(c, m, ks) && j !in c ==> 0 <= j < |m.cells| && FetchAll(c, m, ks)[j] == m.cells[j]
    ensures Consistent(c, m) ==> Consistent(FetchAll(c, m, ks), m)
    decreases |ks|
  {
    if ks != [] {
      var c1 := Fetch(c, m, ks[0]);
      FetchAllCaches(c1, m, ks[1..]);
      var rest := set i | 0 <= i < |ks[1..]| :: ks[1..][i];
      var all := set i | 0 <= i < |ks| :: ks[i];
      assert all == {ks[0]} + rest by {
        forall k | k in all ensures k in {ks[0]} + rest {
          var i :| 0 <= i < |ks| && ks[i] == k;
          if i > 0 { assert ks[1..][i - 1] == k; }
        }
        forall k | k in rest ensures k in all {
          var i :| 0 <= i < |ks[1..]| && ks[1..][i] == k;
          assert ks[i + 1] == k;
        }
      }
    }
  }

  /** A read-through never changes the value seen at any index. */
  lemma {:induction false} LookupAfterFetchAll(c: CacheTable, m: GridMap, ks: seq<int>, j: int)
    requires IndicesOnMap(m, ks) && 0 <= j < |m.cells|
    ensures Lookup(FetchAll(c, m, ks), m, j) == Lookup(c, m, j)
    decreases |ks|
  {
    if ks != [] {
      LookupAfterFetch(c, m, ks[0], j);
      LookupAfterFetchAll(Fetch(c, m, ks[0]), m, ks[1..], j);
    }
  }

  /** A read-through leaves the value seen at every index unchanged. */
  lemma LookupAfterFetch(c: CacheTable, m: GridMap, k: int, j: int)
    requires 0 <= k < |m.cells| && 0 <= j < |m.cells|
    ensures Lookup(Fetch(c, m, k), m, j) == Lookup(c, m, j)
  {
  }

  /** Four read-throughs in a row are `FetchAll` over the four indices. */
  lemma FetchFour(c: CacheTable, m: GridMap, ks: seq<int>)
    requires |ks| == 4 && IndicesOnMap(m, ks)
    ensures FetchAll(c, m, ks) == Fetch(Fetch(Fetch(Fetch(c, m, ks[0]), m, ks[1]), m, ks[2]), m, ks[3])
  {
    var c1 := Fetch(c, m, ks[0]);
    var c2 := Fetch(c1, m, ks[1]);
    var c3 := Fetch(c2, m, ks[2]);
    assert ks[1..][1..][1..][1..] == [];
    assert FetchAll(c3, m, ks[1..][1..][1..]) == Fetch(c3, m, ks[3]);
    assert FetchAll(c2, m, ks[1..][1..]) == FetchAll(c3, m, ks[1..][1..][1..]);
  }

  /** The four corner probabilities P00, P10, P01, P11. */
  datatype Corners = Corners(p00: real, p10: real, p01: real, p11: real)

  /** The interpolated value and its two partial derivatives, [M, dM/dx, dM/dy]. */
  datatype Sample = Sample(value: real, dx: real, dy: real)

  /** Bilinear blend of the corners with fractional offsets `fx`, `fy`. */
  function Bilinear(p: Corners, fx: real, fy: real): real {
    ((p.p00 * (1.0 - fx) + p.p10 * fx) * (1.0 - fy)) + ((p.p01 * (1.0 - fx) + p.p11 * fx) * fy)
  }

  /** The x component the source returns: the negated x differences
      `dx1 = P00 - P10`, `dx2 = P01 - P11` weighted with the y offsets. */
  function GradX(p: Corners, fy: real): real {
    -(((p.p00 - p.p10) * (1.0 - fy)) + ((p.p01 - p.p11) * fy))
  }

  /** The y component the source returns: the negated y differences
      `dy1 = P00 - P01`, `dy2 = P10 - P11` weighted with the x offsets. */
  function GradY(p: Corners, fx: real): real {
    -(((p.p00 - p.p01) * (1.0 - fx)) + ((p.p10 - p.p11) * fx))
  }

  function Interpolate(p: Corners, fx: real, fy: real): Sample {
    Sample(Bilinear(p, fx, fy), GradX(p, fy), GradY(p, fx))
  }

  /** The interpolant passes through the four corners. */
  lemma BilinearAtCorners(p: Corners)
    ensures Bilinear(p, 0.0, 0.0) == p.p00 && Bilinear(p, 1.0, 0.0) == p.p10
    ensures Bilinear(p, 0.0, 1.0) == p.p01 && Bilinear(p, 1.0, 1.0) == p.p11
  {
  }

  /** The gradient the source returns is the exact rate of change of the
      interpolant: moving by `h` along x changes the value by `h * GradX`, and
      along y by `h * GradY` (the interpolant is affine along each axis). */
  lemma GradientIsSlope(p: Corners, fx: real, fy: real, h: real)
    ensures Bilinear(p, fx + h, fy) == Bilinear(p, fx, fy) + h * GradX(p, fy)
    ensures Bilinear(p, fx, fy + h) == Bilinear(p, fx, fy) + h * GradY(p, fx)
  {
    SlopeIdentity(p.p00, p.p10, p.p01, p.p11, fx, fy, h,
                  Bilinear(p, fx + h, fy), Bilinear(p, fx, fy + h), Bilinear(p, fx, fy),
                  GradX(p, fy), GradY(p, fx));
  }

  lemma SlopeIdentity(a: real, b: real, c: real, d: real, fx: real, fy: real, h: real,
                      vx: real, vy: real, v: real, gx: real, gy: real)
    requires vx == ((a * (1.0 - (fx + h)) + b * (fx + h)) * (1.0 - fy)) + ((c * (1.0 - (fx + h)) + d * (fx + h)) * fy)
    requires vy == ((a * (1.0 - fx) + b * fx) * (1.0 - (fy + h))) + ((c * (1.0 - fx) + d * fx) * (fy + h))
    requires v == ((a * (1.0 - fx) + b * fx) * (1.0 - fy)) + ((c * (1.0 - fx) + d * fx) * fy)
    requires gx == -(((a - b) * (1.0 - fy)) + ((c - d) * fy))
    requires gy == -(((a - c) * (1.0 - fx)) + ((b - d) * fx))
    ensures vx == v + h * gx && vy == v + h * gy
  {
  }

  /** A uniform neighbourhood interpolates to its value with a zero gradient. */
  lemma UniformCorners(v: real, fx: real, fy: real)
    ensures Interpolate(Corners(v, v, v, v), fx, fy) == Sample(v, 0.0, 0.0)
  {
    UniformIdentity(v, fx, fy, Bilinear(Corners(v, v, v, v), fx, fy));
  }

  lemma UniformIdentity(v: real, fx: real, fy: real, b: real)
    requires b == ((v * (1.0 - fx) + v * fx) * (1.0 - fy)) + ((v * (1.0 - fx) + v * fx) * fy)
    ensures b == v
  {
  }

  /** With offsets in [0, 1] the interpolant stays within the corners' bounds. */
  lemma BilinearBounds(p: Corners, fx: real, fy: real, lo: real, hi: real)
    requires 0.0 <= fx <= 1.0 && 0.0 <= fy <= 1.0
    requires lo <= p.p00 <= hi && lo <= p.p10 <= hi && lo <= p.p01 <= hi && lo <= p.p11 <= hi
    ensures lo <= Bilinear(p, fx, fy) <= hi
  {
    var bottom := p.p00 * (1.0 - fx) + p.p10 * fx;
    var top := p.p01 * (1.0 - fx) + p.p11 * fx;
    LerpBounds(p.p00, p.p10, fx, lo, hi, bottom);
    LerpBounds(p.p01, p.p11, fx, lo, hi, top);
    LerpBounds(bottom, top, fy, lo, hi, Bilinear(p, fx, fy));
  }

  lemma LerpBounds(a: real, b: real, t: real, lo: real, hi: real, r: real)
    requires 0.0 <= t <= 1.0 && lo <= a <= hi && lo <= b <= hi
    requires r == a * (1.0 - t) + b * t
    ensures lo <= r <= hi
  {
    assert r - lo == (a - lo) * (1.0 - t) + (b - lo) * t;
    assert hi - r == (hi - a) * (1.0 - t) + (hi - b) * t;
    MulNonneg(a - lo, 1.0 - t);
    MulNonneg(b - lo, t);
    MulNonneg(hi - a, 1.0 - t);
    MulNonneg(hi - b, t);
  }

  /** The fractional offset of a coordinate from its truncated cell,
      `coords - indMin.cast<float>()`. */
  function Frac(r: real): (f: real)
    ensures 0.0 <= r ==> 0.0 <= f < 1.0
  {
    r - TruncToInt(r) as real
  }

  /** The corner values read through cache `c` for an in-bounds coordinate. */
  function CornerValues(c: CacheTable, m: GridMap, q: Vec2): Corners
    requires WellFormed(m) && !m.outOfBounds(q)
  {
    CornerIndicesOnMap(m, q);
    var ks := CornerIndices(m, q);
    Corners(Lookup(c, m, ks[0]), Lookup(c, m, ks[1]), Lookup(c, m, ks[2]), Lookup(c, m, ks[3]))
  }

  /** The map's own corner probabilities, read by cell coordinates. */
  function MapCorners(m: GridMap, q: Vec2): Corners
    requires WellFormed(m) && !m.outOfBounds(q)
  {
    var x0, y0 := TruncToInt(q.x), TruncToInt(q.y);
    Corners(GridProbability(m, x0, y0), GridProbability(m, x0 + 1, y0),
            GridProbability(m, x0, y0 + 1), GridProbability(m, x0 + 1, y0 + 1))
  }

  /** The interpolated map value with no cache in between: the reference the
      cached reads are compared with. */
  function MapValue(m: GridMap, q: Vec2): real
    requires WellFormed(m)
  {
    if m.outOfBounds(q) then 0.0 else Bilinear(MapCorners(m, q), Frac(q.x), Frac(q.y))
  }

  function MapSample(m: GridMap, q: Vec2): Sample
    requires WellFormed(m)
  {
    if m.outOfBounds(q) then Sample(0.0, 0.0, 0.0) else Interpolate(MapCorners(m, q), Frac(q.x), Frac(q.y))
  }

  /** `interpMapValue` on cache `c`: 0 outside the map, otherwise the
      bilinear blend of the corners read through the cache. */
  function InterpValue(c: CacheTable, m: GridMap, q: Vec2): (v: real)
    requires WellFormed(m)
    ensures m.outOfBounds(q) ==> v == 0.0
  {
    if m.outOfBounds(q) then 0.0 else Bilinear(CornerValues(c, m, q), Frac(q.x), Frac(q.y))
  }

  /** `interpMapValueWithDerivatives` on cache `c`; its first component is
      `interpMapValue` on the same cache. */
  function InterpSample(c: CacheTable, m: GridMap, q: Vec2): (s: Sample)
    requires WellFormed(m)
    ensures s.value == InterpValue(c, m, q)
    ensures m.outOfBounds(q) ==> s == Sample(0.0, 0.0, 0.0)
  {
    if m.outOfBounds(q) then Sample(0.0, 0.0, 0.0)
    else Interpolate(CornerValues(c, m, q), Frac(q.x), Frac(q.y))
  }

  /** The cache after one interpolation: outside the map it is untouched;
      inside, the four corners are cached, no existing entry changes, and a
      consistent cache stays consistent. */
  function FillCorners(c: CacheTable, m: GridMap, q: Vec2): (c': CacheTable)
    requires WellFormed(m)
    ensures m.outOfBounds(q) ==> c' == c
    ensures !m.outOfBounds(q) ==> c'.Keys == c.Keys + (set i | 0 <= i < 4 :: CornerIndices(m, q)[i])
    ensures forall k :: k in c ==> k in c' && c'[k] == c[k]
    ensures Consistent(c, m) ==> Consistent(c', m)
  {
    if m.outOfBounds(q) then c
    else
      CornerIndicesOnMap(m, q);
      FetchAllCaches(c, m, CornerIndices(m, q));
      FetchAll(c, m, CornerIndices(m, q))
  }

  /** Reading through a cache that agrees with the map is the same as reading
      the map: the value and gradient equal the cache-free reference. */
  lemma ConsistentCacheIsTransparent(c: CacheTable, m: GridMap, q: Vec2)
    requires WellFormed(m) && Consistent(c, m)
    ensures InterpValue(c, m, q) == MapValue(m, q)
    ensures InterpSample(c, m, q) == MapSample(m, q)
  {
    if !m.outOfBounds(q) {
      CornerIndicesOnMap(m, q);
      var x0, y0 := TruncToInt(q.x), TruncToInt(q.y);
      CellIndexOnMap(m, x0 + 1, y0 + 1);
      assert CornerValues(c, m, q) == MapCorners(m, q);
    }
  }

  /** After a reset (an empty cache) every read reflects the map as it is now. */
  lemma ResetCacheReadsCurrentMap(m: GridMap, q: Vec2)
    requires WellFormed(m)
    ensures InterpValue(map[], m, q) == MapValue(m, q)
    ensures InterpSample(map[], m, q) == MapSample(m, q)
  {
    ConsistentCacheIsTransparent(map[], m, q);
  }

  /** The hazard a missing reset causes: once all four corners are cached from
      an earlier map, the interpolation returns the earlier map's value even
      though the map (same geometry) has changed since. */
  lemma StaleCacheServesEarlierMap(c: CacheTable, earlier: GridMap, now: GridMap, q: Vec2)
    requires WellFormed(earlier) && WellFormed(now) && Consistent(c, earlier)
    requires now.sizeX == earlier.sizeX && now.sizeY == earlier.sizeY && now.outOfBounds == earlier.outOfBounds
    requires !now.outOfBounds(q)
    requires forall i :: 0 <= i < 4 ==> CornerIndices(now, q)[i] in c
    ensures InterpValue(c, now, q) == MapValue(earlier, q)
  {
    CornerIndicesOnMap(earlier, q);
    ConsistentCacheIsTransparent(c, earlier, q);
    assert CornerValues(c, now, q) == CornerValues(c, earlier, q);
  }

  /** Interpolation is exact at grid points: at integer coordinates the value
      is the cell's probability. */
  lemma ExactAtGridPoints(m: GridMap, x: int, y: int)
    requires WellFormed(m) && 0 <= x && 0 <= y && !m.outOfBounds(Vec2(x as real, y as real))
    ensures 0 <= x < m.sizeX && 0 <= y < m.sizeY
    ensures MapValue(m, Vec2(x as real, y as real)) == GridProbability(m, x, y)
  {
    var q := Vec2(x as real, y as real);
    assert TruncToInt(q.x) == x && TruncToInt(q.y) == y;
    assert Frac(q.x) == 0.0 && Frac(q.y) == 0.0;
    BilinearAtCorners(MapCorners(m, q));
  }

  /** On a map whose cells all hold `v`, every in-bounds point interpolates to
      `v` with a zero gradient. */
  lemma UniformMap(m: GridMap, v: real, q: Vec2)
    requires WellFormed(m) && !m.outOfBounds(q)
    requires forall k :: 0 <= k < |m.cells| ==> m.cells[k] == v
    ensures MapSample(m, q) == Sample(v, 0.0, 0.0)
  {
    var x0, y0 := TruncToInt(q.x), TruncToInt(q.y);
    CellIndexOnMap(m, x0, y0);
    CellIndexOnMap(m, x0 + 1, y0);
    CellIndexOnMap(m, x0, y0 + 1);
    CellIndexOnMap(m, x0 + 1, y0 + 1);
    assert MapCorners(m, q) == Corners(v, v, v, v);
    UniformCorners(v, Frac(q.x), Frac(q.y));
  }

  ghost predicate UnitMap(m: GridMap) {
    forall k :: 0 <= k < |m.cells| ==> 0.0 <= m.cells[k] <= 1.0
  }

  ghost predicate UnitCache(c: CacheTable) {
    forall k :: k in c ==> 0.0 <= c[k] <= 1.0
  }

  /** Probabilities in [0, 1], in the map and in the cache, interpolate to a
      value in [0, 1], and the cache keeps holding probabilities. */
  lemma InterpValueInUnit(c: CacheTable, m: GridMap, q: Vec2)
    requires WellFormed(m) && UnitMap(m) && UnitCache(c)
    ensures 0.0 <= InterpValue(c, m, q) <= 1.0
    ensures UnitCache(FillCorners(c, m, q))
  {
    if !m.outOfBounds(q) {
      CornerIndicesOnMap(m, q);
      var p := CornerValues(c, m, q);
      BilinearBounds(p, Frac(q.x), Frac(q.y), 0.0, 1.0);
      FetchAllCaches(c, m, CornerIndices(m, q));
    }
  }
}
