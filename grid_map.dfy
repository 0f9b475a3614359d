/** The occupancy grid as the scan matcher sees it: a read-only collaborator
    that answers probability queries by flattened cell index, reports whether
    a continuous map coordinate is out of bounds, and knows its width and cell
    length. Its storage and update logic are outside this model; its bounds
    test is kept abstract (a function carried by the map). */
module GridMaps {
  import opened LinAlg

  /** A snapshot of the map: sizes in cells, cell edge length in world units,
      cell probabilities flattened row-major, and the map's own bounds test. */
  datatype GridMap = GridMap(sizeX: int, sizeY: int, cellLength: real,
                             cells: seq<real>, outOfBounds: Vec2 -> bool)

  /** The C++ float-to-int cast: truncation toward zero. */
  function TruncToInt(r: real): (i: int)
    ensures 0.0 <= r ==> i as real <= r < i as real + 1.0
    ensures r < 0.0 ==> i as real - 1.0 < r <= i as real
  {
    if r >= 0.0 then r.Floor else -((-r).Floor)
  }

  /** The 2x2 neighbourhood whose lower-left cell is the truncated coordinate
      lies on the map. */
  predicate NeighbourhoodOnMap(m: GridMap, q: Vec2) {
    && 0.0 <= q.x && 0.0 <= q.y
    && TruncToInt(q.x) + 1 < m.sizeX
    && TruncToInt(q.y) + 1 < m.sizeY
  }

  /** A map binding the scan matcher can work with: positive dimensions, one
      probability per cell, and a bounds test that admits only coordinates
      whose interpolation neighbourhood is on the map. */
  ghost predicate WellFormed(m: GridMap) {
    && 0 < m.sizeX && 0 < m.sizeY
    && |m.cells| == m.sizeX * m.sizeY
    && forall q :: !m.outOfBounds(q) ==> NeighbourhoodOnMap(m, q)
  }

  /** Row-major flattening of cell (x, y). */
  function CellIndex(m: GridMap, x: int, y: int): int {
    y * m.sizeX + x
  }

  /** Flattening is invertible: division and remainder by the width give the
      cell back. */
  lemma CellIndexRoundTrip(m: GridMap, x: int, y: int)
    requires 0 <= x < m.sizeX && 0 <= y
    ensures CellIndex(m, x, y) / m.sizeX == y
    ensures CellIndex(m, x, y) % m.sizeX == x
  {
    var n := m.sizeX;
    var i := CellIndex(m, x, y);
    var q, r := i / n, i % n;
    assert i == q * n + r && 0 <= r < n;
    QuotientUnique(n, y, x, q, r);
  }

  /** Two decompositions a*n + b with 0 <= b < n agree. */
  lemma QuotientUnique(n: int, a: int, b: int, c: int, d: int)
    requires 0 <= b < n && 0 <= d < n
    requires a * n + b == c * n + d
    ensures a == c && b == d
  {
    if a < c {
      MulAtLeast(c - a, n);
    } else if c < a {
      MulAtLeast(a - c, n);
    }
  }

  lemma MulAtLeast(t: int, n: int)
    requires 1 <= t && 0 < n
    ensures t * n >= n
  {
  }

  /** Every cell of the grid has its index in the probability table. */
  lemma CellIndexOnMap(m: GridMap, x: int, y: int)
    requires |m.cells| == m.sizeX * m.sizeY
    requires 0 <= x < m.sizeX && 0 <= y < m.sizeY
    ensures 0 <= CellIndex(m, x, y) < |m.cells|
  {
    assert y * m.sizeX <= (m.sizeY - 1) * m.sizeX;
  }

  /** The map's probability for cell (x, y), as `getGridProbabilityMap(x, y)`. */
  function GridProbability(m: GridMap, x: int, y: int): real
    requires |m.cells| == m.sizeX * m.sizeY
    requires 0 <= x < m.sizeX && 0 <= y < m.sizeY
  {
    CellIndexOnMap(m, x, y);
    m.cells[CellIndex(m, x, y)]
  }

  /** The four indices the interpolation visits, in the order it visits them:
      start at the lower-left cell, step one right, then `sizeX - 1` (one row
      up and back left), then one right again. They are the cells (x0, y0),
      (x0+1, y0), (x0, y0+1) and (x0+1, y0+1). */
  function NeighbourhoodIndices(m: GridMap, x0: int, y0: int): (ks: seq<int>)
    ensures |ks| == 4
    ensures ks[0] == CellIndex(m, x0, y0)
    ensures ks[1] == CellIndex(m, x0 + 1, y0)
    ensures ks[2] == CellIndex(m, x0, y0 + 1)
    ensures ks[3] == CellIndex(m, x0 + 1, y0 + 1)
  {
    var i := y0 * m.sizeX + x0;
    var right := i + 1;
    var up := right + (m.sizeX - 1);
    [i, right, up, up + 1]
  }

  /** The neighbourhood indices of the truncated coordinate of `q`. */
  function CornerIndices(m: GridMap, q: Vec2): (ks: seq<int>)
    ensures |ks| == 4
  {
    NeighbourhoodIndices(m, TruncToInt(q.x), TruncToInt(q.y))
  }

  /** When the neighbourhood is on the map, its four indices are valid and
      strictly increasing (hence pairwise distinct). */
  lemma NeighbourhoodIndicesOnMap(m: GridMap, x0: int, y0: int)
    requires |m.cells| == m.sizeX * m.sizeY
    requires 0 <= x0 && x0 + 1 < m.sizeX && 0 <= y0 && y0 + 1 < m.sizeY
    ensures var ks := NeighbourhoodIndices(m, x0, y0);
            0 <= ks[0] < ks[1] < ks[2] < ks[3] < |m.cells|
  {
    CellIndexOnMap(m, x0 + 1, y0 + 1);
  }

  /** Every coordinate the bounds test admits has its four corners on the map. */
  lemma CornerIndicesOnMap(m: GridMap, q: Vec2)
    requires WellFormed(m) && !m.outOfBounds(q)
    ensures var ks := CornerIndices(m, q);
            0 <= ks[0] < ks[1] < ks[2] < ks[3] < |m.cells|
  {
    NeighbourhoodIndicesOnMap(m, TruncToInt(q.x), TruncToInt(q.y));
  }
}
