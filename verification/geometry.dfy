/**
 * Canvas coordinates and the 20-pixel snapping grid of the floor-plan editor.
 * Coordinates are exact reals: the model has no floating-point rounding.
 */
module Geometry {

  /** Pixels per grid cell. */
  const GridSize: real := 20.0

  datatype Point = Point(x: real, y: real)

  /** JavaScript's `Math.round`: the nearest integer, ties toward positive infinity. */
  function Round(v: real): (k: int)
    ensures v - 0.5 < k as real <= v + 0.5
  {
    (v + 0.5).Floor
  }

  /** `c` is an integer multiple of the grid size. */
  predicate OnGrid(c: real) {
    (c / GridSize).Floor as real * GridSize == c
  }

  /** One coordinate of `snapToGrid`: the nearest grid line, ties upward. */
  function SnapCoord(v: real): (c: real)
    ensures OnGrid(c)
    ensures -10.0 < c - v <= 10.0
  {
    Round(v / GridSize) as real * GridSize
  }

  /** The grid line that `SnapCoord` picks is the only one in the half-open window (v - 10, v + 10]. */
  lemma SnapCoordUnique(v: real, g: real)
    requires OnGrid(g) && -10.0 < g - v <= 10.0
    ensures g == SnapCoord(v)
  {
    var m := (g / GridSize).Floor;
    var k := Round(v / GridSize);
    assert g == m as real * GridSize;
    assert SnapCoord(v) == k as real * GridSize;
    assert -20.0 < (m - k) as real * GridSize < 20.0;
    assert m - k == 0;
  }

  /** A coordinate already on the grid does not move. */
  lemma SnapCoordFixesGridLines(g: real)
    requires OnGrid(g)
    ensures SnapCoord(g) == g
  {
    SnapCoordUnique(g, g);
  }

  /** Snapping twice is snapping once. */
  lemma SnapCoordIdempotent(v: real)
    ensures SnapCoord(SnapCoord(v)) == SnapCoord(v)
  {
    SnapCoordFixesGridLines(SnapCoord(v));
  }

  /** A pointer exactly half way between two grid lines goes to the upper one. */
  lemma SnapCoordTieGoesUp(k: int)
    ensures SnapCoord(k as real * GridSize + 10.0) == (k + 1) as real * GridSize
  {
    var g := (k + 1) as real * GridSize;
    assert (g / GridSize).Floor == k + 1;
    SnapCoordUnique(k as real * GridSize + 10.0, g);
  }

  /** `snapToGrid` without its side effect on the pointer indicator. */
  function SnapToGrid(p: Point): (q: Point)
    ensures OnGrid(q.x) && OnGrid(q.y)
    ensures -10.0 < q.x - p.x <= 10.0 && -10.0 < q.y - p.y <= 10.0
  {
    Point(SnapCoord(p.x), SnapCoord(p.y))
  }

  /** A point is snapped to the unique grid point within 10 pixels of it (ties upward) on each axis. */
  lemma SnapToGridUnique(p: Point, q: Point)
    requires OnGrid(q.x) && OnGrid(q.y)
    requires -10.0 < q.x - p.x <= 10.0 && -10.0 < q.y - p.y <= 10.0
    ensures q == SnapToGrid(p)
  {
    SnapCoordUnique(p.x, q.x);
    SnapCoordUnique(p.y, q.y);
  }

  /** Snapping an already snapped point changes nothing. */
  lemma SnapToGridIdempotent(p: Point)
    ensures SnapToGrid(SnapToGrid(p)) == SnapToGrid(p)
  {
    SnapCoordIdempotent(p.x);
    SnapCoordIdempotent(p.y);
  }
}
