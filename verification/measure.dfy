/**
 * Wall length and the approximate floor area (`calculateWallLength`, `calculateTotalArea`).
 * `Math.sqrt` is a floating-point library call; here it is the parameter `sqrt`, so only
 * the guards, the sign and the lower bound are stated, not the exact values.
 */
module Measure {
  import opened Walls

  /** Pixels per metre. */
  const PixelsPerMetre: real := 20.0
  /** The smallest area the estimate reports per wall, in square metres. */
  const MinAreaPerWall: real := 12.5

  /** `sqrt` never returns a negative number for a non-negative argument. */
  ghost predicate NonNegativeRoot(sqrt: real -> real) {
    forall v :: 0.0 <= v ==> 0.0 <= sqrt(v)
  }

  function Square(v: real): real { v * v }

  function Max(a: real, b: real): (m: real)
    ensures m >= a && m >= b && (m == a || m == b)
  {
    if a >= b then a else b
  }

  /** `calculateWallLength`: the first segment's Euclidean length in metres; 0 for fewer than 4 coordinates. */
  function WallLength(points: seq<real>, sqrt: real -> real): (len: real)
    ensures |points| < 4 ==> len == 0.0
    ensures NonNegativeRoot(sqrt) ==> len >= 0.0
  {
    if |points| < 4 then 0.0
    else SegmentLength(points[2] - points[0], points[3] - points[1], sqrt)
  }

  /** The length in metres of a segment spanning `dx` by `dy` pixels. */
  function SegmentLength(dx: real, dy: real, sqrt: real -> real): (len: real)
    ensures NonNegativeRoot(sqrt) ==> len >= 0.0
  {
    assert dx * dx >= 0.0 && dy * dy >= 0.0;
    sqrt(dx * dx + dy * dy) / PixelsPerMetre
  }

  /** Only the first four coordinates count: trailing coordinates of a wall do not change its length. */
  lemma WallLengthReadsFirstSegment(points: seq<real>, extra: seq<real>, sqrt: real -> real)
    requires |points| >= 4
    ensures WallLength(points + extra, sqrt) == WallLength(points, sqrt)
  {
    var q := points + extra;
    assert q[2] - q[0] == points[2] - points[0] && q[3] - q[1] == points[3] - points[1];
  }

  /** Moving both endpoints by the same offset does not change the length. */
  lemma WallLengthTranslationInvariant(points: seq<real>, dx: real, dy: real, sqrt: real -> real)
    requires |points| >= 4
    ensures WallLength([points[0] + dx, points[1] + dy, points[2] + dx, points[3] + dy], sqrt) == WallLength(points, sqrt)
  {
    var q := [points[0] + dx, points[1] + dy, points[2] + dx, points[3] + dy];
    assert q[2] - q[0] == points[2] - points[0] && q[3] - q[1] == points[3] - points[1];
  }

  /** `totalLength` after the `forEach` has visited `walls`. */
  function SumLengths(walls: seq<Wall>, sqrt: real -> real): (total: real)
    ensures NonNegativeRoot(sqrt) ==> total >= 0.0
  {
    if walls == [] then 0.0
    else SumLengths(walls[..|walls| - 1], sqrt) + WallLength(walls[|walls| - 1].points, sqrt)
  }

  /**
   * `calculateTotalArea`: 0 for fewer than three walls, otherwise the square of a quarter of the
   * total length, but never less than 12.5 square metres per wall.
   */
  function TotalArea(walls: seq<Wall>, sqrt: real -> real): (area: real)
    ensures |walls| < 3 ==> area == 0.0
    ensures |walls| >= 3 ==> area >= MinAreaPerWall * |walls| as real
    ensures |walls| >= 3 ==> area >= Square(SumLengths(walls, sqrt) / 4.0)
  {
    if |walls| < 3 then 0.0
    else Max(Square(SumLengths(walls, sqrt) / 4.0), |walls| as real * MinAreaPerWall)
  }

  /** Squaring is monotone on the non-negative reals. */
  lemma SquareMonotone(a: real, b: real)
    requires 0.0 <= a <= b
    ensures Square(a) <= Square(b)
  {
    var d := b - a;
    assert a * d >= 0.0;
    assert d * d >= 0.0;
    assert b * b == a * a + 2.0 * (a * d) + d * d;
  }

  /** The area estimate never goes down when a wall is added, as long as lengths are non-negative. */
  lemma {:induction false} TotalAreaGrowsWithWalls(walls: seq<Wall>, w: Wall, sqrt: real -> real)
    requires NonNegativeRoot(sqrt)
    ensures TotalArea(walls + [w], sqrt) >= TotalArea(walls, sqrt)
  {
    var total := SumLengths(walls, sqrt);
    assert (walls + [w])[..|walls|] == walls;
    var total' := SumLengths(walls + [w], sqrt);
    assert total' >= total >= 0.0;
    SquareMonotone(total / 4.0, total' / 4.0);
  }

  /** The loop of `calculateTotalArea`, which sums the wall lengths one wall at a time. */
  method CalculateTotalArea(walls: seq<Wall>, sqrt: real -> real) returns (area: real)
    ensures area == TotalArea(walls, sqrt)
    ensures |walls| >= 3 ==> area >= MinAreaPerWall * |walls| as real
  {
    if |walls| < 3 {
      return 0.0;
    }
    var totalLength := 0.0;
    for i := 0 to |walls|
      invariant totalLength == SumLengths(walls[..i], sqrt)
    {
      assert walls[..i + 1][..i] == walls[..i];
      totalLength := totalLength + WallLength(walls[i].points, sqrt);
    }
    assert walls[..|walls|] == walls;
    var estimatedArea := Square(totalLength / 4.0);
    area := Max(estimatedArea, |walls| as real * MinAreaPerWall);
  }
}
