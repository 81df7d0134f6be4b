/** Axis-aligned rectangles and the overlap test used for every collision. */
module Geometry {

  datatype Rect = Rect(x: real, y: real, width: real, height: real)

  /** The box test of `checkCollision`: strict on all four sides, so rectangles that
      only share an edge do not overlap. */
  predicate Overlaps(a: Rect, b: Rect) {
    && a.x < b.x + b.width
    && a.x + a.width > b.x
    && a.y < b.y + b.height
    && a.y + a.height > b.y
  }

  /** The point (px, py) lies strictly inside r. */
  predicate Inside(r: Rect, px: real, py: real) {
    r.x < px < r.x + r.width && r.y < py < r.y + r.height
  }

  function Max(a: real, b: real): real { if a < b then b else a }
  function Min(a: real, b: real): real { if a < b then a else b }

  lemma OverlapsSymmetric(a: Rect, b: Rect)
    ensures Overlaps(a, b) <==> Overlaps(b, a)
  {
  }

  /** Touching along a vertical or horizontal edge is not a collision. */
  lemma EdgeContactIsNotOverlap(a: Rect, b: Rect)
    requires a.x + a.width == b.x || b.x + b.width == a.x
          || a.y + a.height == b.y || b.y + b.height == a.y
    ensures !Overlaps(a, b)
  {
  }

  /** For rectangles of positive size the test is exactly "some point lies
      strictly inside both". */
  lemma OverlapIffSharedInteriorPoint(a: Rect, b: Rect)
    requires a.width > 0.0 && a.height > 0.0 && b.width > 0.0 && b.height > 0.0
    ensures Overlaps(a, b) <==> exists px, py :: Inside(a, px, py) && Inside(b, px, py)
  {
    if Overlaps(a, b) {
      var px := (Max(a.x, b.x) + Min(a.x + a.width, b.x + b.width)) / 2.0;
      var py := (Max(a.y, b.y) + Min(a.y + a.height, b.y + b.height)) / 2.0;
      assert Inside(a, px, py) && Inside(b, px, py);
    }
  }
}
