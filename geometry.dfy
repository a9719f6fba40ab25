/** Axis-aligned boxes in canvas coordinates (x grows rightward, y grows
    downward) and the overlap test both games use for every collision. */
module Geometry {

  datatype Rect = Rect(x: real, y: real, width: real, height: real)

  /** `rectIntersect(a, b)`: the two open extents overlap on both axes.
      All four comparisons are strict, so touching edges are no overlap. */
  predicate Intersect(a: Rect, b: Rect)
  {
    a.x < b.x + b.width && a.x + a.width > b.x &&
    a.y < b.y + b.height && a.y + a.height > b.y
  }

  /** The point (px, py) lies strictly inside r. */
  predicate Inside(r: Rect, px: real, py: real)
  {
    r.x < px < r.x + r.width && r.y < py < r.y + r.height
  }

  /** A box with positive extent on both axes. */
  predicate Proper(r: Rect)
  {
    r.width > 0.0 && r.height > 0.0
  }

  function Min(a: real, b: real): real { if a <= b then a else b }
  function Max(a: real, b: real): real { if a <= b then b else a }

  /** The overlap test agrees with the geometric reading: two proper boxes
      intersect exactly when some point lies strictly inside both. */
  lemma IntersectIffSharedInterior(a: Rect, b: Rect)
    requires Proper(a) && Proper(b)
    ensures Intersect(a, b) <==> exists px, py :: Inside(a, px, py) && Inside(b, px, py)
  {
    if Intersect(a, b) {
      var px := (Max(a.x, b.x) + Min(a.x + a.width, b.x + b.width)) / 2.0;
      var py := (Max(a.y, b.y) + Min(a.y + a.height, b.y + b.height)) / 2.0;
      assert Inside(a, px, py) && Inside(b, px, py);
    }
  }

  /** The test does not depend on the order of its arguments. */
  lemma IntersectSymmetric(a: Rect, b: Rect)
    ensures Intersect(a, b) <==> Intersect(b, a)
  {
  }

  /** Boxes that only share a vertical or a horizontal edge do not collide. */
  lemma TouchingEdgesDoNotIntersect(a: Rect, b: Rect)
    requires a.x + a.width == b.x || b.x + b.width == a.x ||
             a.y + a.height == b.y || b.y + b.height == a.y
    ensures !Intersect(a, b)
  {
  }
}
