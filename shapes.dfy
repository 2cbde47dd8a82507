/**
 * The coordinate computations of the two path helpers in
 * src/QuoteMaking/Shapes/index.ts: the clamped corner radius of `roundRect`
 * and the three vertices of the triangle `drawBalloonArrow` fills.
 */
module Shapes {

  datatype Point = Point(x: real, y: real)

  /** Which side of the bubble the arrow belongs to. */
  datatype Side = Left | Right

  /**
   * `Math.min(r, w / 2, h / 2)`: the largest radius that is at most the
   * requested one and at most half of each side.
   */
  function CornerRadius(r: real, w: real, h: real): (rr: real)
    ensures rr <= r && rr <= w / 2.0 && rr <= h / 2.0
    ensures rr == r || rr == w / 2.0 || rr == h / 2.0
  {
    var m := if r <= w / 2.0 then r else w / 2.0;
    if m <= h / 2.0 then m else h / 2.0
  }

  /** The clamped radius is the greatest lower bound of the three values. */
  lemma CornerRadiusIsGreatest(r: real, w: real, h: real, b: real)
    requires b <= r && b <= w / 2.0 && b <= h / 2.0
    ensures b <= CornerRadius(r, w, h)
  {
  }

  /** Two clamped corners never overlap along a side: `2 * rr` fits in both `w` and `h`. */
  lemma CornerRadiusFits(r: real, w: real, h: real)
    ensures 2.0 * CornerRadius(r, w, h) <= w && 2.0 * CornerRadius(r, w, h) <= h
  {
  }

  /**
   * The triangle of `drawBalloonArrow(ctx, x, y, size, height, side)`, in
   * path order: the corner touching the bubble, the tip, the lower corner.
   */
  function ArrowVertices(x: real, y: real, size: real, height: real, side: Side): (vs: seq<Point>)
    ensures |vs| == 3
    ensures vs[0] == Point(x, y) && vs[2] == Point(x, y + height)
    ensures vs[1].y == y
    ensures side == Left ==> vs[1].x + size == x
    ensures side == Right ==> vs[1].x - size == x
  {
    var tip := if side == Left then x - size else x + size;
    [Point(x, y), Point(tip, y), Point(x, y + height)]
  }

  /** Reflection across the vertical line through `x`. */
  function Mirror(x: real, q: Point): Point {
    Point(2.0 * x - q.x, q.y)
  }

  /**
   * The two sides draw mirror images of one another about the vertical line
   * through the anchor: the tip is `size` away on either side and the two
   * corners coincide.
   */
  lemma ArrowSidesMirror(x: real, y: real, size: real, height: real)
    ensures var l := ArrowVertices(x, y, size, height, Left);
            var r := ArrowVertices(x, y, size, height, Right);
            forall i | 0 <= i < 3 :: Mirror(x, l[i]) == r[i]
  {
    var l := ArrowVertices(x, y, size, height, Left);
    var r := ArrowVertices(x, y, size, height, Right);
    assert Mirror(x, l[0]) == r[0];
    assert Mirror(x, l[1]) == r[1];
    assert Mirror(x, l[2]) == r[2];
  }
}
