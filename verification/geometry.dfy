/**
 Points, boxes and the local coordinate frame of an edge.

 A piece edge runs from `p1` to `p2`, and `len` is its length. The frame of
 the edge has one axis along the unit direction `(p2 - p1) / len` and one
 along the unit normal `(dir.y, -dir.x)`: the direction turned a quarter turn
 counter-clockwise as drawn in the y-down coordinates of SVG (clockwise in
 y-up axes), so it points to the left of travel on screen.
 `FramePoint(p1, p2, len, a, s)` is the point `a` units along the edge from
 `p1` and `s` units off it; `Along` and `Offset` read those two coordinates
 back from any point.
 */
module Geometry {

  datatype Point = Point(x: real, y: real)

  const Origin: Point := Point(0.0, 0.0)

  function Translate(p: Point, v: Point): Point {
    Point(p.x + v.x, p.y + v.y)
  }

  /** The closed axis-aligned rectangle [minX, maxX] × [minY, maxY]. */
  datatype Box = Box(minX: real, minY: real, maxX: real, maxY: real)

  predicate InBox(p: Point, b: Box) {
    b.minX <= p.x <= b.maxX && b.minY <= p.y <= b.maxY
  }

  predicate StrictlyInside(p: Point, b: Box) {
    b.minX < p.x < b.maxX && b.minY < p.y < b.maxY
  }

  /** The box grown by `margin` on all four sides. */
  function Pad(b: Box, margin: real): Box {
    Box(b.minX - margin, b.minY - margin, b.maxX + margin, b.maxY + margin)
  }

  function Sq(a: real): real { a * a }

  /** `len` is the Euclidean distance from `p1` to `p2`. It stands in for the
      square root the source takes: the model never computes one. */
  predicate IsDistance(p1: Point, p2: Point, len: real) {
    len >= 0.0 && Sq(len) == Sq(p2.x - p1.x) + Sq(p2.y - p1.y)
  }

  /** The unit vector from `p1` towards `p2`. */
  function Direction(p1: Point, p2: Point, len: real): Point
    requires len > 0.0
  {
    Point((p2.x - p1.x) / len, (p2.y - p1.y) / len)
  }

  /** `d` turned a quarter turn counter-clockwise as drawn with y growing
      downwards (clockwise in y-up axes): to the left of travel on screen. */
  function Normal(d: Point): Point {
    Point(d.y, -d.x)
  }

  function FramePoint(p1: Point, p2: Point, len: real, a: real, s: real): Point
    requires len > 0.0
  {
    var d := Direction(p1, p2, len);
    Point(p1.x + a * d.x + s * Normal(d).x, p1.y + a * d.y + s * Normal(d).y)
  }

  /** How far along the edge `q` projects. */
  function Along(p1: Point, p2: Point, len: real, q: Point): real
    requires len > 0.0
  {
    var d := Direction(p1, p2, len);
    (q.x - p1.x) * d.x + (q.y - p1.y) * d.y
  }

  /** The signed distance of `q` from the baseline, positive on the side the
      normal points to. */
  function Offset(p1: Point, p2: Point, len: real, q: Point): real
    requires len > 0.0
  {
    var d := Direction(p1, p2, len);
    (q.x - p1.x) * Normal(d).x + (q.y - p1.y) * Normal(d).y
  }

  // Small facts of real arithmetic, each stated over plain variables so
  // that the solver sees one nonlinear step at a time.

  lemma ZeroProduct(y: real, len: real)
    requires len > 0.0
    requires y * len == 0.0
    ensures y == 0.0
  {}

  lemma ZeroProductSquare(x: real, len: real)
    requires len > 0.0
    requires x * Sq(len) == 0.0
    ensures x == 0.0
  {
    assert (x * len) * len == 0.0;
    ZeroProduct(x * len, len);
    ZeroProduct(x, len);
  }

  lemma ScaledSquares(ux: real, uy: real, len: real, dx: real, dy: real)
    requires ux * len == dx && uy * len == dy
    ensures (Sq(ux) + Sq(uy) - 1.0) * Sq(len) == Sq(dx) + Sq(dy) - Sq(len)
  {}

  lemma UnitFromScaled(ux: real, uy: real, len: real, dx: real, dy: real)
    requires len > 0.0 && ux * len == dx && uy * len == dy
    requires Sq(len) == Sq(dx) + Sq(dy)
    ensures Sq(ux) + Sq(uy) == 1.0
  {
    ScaledSquares(ux, uy, len, dx, dy);
    ZeroProductSquare(Sq(ux) + Sq(uy) - 1.0, len);
  }

  /** The direction of an edge has length one. */
  lemma UnitDirection(p1: Point, p2: Point, len: real)
    requires IsDistance(p1, p2, len) && len > 0.0
    ensures Sq(Direction(p1, p2, len).x) + Sq(Direction(p1, p2, len).y) == 1.0
  {
    UnitFromScaled((p2.x - p1.x) / len, (p2.y - p1.y) / len, len, p2.x - p1.x, p2.y - p1.y);
  }

  lemma FrameAlgebra(px: real, py: real, a: real, s: real, u: real, v: real)
    requires Sq(u) + Sq(v) == 1.0
    ensures ((px + a * u + s * v) - px) * u + ((py + a * v - s * u) - py) * v == a
    ensures ((px + a * u + s * v) - px) * v + ((py + a * v - s * u) - py) * -u == s
  {
    assert ((px + a * u + s * v) - px) * u + ((py + a * v - s * u) - py) * v == a * (Sq(u) + Sq(v));
    assert ((px + a * u + s * v) - px) * v + ((py + a * v - s * u) - py) * -u == s * (Sq(u) + Sq(v));
  }

  lemma ProjectionAlgebra(ux: real, uy: real, u: real, v: real)
    requires Sq(u) + Sq(v) == 1.0
    ensures (ux * u + uy * v) * u + (ux * v + uy * -u) * v == ux
    ensures (ux * u + uy * v) * v + (ux * v + uy * -u) * -u == uy
  {
    assert (ux * u + uy * v) * u + (ux * v + uy * -u) * v == ux * (Sq(u) + Sq(v));
    assert (ux * u + uy * v) * v + (ux * v + uy * -u) * -u == uy * (Sq(u) + Sq(v));
  }

  /** Reading back the frame coordinates of a frame point gives the
      coordinates it was built from. */
  lemma FrameCoordinates(p1: Point, p2: Point, len: real, a: real, s: real)
    requires IsDistance(p1, p2, len) && len > 0.0
    ensures Along(p1, p2, len, FramePoint(p1, p2, len, a, s)) == a
    ensures Offset(p1, p2, len, FramePoint(p1, p2, len, a, s)) == s
  {
    var d := Direction(p1, p2, len);
    UnitDirection(p1, p2, len);
    AxisFrame(p1, p2, len, a, s, d.x, d.y);
    FrameAlgebra(p1.x, p1.y, a, s, d.x, d.y);
  }

  /** Every point is the frame point of its own frame coordinates. */
  lemma FrameComplete(p1: Point, p2: Point, len: real, q: Point)
    requires IsDistance(p1, p2, len) && len > 0.0
    ensures FramePoint(p1, p2, len, Along(p1, p2, len, q), Offset(p1, p2, len, q)) == q
  {
    var d := Direction(p1, p2, len);
    UnitDirection(p1, p2, len);
    ProjectionAlgebra(q.x - p1.x, q.y - p1.y, d.x, d.y);
  }

  /** Two points with the same frame coordinates are the same point. */
  lemma FrameUnique(p1: Point, p2: Point, len: real, q: Point, q': Point)
    requires IsDistance(p1, p2, len) && len > 0.0
    requires Along(p1, p2, len, q) == Along(p1, p2, len, q')
    requires Offset(p1, p2, len, q) == Offset(p1, p2, len, q')
    ensures q == q'
  {
    FrameComplete(p1, p2, len, q);
    FrameComplete(p1, p2, len, q');
  }

  lemma ScaleBack(d: real, len: real)
    requires len > 0.0
    ensures (d / len) * len == d
  {}

  /** The edge ends `len` units along its own direction. */
  lemma FrameEnds(p1: Point, p2: Point, len: real)
    requires len > 0.0
    ensures FramePoint(p1, p2, len, 0.0, 0.0) == p1
    ensures FramePoint(p1, p2, len, len, 0.0) == p2
  {
    ScaleBack(p2.x - p1.x, len);
    ScaleBack(p2.y - p1.y, len);
  }

  /** Walking the edge backwards flips both frame axes: `a` units from `p2`
      is `len - a` units from `p1`, and the normal turns around. */
  lemma FrameReversed(p1: Point, p2: Point, len: real, a: real, s: real)
    requires len > 0.0
    ensures FramePoint(p2, p1, len, a, s) == FramePoint(p1, p2, len, len - a, -s)
  {
    var d := Direction(p1, p2, len);
    assert Direction(p2, p1, len) == Point(-d.x, -d.y);
    FrameEnds(p1, p2, len);
    assert p2.x == p1.x + len * d.x && p2.y == p1.y + len * d.y;
  }

  /** The frame point written with the direction's coordinates `(u, v)`. */
  lemma AxisFrame(p1: Point, p2: Point, len: real, a: real, s: real, u: real, v: real)
    requires len > 0.0 && Direction(p1, p2, len) == Point(u, v)
    ensures FramePoint(p1, p2, len, a, s) == Point(p1.x + a * u + s * v, p1.y + a * v - s * u)
  {}

  /** The frame moves with its edge. */
  lemma FrameTranslated(p1: Point, p2: Point, len: real, a: real, s: real, v: Point)
    requires len > 0.0
    ensures FramePoint(Translate(p1, v), Translate(p2, v), len, a, s)
         == Translate(FramePoint(p1, p2, len, a, s), v)
  {
    var d := Direction(p1, p2, len);
    assert Direction(Translate(p1, v), Translate(p2, v), len) == d;
    AxisFrame(p1, p2, len, a, s, d.x, d.y);
    AxisFrame(Translate(p1, v), Translate(p2, v), len, a, s, d.x, d.y);
  }

  // ---------------------------------------------------------------------
  // Cubic Bézier curves

  /** The point at parameter `t` of the cubic Bézier curve from `q0` to `q3`
      with control points `q1` and `q2` (Bernstein form). */
  function CurvePoint(q0: Point, q1: Point, q2: Point, q3: Point, t: real): Point {
    var u := 1.0 - t;
    Point(u * u * u * q0.x + 3.0 * u * u * t * q1.x + 3.0 * u * t * t * q2.x + t * t * t * q3.x,
          u * u * u * q0.y + 3.0 * u * u * t * q1.y + 3.0 * u * t * t * q2.y + t * t * t * q3.y)
  }

  lemma BernsteinSum(t: real)
    ensures var u := 1.0 - t;
            u * u * u + 3.0 * u * u * t + 3.0 * u * t * t + t * t * t == 1.0
  {
    var u := 1.0 - t;
    assert u + t == 1.0;
    assert u * u * u + 3.0 * u * u * t + 3.0 * u * t * t + t * t * t == (u + t) * (u + t) * (u + t);
  }

  lemma AffineDot(b0: real, b1: real, b2: real, b3: real,
                  x0: real, x1: real, x2: real, x3: real,
                  y0: real, y1: real, y2: real, y3: real,
                  px: real, py: real, nx: real, ny: real)
    requires b0 + b1 + b2 + b3 == 1.0
    ensures ((b0 * x0 + b1 * x1 + b2 * x2 + b3 * x3) - px) * nx
          + ((b0 * y0 + b1 * y1 + b2 * y2 + b3 * y3) - py) * ny
         == b0 * ((x0 - px) * nx + (y0 - py) * ny) + b1 * ((x1 - px) * nx + (y1 - py) * ny)
          + b2 * ((x2 - px) * nx + (y2 - py) * ny) + b3 * ((x3 - px) * nx + (y3 - py) * ny)
  {
    assert px == (b0 + b1 + b2 + b3) * px && py == (b0 + b1 + b2 + b3) * py;
  }

  /** The offset of a curve point from an edge's baseline is the same
      Bernstein blend of the offsets of the four points that define it. */
  lemma CurveOffset(p1: Point, p2: Point, len: real, q0: Point, q1: Point, q2: Point, q3: Point, t: real)
    requires len > 0.0
    ensures var u := 1.0 - t;
            Offset(p1, p2, len, CurvePoint(q0, q1, q2, q3, t))
              == u * u * u * Offset(p1, p2, len, q0) + 3.0 * u * u * t * Offset(p1, p2, len, q1)
                 + 3.0 * u * t * t * Offset(p1, p2, len, q2) + t * t * t * Offset(p1, p2, len, q3)
  {
    var u := 1.0 - t;
    var n := Normal(Direction(p1, p2, len));
    BernsteinSum(t);
    AffineDot(u * u * u, 3.0 * u * u * t, 3.0 * u * t * t, t * t * t,
              q0.x, q1.x, q2.x, q3.x, q0.y, q1.y, q2.y, q3.y, p1.x, p1.y, n.x, n.y);
  }
}
