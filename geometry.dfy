/** Plane geometry used by the canvas: a coordinate pair with component-wise
    addition, and the four corners of an axis-aligned rectangle. */
module Geometry {

  /** A point or displacement on the canvas. Coordinates are integers. */
  datatype Vector = Vector(x: int, y: int)

  /** Component-wise addition of two vectors. */
  function Add(p: Vector, q: Vector): Vector
  {
    Vector(p.x + q.x, p.y + q.y)
  }

  /** The displacement that leads from `p` to `q`. */
  function Sub(q: Vector, p: Vector): Vector
  {
    Vector(q.x - p.x, q.y - p.y)
  }

  /** Cross product of two vectors, used for signed areas. */
  function Cross(p: Vector, q: Vector): int
  {
    p.x * q.y - q.x * p.y
  }

  /** Twice the signed area of a quadrilateral by the shoelace formula. On a
      canvas whose y axis points down, a positive value means the vertices run
      clockwise. */
  function TwiceSignedArea(a: Vector, b: Vector, c: Vector, d: Vector): int
  {
    Cross(a, b) + Cross(b, c) + Cross(c, d) + Cross(d, a)
  }

  /** The corners of the rectangle with top-left corner `topLeft`, obtained by
      adding (w, 0), (w, h) and (0, h) to it. Neither `w` nor `h` is checked:
      a negative extent gives a mirrored rectangle. */
  function Corners(topLeft: Vector, w: int, h: int): (r: seq<Vector>)
    ensures |r| == 4 && r[0] == topLeft
  {
    var a := topLeft;
    [a, Add(a, Vector(w, 0)), Add(a, Vector(w, h)), Add(a, Vector(0, h))]
  }

  /** Walking the corners in order and back to the first moves by (w, 0),
      (0, h), (-w, 0) and (0, -h): the polygon is the axis-aligned rectangle
      of extent w by h, whatever the signs of w and h. */
  lemma CornersEdges(topLeft: Vector, w: int, h: int)
    ensures var v := Corners(topLeft, w, h);
      && Sub(v[1], v[0]) == Vector(w, 0)
      && Sub(v[2], v[1]) == Vector(0, h)
      && Sub(v[3], v[2]) == Vector(-w, 0)
      && Sub(v[0], v[3]) == Vector(0, -h)
  {
  }

  /** The corners enclose an area of |w * h|, and for positive extents they are
      listed clockwise on a canvas whose y axis points down. */
  lemma CornersSignedArea(topLeft: Vector, w: int, h: int)
    ensures var v := Corners(topLeft, w, h);
      TwiceSignedArea(v[0], v[1], v[2], v[3]) == 2 * w * h
  {
  }
}
