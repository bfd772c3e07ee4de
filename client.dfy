/** Clients of the canvas that rely on its contracts alone. */
module CanvasClient {
  import opened Geometry
  import opened Shapes
  import opened Expansion
  import opened Drawing

  /** A two-entry point style gives a halo and then a dot, both centred on the point. */
  method DrawStyledPoint()
  {
    var halo := Style(Some(3), map["fill" := "white"]);
    var dot := Style(Some(1), map["fill" := "black"]);
    var canvas := new Canvas(100, 50, map[PointStyle := [halo, dot]]);
    var r := canvas.Point(Vector(2, 2), PointStyle);
    assert RenderablePrefix(PointShape(Vector(2, 2)), [halo, dot]) == 2;
    assert [halo, dot][..2] == [halo, dot];
    assert r == Pass;
    var all := canvas.Primitives();
    assert all == [Shapes.Circle(Vector(2, 2), 3, halo), Shapes.Circle(Vector(2, 2), 1, dot)];
  }

  /** A rectangle's corners run clockwise from the top-left corner, for any
      corner and extents. */
  method DrawRectangle(topLeft: Vector, w: int, h: int, plain: Style)
  {
    var canvas := new Canvas(100, 50, map[RectangleStyle := [plain]]);
    var r := canvas.Rectangle(topLeft, w, h, RectangleStyle);
    ExpandAt(RectangleShape(topLeft, w, h), [plain], 0);
    assert r == Pass && |canvas.prims| == 1;
    var x, y := topLeft.x, topLeft.y;
    assert canvas.prims[0].vertices == [topLeft, Vector(x + w, y), Vector(x + w, y + h), Vector(x, y + h)];
  }

  /** An unknown style draws nothing, and neither does a point style whose
      first entry has no radius. */
  method DrawWithBadStyles()
  {
    var plain := Style(None, map[]);
    var canvas := new Canvas(100, 50, map[LineStyle := [plain, plain]]);
    var r := canvas.Line(Vector(0, 0), Vector(1, 1), "nope");
    assert r == Fail(UnknownStyle("nope")) && canvas.prims == [];
    r := canvas.Point(Vector(5, 5), LineStyle);
    assert RenderablePrefix(PointShape(Vector(5, 5)), [plain, plain]) == 0;
    assert r == Fail(MissingRadius(LineStyle, 0)) && canvas.prims == [];
  }
}
