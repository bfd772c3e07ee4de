/** The canvas: a fixed size, a style registry, and a private list of
    primitives that every drawing call extends in place. */
module Drawing {
  import opened Geometry
  import Shapes
  import opened Expansion

  class Canvas {
    const width: int
    const height: int
    const styles: Shapes.Registry
    /** The primitives drawn so far, in the order they were appended. */
    var prims: seq<Shapes.Primitive>
    /** The drawing calls made so far, failed ones included. */
    ghost var history: seq<Call>

    /** The list holds exactly what the calls made so far appended. */
    ghost predicate Valid()
      reads this
    {
      prims == Emitted(styles, history)
    }

    constructor (width: int, height: int, styles: Shapes.Registry)
      ensures Valid()
      ensures this.width == width && this.height == height && this.styles == styles
      ensures prims == [] && history == []
    {
      this.width := width;
      this.height := height;
      this.styles := styles;
      prims := [];
      history := [];
    }

    /** Draws a point as one circle per entry of `style`, of that entry's
        radius. An entry without a radius stops the call after the circles of
        the entries before it have been appended. */
    method Point(p: Vector, style: string) returns (r: Outcome)
      requires Valid()
      modifies this`prims, this`history
      ensures Valid() && history == old(history) + [Call(PointShape(p), style)]
      ensures r == CallOutcome(styles, Call(PointShape(p), style))
      ensures style !in styles ==> prims == old(prims)
      ensures style in styles ==>
        var n := RenderablePrefix(PointShape(p), styles[style]);
        prims == old(prims) + Expand(PointShape(p), styles[style][..n])
    {
      ghost var call := Call(PointShape(p), style);
      EmittedSnoc(styles, history, call);
      if style !in styles {
        history := history + [call];
        return Fail(UnknownStyle(style));
      }
      var entries := styles[style];
      for i := 0 to |entries|
        invariant forall k :: 0 <= k < i ==> Renderable(PointShape(p), entries[k])
        invariant prims == old(prims) + Expand(PointShape(p), entries[..i])
        invariant history == old(history)
      {
        var s := entries[i];
        if s.radius.None? {
          RenderablePrefixIs(PointShape(p), entries, i);
          history := history + [call];
          return Fail(MissingRadius(style, i));
        }
        prims := prims + [Shapes.Circle(p, s.radius.value, s)];
        ExpandStep(PointShape(p), entries, i);
      }
      RenderablePrefixIs(PointShape(p), entries, |entries|);
      assert entries[..|entries|] == entries;
      history := history + [call];
      r := Pass;
    }

    /** Draws one segment from `a` to `b` per entry of `style`. */
    method Line(a: Vector, b: Vector, style: string) returns (r: Outcome)
      requires Valid()
      modifies this`prims, this`history
      ensures Valid() && history == old(history) + [Call(LineShape(a, b), style)]
      ensures style !in styles ==> r == Fail(UnknownStyle(style)) && prims == old(prims)
      ensures style in styles ==>
        r == Pass && prims == old(prims) + Expand(LineShape(a, b), styles[style])
    {
      ghost var call := Call(LineShape(a, b), style);
      if style !in styles {
        EmittedAfterUnknown(styles, history, call);
        history := history + [call];
        return Fail(UnknownStyle(style));
      }
      var entries := styles[style];
      for i := 0 to |entries|
        invariant prims == old(prims) + Expand(LineShape(a, b), entries[..i])
        modifies this`prims
      {
        prims := prims + [Shapes.Line(a, b, entries[i])];
        ExpandStep(LineShape(a, b), entries, i);
      }
      assert entries[..|entries|] == entries;
      EmittedAfterComplete(styles, history, call);
      history := history + [call];
      r := Pass;
    }

    /** Draws one circle per entry of `style`; centre and radius are the
        caller's whatever the entry holds. */
    method Circle(center: Vector, radius: int, style: string) returns (r: Outcome)
      requires Valid()
      modifies this`prims, this`history
      ensures Valid() && history == old(history) + [Call(CircleShape(center, radius), style)]
      ensures style !in styles ==> r == Fail(UnknownStyle(style)) && prims == old(prims)
      ensures style in styles ==>
        r == Pass && prims == old(prims) + Expand(CircleShape(center, radius), styles[style])
    {
      ghost var call := Call(CircleShape(center, radius), style);
      if style !in styles {
        EmittedAfterUnknown(styles, history, call);
        history := history + [call];
        return Fail(UnknownStyle(style));
      }
      var entries := styles[style];
      for i := 0 to |entries|
        invariant prims == old(prims) + Expand(CircleShape(center, radius), entries[..i])
        modifies this`prims
      {
        prims := prims + [Shapes.Circle(center, radius, entries[i])];
        ExpandStep(CircleShape(center, radius), entries, i);
      }
      assert entries[..|entries|] == entries;
      EmittedAfterComplete(styles, history, call);
      history := history + [call];
      r := Pass;
    }

    /** Draws one four-cornered polygon per entry of `style`, starting at
        `topLeft`; the extents are not checked. */
    method Rectangle(topLeft: Vector, w: int, h: int, style: string) returns (r: Outcome)
      requires Valid()
      modifies this`prims, this`history
      ensures Valid() && history == old(history) + [Call(RectangleShape(topLeft, w, h), style)]
      ensures style !in styles ==> r == Fail(UnknownStyle(style)) && prims == old(prims)
      ensures style in styles ==>
        r == Pass && prims == old(prims) + Expand(RectangleShape(topLeft, w, h), styles[style])
    {
      ghost var call := Call(RectangleShape(topLeft, w, h), style);
      if style !in styles {
        EmittedAfterUnknown(styles, history, call);
        history := history + [call];
        return Fail(UnknownStyle(style));
      }
      var entries := styles[style];
      for i := 0 to |entries|
        invariant prims == old(prims) + Expand(RectangleShape(topLeft, w, h), entries[..i])
        modifies this`prims
      {
        var a := topLeft;
        var b := Add(a, Vector(w, 0));
        var c := Add(a, Vector(w, h));
        var d := Add(a, Vector(0, h));
        var polygon := Shapes.Polygon([a, b, c, d], entries[i]);
        assert polygon == Render(RectangleShape(topLeft, w, h), entries[i]);
        prims := prims + [polygon];
        ExpandStep(RectangleShape(topLeft, w, h), entries, i);
      }
      assert entries[..|entries|] == entries;
      EmittedAfterComplete(styles, history, call);
      history := history + [call];
      r := Pass;
    }

    /** Draws `t` at `position` once per entry of `style`. */
    method Text(t: string, position: Vector, style: string) returns (r: Outcome)
      requires Valid()
      modifies this`prims, this`history
      ensures Valid() && history == old(history) + [Call(TextShape(t, position), style)]
      ensures style !in styles ==> r == Fail(UnknownStyle(style)) && prims == old(prims)
      ensures style in styles ==>
        r == Pass && prims == old(prims) + Expand(TextShape(t, position), styles[style])
    {
      ghost var call := Call(TextShape(t, position), style);
      if style !in styles {
        EmittedAfterUnknown(styles, history, call);
        history := history + [call];
        return Fail(UnknownStyle(style));
      }
      var entries := styles[style];
      for i := 0 to |entries|
        invariant prims == old(prims) + Expand(TextShape(t, position), entries[..i])
        modifies this`prims
      {
        prims := prims + [Shapes.Text(t, position, entries[i])];
        ExpandStep(TextShape(t, position), entries, i);
      }
      assert entries[..|entries|] == entries;
      EmittedAfterComplete(styles, history, call);
      history := history + [call];
      r := Pass;
    }

    /** The primitives in the order they were drawn, neither sorted nor
        deduplicated. */
    method Primitives() returns (r: seq<Shapes.Primitive>)
      requires Valid()
      ensures r == prims && r == Emitted(styles, history)
    {
      r := prims;
    }

    /** PDF output is a stub: nothing is written and nothing changes. */
    method PdfOut(filename: string)
      ensures unchanged(this)
    {
    }

    /** PNG output is a stub: nothing is written and nothing changes. */
    method PngOut(filename: Shapes.Option<string>)
      ensures unchanged(this)
    {
    }
  }
}
