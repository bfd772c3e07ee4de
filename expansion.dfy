/** What one drawing call appends to a canvas, and what a sequence of calls
    leaves in it, as functions of the style registry. */
module Expansion {
  import opened Geometry
  import opened Shapes

  /** The geometry of one drawing call, before any style is applied. */
  datatype Shape =
    | PointShape(p: Vector)
    | LineShape(a: Vector, b: Vector)
    | CircleShape(center: Vector, radius: int)
    | RectangleShape(topLeft: Vector, width: int, height: int)
    | TextShape(text: string, position: Vector)

  /** A drawing call: a shape and the name of the style to draw it with. */
  datatype Call = Call(shape: Shape, style: string)

  datatype DrawError =
    | UnknownStyle(name: string)            // the name is not a registry key
    | MissingRadius(name: string, index: nat) // entry `index` of a point style has no radius

  datatype Outcome = Pass | Fail(error: DrawError)

  /** A point needs its entry's radius; every other shape accepts any entry. */
  predicate Renderable(shape: Shape, s: Style)
  {
    shape.PointShape? ==> s.radius.Some?
  }

  /** The one primitive a shape becomes under one style entry. */
  function Render(shape: Shape, s: Style): (r: Primitive)
    requires Renderable(shape, s)
    ensures r.style == s
  {
    match shape
    case PointShape(p) => Circle(p, s.radius.value, s)
    case LineShape(a, b) => Line(a, b, s)
    case CircleShape(center, radius) => Circle(center, radius, s)
    case RectangleShape(topLeft, w, h) => Polygon(Corners(topLeft, w, h), s)
    case TextShape(t, pos) => Text(t, pos, s)
  }

  /** The primitives a shape becomes under a sequence of entries. */
  function Expand(shape: Shape, entries: seq<Style>): (r: seq<Primitive>)
    requires forall k :: 0 <= k < |entries| ==> Renderable(shape, entries[k])
    ensures |r| == |entries|
  {
    if entries == [] then []
    else Expand(shape, entries[..|entries| - 1]) + [Render(shape, entries[|entries| - 1])]
  }

  /** One primitive per entry, in entry order: the k-th primitive is the
      shape rendered under the k-th entry. */
  lemma {:induction false} ExpandAt(shape: Shape, entries: seq<Style>, k: nat)
    requires forall j :: 0 <= j < |entries| ==> Renderable(shape, entries[j])
    requires k < |entries|
    ensures Expand(shape, entries)[k] == Render(shape, entries[k])
  {
    if k < |entries| - 1 {
      var init := entries[..|entries| - 1];
      ExpandAt(shape, init, k);
    }
  }

  /** Rendering one more entry appends one more primitive. */
  lemma ExpandStep(shape: Shape, entries: seq<Style>, i: nat)
    requires i < |entries|
    requires forall k :: 0 <= k <= i ==> Renderable(shape, entries[k])
    ensures Expand(shape, entries[..i + 1]) == Expand(shape, entries[..i]) + [Render(shape, entries[i])]
  {
    assert entries[..i + 1][..i] == entries[..i];
  }

  /** A point becomes one circle per entry, centred on the point, with that
      entry's radius and style. */
  lemma PointExpansion(p: Vector, entries: seq<Style>)
    requires forall k :: 0 <= k < |entries| ==> entries[k].radius.Some?
    ensures |Expand(PointShape(p), entries)| == |entries|
    ensures forall k :: 0 <= k < |entries| ==>
      Expand(PointShape(p), entries)[k] == Circle(p, entries[k].radius.value, entries[k])
  {
    forall k | 0 <= k < |entries| {
      ExpandAt(PointShape(p), entries, k);
    }
  }

  /** A line becomes one segment per entry, between the caller's end points. */
  lemma LineExpansion(a: Vector, b: Vector, entries: seq<Style>)
    ensures |Expand(LineShape(a, b), entries)| == |entries|
    ensures forall k :: 0 <= k < |entries| ==>
      Expand(LineShape(a, b), entries)[k] == Line(a, b, entries[k])
  {
    forall k | 0 <= k < |entries| {
      ExpandAt(LineShape(a, b), entries, k);
    }
  }

  /** A circle keeps the caller's centre and radius under every entry,
      whatever the entry holds (its own radius included). */
  lemma CircleExpansion(center: Vector, radius: int, entries: seq<Style>)
    ensures |Expand(CircleShape(center, radius), entries)| == |entries|
    ensures forall k :: 0 <= k < |entries| ==>
      Expand(CircleShape(center, radius), entries)[k] == Circle(center, radius, entries[k])
  {
    forall k | 0 <= k < |entries| {
      ExpandAt(CircleShape(center, radius), entries, k);
    }
  }

  /** A rectangle becomes one polygon per entry, with the four corners
      topLeft, topLeft + (w, 0), topLeft + (w, h), topLeft + (0, h). */
  lemma RectangleExpansion(topLeft: Vector, w: int, h: int, entries: seq<Style>)
    ensures |Expand(RectangleShape(topLeft, w, h), entries)| == |entries|
    ensures forall k :: 0 <= k < |entries| ==>
      Expand(RectangleShape(topLeft, w, h), entries)[k] ==
        Polygon([topLeft, Add(topLeft, Vector(w, 0)), Add(topLeft, Vector(w, h)), Add(topLeft, Vector(0, h))],
                entries[k])
  {
    forall k | 0 <= k < |entries| {
      ExpandAt(RectangleShape(topLeft, w, h), entries, k);
    }
  }

  /** A text becomes one text primitive per entry, at the caller's position. */
  lemma TextExpansion(t: string, position: Vector, entries: seq<Style>)
    ensures |Expand(TextShape(t, position), entries)| == |entries|
    ensures forall k :: 0 <= k < |entries| ==>
      Expand(TextShape(t, position), entries)[k] == Text(t, position, entries[k])
  {
    forall k | 0 <= k < |entries| {
      ExpandAt(TextShape(t, position), entries, k);
    }
  }

  /** The number of leading entries a shape can be rendered with: all of them,
      or the index of the first entry that lacks what the shape needs. */
  function RenderablePrefix(shape: Shape, entries: seq<Style>): (n: nat)
    ensures n <= |entries|
    ensures forall k :: 0 <= k < n ==> Renderable(shape, entries[k])
    ensures n < |entries| ==> !Renderable(shape, entries[n])
  {
    if entries == [] || !Renderable(shape, entries[0]) then 0
    else 1 + RenderablePrefix(shape, entries[1..])
  }

  /** The usable prefix ends where the first unusable entry stands. */
  lemma RenderablePrefixIs(shape: Shape, entries: seq<Style>, i: nat)
    requires i <= |entries|
    requires forall k :: 0 <= k < i ==> Renderable(shape, entries[k])
    requires i < |entries| ==> !Renderable(shape, entries[i])
    ensures RenderablePrefix(shape, entries) == i
  {
  }

  /** A call that finds its style and renders every entry of it. */
  predicate Completes(styles: Registry, c: Call)
  {
    c.style in styles && RenderablePrefix(c.shape, styles[c.style]) == |styles[c.style]|
  }

  /** How a call ends: an unknown style fails before anything is drawn, a
      point entry without a radius fails at that entry. */
  function CallOutcome(styles: Registry, c: Call): (r: Outcome)
    ensures r == Pass <==> Completes(styles, c)
    ensures c.style !in styles ==> r == Fail(UnknownStyle(c.style))
    ensures r.Fail? && r.error.MissingRadius? ==>
      c.shape.PointShape? && c.style in styles && r.error.index < |styles[c.style]|
  {
    if c.style !in styles then Fail(UnknownStyle(c.style))
    else
      var entries := styles[c.style];
      var n := RenderablePrefix(c.shape, entries);
      if n == |entries| then Pass else Fail(MissingRadius(c.style, n))
  }

  /** The primitives one call appends, including the ones a point call
      appends before it reaches an entry without a radius. */
  function Emit(styles: Registry, c: Call): (r: seq<Primitive>)
    ensures c.style !in styles ==> r == []
    ensures c.style in styles ==>
      |r| == RenderablePrefix(c.shape, styles[c.style]) <= |styles[c.style]|
    ensures Completes(styles, c) ==> r == Expand(c.shape, styles[c.style])
  {
    if c.style !in styles then []
    else
      var entries := styles[c.style];
      assert entries[..|entries|] == entries;
      Expand(c.shape, entries[..RenderablePrefix(c.shape, entries)])
  }

  /** The primitive list left by a sequence of calls on an empty canvas. */
  function Emitted(styles: Registry, calls: seq<Call>): (r: seq<Primitive>)
    ensures |r| <= EntryCount(styles, calls)
  {
    if calls == [] then []
    else Emitted(styles, calls[..|calls| - 1]) + Emit(styles, calls[|calls| - 1])
  }

  /** A call made after others appends its own primitives to theirs. */
  lemma EmittedSnoc(styles: Registry, calls: seq<Call>, c: Call)
    ensures Emitted(styles, calls + [c]) == Emitted(styles, calls) + Emit(styles, c)
  {
    assert (calls + [c])[..|calls|] == calls;
  }

  /** A line, circle, rectangle or text call with a registered style appends
      one primitive per entry of the style. */
  lemma EmittedAfterComplete(styles: Registry, calls: seq<Call>, c: Call)
    requires c.style in styles && !c.shape.PointShape?
    ensures Emitted(styles, calls + [c]) == Emitted(styles, calls) + Expand(c.shape, styles[c.style])
  {
    EmittedSnoc(styles, calls, c);
    var entries := styles[c.style];
    assert RenderablePrefix(c.shape, entries) == |entries|;
    assert entries[..|entries|] == entries;
  }

  /** A call with an unknown style appends nothing. */
  lemma EmittedAfterUnknown(styles: Registry, calls: seq<Call>, c: Call)
    requires c.style !in styles
    ensures Emitted(styles, calls + [c]) == Emitted(styles, calls)
  {
    EmittedSnoc(styles, calls, c);
  }

  /** The total number of entries of the registered styles the calls name. */
  function EntryCount(styles: Registry, calls: seq<Call>): nat
  {
    if calls == [] then 0
    else
      var last := calls[|calls| - 1];
      EntryCount(styles, calls[..|calls| - 1]) + if last.style in styles then |styles[last.style]| else 0
  }

  /** The primitives of later calls follow those of earlier calls. */
  lemma {:induction false} EmittedConcat(styles: Registry, first: seq<Call>, second: seq<Call>)
    ensures Emitted(styles, first + second) == Emitted(styles, first) + Emitted(styles, second)
  {
    if second == [] {
      assert first + second == first;
    } else {
      var init := second[..|second| - 1];
      var last := second[|second| - 1];
      var whole := first + second;
      assert whole[..|whole| - 1] == first + init;
      assert whole[|whole| - 1] == last;
      calc {
        Emitted(styles, whole);
        Emitted(styles, first + init) + Emit(styles, last);
        { EmittedConcat(styles, first, init); }
        Emitted(styles, first) + Emitted(styles, init) + Emit(styles, last);
      }
    }
  }

  /** When every call completes, the canvas holds exactly one primitive per
      entry of every style named. */
  lemma {:induction false} EmittedLength(styles: Registry, calls: seq<Call>)
    requires forall i :: 0 <= i < |calls| ==> Completes(styles, calls[i])
    ensures |Emitted(styles, calls)| == EntryCount(styles, calls)
  {
    if calls != [] {
      var init := calls[..|calls| - 1];
      assert forall i :: 0 <= i < |init| ==> init[i] == calls[i];
      EmittedLength(styles, init);
      var last := calls[|calls| - 1];
      assert Completes(styles, last);
      assert styles[last.style][..|styles[last.style]|] == styles[last.style];
    }
  }

  /** The primitives of the first `i` calls are a prefix of the whole list:
      a later call never disturbs what earlier calls drew. */
  lemma EarlierCallsFirst(styles: Registry, calls: seq<Call>, i: nat)
    requires i <= |calls|
    ensures Emitted(styles, calls[..i]) <= Emitted(styles, calls)
  {
    assert calls == calls[..i] + calls[i..];
    EmittedConcat(styles, calls[..i], calls[i..]);
  }
}
