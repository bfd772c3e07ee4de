# ds_viz Canvas — a verified model

The `Canvas` of ds_viz gathers geometric primitives for later output. It is
built with a width, a height and a style registry. The registry maps a style
name to an ordered sequence of style entries. Each drawing operation (`point`,
`line`, `circle`, `rectangle`, `text`) looks up its style and appends one
primitive per entry, in entry order, to a private list. `primitives()` hands
that list back in insertion order.

The model has five modules:

- `Geometry` (geometry.dfy): integer vectors, component-wise addition, and the
  four corners of a rectangle, with lemmas on their edges and signed area.
- `Shapes` (shapes.dfy): style entries, the registry, the default style names
  (`_point`, `_line`, `_circle`, `_rectangle`, `_text`) and the `Primitive`
  datatype (`Circle | Line | Polygon | Text`).
- `Expansion` (expansion.dfy): the specification. It defines what one call
  appends (`Render`, `Expand`, `Emit`), how a call ends (`CallOutcome`), and
  what a sequence of calls leaves behind (`Emitted`). It also holds the
  lemmas about them.
- `Drawing` (canvas.dfy): the `Canvas` class. Each drawing method is a loop
  that appends to the `prims` field in place. Its postcondition ties the new
  list to the old one plus the specification's expansion. A ghost `history`
  of the calls made keeps the invariant `prims == Emitted(styles, history)`.
- `CanvasClient` (client.dfy): callers that use only the contracts, on small
  concrete scenes.

A style entry is a record with an optional `radius` and an opaque map of other
keys. The methods return an `Outcome`: `Pass`, or `Fail` standing for the
`KeyError` the Python code raises. In both failure cases Python's exception
carries only the missing key (the style name, or `'radius'`); the model's
`UnknownStyle(name)` and `MissingRadius(name, index)` add the style name and
the entry index as extra detail. An unknown style name fails at the lookup
before the loop, so nothing is appended. A `point` style entry without a
`radius` fails inside the loop, so the circles of the earlier entries are
already appended. Unlike a failed lookup, a failed `point` call can therefore
leave a partial append; the model follows the code.

## Model

| member | source | states |
|---|---|---|
| `Drawing.Canvas.constructor` | ds_viz/canvas.py:16-20 | width, height and registry are stored as given; the primitive list starts empty |
| `Drawing.Canvas.Point` | ds_viz/canvas.py:22-24 | unknown style: fails, list unchanged; otherwise the list grows by one circle per leading entry that has a radius, after the old list; fails with the index of the first entry without a radius |
| `Drawing.Canvas.Line` | ds_viz/canvas.py:26-29 | unknown style: fails, list unchanged; otherwise old list followed by one segment per entry |
| `Drawing.Canvas.Circle` | ds_viz/canvas.py:31-36 | unknown style: fails, list unchanged; otherwise old list followed by one circle per entry |
| `Drawing.Canvas.Rectangle` | ds_viz/canvas.py:38-44 | unknown style: fails, list unchanged; otherwise old list followed by one polygon per entry, corners computed by vector addition |
| `Drawing.Canvas.Text` | ds_viz/canvas.py:46-48 | unknown style: fails, list unchanged; otherwise old list followed by one text primitive per entry |
| `Drawing.Canvas.Primitives` | ds_viz/canvas.py:50-52 | yields exactly the stored list: the primitives of all calls so far in call order, not sorted |
| `Drawing.Canvas.PdfOut` | ds_viz/canvas.py:54-55 | changes no state |
| `Drawing.Canvas.PngOut` | ds_viz/canvas.py:57-58 | changes no state |
| `Geometry.Corners` | ds_viz/canvas.py:40-43 | four corners, the first being the top-left corner |
| `Geometry.CornersEdges` | ds_viz/canvas.py:40-44 | going round the corners moves by (w,0), (0,h), (-w,0), (0,-h): an axis-aligned w by h rectangle, for any signs of w and h |
| `Geometry.CornersSignedArea` | ds_viz/canvas.py:40-44 | twice the signed (shoelace) area of the corners is 2·w·h, so they run clockwise on a y-down canvas when w and h are positive |
| `Expansion.Render` | ds_viz/canvas.py:22-48 | the primitive made for an entry carries that entry as its style |
| `Expansion.Expand` | ds_viz/canvas.py:23-24 | one primitive per style entry |
| `Expansion.ExpandAt` | ds_viz/canvas.py:23-24 | the k-th primitive is the shape rendered under the k-th entry (entry order is kept) |
| `Expansion.RenderablePrefix` | ds_viz/canvas.py:23-24 | the leading entries before the first one a shape cannot use (a point entry without radius) |
| `Expansion.CallOutcome` | ds_viz/canvas.py:22-48 | a call passes exactly when its style is registered and every entry is usable; an unknown name is reported as such; a missing radius only for points, at an index inside the style |
| `Expansion.PointExpansion` | ds_viz/canvas.py:22-24 | k-th new primitive is a circle centred at the point with entry k's radius and style |
| `Expansion.LineExpansion` | ds_viz/canvas.py:26-29 | k-th new primitive is a segment between the caller's end points, with entry k |
| `Expansion.CircleExpansion` | ds_viz/canvas.py:31-36 | centre and radius are passed through unchanged for every entry, whatever the entry holds |
| `Expansion.RectangleExpansion` | ds_viz/canvas.py:38-44 | k-th new primitive is the polygon tl, tl+(w,0), tl+(w,h), tl+(0,h) with entry k; no check on w or h |
| `Expansion.TextExpansion` | ds_viz/canvas.py:46-48 | k-th new primitive is the text at the caller's position, with entry k |
| `Expansion.Emit` | ds_viz/canvas.py:22-48 | an unknown style appends nothing; otherwise one primitive per usable leading entry, at most one per entry; a completing call appends exactly the expansion of all entries (a partial append only for a failing `point`) |
| `Expansion.Emitted` | ds_viz/canvas.py:20-48 | the list after a sequence of calls on a new canvas holds at most one primitive per entry of the registered styles named |
| `Expansion.EmittedSnoc` | ds_viz/canvas.py:20-48 | a later call appends its primitives after those of the earlier calls |
| `Expansion.EmittedAfterUnknown` | ds_viz/canvas.py:23-47 | a call with an unknown style name leaves the list as it was |
| `Expansion.EmittedAfterComplete` | ds_viz/canvas.py:26-48 | a line, circle, rectangle or text call with a registered style extends the list by exactly the expansion of that style's entries |
| `Expansion.EmittedConcat` | ds_viz/canvas.py:20-48 | the primitives of a later batch of calls follow those of an earlier batch |
| `Expansion.EarlierCallsFirst` | ds_viz/canvas.py:20-48 | what the first i calls drew is a prefix of the final list |
| `Expansion.EmittedLength` | ds_viz/canvas.py:20-48 | when every call completes, the list length is the sum of the entry counts of the styles named |

## Left out

- `svgout` (ds_viz/canvas.py:60-65): it builds an `SVGEngine`, which is not part of this model, and returns its markup.
- `pdfout` and `pngout` write nothing; only "no state changes" is modelled.
- The contents of `default_styles` are not part of this model; the registry is any map. The default style names are constants, because Dafny has no default arguments.
- `Vector` and the primitive classes are not part of this model beyond their use here: vectors are integer pairs with component-wise addition, primitives are plain records.
- Coordinates, extents and radii are integers, not floating point.
- `Drawing.Canvas.Primitives` returns the list's value at the time of the call, not a live iterator over it: the Python iterator can be consumed only once and shows primitives appended after the call, which the model does not capture.
- The class comment says the canvas orders primitives on the z-axis; the code never sorts, and the model keeps insertion order only.
- The registry is a constant of the canvas. Changes made to a shared registry object through another reference are not modelled.
- The commented-out centre offset and radius adjustment in `circle` are inert and not modelled.
- Python's dynamic typing: a `radius` entry that is not a number cannot be written in the model.
