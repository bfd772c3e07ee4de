/** The values a canvas stores: style entries, the style registry, and the
    four kinds of rendered primitive. */
module Shapes {
  import opened Geometry

  datatype Option<T> = None | Some(value: T)

  /** One style entry. `radius` is the entry's optional `radius` key; every
      other key (colour, stroke width, ...) is carried opaquely in `attrs` and
      is only consumed by an exporter. */
  datatype Style = Style(radius: Option<int>, attrs: map<string, string>)

  /** Maps a style name to its ordered sequence of entries. */
  type Registry = map<string, seq<Style>>

  /** The style names the drawing operations use when the caller gives none. */
  const PointStyle: string := "_point"
  const LineStyle: string := "_line"
  const CircleStyle: string := "_circle"
  const RectangleStyle: string := "_rectangle"
  const TextStyle: string := "_text"

  /** A rendered shape together with the one style entry it was made for. */
  datatype Primitive =
    | Circle(center: Vector, radius: int, style: Style)
    | Line(a: Vector, b: Vector, style: Style)
    | Polygon(vertices: seq<Vector>, style: Style)
    | Text(text: string, position: Vector, style: Style)
}
