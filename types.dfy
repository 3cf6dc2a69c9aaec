/** The records shared by the composables: a sampled colour and a rectangle in image space. */
module Types {
  import opened Arith
  import opened Canvas

  /**
   * A sampled colour: the image-space pixel `(x, y)` it was read from, its channels,
   * `hex` in `#RRGGBB` form and `bgrHex` in `#BBGGRR` form (see ColorPicker.Consistent).
   */
  datatype ColorInfo = ColorInfo(x: int, y: int, r: Byte, g: Byte, b: Byte, hex: string, bgrHex: string)

  /** An axis-aligned rectangle: `(x1, y1)` its top-left corner, `(x2, y2)` its bottom-right one. */
  datatype Region = Region(x1: int, y1: int, x2: int, y2: int)

  datatype Point = Point(x: int, y: int)

  predicate Normalised(reg: Region) {
    reg.x1 <= reg.x2 && reg.y1 <= reg.y2
  }

  predicate Contains(reg: Region, p: Point) {
    reg.x1 <= p.x <= reg.x2 && reg.y1 <= p.y <= reg.y2
  }

  /** The rectangle spanned by two drag endpoints given in either order. */
  function Span(a: Point, b: Point): (reg: Region)
    ensures Normalised(reg)
    ensures Contains(reg, a) && Contains(reg, b)
    ensures reg.x1 in {a.x, b.x} && reg.x2 in {a.x, b.x} && reg.y1 in {a.y, b.y} && reg.y2 in {a.y, b.y}
  {
    Region(Min(a.x, b.x), Min(a.y, b.y), Max(a.x, b.x), Max(a.y, b.y))
  }

  /** Span does not depend on which endpoint came first. */
  lemma SpanSymmetric(a: Point, b: Point)
    ensures Span(a, b) == Span(b, a)
  {
  }

  /** Spanning the two corners of a normalised rectangle gives the rectangle back. */
  lemma SpanOfCorners(reg: Region)
    requires Normalised(reg)
    ensures Span(Point(reg.x1, reg.y1), Point(reg.x2, reg.y2)) == reg
  {
  }
}
