/** The drawing surface, reduced to what the layout engine does with it: a
    canvas of fixed size whose painter strokes arcs. Every stroke is recorded,
    in order, in a log instead of being rasterised. */
module Painter {

  /** A pen colour as the hue, saturation and value handed to the colour
      conversion. */
  datatype Hsv = Hsv(hue: real, sat: real, value: real)

  /** A pen: its colour and its stroke width. The cap style is always flat. */
  datatype Pen = Pen(color: Hsv, width: real)

  /** An axis-aligned rectangle given by its top-left corner and its size. */
  datatype Rect = Rect(x: real, y: real, w: real, h: real)

  /** One arc stroke: the bounding rectangle of the ellipse, the start angle
      and the angular span (both in sixteenths of a degree) and the pen. */
  datatype Stroke = Stroke(rect: Rect, start: real, span: real, pen: Pen)

  /** A canvas of `width` by `height` pixels and the strokes painted on it. */
  class Canvas {
    const width: int
    const height: int
    var strokes: seq<Stroke>

    constructor (width: int, height: int)
      ensures this.width == width && this.height == height
      ensures strokes == []
    {
      this.width := width;
      this.height := height;
      strokes := [];
    }

    /** Strokes one arc along `rect` with `pen`. */
    method DrawArc(pen: Pen, rect: Rect, start: real, span: real)
      modifies this
      ensures strokes == old(strokes) + [Stroke(rect, start, span, pen)]
    {
      strokes := strokes + [Stroke(rect, start, span, pen)];
    }
  }
}
