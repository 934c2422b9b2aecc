/** The right-hand canvas: the append-only list of strokes drawn so far. */
module Canvas {
  import opened Options
  import opened StrokeEngine

  /** An image size `(w, h)`, as `size_wh` holds it. */
  datatype Size = Size(w: nat, h: nat)

  class LineCanvas {
    /** The strokes in the order they were generated; painting and export replay them in this order. */
    var lines: seq<Segment>
    /** The size of the source image, None until a run starts. */
    var size: Option<Size>
    var penWidth: int

    constructor()
      ensures lines == [] && size == None && penWidth == 2
    {
      lines := [];
      size := None;
      penWidth := 2;
    }

    /** Empties the stroke list and records the image size for a new run. */
    method Reset(sizeWH: Size)
      modifies this
      ensures lines == [] && size == Some(sizeWH) && penWidth == old(penWidth)
    {
      lines := [];
      size := Some(sizeWH);
    }

    /** Appends one stroke; nothing already drawn changes. */
    method Add(line: Segment)
      modifies this
      ensures lines == old(lines) + [line] && size == old(size) && penWidth == old(penWidth)
    {
      lines := lines + [line];
    }
  }
}
