/**
 * An abstract HTML canvas 2D context, as far as the drawing component uses it:
 * the state fields it sets and a log of the line segments it has stroked.
 * Pixels are not modelled; a stroked segment is recorded together with the
 * paint settings in force when `stroke()` was called.
 */
module Canvas {

  /** A point in raster (canvas-internal) coordinates. */
  datatype Point = Point(x: real, y: real)

  /** One recorded line piece, `start_x, start_y -> end_x, end_y` in the source's `Stroke` record. */
  datatype Segment = Segment(start: Point, end: Point)

  /** The two values of `globalCompositeOperation` the component uses. */
  datatype CompositeOp = SourceOver | DestinationOut

  /** `lineCap`: the canvas default is "butt"; the component only ever sets "round". */
  datatype LineCap = Butt | Round

  /** The context state that affects how a stroke is painted. */
  datatype Paint = Paint(
    op: CompositeOp,
    style: string,
    shadowColor: string,
    shadowBlur: real,
    lineWidth: real,
    cap: LineCap)

  /** One `beginPath; moveTo; lineTo; stroke` sequence, with the paint it used. */
  datatype StrokeCmd = StrokeCmd(seg: Segment, paint: Paint)

  /** The abstract drawing surface: current paint state plus everything stroked since the last clear. */
  datatype Context = Context(paint: Paint, log: seq<StrokeCmd>)

  /** The state of a freshly created 2D context (HTML canvas defaults). */
  const InitialPaint: Paint := Paint(SourceOver, "#000000", "rgba(0, 0, 0, 0)", 0.0, 1.0, Butt)

  /**
   * Stroke one segment with the current paint: the paint state is untouched
   * and the log gains exactly one command, at its end, carrying that paint.
   */
  function StrokeSegment(c: Context, seg: Segment): (r: Context)
    ensures r.paint == c.paint
  {
    Context(c.paint, c.log + [StrokeCmd(seg, c.paint)])
  }

  /** Squared Euclidean length of the segment a -> b. */
  function SqDist(a: Point, b: Point): real
  {
    (b.x - a.x) * (b.x - a.x) + (b.y - a.y) * (b.y - a.y)
  }

  /** Consecutive segments join: each one starts where the previous one ended. */
  ghost predicate Chained(segs: seq<Segment>)
  {
    forall i :: 0 < i < |segs| ==> segs[i - 1].end == segs[i].start
  }

  /** A chain that leaves `from` and, once non-empty, arrives at `to`; the empty chain has `from == to`. */
  ghost predicate ChainFromTo(segs: seq<Segment>, from: Point, to: Point)
  {
    && Chained(segs)
    && (segs == [] ==> to == from)
    && (segs != [] ==> segs[0].start == from && segs[|segs| - 1].end == to)
  }

  /** A chain stays a chain when a segment starting at its end is appended. */
  lemma ChainedSnoc(segs: seq<Segment>, from: Point, to: Point, next: Point)
    requires ChainFromTo(segs, from, to)
    ensures ChainFromTo(segs + [Segment(to, next)], from, next)
  {
  }
}
