/**
 * The straight-line arithmetic of components/draw.tsx: mapping a pointer
 * position to raster coordinates, fitting the photo into the window, and the
 * layer merge that `saveImage` performs before encoding.
 */
module Layout {
  import opened Wrappers
  import opened Canvas

  /** The fixed internal size of both layer canvases (the `width`/`height` attributes). */
  const CANVAS_WIDTH: real := 1280.0
  const CANVAS_HEIGHT: real := 720.0

  /** Space left around the displayed canvas: `window.innerWidth - 200`, `window.innerHeight - 200`. */
  const VIEW_MARGIN: real := 200.0

  datatype Size = Size(width: real, height: real)

  /** The canvas's on-screen bounding rectangle (`getBoundingClientRect()`). */
  datatype Rect = Rect(left: real, top: real, width: real, height: real)

  /** `getCoordinate`: scale the offset inside the displayed rectangle to the internal resolution. */
  function ToRaster(client: Point, rect: Rect): (p: Point)
    requires rect.width > 0.0 && rect.height > 0.0
    ensures p.x * rect.width == (client.x - rect.left) * CANVAS_WIDTH
    ensures p.y * rect.height == (client.y - rect.top) * CANVAS_HEIGHT
    ensures rect.left <= client.x <= rect.left + rect.width ==> 0.0 <= p.x <= CANVAS_WIDTH
    ensures rect.top <= client.y <= rect.top + rect.height ==> 0.0 <= p.y <= CANVAS_HEIGHT
  {
    ScaleWithin(client.x - rect.left, rect.width, CANVAS_WIDTH);
    ScaleWithin(client.y - rect.top, rect.height, CANVAS_HEIGHT);
    var scaleX := CANVAS_WIDTH / rect.width;
    var scaleY := CANVAS_HEIGHT / rect.height;
    Point((client.x - rect.left) * scaleX, (client.y - rect.top) * scaleY)
  }

  /** An offset within [0, extent], scaled by full / extent, lands within [0, full]. */
  lemma ScaleWithin(d: real, extent: real, full: real)
    requires extent > 0.0 && full >= 0.0
    ensures d * (full / extent) * extent == d * full
    ensures 0.0 <= d <= extent ==> 0.0 <= d * (full / extent) <= full
  {
  }

  /**
   * The display size computed in the image `onload` handler: start from the
   * natural size, shrink to the height bound, then to the width bound, each
   * time keeping the aspect ratio.
   */
  function FitDisplay(img: Size, maxWidth: real, maxHeight: real): (r: Size)
    requires img.width > 0.0 && img.height > 0.0
    ensures r.width <= maxWidth
    ensures r.width <= img.width && r.height <= img.height
    ensures r.height <= maxHeight
    ensures r.width * img.height == r.height * img.width
    ensures img.width <= maxWidth && img.height <= maxHeight ==> r == img
    ensures r == img || r.width == maxWidth || r.height == maxHeight
    ensures maxWidth > 0.0 && maxHeight > 0.0 ==> r.width > 0.0 && r.height > 0.0
  {
    FitDisplayArithmetic(img.width, img.height, maxWidth, maxHeight);
    var h1 := if img.height > maxHeight then maxHeight else img.height;
    var w1 := if img.height > maxHeight then (img.width / img.height) * maxHeight else img.width;
    if w1 > maxWidth then Size(maxWidth, (img.height / img.width) * maxWidth)
    else Size(w1, h1)
  }

  /** The ratio facts FitDisplay's two shrinking steps rely on. */
  lemma FitDisplayArithmetic(w: real, h: real, maxWidth: real, maxHeight: real)
    requires w > 0.0 && h > 0.0
    ensures (w / h) * h == w && (h / w) * w == h
    ensures h > maxHeight ==> (w / h) * maxHeight < w
    ensures h > maxHeight ==> (w / h) * maxHeight * h == maxHeight * w
    ensures h > maxHeight && (w / h) * maxHeight > maxWidth ==>
              (h / w) * maxWidth < maxHeight && maxWidth < w
    ensures maxWidth < w ==> (h / w) * maxWidth < h
    ensures maxWidth * h == (h / w) * maxWidth * w
    ensures maxWidth > 0.0 ==> (h / w) * maxWidth > 0.0
    ensures maxHeight > 0.0 ==> (w / h) * maxHeight > 0.0
  {
  }

  /** The two layer canvases. */
  datatype Layer =
    | Background(photo: Option<string>)  // the photo last painted into the image canvas, if any
    | Ink(log: seq<StrokeCmd>)           // the drawing canvas

  /** One `drawImage(layer, dx, dy, dw, dh)` onto the merged canvas; each layer is CANVAS_WIDTH x CANVAS_HEIGHT. */
  datatype Blit = Blit(layer: Layer, dx: real, dy: real, dw: real, dh: real)

  /** The merged canvas before encoding: its size and the layers drawn onto it, bottom first. */
  datatype Merged = Merged(size: Size, blits: seq<Blit>)

  /** The merge part of `saveImage`. */
  function Merge(imgSize: Size, photo: Option<string>, ink: seq<StrokeCmd>): (m: Merged)
    ensures m.size == imgSize
    ensures |m.blits| == 2
    ensures m.blits[0].layer == Background(photo) && m.blits[1].layer == Ink(ink)
    ensures forall b :: b in m.blits ==>
              b.dx == 0.0 && b.dy == 0.0 && b.dw == imgSize.width && b.dh == imgSize.height
  {
    var whole := (l: Layer) => Blit(l, 0.0, 0.0, imgSize.width, imgSize.height);
    Merged(imgSize, [whole(Background(photo)), whole(Ink(ink))])
  }
}
