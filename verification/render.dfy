/**
 * The value-level specification of the drawing component's renderer
 * (components/draw.tsx): the segment renderer `drawLine`, the glow post-pass
 * `historyReDraw` and the history replay `reDraw`. The imperative class in
 * DrawComponent is proved to follow these functions step by step.
 */
module Render {
  import opened Canvas

  /** Draw options, numbered as the renderer's switch numbers them. */
  const ERASER: int := 0
  const PEN: int := 1
  const GLOW: int := 2

  /** `MIN_MOVE_DISTANCE` is 4; the renderer compares the distance, the model its square. */
  const MIN_MOVE_DISTANCE_SQ: real := 16.0

  /** One completed stroke on the undo stack, with the settings frozen at pointer-up. */
  datatype ItemHistory = ItemHistory(
    penColor: string,
    drawOption: int,
    lineWidth: real,
    coordinates: seq<Segment>)

  /** Everything the renderer reads and writes: the context and the rolling point buffer `old`/`older`. */
  datatype RenderState = RenderState(ctx: Context, oldPt: Point, olderPt: Point)

  /** The mode switch of `drawLine` followed by `lineWidth` and `lineCap`. */
  function SelectPaint(p: Paint, penColor: string, drawOption: int, width: real): (r: Paint)
    ensures r.lineWidth == width && r.cap == Round
    ensures r.op == DestinationOut <==> drawOption == ERASER
    ensures drawOption == ERASER || drawOption == PEN ==>
              r.style == penColor && r.shadowColor == p.shadowColor && r.shadowBlur == p.shadowBlur
    ensures drawOption == GLOW ==>
              r.style == "#ffffff" && r.shadowColor == penColor && r.shadowBlur == 1.5 * width
    ensures drawOption != ERASER && drawOption != PEN && drawOption != GLOW ==>
              r.style == p.style && r.shadowColor == p.shadowColor && r.shadowBlur == p.shadowBlur
  {
    var q :=
      if drawOption == ERASER then p.(op := DestinationOut, style := penColor)
      else if drawOption == PEN then p.(op := SourceOver, style := penColor)
      else if drawOption == GLOW then
        p.(op := SourceOver, style := "#ffffff", shadowColor := penColor, shadowBlur := 1.5 * width)
      else p.(op := SourceOver);
    q.(lineWidth := width, cap := Round)
  }

  /**
   * `drawLine(ctx, a, b, penColor, drawOption, width)`: one primary stroke a -> b,
   * and for the glow option a second, shadow-free stroke of the buffered
   * trailing segment `older -> old`.
   */
  function DrawSegment(s: RenderState, a: Point, b: Point, penColor: string, drawOption: int, width: real)
    : (r: RenderState)
    ensures r.oldPt == s.oldPt && r.olderPt == s.olderPt
    ensures |r.ctx.log| == |s.ctx.log| + (if drawOption == GLOW then 2 else 1)
    ensures r.ctx.log[..|s.ctx.log|] == s.ctx.log
    ensures r.ctx.log[|s.ctx.log|].seg == Segment(a, b)
    ensures var p := r.ctx.log[|s.ctx.log|].paint;
            var sel := SelectPaint(s.ctx.paint, penColor, drawOption, width);
            p.op == sel.op && p.style == sel.style && p.shadowColor == sel.shadowColor
            && p.lineWidth == width && p.cap == Round
            && p.shadowBlur == (if SqDist(a, b) <= MIN_MOVE_DISTANCE_SQ then 0.0 else sel.shadowBlur)
    ensures drawOption == GLOW ==>
              r.ctx.paint == r.ctx.log[|s.ctx.log|].paint.(shadowBlur := 0.0)
              && r.ctx.log[|s.ctx.log| + 1] == StrokeCmd(Segment(s.olderPt, s.oldPt), r.ctx.paint)
    ensures drawOption != GLOW ==> r.ctx.paint == r.ctx.log[|s.ctx.log|].paint
    ensures s.ctx.paint.shadowBlur == 0.0 ==> r.ctx.paint.shadowBlur == 0.0
  {
    var sel := SelectPaint(s.ctx.paint, penColor, drawOption, width);
    var p := if SqDist(a, b) <= MIN_MOVE_DISTANCE_SQ then sel.(shadowBlur := 0.0) else sel;
    var c := StrokeSegment(Context(p, s.ctx.log), Segment(a, b));
    if drawOption == GLOW then
      s.(ctx := StrokeSegment(Context(p.(shadowBlur := 0.0), c.log), Segment(s.olderPt, s.oldPt)))
    else
      s.(ctx := c)
  }

  // ---------------------------------------------------------------------------
  // Glow post-pass (`historyReDraw`)
  // ---------------------------------------------------------------------------

  /** The settings `historyReDraw` makes before looking at the history. */
  function GlowPassSetup(p: Paint): (r: Paint)
    ensures r.style == "white" && r.cap == Round && r.op == DestinationOut && r.shadowBlur == 0.0
    ensures r.shadowColor == p.shadowColor && r.lineWidth == p.lineWidth
  {
    p.(style := "white", cap := Round, op := DestinationOut, shadowBlur := 0.0)
  }

  /** The context after the first `n` iterations of the pass's `forEach` over `segs`. */
  function GlowLoop(c: Context, segs: seq<Segment>, width: real, n: nat): (r: Context)
    requires n <= |segs|
    ensures |r.log| == |c.log| + 2 * n && r.log[..|c.log|] == c.log
    ensures r.paint.style == c.paint.style && r.paint.shadowBlur == c.paint.shadowBlur
  {
    if n == 0 then c
    else
      var d := StrokeSegment(GlowLoop(c, segs, width, n - 1), segs[n - 1]);
      StrokeSegment(Context(d.paint.(op := SourceOver, lineWidth := width), d.log), segs[n - 1])
  }

  /** `historyReDraw(ctx, history)`: redraw the core of the most recent entry without shadow. */
  function GlowPass(c: Context, history: seq<ItemHistory>): (r: Context)
    ensures |r.log| == |c.log| + (if |history| == 0 then 0 else 2 * |history[|history| - 1].coordinates|)
    ensures r.log[..|c.log|] == c.log
    ensures r.paint.op == DestinationOut && r.paint.style == "white" && r.paint.shadowBlur == 0.0
  {
    var p := GlowPassSetup(c.paint);
    if |history| == 0 then Context(p, c.log)
    else
      var item := history[|history| - 1];
      var d := GlowLoop(Context(p.(lineWidth := item.lineWidth), c.log), item.coordinates, item.lineWidth,
                        |item.coordinates|);
      Context(d.paint.(op := p.op), d.log)
  }

  /**
   * Each iteration strokes its segment twice; the first stroke of the whole
   * pass uses the incoming operation and every later stroke is source-over,
   * because the loop switches to source-over and never switches back.
   */
  lemma {:induction false} GlowLoopShape(c: Context, segs: seq<Segment>, width: real, n: nat)
    requires n <= |segs|
    requires c.paint.lineWidth == width
    ensures var r := GlowLoop(c, segs, width, n);
            var base := |c.log|;
            |r.log| == base + 2 * n
            && r.log[..base] == c.log
            && r.paint == (if n == 0 then c.paint else c.paint.(op := SourceOver))
            && (forall j :: base <= j < |r.log| ==> r.log[j].seg == segs[(j - base) / 2])
            && (forall j :: base <= j < |r.log| ==>
                  r.log[j].paint == (if j == base then c.paint else c.paint.(op := SourceOver)))
  {
    if n > 0 {
      GlowLoopShape(c, segs, width, n - 1);
      var prev := GlowLoop(c, segs, width, n - 1);
      var r := GlowLoop(c, segs, width, n);
      var base := |c.log|;
      assert r.log == prev.log + [StrokeCmd(segs[n - 1], prev.paint)]
                               + [StrokeCmd(segs[n - 1], prev.paint.(op := SourceOver, lineWidth := width))];
      forall j | base <= j < |r.log|
        ensures r.log[j].seg == segs[(j - base) / 2]
      {
        if j >= |prev.log| {
          assert (j - base) / 2 == n - 1;
        }
      }
    }
  }

  /**
   * The glow pass over a non-empty history strokes every segment of the last
   * entry twice, white, without shadow and at the entry's width; only the very
   * first stroke erases (destination-out); afterwards the operation is
   * destination-out again, the value captured after it was assigned.
   */
  lemma GlowPassShape(c: Context, history: seq<ItemHistory>)
    requires |history| > 0
    ensures var item := history[|history| - 1];
            var segs := item.coordinates;
            var r := GlowPass(c, history);
            var base := |c.log|;
            |r.log| == base + 2 * |segs|
            && r.log[..base] == c.log
            && r.paint == GlowPassSetup(c.paint).(lineWidth := item.lineWidth)
            && (forall j :: base <= j < |r.log| ==>
                  r.log[j].seg == segs[(j - base) / 2]
                  && r.log[j].paint.style == "white"
                  && r.log[j].paint.shadowBlur == 0.0
                  && r.log[j].paint.lineWidth == item.lineWidth
                  && r.log[j].paint.cap == Round
                  && (r.log[j].paint.op == DestinationOut <==> j == base))
  {
    var item := history[|history| - 1];
    var p := GlowPassSetup(c.paint).(lineWidth := item.lineWidth);
    GlowLoopShape(Context(p, c.log), item.coordinates, item.lineWidth, |item.coordinates|);
  }

  /** The glow pass with no history only changes the settings. */
  lemma GlowPassEmpty(c: Context)
    ensures GlowPass(c, []).log == c.log
    ensures GlowPass(c, []).paint == GlowPassSetup(c.paint)
  {
  }

  // ---------------------------------------------------------------------------
  // Replay (`reDraw`)
  // ---------------------------------------------------------------------------

  /**
   * One iteration of the inner `forEach` of `reDraw`: an odd-index segment of a
   * glow entry only loads the point buffer; every other segment is drawn with
   * the entry's stored settings.
   */
  function ReplayStep(s: RenderState, item: ItemHistory, i: nat): (r: RenderState)
    requires i < |item.coordinates|
    ensures i % 2 == 1 && item.drawOption == GLOW ==>
              r.ctx == s.ctx && Segment(r.olderPt, r.oldPt) == item.coordinates[i]
    ensures !(i % 2 == 1 && item.drawOption == GLOW) ==> r.oldPt == s.oldPt && r.olderPt == s.olderPt
  {
    var seg := item.coordinates[i];
    if i % 2 == 1 && item.drawOption == GLOW then
      s.(oldPt := seg.end, olderPt := seg.start)
    else
      DrawSegment(s, seg.start, seg.end, item.penColor, item.drawOption, item.lineWidth)
  }

  /** The state after the first `n` segments of `item` have been replayed. */
  function ReplaySegs(s: RenderState, item: ItemHistory, n: nat): (r: RenderState)
    requires n <= |item.coordinates|
    ensures |r.ctx.log| >= |s.ctx.log|
  {
    if n == 0 then s else ReplayStep(ReplaySegs(s, item, n - 1), item, n - 1)
  }

  /** The state after the first `k` entries of `history` have been replayed, oldest first. */
  function ReplayItems(s: RenderState, history: seq<ItemHistory>, k: nat): (r: RenderState)
    requires k <= |history|
    ensures |r.ctx.log| >= |s.ctx.log|
  {
    if k == 0 then s
    else ReplaySegs(ReplayItems(s, history, k - 1), history[k - 1], |history[k - 1].coordinates|)
  }

  /**
   * `reDraw()`: clear the drawing layer, then replay the whole history; the
   * layer ends with exactly the strokes the history accounts for.
   */
  function Replay(s: RenderState, history: seq<ItemHistory>): (r: RenderState)
    ensures |r.ctx.log| == StrokeTotal(history)
  {
    ReplayItemsCount(s.(ctx := s.ctx.(log := [])), history, |history|);
    assert history[..|history|] == history;
    ReplayItems(s.(ctx := s.ctx.(log := [])), history, |history|)
  }

  /** One more entry of the history is replayed on top of the ones before it. */
  lemma ReplayItemsNext(s: RenderState, history: seq<ItemHistory>, k: nat)
    requires k < |history|
    ensures ReplayItems(s, history, k + 1)
            == ReplaySegs(ReplayItems(s, history, k), history[k], |history[k].coordinates|)
  {
  }

  /** `Replay` is the replay of every entry, started on a cleared layer. */
  lemma ReplayIsItems(s: RenderState, history: seq<ItemHistory>)
    ensures Replay(s, history) == ReplayItems(s.(ctx := s.ctx.(log := [])), history, |history|)
  {
  }

  /** How many `drawLine` calls replaying an entry makes: ceil(n/2) for glow, n otherwise. */
  function DrawCalls(item: ItemHistory): nat
  {
    var n := |item.coordinates|;
    if item.drawOption == GLOW then (n + 1) / 2 else n
  }

  /** How many strokes replaying an entry adds to the log: a glow `drawLine` strokes twice. */
  function StrokesOf(item: ItemHistory): nat
  {
    (if item.drawOption == GLOW then 2 else 1) * DrawCalls(item)
  }

  /** Total strokes replaying a whole history adds. */
  function StrokeTotal(history: seq<ItemHistory>): nat
  {
    if history == [] then 0 else StrokeTotal(history[..|history| - 1]) + StrokesOf(history[|history| - 1])
  }

  /**
   * Replaying an eraser, pen or unknown-option entry draws every segment once,
   * in order, with the entry's stored width (and for eraser and pen, its stored
   * colour), and leaves the point buffer alone.
   */
  lemma ReplaySegsPlain(s: RenderState, item: ItemHistory, n: nat)
    requires n <= |item.coordinates| && item.drawOption != GLOW
    ensures var r := ReplaySegs(s, item, n);
            var base := |s.ctx.log|;
            r.oldPt == s.oldPt && r.olderPt == s.olderPt
            && |r.ctx.log| == base + n
            && r.ctx.log[..base] == s.ctx.log
            && (forall j :: base <= j < |r.ctx.log| ==>
                  r.ctx.log[j].seg == item.coordinates[j - base]
                  && r.ctx.log[j].paint.lineWidth == item.lineWidth
                  && (r.ctx.log[j].paint.op == DestinationOut <==> item.drawOption == ERASER)
                  && (item.drawOption == ERASER || item.drawOption == PEN ==>
                        r.ctx.log[j].paint.style == item.penColor))
  {
    ReplayPlainFrame(s, item, n);
    forall j | |s.ctx.log| <= j < |s.ctx.log| + n
      ensures PlainCmd(item, ReplaySegs(s, item, n).ctx.log[j], j - |s.ctx.log|)
    {
      ReplayPlainAt(s, item, n, j);
    }
  }

  /** What replaying segment i of an eraser, pen or unknown-option entry strokes. */
  ghost predicate PlainCmd(item: ItemHistory, c: StrokeCmd, i: nat)
    requires i < |item.coordinates|
  {
    c.seg == item.coordinates[i]
    && c.paint.lineWidth == item.lineWidth
    && (c.paint.op == DestinationOut <==> item.drawOption == ERASER)
    && (item.drawOption == ERASER || item.drawOption == PEN ==> c.paint.style == item.penColor)
  }

  /** One replay step of an eraser, pen or unknown-option entry. */
  lemma ReplayPlainStep(s: RenderState, item: ItemHistory, i: nat)
    requires i < |item.coordinates| && item.drawOption != GLOW
    ensures var r := ReplayStep(s, item, i);
            r.oldPt == s.oldPt && r.olderPt == s.olderPt
            && |r.ctx.log| == |s.ctx.log| + 1
            && r.ctx.log[..|s.ctx.log|] == s.ctx.log
            && PlainCmd(item, r.ctx.log[|s.ctx.log|], i)
  {
  }

  /** The frame part of ReplaySegsPlain: buffer kept, one stroke per segment, earlier log kept. */
  lemma {:induction false} ReplayPlainFrame(s: RenderState, item: ItemHistory, n: nat)
    requires n <= |item.coordinates| && item.drawOption != GLOW
    ensures var r := ReplaySegs(s, item, n);
            r.oldPt == s.oldPt && r.olderPt == s.olderPt
            && |r.ctx.log| == |s.ctx.log| + n
            && r.ctx.log[..|s.ctx.log|] == s.ctx.log
  {
    if n > 0 {
      ReplayPlainFrame(s, item, n - 1);
      var prev := ReplaySegs(s, item, n - 1);
      ReplayPlainStep(prev, item, n - 1);
      PrefixTrans(s.ctx.log, prev.ctx.log, ReplaySegs(s, item, n).ctx.log);
    }
  }

  /** ReplaySegsPlain at one log position. */
  lemma {:induction false} ReplayPlainAt(s: RenderState, item: ItemHistory, n: nat, j: int)
    requires n <= |item.coordinates| && item.drawOption != GLOW
    requires |s.ctx.log| <= j < |s.ctx.log| + n
    ensures j < |ReplaySegs(s, item, n).ctx.log|
            && PlainCmd(item, ReplaySegs(s, item, n).ctx.log[j], j - |s.ctx.log|)
  {
    if j < |s.ctx.log| + n - 1 {
      ReplayPlainAt(s, item, n - 1, j);
      ReplayPlainKept(s, item, n, j);
    } else {
      var prev := ReplaySegs(s, item, n - 1);
      ReplayPlainFrame(s, item, n - 1);
      ReplayPlainStep(prev, item, n - 1);
    }
  }

  /** A stroke replayed earlier stays where it was when one more segment is replayed. */
  lemma ReplayPlainKept(s: RenderState, item: ItemHistory, n: nat, j: int)
    requires 0 < n <= |item.coordinates| && item.drawOption != GLOW
    requires |s.ctx.log| <= j < |s.ctx.log| + n - 1
    requires j < |ReplaySegs(s, item, n - 1).ctx.log|
    ensures j < |ReplaySegs(s, item, n).ctx.log|
            && ReplaySegs(s, item, n).ctx.log[j] == ReplaySegs(s, item, n - 1).ctx.log[j]
  {
    var prev := ReplaySegs(s, item, n - 1);
    ReplayPlainStep(prev, item, n - 1);
    PrefixAt(prev.ctx.log, ReplaySegs(s, item, n).ctx.log, j);
  }

  /**
   * Replaying a glow entry adds two strokes per even-index segment, keeps the
   * log before it, and leaves in the point buffer the last odd-index segment
   * processed (or the old buffer when there was none).
   */
  lemma {:induction false} ReplayGlowFrame(s: RenderState, item: ItemHistory, n: nat)
    requires n <= |item.coordinates| && item.drawOption == GLOW
    ensures var r := ReplaySegs(s, item, n);
            |r.ctx.log| == |s.ctx.log| + 2 * ((n + 1) / 2)
            && r.ctx.log[..|s.ctx.log|] == s.ctx.log
            && (n < 2 ==> r.oldPt == s.oldPt && r.olderPt == s.olderPt)
            && (n >= 2 ==> Segment(r.olderPt, r.oldPt) == item.coordinates[if n % 2 == 0 then n - 1 else n - 2])
  {
    if n > 0 {
      ReplayGlowFrame(s, item, n - 1);
      var prev := ReplaySegs(s, item, n - 1);
      ReplayGlowStep(prev, item, n - 1);
      assert (n + 1) / 2 == n / 2 + (if (n - 1) % 2 == 0 then 1 else 0);
      PrefixTrans(s.ctx.log, prev.ctx.log, ReplaySegs(s, item, n).ctx.log);
    }
  }

  /** One replay step of a glow entry, the building block of ReplayGlowFrame. */
  lemma ReplayGlowStep(s: RenderState, item: ItemHistory, i: nat)
    requires i < |item.coordinates| && item.drawOption == GLOW
    ensures var r := ReplayStep(s, item, i);
            |r.ctx.log| == |s.ctx.log| + (if i % 2 == 0 then 2 else 0)
            && r.ctx.log[..|s.ctx.log|] == s.ctx.log
            && (i % 2 == 0 ==> r.oldPt == s.oldPt && r.olderPt == s.olderPt
                               && r.ctx.log[|s.ctx.log|].seg == item.coordinates[i]
                               && r.ctx.log[|s.ctx.log| + 1].seg == Segment(s.olderPt, s.oldPt))
            && (i % 2 == 1 ==> Segment(r.olderPt, r.oldPt) == item.coordinates[i])
  {
  }

  /** Rounding a natural number to an even one, down and up. */
  lemma Halves(n: nat)
    ensures n % 2 == 0 ==> 2 * (n / 2) == n && 2 * ((n + 1) / 2) == n
    ensures n % 2 == 1 ==> 2 * (n / 2) == n - 1 && 2 * ((n + 1) / 2) == n + 1
  {
  }

  /** An element of a prefix is the element of the whole sequence. */
  lemma PrefixAt<T>(a: seq<T>, b: seq<T>, j: int)
    requires |a| <= |b| && b[..|a|] == a && 0 <= j < |a|
    ensures b[j] == a[j]
  {
    assert b[..|a|][j] == b[j];
  }

  /** Being a prefix is transitive. */
  lemma PrefixTrans<T>(a: seq<T>, b: seq<T>, c: seq<T>)
    requires |a| <= |b| <= |c| && b[..|a|] == a && c[..|b|] == b
    ensures c[..|a|] == a
  {
    assert c[..|a|] == c[..|b|][..|a|];
  }

  /** Where the k-th drawn pair of a replayed glow entry starts: its log offset and its segment index. */
  function PairStart(k: nat): nat
  {
    2 * k
  }

  /**
   * The k-th drawn pair of a replayed glow entry, when segment 2k is among the
   * first n: segment 2k is stroked at log offset 2k, followed by the trailing
   * redraw `older -> old`. For k = 0 that trailing segment is whatever the
   * point buffer held before; for k >= 1 it is segment 2k-1, which the previous
   * (odd) iteration only loaded into the buffer.
   */
  ghost predicate GlowPairAt(s: RenderState, item: ItemHistory, n: nat, k: nat)
    requires n <= |item.coordinates|
  {
    var r := ReplaySegs(s, item, n);
    var j := |s.ctx.log| + PairStart(k);
    PairStart(k) < n ==>
      j + 1 < |r.ctx.log|
      && r.ctx.log[j].seg == item.coordinates[PairStart(k)]
      && r.ctx.log[j + 1].seg ==
           (if k == 0 then Segment(s.olderPt, s.oldPt) else item.coordinates[PairStart(k) - 1])
  }

  /** Replaying a glow entry strokes every drawn pair as GlowPairAt says. */
  lemma {:induction false} ReplaySegsGlow(s: RenderState, item: ItemHistory, n: nat)
    requires n <= |item.coordinates| && item.drawOption == GLOW
    ensures forall k: nat :: GlowPairAt(s, item, n, k)
  {
    if n > 0 {
      ReplaySegsGlow(s, item, n - 1);
      forall k: nat
        ensures GlowPairAt(s, item, n, k)
      {
        GlowPairStep(s, item, n, k);
      }
    }
  }

  /** The inductive step of ReplaySegsGlow for one pair. */
  lemma GlowPairStep(s: RenderState, item: ItemHistory, n: nat, k: nat)
    requires 0 < n <= |item.coordinates| && item.drawOption == GLOW
    requires GlowPairAt(s, item, n - 1, k)
    ensures GlowPairAt(s, item, n, k)
  {
    if PairStart(k) < n - 1 {
      GlowPairKept(s, item, n, k);
    } else if PairStart(k) == n - 1 {
      GlowPairDrawn(s, item, n, k);
    }
  }

  /** A pair drawn earlier stays where it was when one more segment is replayed. */
  lemma GlowPairKept(s: RenderState, item: ItemHistory, n: nat, k: nat)
    requires 0 < n <= |item.coordinates| && item.drawOption == GLOW
    requires PairStart(k) < n - 1 && GlowPairAt(s, item, n - 1, k)
    ensures GlowPairAt(s, item, n, k)
  {
    var prev := ReplaySegs(s, item, n - 1);
    var r := ReplaySegs(s, item, n);
    var j := |s.ctx.log| + PairStart(k);
    ReplayGlowStep(prev, item, n - 1);
    PrefixAt(prev.ctx.log, r.ctx.log, j);
    PrefixAt(prev.ctx.log, r.ctx.log, j + 1);
  }

  /** Replaying segment 2k draws the k-th pair right after the earlier ones. */
  lemma GlowPairDrawn(s: RenderState, item: ItemHistory, n: nat, k: nat)
    requires 0 < n <= |item.coordinates| && item.drawOption == GLOW
    requires PairStart(k) == n - 1
    ensures GlowPairAt(s, item, n, k)
  {
    var prev := ReplaySegs(s, item, n - 1);
    ReplayGlowFrame(s, item, n - 1);
    Halves(n);
    assert |prev.ctx.log| == |s.ctx.log| + PairStart(k);
    ReplayGlowStep(prev, item, n - 1);
    if k == 0 {
      assert prev == s;
    } else {
      assert Segment(prev.olderPt, prev.oldPt) == item.coordinates[n - 2];
    }
  }

  /** Every stroke of a replayed glow entry is white, shadowed in the entry's colour, at its width. */
  lemma {:induction false} ReplayGlowPaint(s: RenderState, item: ItemHistory, n: nat)
    requires n <= |item.coordinates| && item.drawOption == GLOW
    ensures var r := ReplaySegs(s, item, n);
            var base := |s.ctx.log|;
            forall j :: base <= j < |r.ctx.log| ==>
              r.ctx.log[j].paint.op == SourceOver
              && r.ctx.log[j].paint.style == "#ffffff"
              && r.ctx.log[j].paint.shadowColor == item.penColor
              && r.ctx.log[j].paint.lineWidth == item.lineWidth
              && ((j - base) % 2 == 1 ==> r.ctx.log[j].paint.shadowBlur == 0.0)
  {
    ReplayGlowFrame(s, item, n);
    if n > 0 {
      ReplayGlowPaint(s, item, n - 1);
      ReplayGlowFrame(s, item, n - 1);
      if (n - 1) % 2 == 0 {
        assert 2 * (n / 2) == n - 1 && 2 * ((n + 1) / 2) == n + 1;
      } else {
        assert 2 * (n / 2) == n && 2 * ((n + 1) / 2) == n;
      }
      var prev := ReplaySegs(s, item, n - 1);
      var r := ReplaySegs(s, item, n);
      if (n - 1) % 2 == 0 {
        var seg := item.coordinates[n - 1];
        var k := |prev.ctx.log|;
        assert k - |s.ctx.log| == n - 1;
        assert r == DrawSegment(prev, seg.start, seg.end, item.penColor, GLOW, item.lineWidth);
        forall j | |s.ctx.log| <= j < |prev.ctx.log|
          ensures r.ctx.log[j] == prev.ctx.log[j]
        {
          assert r.ctx.log[..k][j] == r.ctx.log[j];
        }
        assert r.ctx.log[k].paint.op == SourceOver;
        assert r.ctx.log[k + 1].paint.op == SourceOver;
      }
    }
  }

  /** Replaying a prefix of entries adds exactly their strokes, after what was there. */
  lemma {:induction false} ReplayItemsCount(s: RenderState, history: seq<ItemHistory>, k: nat)
    requires k <= |history|
    ensures |ReplayItems(s, history, k).ctx.log| == |s.ctx.log| + StrokeTotal(history[..k])
    ensures ReplayItems(s, history, k).ctx.log[..|s.ctx.log|] == s.ctx.log
  {
    if k > 0 {
      ReplayItemsCount(s, history, k - 1);
      var prev := ReplayItems(s, history, k - 1);
      var item := history[k - 1];
      if item.drawOption == GLOW {
        ReplayGlowFrame(prev, item, |item.coordinates|);
      } else {
        ReplayPlainFrame(prev, item, |item.coordinates|);
      }
      assert history[..k][..k - 1] == history[..k - 1];
      PrefixTrans(s.ctx.log, prev.ctx.log, ReplayItems(s, history, k).ctx.log);
    }
  }

  /** A replay never leaves a shadow blur behind when none was set before. */
  lemma {:induction false} ReplayItemsKeepsBlurOff(s: RenderState, history: seq<ItemHistory>, k: nat)
    requires k <= |history| && s.ctx.paint.shadowBlur == 0.0
    ensures ReplayItems(s, history, k).ctx.paint.shadowBlur == 0.0
  {
    if k > 0 {
      ReplayItemsKeepsBlurOff(s, history, k - 1);
      ReplaySegsKeepsBlurOff(ReplayItems(s, history, k - 1), history[k - 1], |history[k - 1].coordinates|);
    }
  }

  lemma {:induction false} ReplaySegsKeepsBlurOff(s: RenderState, item: ItemHistory, n: nat)
    requires n <= |item.coordinates| && s.ctx.paint.shadowBlur == 0.0
    ensures ReplaySegs(s, item, n).ctx.paint.shadowBlur == 0.0
  {
    if n > 0 {
      ReplaySegsKeepsBlurOff(s, item, n - 1);
    }
  }

  /**
   * Replay is not a function of the history alone: one glow entry with a
   * single segment replays differently from two point buffers that differ.
   */
  lemma ReplayReadsPointBuffer()
    ensures var item := ItemHistory("#ff0000", GLOW, 3.0, [Segment(Point(0.0, 0.0), Point(10.0, 0.0))]);
            var c := Context(InitialPaint, []);
            var a := RenderState(c, Point(0.0, 0.0), Point(0.0, 0.0));
            var b := RenderState(c, Point(5.0, 5.0), Point(1.0, 1.0));
            Replay(a, [item]).ctx != Replay(b, [item]).ctx
  {
    var item := ItemHistory("#ff0000", GLOW, 3.0, [Segment(Point(0.0, 0.0), Point(10.0, 0.0))]);
    var c := Context(InitialPaint, []);
    var a := RenderState(c, Point(0.0, 0.0), Point(0.0, 0.0));
    var b := RenderState(c, Point(5.0, 5.0), Point(1.0, 1.0));
    assert a.(ctx := a.ctx.(log := [])) == a;
    assert b.(ctx := b.ctx.(log := [])) == b;
    assert [item][0] == item;
    assert ReplayItems(a, [item], 0) == a && ReplayItems(b, [item], 0) == b;
    assert Replay(a, [item]) == ReplaySegs(a, item, 1);
    assert Replay(b, [item]) == ReplaySegs(b, item, 1);
    ReplaySegsGlow(a, item, 1);
    ReplaySegsGlow(b, item, 1);
  }
}
