/**
 * What the screen shows while a stroke is being drawn, as opposed to what
 * `reDraw` paints for the same history entry afterwards. Pointer-down sets
 * `cur`, `old` and `older` to the press point; every pointer-move then calls
 * `drawLine(old -> cur)` after shifting the point buffer, and records that
 * segment. For eraser and pen entries drawn with the settings the entry
 * records, a replay from the same starting context reproduces the live
 * drawing exactly; for glow entries it does not.
 */
module Live {
  import opened Canvas
  import opened Render

  /**
   * The state after the first `n` pointer-moves of the stroke recorded in
   * `item`, started from `s`: move `i` draws `coordinates[i]` with the point
   * buffer shifted to `old := coordinates[i].start, older := old`.
   */
  function LiveDraw(s: RenderState, item: ItemHistory, n: nat): (r: RenderState)
    requires n <= |item.coordinates|
    ensures |r.ctx.log| == |s.ctx.log| + (if item.drawOption == GLOW then 2 * n else n)
    ensures r.ctx.log[..|s.ctx.log|] == s.ctx.log
    ensures n > 0 ==> r.oldPt == item.coordinates[n - 1].start
  {
    if n == 0 then s
    else
      var p := LiveDraw(s, item, n - 1);
      var seg := item.coordinates[n - 1];
      var r := DrawSegment(p.(oldPt := seg.start, olderPt := p.oldPt), seg.start, seg.end,
                           item.penColor, item.drawOption, item.lineWidth);
      PrefixTrans(s.ctx.log, p.ctx.log, r.ctx.log);
      r
  }

  /** The first `n` moves depend only on the first `n` segments and on the entry's settings. */
  lemma {:induction false} LiveDrawPrefix(s: RenderState, item: ItemHistory, other: ItemHistory, n: nat)
    requires n <= |item.coordinates| && n <= |other.coordinates|
    requires item.penColor == other.penColor && item.drawOption == other.drawOption
    requires item.lineWidth == other.lineWidth
    requires item.coordinates[..n] == other.coordinates[..n]
    ensures LiveDraw(s, item, n) == LiveDraw(s, other, n)
  {
    if n > 0 {
      assert item.coordinates[..n - 1] == item.coordinates[..n][..n - 1];
      assert other.coordinates[..n - 1] == other.coordinates[..n][..n - 1];
      LiveDrawPrefix(s, item, other, n - 1);
      assert item.coordinates[n - 1] == item.coordinates[..n][n - 1];
      assert other.coordinates[n - 1] == other.coordinates[..n][n - 1];
    }
  }

  /** Recording one more segment does not change what the moves so far have drawn. */
  lemma LiveDrawSnoc(s: RenderState, item: ItemHistory, seg: Segment)
    ensures LiveDraw(s, item, |item.coordinates|)
            == LiveDraw(s, item.(coordinates := item.coordinates + [seg]), |item.coordinates|)
  {
    var other := item.(coordinates := item.coordinates + [seg]);
    assert other.coordinates[..|item.coordinates|] == item.coordinates[..|item.coordinates|];
    LiveDrawPrefix(s, item, other, |item.coordinates|);
  }

  /**
   * One more move, as `handleMove` performs it on the state the earlier
   * moves left (`old := cur`, `older := old`, then `drawLine(cur -> to)`),
   * is the live drawing of the stroke with that segment recorded.
   */
  lemma LiveDrawExtend(s: RenderState, item: ItemHistory, st: RenderState, from: Point, to: Point)
    requires st == LiveDraw(s, item, |item.coordinates|)
    ensures DrawSegment(st.(oldPt := from, olderPt := st.oldPt), from, to,
                        item.penColor, item.drawOption, item.lineWidth)
            == LiveDraw(s, item.(coordinates := item.coordinates + [Segment(from, to)]),
                        |item.coordinates| + 1)
  {
    LiveDrawSnoc(s, item, Segment(from, to));
  }

  /** Every live move strokes its own segment first: move `i` leaves `coordinates[i]` in the log. */
  lemma {:induction false} LiveDrawsEverySegment(s: RenderState, item: ItemHistory, n: nat, i: nat)
    requires i < n <= |item.coordinates|
    ensures var m := if item.drawOption == GLOW then 2 else 1;
            |s.ctx.log| + m * i < |LiveDraw(s, item, n).ctx.log|
            && LiveDraw(s, item, n).ctx.log[|s.ctx.log| + m * i].seg == item.coordinates[i]
  {
    var m := if item.drawOption == GLOW then 2 else 1;
    var p := LiveDraw(s, item, n - 1);
    if i < n - 1 {
      LiveDrawsEverySegment(s, item, n - 1, i);
      PrefixAt(p.ctx.log, LiveDraw(s, item, n).ctx.log, |s.ctx.log| + m * i);
    } else {
      assert |p.ctx.log| == |s.ctx.log| + m * i;
    }
  }

  /**
   * Eraser and pen entries: replaying the recorded segments paints exactly
   * what live pointer-moves with the entry's colour, option and width
   * painted, whatever the point buffer was, because without glow `drawLine`
   * never reads `old` or `older`.
   */
  lemma {:induction false} ReplayMatchesLive(s: RenderState, t: RenderState, item: ItemHistory, n: nat)
    requires n <= |item.coordinates| && item.drawOption != GLOW
    requires s.ctx == t.ctx
    ensures ReplaySegs(s, item, n).ctx == LiveDraw(t, item, n).ctx
  {
    if n > 0 {
      ReplayMatchesLive(s, t, item, n - 1);
      var p := ReplaySegs(s, item, n - 1);
      var q := LiveDraw(t, item, n - 1);
      var seg := item.coordinates[n - 1];
      DrawIgnoresBuffer(p, q.(oldPt := seg.start, olderPt := q.oldPt), seg, item);
    }
  }

  /** Without glow, the strokes `drawLine` makes depend on the context only, not on `old`/`older`. */
  lemma DrawIgnoresBuffer(s: RenderState, t: RenderState, seg: Segment, item: ItemHistory)
    requires item.drawOption != GLOW && s.ctx == t.ctx
    ensures DrawSegment(s, seg.start, seg.end, item.penColor, item.drawOption, item.lineWidth).ctx
            == DrawSegment(t, seg.start, seg.end, item.penColor, item.drawOption, item.lineWidth).ctx
  {
  }

  /**
   * Glow entries, live side: the last pointer-move of a stroke strokes its
   * segment, and on pointer-up the glow pass adds two more strokes for every
   * segment of the entry.
   */
  lemma GlowLiveDrawsLastSegment(s: RenderState, item: ItemHistory)
    requires item.drawOption == GLOW && |item.coordinates| >= 1
    ensures var n := |item.coordinates|;
            var live := LiveDraw(s, item, n);
            |s.ctx.log| + 2 * (n - 1) < |live.ctx.log|
            && live.ctx.log[|s.ctx.log| + 2 * (n - 1)].seg == item.coordinates[n - 1]
            && |GlowPass(live.ctx, [item]).log| == |s.ctx.log| + 4 * n
  {
    LiveDrawsEverySegment(s, item, |item.coordinates|, |item.coordinates| - 1);
  }

  /**
   * Glow entries, replay side: a stroke with an even number of segments ends
   * with an odd-indexed segment, which the replay only loads into the point
   * buffer. If that last segment occurs nowhere else in the stroke nor in
   * the buffer the replay starts from, no stroke the replay paints is that
   * segment, and the replay paints one stroke per segment where the live
   * drawing and its glow pass painted four.
   */
  lemma {:induction false} GlowReplayDropsLastSegment(s: RenderState, item: ItemHistory)
    requires item.drawOption == GLOW
    requires |item.coordinates| >= 2 && |item.coordinates| % 2 == 0
    requires forall i :: 0 <= i < |item.coordinates| - 1 ==>
               item.coordinates[i] != item.coordinates[|item.coordinates| - 1]
    requires Segment(s.olderPt, s.oldPt) != item.coordinates[|item.coordinates| - 1]
    ensures var n := |item.coordinates|;
            var r := ReplaySegs(s, item, n);
            |r.ctx.log| == |s.ctx.log| + n
            && forall j :: |s.ctx.log| <= j < |r.ctx.log| ==> r.ctx.log[j].seg != item.coordinates[n - 1]
  {
    var n := |item.coordinates|;
    var base := |s.ctx.log|;
    ReplayGlowFrame(s, item, n);
    Halves(n);
    ReplaySegsGlow(s, item, n);
    var r := ReplaySegs(s, item, n);
    forall j | base <= j < |r.ctx.log|
      ensures r.ctx.log[j].seg != item.coordinates[n - 1]
    {
      assert GlowPairAt(s, item, n, (j - base) / 2);
      GlowReplayStrokeAt(s, item, j);
    }
  }

  /**
   * The same glow entry replayed twice (undo, redo, undo, redo on a history
   * holding only it): the first replay leaves the last segment of an
   * even-length stroke in the point buffer, so the second replay paints it,
   * as the shadow-free trailing stroke of segment 0.
   */
  lemma {:induction false} GlowReplayTwicePaintsLast(s: RenderState, item: ItemHistory)
    requires item.drawOption == GLOW
    requires |item.coordinates| >= 2 && |item.coordinates| % 2 == 0
    ensures var r := Replay(Replay(s, [item]), [item]);
            1 < |r.ctx.log|
            && r.ctx.log[1].seg == item.coordinates[|item.coordinates| - 1]
            && r.ctx.log[1].paint.shadowBlur == 0.0
  {
    var n := |item.coordinates|;
    var c0 := s.(ctx := s.ctx.(log := []));
    ReplaySingle(s, item);
    ReplayGlowFrame(c0, item, n);
    var r1 := Replay(s, [item]);
    var c1 := r1.(ctx := r1.ctx.(log := []));
    ReplaySingle(r1, item);
    ReplaySegsGlow(c1, item, n);
    assert GlowPairAt(c1, item, n, 0);
    ReplayGlowPaint(c1, item, n);
    var r := ReplaySegs(c1, item, n);
    assert (1 - |c1.ctx.log|) % 2 == 1;
    assert r.ctx.log[1].paint.shadowBlur == 0.0;
  }

  /** `reDraw` over a history holding one entry replays that entry on a cleared layer. */
  lemma ReplaySingle(s: RenderState, item: ItemHistory)
    ensures Replay(s, [item]) == ReplaySegs(s.(ctx := s.ctx.(log := [])), item, |item.coordinates|)
  {
    var c0 := s.(ctx := s.ctx.(log := []));
    ReplayIsItems(s, [item]);
    assert ReplayItems(c0, [item], 1) == ReplaySegs(ReplayItems(c0, [item], 0), item, |item.coordinates|);
  }

  /** One stroke of a glow replay is not the stroke's last segment, under the distinctness assumptions above. */
  lemma GlowReplayStrokeAt(s: RenderState, item: ItemHistory, j: int)
    requires item.drawOption == GLOW
    requires |item.coordinates| >= 2 && |item.coordinates| % 2 == 0
    requires forall i :: 0 <= i < |item.coordinates| - 1 ==>
               item.coordinates[i] != item.coordinates[|item.coordinates| - 1]
    requires Segment(s.olderPt, s.oldPt) != item.coordinates[|item.coordinates| - 1]
    requires |s.ctx.log| <= j < |s.ctx.log| + |item.coordinates|
    requires GlowPairAt(s, item, |item.coordinates|, (j - |s.ctx.log|) / 2)
    ensures var r := ReplaySegs(s, item, |item.coordinates|);
            j < |r.ctx.log| && r.ctx.log[j].seg != item.coordinates[|item.coordinates| - 1]
  {
    var d := j - |s.ctx.log|;
    var k := d / 2;
    assert PairStart(k) == d || PairStart(k) + 1 == d;
    assert PairStart(k) < |item.coordinates| - 1;
  }
}
