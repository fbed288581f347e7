/**
 * The `Draw` component of components/draw.tsx as an object: the refs and the
 * drawing canvas's context are its fields, the pointer handlers, the
 * `useCallback` helpers and the bodies of the effects are its methods. Each
 * method is proved against the value-level functions of Render, History and
 * Layout.
 */
module DrawComponent {
  import opened Wrappers
  import opened Canvas
  import opened Render
  import opened History
  import opened Layout
  import opened Live

  class Draw {
    // history refs
    var history: seq<ItemHistory>       // historyRef: the undo stack, newest last
    var redo: seq<ItemHistory>          // redoHistoryRef: the redo stack, top last
    var stroke: seq<Segment>            // strokeRef: segments of the stroke in progress

    // pointer refs
    var cur: Point                      // x, y: the latest raster point
    var oldPt: Point                    // olderX/olderY.old
    var olderPt: Point                  // olderX/olderY.older
    var isDrawing: bool                 // isDrawingRef

    /** Whether `canvasRef` and `ctxRef` are set; every guarded handler is a no-op until then. */
    var mounted: bool

    // the drawing canvas's 2D context
    var globalCompositeOperation: CompositeOp
    var strokeStyle: string
    var shadowColor: string
    var shadowBlur: real
    var lineWidth: real
    var lineCap: LineCap
    var log: seq<StrokeCmd>             // what has been stroked since the last clearRect

    // state of the image canvas and the size states
    var photo: Option<string>           // source of the photo painted into the image canvas
    var imgSize: Size                   // natural size of the loaded photo
    var viewSize: Size                  // viewCanvasSize: the on-screen size of both canvases

    /** The pointer-down point of the current (or last) stroke. */
    ghost var down: Point

    function Ctx(): Context
      reads this`globalCompositeOperation, this`strokeStyle, this`shadowColor, this`shadowBlur,
            this`lineWidth, this`lineCap, this`log
    {
      Context(Paint(globalCompositeOperation, strokeStyle, shadowColor, shadowBlur, lineWidth, lineCap), log)
    }

    function State(): RenderState
      reads this`globalCompositeOperation, this`strokeStyle, this`shadowColor, this`shadowBlur,
            this`lineWidth, this`lineCap, this`log, this`oldPt, this`olderPt
    {
      RenderState(Ctx(), oldPt, olderPt)
    }

    function Stacks(): Stacks
      reads this`history, this`redo
    {
      History.Stacks(history, redo)
    }

    /**
     * What every handler preserves: no shadow blur is left set between calls,
     * the buffered stroke is a chain starting at the pointer-down point and
     * ending at the current point, and every recorded stroke is a chain.
     */
    ghost predicate Valid()
      reads this`shadowBlur, this`stroke, this`cur, this`down, this`history, this`redo
    {
      shadowBlur == 0.0 && StrokeValid() && StacksChained()
    }

    /** The buffered stroke is a chain from the pointer-down point to the current point. */
    ghost predicate StrokeValid()
      reads this`stroke, this`cur, this`down
    {
      ChainFromTo(stroke, down, cur)
    }

    /** Every recorded stroke, on either stack, is a chain. */
    ghost predicate StacksChained()
      reads this`history, this`redo
    {
      && (forall e :: e in history ==> Chained(e.coordinates))
      && (forall e :: e in redo ==> Chained(e.coordinates))
    }

    constructor ()
      ensures Valid() && !mounted && !isDrawing
      ensures history == [] && redo == [] && stroke == []
      ensures Ctx() == Context(InitialPaint, [])
      ensures cur == oldPt == olderPt == Point(0.0, 0.0)
      ensures photo == None
      ensures imgSize == Size(CANVAS_WIDTH, CANVAS_HEIGHT) && viewSize == Size(CANVAS_WIDTH, CANVAS_HEIGHT)
    {
      history, redo, stroke := [], [], [];
      cur, oldPt, olderPt := Point(0.0, 0.0), Point(0.0, 0.0), Point(0.0, 0.0);
      isDrawing, mounted := false, false;
      globalCompositeOperation := InitialPaint.op;
      strokeStyle := InitialPaint.style;
      shadowColor := InitialPaint.shadowColor;
      shadowBlur := InitialPaint.shadowBlur;
      lineWidth := InitialPaint.lineWidth;
      lineCap := InitialPaint.cap;
      log := [];
      photo := None;
      imgSize := Size(CANVAS_WIDTH, CANVAS_HEIGHT);
      viewSize := Size(CANVAS_WIDTH, CANVAS_HEIGHT);
      down := Point(0.0, 0.0);
    }

    /** `beginPath; moveTo(a); lineTo(b); stroke(); closePath()` with the current settings. */
    method StrokeLine(a: Point, b: Point)
      modifies this`log
      ensures Ctx() == StrokeSegment(old(Ctx()), Segment(a, b))
    {
      log := log + [StrokeCmd(Segment(a, b), Ctx().paint)];
    }

    /** `drawLine`: the mode switch, the short-segment blur gate, the stroke and the glow trailing redraw. */
    method DrawLine(a: Point, b: Point, penColor: string, drawOption: int, width: real)
      modifies this`globalCompositeOperation, this`strokeStyle, this`shadowColor, this`shadowBlur,
               this`lineWidth, this`lineCap, this`log
      ensures State() == DrawSegment(old(State()), a, b, penColor, drawOption, width)
    {
      ghost var sel := SelectPaint(Ctx().paint, penColor, drawOption, width);
      if drawOption == ERASER {
        globalCompositeOperation := DestinationOut;
        strokeStyle := penColor;
      } else if drawOption == PEN {
        globalCompositeOperation := SourceOver;
        strokeStyle := penColor;
      } else if drawOption == GLOW {
        globalCompositeOperation := SourceOver;
        strokeStyle := "#ffffff";
        shadowColor := penColor;
        shadowBlur := 1.5 * width;
      } else {
        globalCompositeOperation := SourceOver;
      }
      lineWidth := width;
      lineCap := Round;
      assert Ctx().paint == sel;

      if SqDist(a, b) <= MIN_MOVE_DISTANCE_SQ {
        shadowBlur := 0.0;
      }
      ghost var p := Ctx().paint;
      StrokeLine(a, b);
      assert Ctx() == StrokeSegment(Context(p, old(log)), Segment(a, b));

      if drawOption == GLOW {
        shadowBlur := 0.0;
        StrokeLine(olderPt, oldPt);
      }
    }

    /** `historyReDraw(ctx, history)`: the post-pass run when a glow stroke ends. */
    method HistoryReDraw()
      modifies this`globalCompositeOperation, this`strokeStyle, this`shadowBlur, this`lineWidth,
               this`lineCap, this`log
      ensures Ctx() == GlowPass(old(Ctx()), history)
    {
      strokeStyle := "white";
      lineCap := Round;
      globalCompositeOperation := DestinationOut;
      shadowBlur := 0.0;

      var oldOp := globalCompositeOperation;
      if |history| > 0 {
        var item := history[|history| - 1];
        lineWidth := item.lineWidth;
        ghost var start := Ctx();
        for i := 0 to |item.coordinates|
          invariant Ctx() == GlowLoop(start, item.coordinates, item.lineWidth, i)
        {
          var coord := item.coordinates[i];
          StrokeLine(coord.start, coord.end);
          globalCompositeOperation := SourceOver;
          lineWidth := item.lineWidth;
          StrokeLine(coord.start, coord.end);
        }
        globalCompositeOperation := oldOp;
      }
    }

    /** `clearCanvas(isReset)`: clear the drawing canvas; with `isReset`, empty the undo stack (not the redo stack). */
    method ClearCanvas(isReset: bool)
      requires Valid()
      modifies this`log, this`history
      ensures Valid()
      ensures old(mounted) ==> log == [] && history == (if isReset then [] else old(history))
      ensures !old(mounted) ==> log == old(log) && history == old(history)
    {
      if !mounted {
        return;
      }
      log := [];
      if isReset {
        history := [];
      }
    }

    /** `reDraw()`: clear, then replay every stroke of the history with its stored settings. */
    method ReDraw()
      requires Valid()
      modifies this`globalCompositeOperation, this`strokeStyle, this`shadowColor, this`shadowBlur,
               this`lineWidth, this`lineCap, this`log, this`oldPt, this`olderPt, this`history
      ensures Valid() && history == old(history)
      ensures old(mounted) ==> State() == Replay(old(State()), history)
      ensures !old(mounted) ==> State() == old(State())
    {
      if !mounted {
        return;
      }
      ClearCanvas(false);
      assert State() == old(State()).(ctx := old(State()).ctx.(log := []));
      ReDrawItems();
      ReplayIsItems(old(State()), history);
    }

    /** The outer `forEach` of `reDraw`: replay every entry of the undo stack in order. */
    method ReDrawItems()
      requires shadowBlur == 0.0
      modifies this`globalCompositeOperation, this`strokeStyle, this`shadowColor, this`shadowBlur,
               this`lineWidth, this`lineCap, this`log, this`oldPt, this`olderPt
      ensures shadowBlur == 0.0
      ensures State() == ReplayItems(old(State()), history, |history|)
    {
      for i := 0 to |history|
        invariant shadowBlur == 0.0
        invariant State() == ReplayItems(old(State()), history, i)
      {
        ReDrawItem(history[i]);
        ReplayItemsNext(old(State()), history, i);
      }
    }

    /** The callback of `reDraw`'s inner `forEach`, applied to every segment of one entry. */
    method ReDrawItem(item: ItemHistory)
      requires shadowBlur == 0.0
      modifies this`globalCompositeOperation, this`strokeStyle, this`shadowColor, this`shadowBlur,
               this`lineWidth, this`lineCap, this`log, this`oldPt, this`olderPt
      ensures shadowBlur == 0.0
      ensures State() == ReplaySegs(old(State()), item, |item.coordinates|)
    {
      for j := 0 to |item.coordinates|
        invariant shadowBlur == 0.0
        invariant State() == ReplaySegs(old(State()), item, j)
      {
        ghost var before := State();
        var coord := item.coordinates[j];
        if j % 2 == 1 && item.drawOption == GLOW {
          oldPt := coord.end;
          olderPt := coord.start;
        } else {
          DrawLine(coord.start, coord.end, item.penColor, item.drawOption, item.lineWidth);
        }
        assert State() == ReplayStep(before, item, j);
      }
    }

    /** `undoRedo(isUndoed)`: move one entry between the stacks (if there is one) and redraw. */
    method UndoRedo(isUndo: bool)
      requires Valid()
      modifies this`globalCompositeOperation, this`strokeStyle, this`shadowColor, this`shadowBlur,
               this`lineWidth, this`lineCap, this`log, this`oldPt, this`olderPt, this`history, this`redo
      ensures Valid()
      ensures old(mounted) ==> Stacks() == (if isUndo then Undo(old(Stacks())) else Redo(old(Stacks())))
      ensures old(mounted) ==> State() == Replay(old(State()), history)
      ensures !old(mounted) ==> Stacks() == old(Stacks()) && State() == old(State())
    {
      if !mounted {
        return;
      }
      log := [];
      if isUndo {
        if |history| > 0 {
          var lastAction := history[|history| - 1];
          history := history[..|history| - 1];
          redo := redo + [lastAction];
        }
      } else {
        if |redo| > 0 {
          var redoAction := redo[|redo| - 1];
          redo := redo[..|redo| - 1];
          history := history + [redoAction];
        }
      }
      ReDraw();
    }

    /** `getCoordinate(e)`: shift the point buffer and store the mapped pointer position. */
    method GetCoordinate(client: Point, rect: Rect)
      requires rect.width > 0.0 && rect.height > 0.0
      modifies this`cur, this`oldPt, this`olderPt
      ensures olderPt == old(oldPt) && oldPt == old(cur) && cur == ToRaster(client, rect)
    {
      olderPt := oldPt;
      oldPt := cur;
      cur := ToRaster(client, rect);
    }

    /** `handleStart`: pointer-down. */
    method HandleStart(client: Point, rect: Rect)
      requires Valid()
      requires rect.width > 0.0 && rect.height > 0.0
      modifies this`redo, this`cur, this`oldPt, this`olderPt, this`isDrawing, this`stroke, this`down
      ensures Valid()
      ensures old(mounted) ==>
                redo == [] && stroke == [] && isDrawing
                && cur == ToRaster(client, rect) && oldPt == cur && olderPt == cur
      ensures old(mounted) ==> Redo(Stacks()) == Stacks()
      ensures !old(mounted) ==>
                redo == old(redo) && stroke == old(stroke) && isDrawing == old(isDrawing)
                && cur == old(cur) && oldPt == old(oldPt) && olderPt == old(olderPt)
    {
      if !mounted {
        return;
      }
      redo := [];
      GetCoordinate(client, rect);
      oldPt := cur;
      olderPt := cur;
      isDrawing := true;
      stroke := [];
      down := cur;
    }

    /**
     * A stroke as the handlers see it up to pointer-up: a pointer-down at
     * `press`, then a pointer-move to each point of `moves`. The buffered
     * stroke has one segment per move, and the screen shows `LiveDraw` of
     * that stroke, with the entry settings `handleEnd` will record if they
     * stay the same, from the pointer-down state.
     */
    method PressAndDrag(press: Point, moves: seq<Point>, rect: Rect, penColor: string, drawOption: int,
                        penWidth: real)
      requires Valid() && mounted
      requires rect.width > 0.0 && rect.height > 0.0
      modifies this`globalCompositeOperation, this`strokeStyle, this`shadowColor, this`shadowBlur,
               this`lineWidth, this`lineCap, this`log, this`cur, this`oldPt, this`olderPt, this`stroke,
               this`redo, this`isDrawing, this`down
      ensures Valid() && isDrawing && redo == [] && |stroke| == |moves|
      ensures moves != [] ==> stroke[0].start == ToRaster(press, rect)
      ensures var p := ToRaster(press, rect);
              State() == LiveDraw(old(State()).(oldPt := p, olderPt := p),
                                  ItemHistory(penColor, drawOption, penWidth, stroke), |moves|)
    {
      HandleStart(press, rect);
      assert State() == old(State()).(oldPt := ToRaster(press, rect), olderPt := ToRaster(press, rect));
      MoveThrough(moves, rect, penColor, drawOption, penWidth);
    }

    /** The pointer-moves of a freshly started stroke: `handleMove` for each point, in order. */
    method MoveThrough(moves: seq<Point>, rect: Rect, penColor: string, drawOption: int, penWidth: real)
      requires Valid() && mounted && isDrawing && stroke == []
      requires rect.width > 0.0 && rect.height > 0.0
      modifies this`globalCompositeOperation, this`strokeStyle, this`shadowColor, this`shadowBlur,
               this`lineWidth, this`lineCap, this`log, this`cur, this`oldPt, this`olderPt, this`stroke
      ensures Valid() && |stroke| == |moves|
      ensures State() == LiveDraw(old(State()), ItemHistory(penColor, drawOption, penWidth, stroke), |moves|)
    {
      for i := 0 to |moves|
        invariant Valid() && |stroke| == i
        invariant State() == LiveDraw(old(State()), ItemHistory(penColor, drawOption, penWidth, stroke), i)
      {
        ghost var before := ItemHistory(penColor, drawOption, penWidth, stroke);
        LiveDrawExtend(old(State()), before, State(), cur, ToRaster(moves[i], rect));
        HandleMove(moves[i], rect, penColor, drawOption, penWidth);
      }
    }

    /** `handleMove`: while drawing, map the point, draw old -> new live and buffer that segment. */
    method HandleMove(client: Point, rect: Rect, penColor: string, drawOption: int, penWidth: real)
      requires Valid()
      requires rect.width > 0.0 && rect.height > 0.0
      modifies this`globalCompositeOperation, this`strokeStyle, this`shadowColor, this`shadowBlur,
               this`lineWidth, this`lineCap, this`log, this`cur, this`oldPt, this`olderPt, this`stroke
      ensures Valid()
      ensures old(mounted) && old(isDrawing) ==>
                olderPt == old(oldPt) && oldPt == old(cur) && cur == ToRaster(client, rect)
                && stroke == old(stroke) + [Segment(old(cur), cur)]
                && State() == DrawSegment(old(State()).(oldPt := oldPt, olderPt := olderPt),
                                          oldPt, cur, penColor, drawOption, penWidth)
      ensures !(old(mounted) && old(isDrawing)) ==>
                stroke == old(stroke) && cur == old(cur) && State() == old(State())
    {
      if !mounted || !isDrawing {
        return;
      }
      ChainedSnoc(stroke, down, cur, ToRaster(client, rect));
      GetCoordinate(client, rect);
      assert State() == old(State()).(oldPt := oldPt, olderPt := olderPt);
      DrawLine(oldPt, cur, penColor, drawOption, penWidth);
      stroke := stroke + [Segment(oldPt, cur)];
    }

    /** `handleEnd`: pointer-up; commit the buffered segments with the settings current now. */
    method HandleEnd(penColor: string, drawOption: int, penWidth: real)
      requires Valid()
      modifies this`isDrawing, this`history, this`globalCompositeOperation, this`strokeStyle,
               this`shadowBlur, this`lineWidth, this`lineCap, this`log
      ensures Valid() && !isDrawing
      ensures old(mounted) ==>
                history == old(history) + [ItemHistory(penColor, drawOption, penWidth, stroke)]
                && Ctx() == (if drawOption == GLOW then GlowPass(old(Ctx()), history) else old(Ctx()))
      ensures !old(mounted) ==> history == old(history) && Ctx() == old(Ctx())
    {
      isDrawing := false;
      if !mounted {
        return;
      }
      history := history + [ItemHistory(penColor, drawOption, penWidth, stroke)];
      if drawOption == GLOW {
        GlowPassShape(Ctx(), history);
        HistoryReDraw();
      }
    }

    /** The `src` effect up to the image request: set `ctxRef`, then `clearCanvas(true)`. */
    method SourceChanged()
      requires Valid()
      modifies this`mounted, this`log, this`history
      ensures Valid() && mounted
      ensures log == [] && history == []
    {
      mounted := true;
      ClearCanvas(true);
    }

    /** The image `onload` handler: record the natural size, fit the display size, paint the photo. */
    method ImageLoaded(src: string, natural: Size, innerWidth: real, innerHeight: real)
      requires natural.width > 0.0 && natural.height > 0.0
      modifies this`imgSize, this`viewSize, this`photo
      ensures imgSize == natural
      ensures viewSize == FitDisplay(natural, innerWidth - VIEW_MARGIN, innerHeight - VIEW_MARGIN)
      ensures photo == Some(src)
    {
      imgSize := natural;
      var maxWidth := innerWidth - VIEW_MARGIN;
      var maxHeight := innerHeight - VIEW_MARGIN;
      viewSize := FitDisplay(natural, maxWidth, maxHeight);
      photo := Some(src);
    }

    /** The merge part of `saveImage`: nothing before mount, else both layers scaled onto a canvas of the photo's natural size. */
    method SaveImage() returns (r: Option<Merged>)
      ensures r.Some? <==> mounted
      ensures r.Some? ==>
                r.value.size == imgSize
                && |r.value.blits| == 2
                && r.value.blits[0].layer == Background(photo)
                && r.value.blits[1].layer == Ink(log)
    {
      if !mounted {
        return None;
      }
      r := Some(Merge(imgSize, photo, log));
    }
  }
}
