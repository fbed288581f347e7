# Drawing engine of maid-instax-system, modelled in Dafny

The system lets a user annotate a photo with a pen, an eraser and a glow
pen, undo and redo strokes, and export the photo with the ink merged on
top. This project models the `Draw` component (components/draw.tsx) and the
pure layout and label helpers of the 3D card (components/instax-3d-card.tsx).

- `Canvas` (canvas.dfy): an abstract 2D context. It holds the paint
  settings the component sets (composite operation, stroke style, shadow
  colour and blur, line width, line cap) and a log of stroked segments, each
  with the paint it was stroked with. `clearRect` empties the log.
- `Render` (render.dfy): value-level functions for `drawLine`
  (`DrawSegment`), `historyReDraw` (`GlowPass`) and `reDraw` (`Replay`), and
  lemmas about what they draw.
- `Live` (live.dfy): what a stroke paints while it is being drawn
  (`LiveDraw`, one `drawLine` per pointer-move), compared with what `reDraw`
  paints for the same history entry afterwards.
- `History` (history.dfy): the undo and redo stacks as a value, with `Undo`,
  `Redo` and their round trips.
- `Layout` (layout.dfy): pointer-to-raster mapping, the display-size fit of
  the image `onload` handler, and the layer merge of `saveImage`. All
  arithmetic is on `real`.
- `DrawComponent` (draw.dfy): the class `Draw`. Its fields are the refs
  (`historyRef`, `redoHistoryRef`, `strokeRef`, `x`/`y`, `olderX`/`olderY`,
  `isDrawingRef`), the drawing canvas's context, and the size states. Each
  handler, callback and effect body is a method, proved against the
  functions above. `Valid()` is kept by every handler and effect method. It says that no shadow
  blur is left set between calls. It says that the buffered stroke is a chain
  from the pointer-down point to the current point. It says that every entry
  on either stack is a chain.
- `InstaxCard` (instax.dfy): `pairingLabel`, `calculateCardMetrics`, the
  texture-aspect dimensions and `DIMENSIONS`.

Draw options are numbered as the renderer's switch numbers them: 0 eraser,
1 pen, 2 glow (components/draw.tsx:132-149). The doc comment at
components/draw.tsx:12-14 numbers them 1/2/3; the model follows the switch.
`Math.sqrt(d) <= 4` is modelled as the squared distance `<= 16`. The
pointer's `old` and `older` slots are named `oldPt` and `olderPt`, because
`old` is a Dafny keyword.

The code behaves as follows, and the model does the same:
- `clearCanvas(true)` empties the undo stack and the canvas but not the redo
  stack. That includes the call made when the photo source changes.
- Both layer canvases stay 1280x720 (components/draw.tsx:469-483). Only the
  merged export canvas takes the photo's natural size.
- The glow post-pass erases (destination-out) only on the very first stroke
  of the pass. The loop switches the operation to source-over and never
  switches it back. Afterwards the operation is destination-out again,
  because `old_op` is read after it was assigned (components/draw.tsx:183-208).
- Replay draws only the even-index segments of a glow entry. Each odd-index
  segment is used only as the trailing redraw of the next call. For segment 0
  the trailing redraw uses whatever point buffer the previous call left, so
  replay is not a function of the history alone (`Render.ReplayReadsPointBuffer`).
- `handleEnd` pushes an entry on every pointer-up once the context exists.
  This happens even when no stroke was started and when the stroke has no
  segments. `strokeRef` is only reset by `handleStart`, so a pointer-up that
  follows another pointer-up, with no pointer-down in between, pushes the
  previous stroke's segments a second time (components/draw.tsx:424-444).
- Only down, move and up are bound (components/draw.tsx:489-494); there is
  no leave or cancel handler. A button released outside the canvas leaves
  `isDrawingRef` set, and the next move over the canvas goes on drawing the
  same stroke from the last recorded point.
- For a glow entry, the replay differs from what was painted live. The last
  segment of a stroke with an even number of segments is never replayed as a
  primary (shadowed) stroke. It is painted only as the shadow-free trailing
  stroke of segment 0, and only when the point buffer the replay starts from
  holds it, for example after an earlier replay of the same entry
  (`Live.GlowReplayDropsLastSegment`, `Live.GlowReplayTwicePaintsLast`). The
  glow pass that followed the live stroke is not repeated either.
- Eraser and pen entries replay exactly what was painted live
  (`Live.ReplayMatchesLive`), from the same starting context, provided the
  colour, option and width did not change between the stroke's moves and its
  pointer-up, and the width is positive. Each move paints with
  the settings current at that move (components/draw.tsx:456), while the entry
  stores those current at pointer-up (components/draw.tsx:435-439). They can
  differ, for example when the pointer is released outside the canvas, the
  colour is changed, and the stroke is finished over the canvas.
- The `onerror` handler is installed inside `onload`, so a decode failure is
  never reported.

## Model

| member | source | states |
|---|---|---|
| Canvas.StrokeSegment | components/draw.tsx:161-165 | stroking leaves every paint setting of the context as it was |
| Render.SelectPaint | components/draw.tsx:131-151 | the mode switch: 0 sets destination-out with the pen colour; 1 sets source-over with the pen colour; 2 sets source-over, white, shadow in the pen colour with blur 1.5 x width; any other value sets source-over and keeps the style and shadow; then line width = width and cap = round |
| Render.DrawSegment | components/draw.tsx:121-176 | one call appends the stroke a -> b with the selected paint, and its blur is 0 when the squared length is <= 16. For glow it then appends `older -> old` with blur 0 and leaves blur 0. Earlier log entries and the point buffer are untouched, and a blur of 0 stays 0 |
| Render.GlowPassSetup | components/draw.tsx:183-191 | the pass's settings: white, round cap, destination-out, blur 0; shadow colour and width carried over |
| Render.GlowLoop | components/draw.tsx:193-207 | n iterations append exactly 2n strokes after the existing log, which is kept, and leave style and blur as they were |
| Render.GlowPass | components/draw.tsx:179-210 | the pass appends two strokes per segment of the newest entry (none for an empty history), keeps the existing log, and ends destination-out, white, with blur 0 |
| Render.GlowLoopShape | components/draw.tsx:193-207 | the `forEach` of the glow pass strokes each segment twice, in order. Only the first stroke uses the incoming operation; every later stroke and the final state are source-over |
| Render.GlowPassShape | components/draw.tsx:179-210 | the glow pass after a stroke strokes every segment of the newest entry twice. Each stroke is white, with blur 0, at the entry's width, with a round cap. Only the first stroke is destination-out, and the operation ends as destination-out |
| Render.GlowPassEmpty | components/draw.tsx:183-191 | with an empty history the pass only changes the settings and strokes nothing |
| Render.ReplayStep | components/draw.tsx:238-257 | an odd-index segment of a glow entry paints nothing and becomes the point buffer (`older -> old`); every other segment leaves the buffer as it was |
| Render.ReplaySegs | components/draw.tsx:237-258 | replaying the first n segments of an entry only appends to the log; the exact counts are ReplayPlainFrame and ReplayGlowFrame |
| Render.ReplayItems | components/draw.tsx:231-259 | replaying the first k entries only appends to the log; the exact count is ReplayItemsCount |
| Render.Replay | components/draw.tsx:223-259 | a full replay starts from a cleared layer and ends with exactly StrokeTotal(history) strokes |
| Render.ReplayPlainFrame | components/draw.tsx:237-258 | replaying n segments of an eraser or pen entry keeps the earlier log and the point buffer and adds exactly n strokes |
| Render.ReplaySegsPlain | components/draw.tsx:231-258 | replaying an eraser, pen or unknown-option entry strokes segment k at log position k, with the entry's stored width. The operation is destination-out exactly for the eraser, eraser and pen strokes use the stored colour, and the point buffer is unchanged |
| Render.ReplayGlowFrame | components/draw.tsx:237-257 | replaying n segments of a glow entry adds 2 x ceil(n/2) strokes after the existing log. Afterwards the point buffer holds the last odd-index segment, or its earlier value when n < 2 |
| Render.ReplaySegsGlow | components/draw.tsx:237-257 | for every pair k of a replayed glow entry, the stroke at log position 2k (after the earlier log) is segment 2k. The stroke at 2k+1 is segment 2k-1 for k >= 1, and for k = 0 the previous `older -> old` |
| Render.ReplayGlowPaint | components/draw.tsx:141-146 | every stroke of a replayed glow entry is source-over and white, shadowed in the stored colour, at the stored width; every trailing stroke has blur 0 |
| Render.ReplayItemsCount | components/draw.tsx:229-259 | replaying the first k entries, oldest first, keeps the earlier log and adds exactly their strokes: one `drawLine` per segment, or ceil(n/2) glow calls of two strokes each |
| Render.ReplayItemsKeepsBlurOff | components/draw.tsx:158-169 | replay never leaves a shadow blur set when none was set before |
| Render.ReplaySegsKeepsBlurOff | components/draw.tsx:158-169 | the same for the segments of a single entry |
| Render.ReplayReadsPointBuffer | components/draw.tsx:239-244 | the same one-segment glow history replays differently from two different point buffers |
| History.Undo | components/draw.tsx:270-274 | on an empty history nothing changes; otherwise the newest entry leaves the history, the rest keep their order, and it is pushed onto the redo stack |
| History.Redo | components/draw.tsx:275-280 | on an empty redo stack nothing changes; otherwise the top redo entry is pushed back onto the history and the rest stay |
| History.UndoKeepsTimeline | components/draw.tsx:270-274 | undo preserves history + reversed(redo): no entry is added, dropped or reordered |
| History.RedoKeepsTimeline | components/draw.tsx:275-280 | redo preserves history + reversed(redo) |
| History.RedoAfterUndo | components/draw.tsx:262-283 | redo after an effective undo restores both stacks |
| History.UndoAfterRedo | components/draw.tsx:262-283 | undo after an effective redo restores both stacks |
| History.UndoRedoTimes | components/draw.tsx:262-283 | n undos followed by n redos restore both stacks, for any n up to the history depth |
| History.ThreeStrokesScenario | components/draw.tsx:262-283 | strokes A, B, C, then undo twice and redo once, leave history [A, B] and redo [C] |
| Layout.ToRaster | components/draw.tsx:387-398 | the raster point is the offset inside the on-screen rectangle scaled by 1280/width and 720/height, so a pointer inside the rectangle lands inside the 1280x720 raster |
| Layout.FitDisplay | components/draw.tsx:329-347 | for a positive image: the display size is within both bounds, never larger than the natural size, and keeps the aspect ratio (width x imgHeight == height x imgWidth). An image that fits keeps its natural size; otherwise one bound is met exactly; positive bounds give a positive size |
| Layout.Merge | components/draw.tsx:96-107 | the merged canvas has the photo's natural size; the background layer is drawn first and the drawing layer on top, each stretched over the whole canvas |
| DrawComponent.Draw.constructor | components/draw.tsx:70-88 | initial refs: empty stacks and stroke, points at 0, not drawing, default context, no photo, 1280x720 sizes |
| DrawComponent.Draw.StrokeLine | components/draw.tsx:161-165 | one `beginPath/moveTo/lineTo/stroke` appends the segment with the current paint |
| DrawComponent.Draw.DrawLine | components/draw.tsx:121-176 | the context and point buffer afterwards are exactly `DrawSegment` of those before |
| DrawComponent.Draw.HistoryReDraw | components/draw.tsx:179-210 | the context afterwards is exactly `GlowPass` of the context before and the current history |
| DrawComponent.Draw.ClearCanvas | components/draw.tsx:212-221 | once mounted, the log is emptied, and the history too with `isReset`; the redo stack is never touched |
| DrawComponent.Draw.ReDraw | components/draw.tsx:223-260 | once mounted, the context and point buffer are `Replay` of their earlier values over the unchanged history |
| DrawComponent.Draw.ReDrawItems | components/draw.tsx:231-259 | the outer `forEach`: the state afterwards is `ReplayItems` over every entry of the history |
| DrawComponent.Draw.ReDrawItem | components/draw.tsx:237-258 | the inner `forEach` of one entry: the state afterwards is `ReplaySegs` over all its segments |
| DrawComponent.Draw.UndoRedo | components/draw.tsx:262-283 | once mounted, the stacks become `Undo` or `Redo` of the old stacks, and the layer is the replay of the new history |
| DrawComponent.Draw.GetCoordinate | components/draw.tsx:373-399 | older := old, old := current, current := ToRaster(pointer, rect) |
| DrawComponent.Draw.HandleStart | components/draw.tsx:402-421 | once mounted: the redo stack and the stroke buffer are empty, old = older = the mapped pointer-down point, and drawing is on; with the redo stack empty, a redo afterwards changes nothing |
| DrawComponent.Draw.HandleMove | components/draw.tsx:447-463 | while drawing, the buffer shifts, the new point is mapped, the segment old -> new is drawn live and exactly that one segment is appended; `Valid()` keeps the chain; when not drawing nothing changes |
| DrawComponent.Draw.HandleEnd | components/draw.tsx:424-444 | drawing is off. Once mounted, exactly one entry is appended with the live colour, option and width and the buffered segments, even when there are none; earlier entries are unchanged, and a glow option runs the glow pass |
| DrawComponent.Draw.SourceChanged | components/draw.tsx:303-316 | a new photo source sets the context, clears the canvas and empties the history |
| DrawComponent.Draw.ImageLoaded | components/draw.tsx:322-351 | the natural size is recorded, the display size is `FitDisplay` against the window less 200 on each axis, and the photo is painted |
| DrawComponent.Draw.SaveImage | components/draw.tsx:91-107 | before mount there is no output; afterwards the merge has the natural size, with the background below the current ink log |
| Live.LiveDraw | components/draw.tsx:447-463 | n pointer-moves append n strokes (2n for glow) after the earlier log, which is kept, and leave `old` at the start of the last segment |
| Live.LiveDrawExtend | components/draw.tsx:447-463 | one more move, as `handleMove` performs it on the state the earlier moves left, equals the live drawing of the stroke with that segment recorded |
| DrawComponent.Draw.MoveThrough | components/draw.tsx:447-463 | `handleMove` over a list of points, after a pointer-down: the buffered stroke gets one segment per point, and the state is `LiveDraw` of that stroke, with the settings passed to the moves, from the starting state |
| DrawComponent.Draw.PressAndDrag | components/draw.tsx:402-463 | `handleStart` then `handleMove` per point: drawing is on, the redo stack is empty, the stroke starts at the mapped press point with one segment per move, and the state is `LiveDraw` of that stroke from the press state (old = older = press point) |
| Live.LiveDrawsEverySegment | components/draw.tsx:447-463 | move i of a live stroke paints segment i, at log position i (2i for glow) |
| Live.ReplayMatchesLive | components/draw.tsx:223-259 | for an eraser or pen entry, replaying its segments from the same starting context paints exactly the strokes, with the same paint, that live moves with the entry's stored colour, option and width painted, whatever point buffer either started from |
| Live.GlowLiveDrawsLastSegment | components/draw.tsx:424-463 | live, the last move of a glow stroke paints its last segment, and with the glow pass on pointer-up the stroke adds 4 strokes per segment |
| Live.GlowReplayDropsLastSegment | components/draw.tsx:237-257 | a glow stroke with an even number of segments, whose last segment occurs nowhere else in the stroke nor in the starting point buffer, replays as one stroke per segment, and none of them is that last segment |
| Live.GlowReplayTwicePaintsLast | components/draw.tsx:237-257 | replaying the same even-length glow entry twice: the second replay's stroke at position 1, the shadow-free trailing stroke of segment 0, is the last segment, left in the buffer by the first replay |
| InstaxCard.PairingLabel | components/instax-3d-card.tsx:98 | both names give maidName + " ♡ " + userName, exactly one gives that name, none gives undefined |
| InstaxCard.CalculateCardMetrics | components/instax-3d-card.tsx:256-263 | the frame is 0.4 wider and 0.64 taller than the photo. The card adds 0.22 in width and 1.72 in height, so the card is strictly larger than the photo on both axes |
| InstaxCard.LoadedDimensions | components/instax-3d-card.tsx:237-241 | dimensions exist only when both source sizes are non-zero; height 3.8, depth 0.1, and width / 3.8 equals the source aspect ratio |
| InstaxCard.TextureLoaded | components/instax-3d-card.tsx:228-251 | no update without both sizes; otherwise the new dimensions, and the previous state is kept exactly when width, height and depth are all equal |
| InstaxCard.DefaultDimensionsValues | components/instax-3d-card.tsx:54-70 | the default dimensions are 2.85 x 3.8 x 0.1, a 3:4 portrait |
| InstaxCard.TextureAspectAgainstDefault | components/instax-3d-card.tsx:237-248 | a texture replaces the default dimensions exactly when its aspect ratio is not 3:4 |
| InstaxCard.DefaultCardMetrics | components/instax-3d-card.tsx:256-263 | the card around the default photo measures 3.25 x 4.44 (frame) and 3.47 x 6.16 (card) |

## Left out

- Render.Replay: the replay is not promised to reproduce the live drawing. It is exact only for eraser and pen entries whose colour, option and width did not change between the stroke's moves and its pointer-up, and whose width is positive. For a glow entry it never paints the last segment of an even-length stroke as a primary stroke, paints it as a trailing stroke only when the starting buffer holds it, and does not repeat the glow pass (components/draw.tsx:179-210, 237-257); `Live.GlowReplayDropsLastSegment` and `Live.GlowReplayTwicePaintsLast` state the difference.
- Render.SelectPaint, Render.GlowLoop and Render.GlowPass: the context setters (`globalCompositeOperation`, `strokeStyle`, `shadowColor`, `shadowBlur`, `lineWidth`, `lineCap`) are plain field assignments in the model. A browser ignores a non-positive `lineWidth` and a colour it cannot parse and keeps the previous value. The width slider allows 0, so a width-0 entry paints at whatever width was set before, both live and in replay, and those widths can differ; the model paints it at width 0.
- Canvas.StrokeSegment: its own contract only says the paint is kept. What a stroke appends to the log is stated by `Render.DrawSegment` and `DrawComponent.Draw.StrokeLine`, to keep the proofs that unfold it small.
- Render.ReplaySegs and Render.ReplayItems: their own contracts only say that the log grows. The exact counts and contents are stated by the lemmas ReplayPlainFrame, ReplayGlowFrame, ReplaySegsPlain, ReplaySegsGlow and ReplayItemsCount.
- Pixels: anti-aliasing, blur and compositing are not modelled. The canvas is a log of stroke commands, so "erasing never increases ink" cannot be stated.
- React machinery: each effect or handler run is one method call. The effects also run on mount, and the undo, redo and clear effects fire on every change of their flag, whichever way it goes (components/draw.tsx:355-371). The `isSave` effect only calls `SaveImage` when the flag is true.
- Events: a mouse or touch event is reduced to its client point. For a touch this is `touches[0]`. `preventDefault` and the touch-scroll blocker (components/draw.tsx:285-301) are left out.
- Layout.ToRaster and the handlers that use it require a bounding rectangle of positive width and height. In the browser a zero size would divide by zero.
- Layout.FitDisplay and DrawComponent.Draw.ImageLoaded require a positive natural image size, which a decoded image has.
- Floating point: all sizes and coordinates are exact reals. JavaScript's rounding (for example 3.8 x 3/4 is not exactly 2.85 in doubles) is not modelled.
- Export encoding: `toBlob`, the `FormData` field, the `Date.now()` file name, and the `getContext` null check on the merged canvas are browser calls, so `SaveImage` stops at the merged canvas.
- Asynchrony: image decoding is asynchronous. A late `onload` from an earlier source can overwrite a newer one; this race is not modelled.
- The photo itself is represented by its source string, painted stretched to the 1280x720 image canvas.
- Aliasing: the history entry shares the `strokeRef` array. The model copies the segments as a value; this is exact, because the array is replaced, never mutated, after it is pushed.
- The 3D scene of components/instax-3d-card.tsx is not modelled: rendering, the swing animation, timeouts and the logo aspect. Neither are the network, cookie and page files of the repository.
