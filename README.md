# Home view of the AI calculator front end, modelled in Dafny

The Home view lets a user draw an expression on a full-window canvas, send the
drawing to a recognition service, and show each returned `expression = answer`
as a draggable, typeset overlay. A new overlay starts at the centre of the ink
of the last submit, or where the last drag stopped. This project
models the view's state and handlers:

- `Bounds.dfy` (module `BoundingRegion`): the nested scan of the canvas
  ImageData for the box around every pixel with non-zero alpha, and the centre
  derived from it. `ScanBounds` is the imperative scan over an `array` of bytes.
  It is proved equal to the recursive specification `Bounds`. `Bounds` is then
  proved sound, tight, degenerate on a blank canvas, exact on a filled
  rectangle, and blind to the red, green and blue samples.
- `Bindings.dfy` (module `VariableBindings`): how the response items are
  folded into the bindings. Each `setVariables({...snapshot, [expr]: result})`
  replaces the value React will keep. So only the last assigning item survives,
  written over the snapshot the handler closed over. With no assigning item
  the bindings are untouched.
- `Overlays.dfy` (module `Overlays`): the display string
  `\(\LARGE{expression = answer}\)` and the reveals a submit schedules.
- `Session.dfy` (module `Session`): the whole session state as a value, every
  handler as a transition, and the properties that relate several steps
  (reset idempotence, append-only overlays, reveals surviving a reset).
- `Home.dfy` (module `HomeComponent`): the component as a class `Home` whose
  fields are the state variables. Each event handler is specified by the
  matching `Session` transition. The two canvas helpers
  (`ResetCanvasHandler`, `RenderExpressionOnCanvas`) are specified by the
  fields they change.

Inputs the code gets from outside become parameters:
- pointer offsets of mouse events;
- the window size at mount;
- the response items, plus the bindings object the request carried (`sent`);
- the ImageData bytes read after the response;
- the drag-stop coordinates.

Pending `setTimeout` reveals are an explicit first-in, first-out queue. All of
them share the 1000 ms delay, so they fire in the order they were scheduled.

Where the intended design and the code differ, the model follows the code:
- The code scans the canvas after the awaited response, not before the request.
- The bindings keep only the last assigning item of a response, not every
  assignment.
- A reset does not cancel scheduled reveals, so a stale result can still appear
  after it (`Session.RevealSurvivesReset`).
- A response that arrives after a reset folds into the bindings the request
  closed over, so the bindings cleared by the reset come back
  (`Session.StaleResponseAfterReset`).
- One position value serves every overlay, but Draggable reads it only when an
  overlay mounts. So it is the starting point of overlays mounted later, and
  overlays already on screen stay where they are.
- On a canvas of zero width or height, `getImageData` throws after the
  bindings are updated. The position is then not moved and no reveal is
  scheduled (`Session.Submit`).

## Model

| member | source | states |
|---|---|---|
| `BoundingRegion.ScanBounds` | src/views/home/index.tsx:155-169 | the nested row/column scan reads only in-range indices `(y*width+x)*4+3` of a `width*height*4` buffer, does not modify it, and returns exactly the box `Bounds` of the buffer |
| `BoundingRegion.AlphaIndexInBuffer` | src/views/home/index.tsx:159-162 | for `x < width`, `y < height` the alpha index `(y*width+x)*4+3` lies in `[0, width*height*4)` |
| `BoundingRegion.BoundsSound` | src/views/home/index.tsx:157-169 | every ink pixel lies within `[minX,maxX] x [minY,maxY]`; with any ink, `minX <= maxX` and `minY <= maxY` |
| `BoundingRegion.BoundsTight` | src/views/home/index.tsx:161-166 | with ink present, each of `minX`, `maxX`, `minY`, `maxY` is the coordinate of some ink pixel |
| `BoundingRegion.BoundsEmpty` | src/views/home/index.tsx:157-172 | with no ink the box stays `(width, height, 0, 0)` and the centre is `(width/2, height/2)` |
| `BoundingRegion.BoundsOfRectangle` | src/views/home/index.tsx:157-172 | ink filling exactly `[x0,x1] x [y0,y1]` gives that box and the centre `((x0+x1)/2, (y0+y1)/2)` |
| `BoundingRegion.BoundsAlphaOnly` | src/views/home/index.tsx:161-162 | two buffers that agree on every alpha sample give the same box |
| `BoundingRegion.BoundsIgnoreColour` | src/views/home/index.tsx:161-162 | overwriting any red, green or blue sample never changes the box |
| `BoundingRegion.Centre` | src/views/home/index.tsx:171-172 | twice the centre is `(minX+maxX, minY+maxY)` |
| `BoundingRegion.RowScan` | src/views/home/index.tsx:160-167 | the inner loop over one row: minima only fall, maxima only rise, and a row without ink leaves the box as it was |
| `BoundingRegion.Scan` | src/views/home/index.tsx:157-169 | the outer loop over the first m rows, from `(width, height, 0, 0)`: the minima stay at most `width`/`height` and the maxima at least 0 |
| `BoundingRegion.Bounds` | src/views/home/index.tsx:157-169 | the box after all rows, with the same range facts; its meaning is given by the `Bounds*` lemmas |
| `VariableBindings.Merge` | src/views/home/index.tsx:146-153 | the fold's outcome is either the current bindings or the snapshot with one assigning item's binding written |
| `VariableBindings.MergeWithoutAssign` | src/views/home/index.tsx:146-153 | with no assigning item, the bindings are left as they were |
| `VariableBindings.MergeLastAssignWins` | src/views/home/index.tsx:146-153 | if item k is the last assigning one, the bindings are the snapshot with only `expr_k -> result_k` written |
| `VariableBindings.MergeIgnoresNonAssigning` | src/views/home/index.tsx:147 | dropping every item whose `assign` is false does not change the outcome |
| `VariableBindings.MergeKeepsSnapshotKeys` | src/views/home/index.tsx:148-151 | every key of the snapshot survives the fold when the current bindings contain it |
| `VariableBindings.MergeExample` | src/views/home/index.tsx:146-153 | `[x=2 assign, x+1=3]` folded into `{}` gives `{x: "2"}` |
| `Overlays.Display` | src/views/home/index.tsx:92 | the display string is `\(\LARGE{`, then the expression, ` = `, the answer and `}\)`, each readable back at its place |
| `Overlays.DisplayInjective` | src/views/home/index.tsx:92 | for expressions of equal length, equal display strings come from equal results |
| `Overlays.Schedule` | src/views/home/index.tsx:174-181 | one reveal per response item, in order, each with delay 1000 and that item's expr and result |
| `Session.Init` | src/views/home/index.tsx:21-37 | the canvas has the window's width and height; initial colour `#9c27b0`, empty bindings and overlays, no result, not drawing, position `(10, 100)` |
| `Session.SelectColour` | src/views/home/index.tsx:202 | a swatch click changes the stroke colour and nothing else |
| `Session.MouseDown` | src/views/home/index.tsx:103-114 | drawing starts and a path begins at the event point; nothing else changes |
| `Session.MouseMove` | src/views/home/index.tsx:120-131 | when not drawing nothing changes; when drawing a `LineTo` at the event point in the current colour is appended |
| `Session.MouseStop` | src/views/home/index.tsx:116-118 | mouse-up and mouse-out set drawing off and change nothing else |
| `Session.PressReset` | src/views/home/index.tsx:191 | the Reset click only raises the `resetCanvas` flag |
| `Session.ResetEffect` | src/views/home/index.tsx:57-65 | with the flag up it empties bindings, result, canvas and overlays and lowers the flag, keeping pending reveals, colour, position and drawing state; otherwise nothing changes |
| `Session.Reset` | src/views/home/index.tsx:57-65 | a Reset click and its effect: bindings `{}`, result undefined, canvas and overlays empty, flag false; every other field kept |
| `Session.ResetIdempotent` | src/views/home/index.tsx:57-64 | resetting twice gives the same state as resetting once |
| `Session.DrawThenReset` | src/views/home/index.tsx:57-64 | any sequence of events followed by a reset leaves bindings, result, canvas and overlays empty |
| `Session.Submit` | src/views/home/index.tsx:146-181 | bindings become the fold of the response; overlays, canvas and result are untouched; on a zero-size canvas nothing else changes; otherwise the position becomes the centre of the ink and one reveal per item is queued |
| `Session.SubmitSchedulesOnePerItem` | src/views/home/index.tsx:174-181 | on a canvas of positive size, the queue grows by exactly the number of items, old entries first, then item j's reveal with delay 1000 |
| `Session.SubmitEmptyResponse` | src/views/home/index.tsx:146-181 | an empty response leaves bindings, overlays and the queue unchanged |
| `Session.SubmitBlankCanvas` | src/views/home/index.tsx:157-173 | a blank canvas of positive size makes `(width/2, height/2)` the start of new overlays |
| `Session.FireReveal` | src/views/home/index.tsx:91-99 | a reveal sets the result, appends exactly one display string at the end, keeps earlier overlays, clears the canvas and dequeues itself |
| `Session.RevealSurvivesReset` | src/views/home/index.tsx:174-181 | reset leaves the queue as it was, so a reveal scheduled earlier still fires and becomes the only overlay |
| `Session.StaleResponseAfterReset` | src/views/home/index.tsx:146-153 | a response arriving after a reset writes the pre-reset bindings back, plus the last assigning item's binding |
| `Session.DragStop` | src/views/home/index.tsx:227 | a drag stop overwrites the one shared position, the start of overlays mounted later, with the drag coordinates |
| `Session.Step` | src/views/home/index.tsx:191-227 | one event through its handler: the canvas size never changes, and every event but a reset keeps the old overlays as a prefix |
| `Session.Run` | src/views/home/index.tsx:36-37 | the events in arrival order; the canvas size fixed at mount never changes |
| `Session.IdleMovesIgnored` | src/views/home/index.tsx:120-123 | while not drawing, any run of mouse moves leaves the state unchanged |
| `Session.OverlaysOnlyGrow` | src/views/home/index.tsx:93 | over any events without a reset, the old overlay list stays a prefix of the new one |
| `HomeComponent.Home.constructor` | src/views/home/index.tsx:21-37 | mount gives the `Init` state for the window size |
| `HomeComponent.Home.ChooseColour` | src/views/home/index.tsx:202 | the new state is `SelectColour` of the old |
| `HomeComponent.Home.StartedDrawing` | src/views/home/index.tsx:103-114 | the new state is `MouseDown` of the old |
| `HomeComponent.Home.Drawing` | src/views/home/index.tsx:120-131 | the new state is `MouseMove` of the old |
| `HomeComponent.Home.StoppedDrawing` | src/views/home/index.tsx:116-118 | the new state is `MouseStop` of the old |
| `HomeComponent.Home.ResetCanvasHandler` | src/views/home/index.tsx:81-89 | the canvas is cleared and nothing else changes |
| `HomeComponent.Home.PressReset` | src/views/home/index.tsx:191 | the new state is `PressReset` of the old |
| `HomeComponent.Home.ResetEffect` | src/views/home/index.tsx:57-65 | the new state is `ResetEffect` of the old |
| `HomeComponent.Home.ClickReset` | src/views/home/index.tsx:57-65 | the new state is `Reset` of the old |
| `HomeComponent.Home.RenderExpressionOnCanvas` | src/views/home/index.tsx:91-101 | one display string is appended to the overlays and the canvas is cleared |
| `HomeComponent.Home.RevealNext` | src/views/home/index.tsx:67-71 | the oldest reveal fires; the new state is `FireReveal` of the old |
| `HomeComponent.Home.DataServiceHandler` | src/views/home/index.tsx:133-183 | after the response, the new state is `Submit` of the old for the buffer's contents, stopping after the bindings on a zero-size canvas |
| `HomeComponent.Home.DragStopped` | src/views/home/index.tsx:227 | the new state is `DragStop` of the old |

## Left out

- `src/App.tsx` only wires the router and providers; it holds no logic.
- The MathJax typesetter: loading its script, its configuration and the
  re-typeset effect (lines 41-54, 73-79) are calls into a foreign global library.
- The axios POST and `toDataURL` PNG encoding (lines 136-145). The response
  items arrive as a parameter. A rejected request never reaches the state
  updates, so only the successful completion is modelled.
- Browser rasterisation. Strokes stay abstract `MoveTo`/`LineTo` commands; the
  line width and cap (lines 34-35) and the background style (line 106) are
  not modelled. The ImageData the scan reads is therefore an independent input,
  not computed from the commands.
- The canvas records the commands issued since the last clear. In a browser,
  `clearRect` keeps the current path, so a later `stroke()` can repaint
  segments drawn before the clear. This is not modelled.
- A missing canvas element or 2D context (the `if (canvas)` / `if (context)`
  guards) is not modelled: the canvas is taken to be mounted. An out-of-range
  alpha read counts as "not ink", matching `undefined > 0`.
- Real time and task interleaving. Each fired timeout is taken to be rendered
  before the next one fires, so every reveal sees the overlays the previous
  one left. The only interleaving kept is that the bindings posted with a
  request (`sent`) may differ from the current ones when the response arrives.
- JSX, Mantine, Draggable and CSS (lines 185-235), and the palette's contents.
  Each overlay's own on-screen offset, which Draggable keeps, is not modelled;
  only the shared starting position is.
  A swatch click is modelled as choosing an arbitrary colour string.
- Floating-point arithmetic. The centre and the drag position are `real`;
  pointer offsets are integers.
