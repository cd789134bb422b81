/**
 * The state of one Home view session as a value, and each event handler of
 * the view as a transition on it. The class in Home.dfy holds the same state
 * in fields and is specified by these transitions.
 */
module Session {
  import opened BoundingRegion
  import opened VariableBindings
  import opened Overlays

  datatype Option<T> = None | Some(value: T)

  /**
   * What has been issued on the canvas' 2D context since it was last cleared:
   * `moveTo` starting a path, and `lineTo` followed by `stroke` in a colour.
   */
  datatype PathCmd = MoveTo(x: int, y: int) | LineTo(x: int, y: int, colour: string)

  /** The colour selected when the view mounts. */
  const InitialColour: string := "#9c27b0"

  /** Where the overlay stack sits before any submit or drag. */
  const InitialPosition: Point := Point(10.0, 100.0)

  datatype State = State(
    width: nat,                          // canvas.width, set from the window at mount
    height: nat,                         // canvas.height
    colour: string,                      // `color`
    variables: Bindings,                 // `variables`
    isDrawing: bool,                     // `isDrawing`
    resetCanvas: bool,                   // `resetCanvas`
    result: Option<GeneratedExpression>, // `result`
    overlays: seq<string>,               // `generatedExpression`
    position: Point,                     // `generatedPosition`, where new overlays start
    canvas: seq<PathCmd>,                // the drawing on the canvas
    pending: seq<Reveal>                 // reveals scheduled and not yet fired
  )

  /** The session right after mount, on a width x height window. */
  function Init(width: nat, height: nat): (s: State)
    ensures s.width == width && s.height == height
    ensures s.variables == map[] && s.overlays == [] && s.canvas == [] && s.pending == []
    ensures !s.isDrawing && !s.resetCanvas && s.result == None
    ensures s.position == Point(10.0, 100.0) && s.colour == "#9c27b0"
  {
    State(width, height, InitialColour, map[], false, false, None, [], InitialPosition, [], [])
  }

  /** A palette swatch was clicked: only the stroke colour changes. */
  function SelectColour(s: State, c: string): (t: State)
    ensures t == s.(colour := c)
  {
    s.(colour := c)
  }

  /** `startedDrawing`: a new path begins at the event point and drawing is on. */
  function MouseDown(s: State, x: int, y: int): (t: State)
    ensures t.isDrawing
    ensures t.canvas == s.canvas + [MoveTo(x, y)]
    ensures t == s.(isDrawing := true, canvas := t.canvas)
  {
    s.(isDrawing := true, canvas := s.canvas + [MoveTo(x, y)])
  }

  /**
   * `drawing`: while drawing, a line to the event point stroked in the current
   * colour; otherwise (including a move before any mouse-down) nothing at all.
   */
  function MouseMove(s: State, x: int, y: int): (t: State)
    ensures !s.isDrawing ==> t == s
    ensures s.isDrawing ==> t == s.(canvas := s.canvas + [LineTo(x, y, s.colour)])
  {
    if !s.isDrawing then s else s.(canvas := s.canvas + [LineTo(x, y, s.colour)])
  }

  /** `stoppedDrawing`, bound to both mouse-up and mouse-out: drawing is off. */
  function MouseStop(s: State): (t: State)
    ensures !t.isDrawing && t == s.(isDrawing := false)
  {
    s.(isDrawing := false)
  }

  /** The Reset button: it only raises the `resetCanvas` flag. */
  function PressReset(s: State): (t: State)
    ensures t.resetCanvas && t == s.(resetCanvas := true)
  {
    s.(resetCanvas := true)
  }

  /**
   * The effect that runs when `resetCanvas` changes: while the flag is set it
   * empties the bindings, drops the result, clears the canvas, lowers the flag
   * and empties the overlays. Scheduled reveals are not cancelled.
   */
  function ResetEffect(s: State): (t: State)
    ensures !s.resetCanvas ==> t == s
    ensures s.resetCanvas ==>
      t.variables == map[] && t.result == None && t.canvas == [] && !t.resetCanvas && t.overlays == [] &&
      t.pending == s.pending && t.isDrawing == s.isDrawing && t.colour == s.colour &&
      t.position == s.position && t.width == s.width && t.height == s.height
  {
    if !s.resetCanvas then s
    else s.(variables := map[], result := None, canvas := [], resetCanvas := false, overlays := [])
  }

  /**
   * A click on Reset followed by the effect it triggers: bindings, result,
   * canvas and overlays are emptied and the flag ends down, whatever came before.
   */
  function Reset(s: State): (t: State)
    ensures t.variables == map[] && t.result == None && t.canvas == [] && t.overlays == [] && !t.resetCanvas
    ensures t == s.(variables := map[], result := None, canvas := [], resetCanvas := false, overlays := [])
  {
    ResetEffect(PressReset(s))
  }

  /** Resetting twice is the same as resetting once. */
  lemma ResetIdempotent(s: State)
    ensures Reset(Reset(s)) == Reset(s)
  {
  }

  /**
   * The completion of `dataServiceHandler` once the service has answered with
   * `items`: `sent` is the bindings object posted with the request (the one
   * the handler closed over) and `image` the ImageData read afterwards. The
   * bindings fold the response, the position new overlays start at moves to
   * the centre of the ink, and one reveal per item is queued. Overlays are not
   * touched yet. On a zero-width or zero-height canvas `getImageData` throws
   * once the bindings are updated, so nothing after that happens.
   */
  function Submit(s: State, sent: Bindings, items: seq<Item>, image: seq<Byte>): (t: State)
    ensures t.variables == Merge(s.variables, sent, items)
    ensures t.overlays == s.overlays && t.canvas == s.canvas && t.result == s.result
    ensures s.width == 0 || s.height == 0 ==> t == s.(variables := t.variables)
    ensures s.width > 0 && s.height > 0 ==>
      t.position == Centre(Bounds(image, s.width, s.height)) &&
      t.pending == s.pending + Schedule(items) &&
      t == s.(variables := t.variables, position := t.position, pending := t.pending)
  {
    var bound := Merge(s.variables, sent, items);
    if s.width == 0 || s.height == 0 then s.(variables := bound)
    else
      s.(variables := bound,
         position := Centre(Bounds(image, s.width, s.height)),
         pending := s.pending + Schedule(items))
  }

  /**
   * On a canvas of positive size, submit queues exactly one reveal per
   * response item, in response order, each after 1000 ms.
   */
  lemma SubmitSchedulesOnePerItem(s: State, sent: Bindings, items: seq<Item>, image: seq<Byte>)
    ensures var t := Submit(s, sent, items, image);
      s.width > 0 && s.height > 0 ==>
      |t.pending| == |s.pending| + |items| &&
      t.pending[..|s.pending|] == s.pending &&
      forall j :: 0 <= j < |items| ==>
        t.pending[|s.pending| + j] == Reveal(RevealDelay, GeneratedExpression(items[j].expr, items[j].result))
  {
  }

  /** An empty response leaves bindings, overlays and the reveal queue as they were. */
  lemma SubmitEmptyResponse(s: State, sent: Bindings, image: seq<Byte>)
    ensures var t := Submit(s, sent, [], image);
      t.variables == s.variables && t.overlays == s.overlays && t.pending == s.pending
  {
  }

  /**
   * A submit of an empty drawing (no ink) on a canvas of positive size puts
   * new overlays at (width / 2, height / 2), the degenerate centre.
   */
  lemma SubmitBlankCanvas(s: State, sent: Bindings, items: seq<Item>, image: seq<Byte>)
    requires !HasInk(image, s.width, s.height)
    ensures s.width > 0 && s.height > 0 ==>
      Submit(s, sent, items, image).position == Point(s.width as real / 2.0, s.height as real / 2.0)
  {
    BoundsEmpty(image, s.width, s.height);
  }

  /**
   * The oldest scheduled reveal fires: `result` is set and its effect appends
   * one display string and clears the canvas.
   */
  function FireReveal(s: State): (t: State)
    requires s.pending != []
    ensures |t.overlays| == |s.overlays| + 1
    ensures t.overlays[..|s.overlays|] == s.overlays
    ensures t.overlays[|s.overlays|] == Display(s.pending[0].entry)
    ensures t.canvas == [] && t.result == Some(s.pending[0].entry) && t.pending == s.pending[1..]
    ensures t == s.(result := t.result, overlays := t.overlays, canvas := [], pending := t.pending)
  {
    var e := s.pending[0].entry;
    assert (s.overlays + [Display(e)])[..|s.overlays|] == s.overlays;
    s.(result := Some(e), overlays := s.overlays + [Display(e)], canvas := [], pending := s.pending[1..])
  }

  /**
   * Reset does not cancel scheduled reveals: a reveal queued before a reset
   * still fires after it, and its entry becomes the only overlay.
   */
  lemma RevealSurvivesReset(s: State)
    requires s.pending != []
    ensures Reset(s).pending == s.pending
    ensures FireReveal(Reset(s)).overlays == [Display(s.pending[0].entry)]
  {
  }

  /**
   * A response that arrives after a reset folds into the bindings the request
   * closed over, so the cleared bindings come back, with the last assigning
   * item's binding written on top.
   */
  lemma StaleResponseAfterReset(s: State, items: seq<Item>, image: seq<Byte>, k: nat)
    requires k < |items| && items[k].assign
    requires forall j :: k < j < |items| ==> !items[j].assign
    ensures Submit(Reset(s), s.variables, items, image).variables == s.variables[items[k].expr := items[k].result]
  {
    MergeLastAssignWins(map[], s.variables, items, k);
  }

  /**
   * A drag stopped at (x, y): the one shared position moves there. Overlays
   * already on screen keep their own place; the position is where overlays
   * mounted from now on start.
   */
  function DragStop(s: State, x: real, y: real): (t: State)
    ensures t.position == Point(x, y) && t == s.(position := Point(x, y))
  {
    s.(position := Point(x, y))
  }

  /** The events of one session, in arrival order. */
  datatype Event =
    | ChooseColour(c: string)
    | Down(x: int, y: int)
    | Move(x: int, y: int)
    | Up
    | Out
    | ResetClick
    | Response(sent: Bindings, items: seq<Item>, image: seq<Byte>)
    | Timeout
    | Drag(px: real, py: real)

  /**
   * One event applied to the session; a timeout with nothing scheduled
   * changes nothing. No event resizes the canvas, and every event but a reset
   * keeps the overlays as a prefix of the new ones.
   */
  function Step(s: State, e: Event): (t: State)
    ensures t.width == s.width && t.height == s.height
    ensures e != ResetClick ==> |s.overlays| <= |t.overlays| && t.overlays[..|s.overlays|] == s.overlays
  {
    match e
    case ChooseColour(c) => SelectColour(s, c)
    case Down(x, y) => MouseDown(s, x, y)
    case Move(x, y) => MouseMove(s, x, y)
    case Up => MouseStop(s)
    case Out => MouseStop(s)
    case ResetClick => Reset(s)
    case Response(sent, items, image) => Submit(s, sent, items, image)
    case Timeout => if s.pending == [] then s else FireReveal(s)
    case Drag(px, py) => DragStop(s, px, py)
  }

  /** The events applied in arrival order; the canvas size fixed at mount never changes. */
  function Run(s: State, events: seq<Event>): (t: State)
    ensures t.width == s.width && t.height == s.height
    decreases |events|
  {
    if events == [] then s else Run(Step(s, events[0]), events[1..])
  }

  /** Overlays are append-only: without a reset, the old overlays stay a prefix of the new ones. */
  lemma {:induction false} OverlaysOnlyGrow(s: State, events: seq<Event>)
    requires forall j :: 0 <= j < |events| ==> events[j] != ResetClick
    ensures var t := Run(s, events);
      |s.overlays| <= |t.overlays| && t.overlays[..|s.overlays|] == s.overlays
    decreases |events|
  {
    if events != [] {
      var u := Step(s, events[0]);
      OverlaysOnlyGrow(u, events[1..]);
      var t := Run(u, events[1..]);
      assert t.overlays[..|s.overlays|] == t.overlays[..|u.overlays|][..|s.overlays|];
    }
  }

  /** Any number of moves while not drawing, including before any mouse-down, change nothing. */
  lemma {:induction false} IdleMovesIgnored(s: State, events: seq<Event>)
    requires !s.isDrawing
    requires forall j :: 0 <= j < |events| ==> events[j].Move?
    ensures Run(s, events) == s
    decreases |events|
  {
    if events != [] {
      IdleMovesIgnored(Step(s, events[0]), events[1..]);
    }
  }

  /** Any sequence of strokes followed by a reset leaves bindings, canvas and overlays empty. */
  lemma DrawThenReset(s: State, events: seq<Event>)
    ensures var t := Reset(Run(s, events));
      t.variables == map[] && t.canvas == [] && t.overlays == [] && t.result == None
  {
  }
}
