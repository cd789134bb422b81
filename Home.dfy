/**
 * The Home view as an object: the component's state variables become fields,
 * each handler a method that updates them. Every event handler is specified
 * by the matching transition of the Session module, so the lemmas proved
 * there (reset is idempotent, a reveal appends one overlay, ...) hold of the
 * object. The two canvas helpers, `resetCanvasHandler` and
 * `renderExpressionOnCanvas`, are specified by the fields they change.
 */
module HomeComponent {
  import opened BoundingRegion
  import opened VariableBindings
  import opened Overlays
  import opened Session

  class Home {
    const width: nat
    const height: nat
    var colour: string
    var variables: Bindings
    var isDrawing: bool
    var resetCanvas: bool
    var result: Option<GeneratedExpression>
    var overlays: seq<string>
    var position: Point
    var canvas: seq<PathCmd>
    var pending: seq<Reveal>

    /** The fields as one session state. */
    ghost function Model(): State
      reads this
    {
      State(width, height, colour, variables, isDrawing, resetCanvas, result, overlays, position, canvas, pending)
    }

    /** Mount: the canvas takes the window's size; every state variable has its initial value. */
    constructor (innerWidth: nat, innerHeight: nat)
      ensures Model() == Init(innerWidth, innerHeight)
    {
      width, height := innerWidth, innerHeight;
      colour := InitialColour;
      variables := map[];
      isDrawing, resetCanvas := false, false;
      result := None;
      overlays := [];
      position := InitialPosition;
      canvas := [];
      pending := [];
    }

    /** A palette swatch's click handler. */
    method ChooseColour(c: string)
      modifies this
      ensures Model() == SelectColour(old(Model()), c)
    {
      colour := c;
    }

    /** `startedDrawing`: begin a path at the event's offset and start drawing. */
    method StartedDrawing(x: int, y: int)
      modifies this
      ensures Model() == MouseDown(old(Model()), x, y)
    {
      canvas := canvas + [MoveTo(x, y)];
      isDrawing := true;
    }

    /** `drawing`: ignored unless drawing; otherwise stroke a line to the event's offset. */
    method Drawing(x: int, y: int)
      modifies this
      ensures Model() == MouseMove(old(Model()), x, y)
    {
      if !isDrawing {
        return;
      }
      canvas := canvas + [LineTo(x, y, colour)];
    }

    /** `stoppedDrawing`, for mouse-up and mouse-out. */
    method StoppedDrawing()
      modifies this
      ensures Model() == MouseStop(old(Model()))
    {
      isDrawing := false;
    }

    /** `resetCanvasHandler`: clear the canvas. */
    method ResetCanvasHandler()
      modifies this
      ensures Model() == old(Model()).(canvas := [])
    {
      canvas := [];
    }

    /** The Reset button's click handler. */
    method PressReset()
      modifies this
      ensures Model() == Session.PressReset(old(Model()))
    {
      resetCanvas := true;
    }

    /** The effect on `resetCanvas`. */
    method ResetEffect()
      modifies this
      ensures Model() == Session.ResetEffect(old(Model()))
    {
      if resetCanvas {
        variables := map[];
        result := None;
        ResetCanvasHandler();
        resetCanvas := false;
        overlays := [];
      }
    }

    /** A click on Reset and the effect it triggers. */
    method ClickReset()
      modifies this
      ensures Model() == Reset(old(Model()))
    {
      PressReset();
      ResetEffect();
    }

    /** `renderExpressionOnCanvas`: append the display string and clear the canvas. */
    method RenderExpressionOnCanvas(expression: string, answer: string)
      modifies this
      ensures Model() == old(Model()).(overlays := old(overlays) + [Display(GeneratedExpression(expression, answer))], canvas := [])
    {
      var temporaryExpression := Display(GeneratedExpression(expression, answer));
      overlays := overlays + [temporaryExpression];
      ResetCanvasHandler();
    }

    /** The oldest scheduled `setTimeout` fires: `setResult`, then the effect on `result`. */
    method RevealNext()
      requires pending != []
      modifies this
      ensures Model() == FireReveal(old(Model()))
    {
      var next := pending[0];
      pending := pending[1..];
      result := Some(next.entry);
      RenderExpressionOnCanvas(next.entry.expression, next.entry.answer);
    }

    /**
     * `dataServiceHandler` from the point the response has arrived: fold the
     * items into the bindings, scan the ImageData for the ink's centre, make
     * it the position new overlays start at and schedule one reveal per item.
     */
    method DataServiceHandler(sent: Bindings, items: seq<Item>, image: array<Byte>)
      requires image.Length == width * height * 4
      modifies this
      ensures Model() == Submit(old(Model()), sent, items, old(image[..]))
    {
      variables := Merge(variables, sent, items);
      if width == 0 || height == 0 {
        // getImageData rejects a zero-sized rectangle; the handler stops here.
        return;
      }
      var box := ScanBounds(image, width, height);
      position := Centre(box);
      pending := pending + Schedule(items);
    }

    /** The overlays' drag-stop handler: new overlays will start at (x, y). */
    method DragStopped(x: real, y: real)
      modifies this
      ensures Model() == DragStop(old(Model()), x, y)
    {
      position := Point(x, y);
    }
  }
}
