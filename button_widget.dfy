/**
 * The draggable solution button of the TypeScript build: its drag state
 * (`isDragging`, `offsetX`, `offsetY`) and the style fields the handlers
 * write (`cursor`, `top`, `left`, `right`), driven by `startDrag`,
 * `onDrag` and `endDrag`, and the click handler.
 *
 * Pointer coordinates and the bounding rectangle are whole pixels.
 */
module ButtonWidget {
  import opened Protocol

  const Grab: string := "grab"
  const Grabbing: string := "grabbing"
  /** Text of the label span. */
  const Label: string := "View NeetCode Solution"

  /** A `top`, `left` or `right` style value. */
  datatype CssLength = Unset | Px(px: int) | Auto

  /** The widget's drag state and positioning style, as values. */
  datatype DragState = DragState(
    dragging: bool, offsetX: int, offsetY: int,
    cursor: string, top: CssLength, left: CssLength, right: CssLength)

  /** A freshly created button: idle, anchored 10px from the top right corner. */
  const Initial: DragState := DragState(false, 0, 0, Grab, Px(10), Unset, Px(10))

  /** The widget invariant: the cursor shows "grabbing" exactly while a drag is in progress. */
  predicate CursorTracksDrag(s: DragState)
  {
    s.cursor == (if s.dragging then Grabbing else Grab)
  }

  /** The state after `startDrag` at pointer (clientX, clientY) with the button's rectangle at (rectLeft, rectTop). */
  function DragStarted(s: DragState, clientX: int, clientY: int, rectLeft: int, rectTop: int): (r: DragState)
    ensures r.dragging && CursorTracksDrag(r)
    // the offset is where the pointer grabbed the button, relative to its origin
    ensures rectLeft + r.offsetX == clientX && rectTop + r.offsetY == clientY
    ensures r.top == s.top && r.left == s.left && r.right == s.right
  {
    s.(dragging := true, cursor := Grabbing, offsetX := clientX - rectLeft, offsetY := clientY - rectTop)
  }

  /** The state after `onDrag` at pointer (clientX, clientY). */
  function Dragged(s: DragState, clientX: int, clientY: int): (r: DragState)
    ensures !s.dragging ==> r == s
    ensures s.dragging ==> r.top == Px(clientY - s.offsetY) && r.left == Px(clientX - s.offsetX) && r.right == Auto
    ensures r.dragging == s.dragging && r.cursor == s.cursor
    ensures r.offsetX == s.offsetX && r.offsetY == s.offsetY
  {
    if s.dragging then
      s.(top := Px(clientY - s.offsetY), left := Px(clientX - s.offsetX), right := Auto)
    else
      s
  }

  /** The state after `endDrag`. */
  function DragEnded(s: DragState): (r: DragState)
    ensures !r.dragging && CursorTracksDrag(r)
    ensures r.top == s.top && r.left == s.left && r.right == s.right
  {
    s.(dragging := false, cursor := Grab)
  }

  /** What a click does: open the solution in a new tab, or cancel the default action. */
  datatype ClickEffect = Open(call: WindowOpen) | PreventDefault

  /** `handleButtonClick`: a click whose target shows the "grabbing" cursor is taken for the end of a drag. */
  function HandleButtonClick(targetCursor: string, slug: string): (e: ClickEffect)
    ensures e.Open? <==> targetCursor != Grabbing
    ensures e.Open? ==> e.call == WindowOpen(SolutionUrl(slug), NewTab)
  {
    if targetCursor != Grabbing then Open(WindowOpen(SolutionUrl(slug), NewTab)) else PreventDefault
  }

  /** The pointer events the three listeners react to. */
  datatype PointerEvent =
    | MouseDown(clientX: int, clientY: int, rectLeft: int, rectTop: int)
    | MouseMove(clientX: int, clientY: int)
    | MouseUp

  /** The state after one event. */
  function Step(s: DragState, e: PointerEvent): (r: DragState)
    // a press starts a drag, a release ends it, a move keeps the flag as it was
    ensures r.dragging <==> e.MouseDown? || (e.MouseMove? && s.dragging)
    // only a move while dragging repositions the button
    ensures !(e.MouseMove? && s.dragging) ==> r.top == s.top && r.left == s.left && r.right == s.right
  {
    match e
    case MouseDown(x, y, l, t) => DragStarted(s, x, y, l, t)
    case MouseMove(x, y) => Dragged(s, x, y)
    case MouseUp => DragEnded(s)
  }

  /** The state after a sequence of events, first to last. */
  function Run(s: DragState, events: seq<PointerEvent>): (r: DragState)
    // any number of moves while idle leaves the state exactly as it was
    ensures !s.dragging && (forall i :: 0 <= i < |events| ==> events[i].MouseMove?) ==> r == s
    decreases |events|
  {
    if events == [] then s else Run(Step(s, events[0]), events[1..])
  }

  /** Every sequence of handler calls keeps the cursor in step with the drag flag. */
  lemma {:induction false} RunKeepsCursorTracksDrag(s: DragState, events: seq<PointerEvent>)
    requires CursorTracksDrag(s)
    ensures CursorTracksDrag(Run(s, events))
    decreases |events|
  {
    if events != [] {
      RunKeepsCursorTracksDrag(Step(s, events[0]), events[1..]);
    }
  }

  /** Events before a mouse-up never leave the button dragging or the click suppressed. */
  lemma {:induction false} RunEndingInMouseUp(s: DragState, events: seq<PointerEvent>, slug: string)
    requires |events| > 0 && events[|events| - 1] == MouseUp
    ensures !Run(s, events).dragging && Run(s, events).cursor == Grab
    ensures HandleButtonClick(Run(s, events).cursor, slug) == Open(WindowOpen(SolutionUrl(slug), NewTab))
    decreases |events|
  {
    if |events| > 1 {
      assert events[1..][|events[1..]| - 1] == MouseUp;
      RunEndingInMouseUp(Step(s, events[0]), events[1..], slug);
    }
  }

  /** The initial state satisfies the invariant. */
  lemma InitialTracksDrag()
    ensures CursorTracksDrag(Initial) && !Initial.dragging
  {
  }

  /** Moving the pointer back to where the drag started puts the button's origin back at its rectangle. */
  lemma MoveToPressPointKeepsOrigin(s: DragState, clientX: int, clientY: int, rectLeft: int, rectTop: int)
    ensures var r := Dragged(DragStarted(s, clientX, clientY, rectLeft, rectTop), clientX, clientY);
            r.top == Px(rectTop) && r.left == Px(rectLeft) && r.right == Auto
  {
  }

  /** Ending a drag twice is the same as ending it once. */
  lemma DragEndedIdempotent(s: DragState)
    ensures DragEnded(DragEnded(s)) == DragEnded(s)
  {
  }

  /** A click on the button itself opens the solution exactly when no drag is in progress. */
  lemma ClickOnButtonOpensIffIdle(s: DragState, slug: string)
    requires CursorTracksDrag(s)
    ensures HandleButtonClick(s.cursor, slug).Open? <==> !s.dragging
  {
  }

  /**
   * As written, a press and a release without movement followed by a click
   * on the button opens the solution: the release restores the "grab" cursor
   * before the click is handled.
   */
  lemma PressReleaseThenClickOpens(s: DragState, clientX: int, clientY: int, rectLeft: int, rectTop: int, slug: string)
    ensures var r := Run(s, [MouseDown(clientX, clientY, rectLeft, rectTop), MouseUp]);
            HandleButtonClick(r.cursor, slug) == Open(WindowOpen(SolutionUrl(slug), NewTab))
  {
    RunEndingInMouseUp(s, [MouseDown(clientX, clientY, rectLeft, rectTop), MouseUp], slug);
  }

  /** The button created by `createNeetCodeButton`, with its drag state held in its own fields. */
  class NeetCodeButton {
    const id: string
    const text: string
    const slug: string
    var isDragging: bool
    var offsetX: int
    var offsetY: int
    var cursor: string
    var top: CssLength
    var left: CssLength
    var right: CssLength

    /** The fields as a drag state value. */
    function State(): DragState
      reads this
    {
      DragState(isDragging, offsetX, offsetY, cursor, top, left, right)
    }

    /** `createNeetCodeButton(slug)`. */
    constructor (slug: string)
      ensures id == ButtonId && text == Label && this.slug == slug
      ensures State() == Initial
    {
      id, text, this.slug := ButtonId, Label, slug;
      isDragging, offsetX, offsetY := false, 0, 0;
      cursor, top, left, right := Grab, Px(10), Unset, Px(10);
    }

    /** The `mousedown` listener. */
    method StartDrag(clientX: int, clientY: int, rectLeft: int, rectTop: int)
      modifies this
      ensures State() == DragStarted(old(State()), clientX, clientY, rectLeft, rectTop)
    {
      isDragging := true;
      cursor := Grabbing;
      offsetX := clientX - rectLeft;
      offsetY := clientY - rectTop;
    }

    /** The `mousemove` listener. */
    method OnDrag(clientX: int, clientY: int)
      modifies this
      ensures State() == Dragged(old(State()), clientX, clientY)
    {
      if isDragging {
        top := Px(clientY - offsetY);
        left := Px(clientX - offsetX);
        right := Auto;
      }
    }

    /** The `mouseup` listener. */
    method EndDrag()
      modifies this
      ensures State() == DragEnded(old(State()))
    {
      isDragging := false;
      cursor := Grab;
    }

    /** The `click` listener, with the cursor style of the event's target given. */
    method Click(targetCursor: string) returns (effect: ClickEffect)
      ensures effect.Open? <==> targetCursor != Grabbing
      ensures effect.Open? ==> effect.call == WindowOpen(SolutionUrl(slug), NewTab)
    {
      effect := HandleButtonClick(targetCursor, slug);
    }
  }
}
