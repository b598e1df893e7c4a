/**
 * Dragging one desktop window (the Window component of RetroWindows7).
 * A press on the window's chrome starts a drag and remembers where the
 * pointer sits relative to the window's top-left corner; every pointer move
 * while dragging puts the corner at the pointer minus that offset; a release
 * ends the drag. Hit-testing and the window's on-screen rectangle are inputs.
 */
module WindowDrag {
  import opened Wrappers
  import opened Geometry

  /**
   * The outcome of the hit-test on a mouse-down: `Content` when the target
   * lies inside an element of class `window-content`, `Controls` when it lies
   * inside one of class `window-controls`, `Chrome` otherwise.
   */
  datatype Target = Chrome | Content | Controls

  /** The part of a window that a mouse-down physically lands on. */
  datatype Region = TitleBar | ContentArea | ControlButtons

  /**
   * The hit-test as the markup stands: the content is wrapped in
   * `window-content`, but the container of the Minimize, Maximize and Close
   * buttons has no class name, so nothing ever matches `window-controls`.
   */
  function HitTestAsWritten(region: Region): (t: Target)
    ensures t != Controls
    ensures t == Content <==> region == ContentArea
  {
    match region
    case TitleBar => Chrome
    case ContentArea => Content
    case ControlButtons => Chrome
  }

  /** The hit-test the handler is written for: only the title bar is chrome. */
  function HitTest(region: Region): (t: Target)
    ensures t == Chrome <==> region == TitleBar
    ensures t == Controls <==> region == ControlButtons
  {
    match region
    case TitleBar => Chrome
    case ContentArea => Content
    case ControlButtons => Controls
  }

  /** The state each Window keeps: `position`, `isDragging`, `dragOffset`. */
  datatype DragState = DragState(position: Point, dragging: bool, offset: Point)

  datatype MouseEvent =
    | Down(target: Target, pointer: Point, rect: Option<Point>)
    | Move(pointer: Point)
    | Up

  /** A freshly mounted window sits at its initial position, not dragging, offset (0, 0). */
  function Mounted(initialPos: Point): DragState {
    DragState(initialPos, false, Point(0, 0))
  }

  /**
   * handleMouseDown. `rect` is the top-left corner of the window's bounding
   * rectangle, absent when the element is not mounted. The second component
   * says whether the window asked the desktop to focus it.
   */
  function Press(s: DragState, target: Target, pointer: Point, rect: Option<Point>): (r: (DragState, bool))
    ensures r.0.position == s.position
    ensures target != Chrome ==> r == (s, false)
    ensures target == Chrome ==> r.0.dragging
    ensures r.1 <==> target == Chrome && rect.Some?
    ensures r.1 ==> r.0.offset == Sub(pointer, rect.value)
    ensures !r.1 ==> r.0.offset == s.offset
  {
    if target != Chrome then (s, false)
    else match rect
      case None => (s.(dragging := true), false)
      case Some(corner) => (s.(dragging := true, offset := Sub(pointer, corner)), true)
  }

  /** handleMouseMove: the corner follows the pointer at the stored offset while dragging. */
  function Drag(s: DragState, pointer: Point): (r: DragState)
    ensures r.dragging == s.dragging && r.offset == s.offset
    ensures s.dragging ==> Add(r.position, r.offset) == pointer
    ensures !s.dragging ==> r == s
  {
    if !s.dragging then s else s.(position := Sub(pointer, s.offset))
  }

  /** handleMouseUp: the drag ends; position and offset stay. */
  function Release(s: DragState): (r: DragState)
    ensures !r.dragging
    ensures r.position == s.position && r.offset == s.offset
  {
    s.(dragging := false)
  }

  function Step(s: DragState, e: MouseEvent): DragState {
    match e
    case Down(target, pointer, rect) => Press(s, target, pointer, rect).0
    case Move(pointer) => Drag(s, pointer)
    case Up => Release(s)
  }

  /** The state after a sequence of mouse events, in order. */
  function Run(s: DragState, es: seq<MouseEvent>): DragState
    decreases |es|
  {
    if es == [] then s else Run(Step(s, es[0]), es[1..])
  }

  ghost predicate AllMoves(es: seq<MouseEvent>) {
    forall k :: 0 <= k < |es| ==> es[k].Move?
  }

  /** A release is idempotent. */
  lemma ReleaseIdempotent(s: DragState)
    ensures Release(Release(s)) == Release(s)
  {
  }

  /** The worked example: press at (100,100) on a window at (50,50), then move to (120,130). */
  lemma DragScenario(s: DragState)
    requires s.position == Point(50, 50)
    ensures Press(s, Chrome, Point(100, 100), Some(s.position)).0.offset == Point(50, 50)
    ensures Drag(Press(s, Chrome, Point(100, 100), Some(s.position)).0, Point(120, 130)).position
      == Point(70, 80)
  {
  }

  /** While dragging, any run of moves leaves the corner at the last pointer minus the offset. */
  lemma {:induction false} MovesFollowPointer(s: DragState, es: seq<MouseEvent>)
    requires s.dragging
    requires es != [] && AllMoves(es)
    ensures Run(s, es) == s.(position := Sub(es[|es| - 1].pointer, s.offset))
    decreases |es|
  {
    var next := Drag(s, es[0].pointer);
    if |es| > 1 {
      assert AllMoves(es[1..]) by {
        forall k | 0 <= k < |es[1..]| ensures es[1..][k].Move? {
          assert es[1..][k] == es[k + 1];
        }
      }
      MovesFollowPointer(next, es[1..]);
      assert es[1..][|es[1..]| - 1] == es[|es| - 1];
    }
  }

  /**
   * Pressing on the chrome and then moving puts the window at the corner of
   * its rectangle plus the pointer's displacement since the press. When that
   * corner is the window's own position, the window moves by exactly the
   * pointer's displacement.
   */
  lemma DragTranslates(s: DragState, press: Point, corner: Point, es: seq<MouseEvent>)
    requires es != [] && AllMoves(es)
    ensures Run(s, [Down(Chrome, press, Some(corner))] + es).position
      == Add(corner, Sub(es[|es| - 1].pointer, press))
    ensures corner == s.position ==>
      Run(s, [Down(Chrome, press, Some(corner))] + es).position
        == Add(s.position, Sub(es[|es| - 1].pointer, press))
  {
    var all := [Down(Chrome, press, Some(corner))] + es;
    var pressed := Step(s, all[0]);
    assert all[1..] == es;
    MovesFollowPointer(pressed, es);
  }

  /**
   * As written, a mouse-down on the Minimize, Maximize or Close button is
   * classified as chrome: it starts a drag, stores an offset and asks for focus.
   */
  lemma ControlPressAsWritten(s: DragState, pointer: Point, corner: Point)
    ensures var r := Press(s, HitTestAsWritten(ControlButtons), pointer, Some(corner));
      r.0.dragging && r.0.offset == Sub(pointer, corner) && r.1
  {
  }

  /** With the intended hit-test, a mouse-down on the control buttons changes nothing. */
  lemma ControlPressIgnored(s: DragState, pointer: Point, rect: Option<Point>)
    ensures Press(s, HitTest(ControlButtons), pointer, rect) == (s, false)
  {
  }

  /** Moves and releases never change the window while no drag is active. */
  lemma {:induction false} IdleIgnoresMoves(s: DragState, es: seq<MouseEvent>)
    requires !s.dragging
    requires forall k :: 0 <= k < |es| ==> !es[k].Down?
    ensures Run(s, es) == s
    decreases |es|
  {
    if es != [] {
      assert forall k :: 0 <= k < |es[1..]| ==> !es[1..][k].Down? by {
        forall k | 0 <= k < |es[1..]| ensures !es[1..][k].Down? {
          assert es[1..][k] == es[k + 1];
        }
      }
      IdleIgnoresMoves(Step(s, es[0]), es[1..]);
    }
  }

  /** The mutable Window component: its three pieces of drag state. */
  class Window {
    var position: Point
    var isDragging: bool
    var dragOffset: Point

    function State(): DragState
      reads this
    {
      DragState(position, isDragging, dragOffset)
    }

    constructor (initialPos: Point)
      ensures State() == Mounted(initialPos)
    {
      position := initialPos;
      isDragging := false;
      dragOffset := Point(0, 0);
    }

    /**
     * Returns whether the window calls its `onFocus` callback. The pressed
     * region is classified by the intended hit-test.
     */
    method HandleMouseDown(region: Region, pointer: Point, rect: Option<Point>) returns (focus: bool)
      modifies this
      ensures (State(), focus) == Press(old(State()), HitTest(region), pointer, rect)
    {
      focus := false;
      var target := HitTest(region);
      if target == Content || target == Controls {
        return;
      }
      isDragging := true;
      if rect.Some? {
        dragOffset := Sub(pointer, rect.value);
        focus := true;
      }
    }

    method HandleMouseMove(pointer: Point)
      modifies this
      ensures State() == Drag(old(State()), pointer)
    {
      if !isDragging {
        return;
      }
      position := Point(pointer.x - dragOffset.x, pointer.y - dragOffset.y);
    }

    method HandleMouseUp()
      modifies this
      ensures State() == Release(old(State()))
    {
      isDragging := false;
    }
  }
}
