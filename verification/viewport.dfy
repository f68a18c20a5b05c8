/** The map's pan/drag state machine. The dashboard keeps `isDragging`, `dragStart` and
    `canvasPosition` as component state and mutates them from canvas mouse handlers; here the
    state is an explicit record and each handler a function from state and event to state. */
module Viewport {
  import opened Geometry

  /** Whether a drag is in progress, the pointer position the next move is measured from,
      and the pan position the projection subtracts. */
  datatype State = State(isDragging: bool, dragStart: Point, canvasPosition: Point)

  /** The state on mount: not dragging, both points at (0, 0). */
  const Initial := State(false, Origin, Origin)

  /** Pointer events carry the pointer's client coordinates; mouse-up and the
      "Move to (0,0)" button carry nothing the handlers read. */
  datatype Event =
    | MouseDown(pointer: Point)
    | MouseMove(pointer: Point)
    | MouseUp
    | MoveToOrigin

  /** Mouse-down toggles dragging; starting a drag records the pointer as the drag start. */
  function OnMouseDown(s: State, p: Point): (t: State)
    ensures t.isDragging == !s.isDragging
    ensures t.canvasPosition == s.canvasPosition
    ensures t.dragStart == (if s.isDragging then s.dragStart else p)
  {
    if s.isDragging then s.(isDragging := false)
    else s.(isDragging := true, dragStart := p)
  }

  /** Mouse-move while dragging pans by the pointer's displacement since the last recorded
      position and records the pointer; otherwise it does nothing. */
  function OnMouseMove(s: State, p: Point): (t: State)
    ensures t.isDragging == s.isDragging
    ensures !s.isDragging ==> t == s
    ensures s.isDragging ==> t.dragStart == p
    ensures t.canvasPosition.Minus(t.dragStart) == s.canvasPosition.Minus(s.dragStart)
  {
    if s.isDragging then
      var delta := p.Minus(s.dragStart);
      s.(canvasPosition := s.canvasPosition.Plus(delta), dragStart := p)
    else s
  }

  /** Mouse-up ends any drag and changes nothing else. */
  function OnMouseUp(s: State): (t: State)
    ensures !t.isDragging
    ensures t.dragStart == s.dragStart && t.canvasPosition == s.canvasPosition
  {
    s.(isDragging := false)
  }

  /** "Move to (0,0)" resets the pan position and changes nothing else. */
  function OnMoveToOrigin(s: State): (t: State)
    ensures t.canvasPosition == Origin
    ensures t.isDragging == s.isDragging && t.dragStart == s.dragStart
  {
    s.(canvasPosition := Origin)
  }

  /** Only moves while dragging, and "Move to (0,0)", change the pan position. */
  predicate MayPan(e: Event) {
    e.MouseMove? || e.MoveToOrigin?
  }

  /** The transition function: the canvas listeners and the button dispatch each event to
      its handler. Only mouse-down starts a drag, and only a move or the button pans. */
  function Step(s: State, e: Event): (t: State)
    ensures !MayPan(e) ==> t.canvasPosition == s.canvasPosition
    ensures !s.isDragging && !e.MouseDown? ==> !t.isDragging
    ensures e.MouseUp? ==> !t.isDragging
    ensures e.MoveToOrigin? ==> t.canvasPosition == Origin
  {
    match e
    case MouseDown(p) => OnMouseDown(s, p)
    case MouseMove(p) => OnMouseMove(s, p)
    case MouseUp => OnMouseUp(s)
    case MoveToOrigin => OnMoveToOrigin(s)
  }

  /** The state after handling `evs` in order, one event at a time. A run with no move and
      no "Move to (0,0)" keeps the pan position; a run from rest with no mouse-down stays
      at rest. */
  function Run(s: State, evs: seq<Event>): (r: State)
    ensures (forall i :: 0 <= i < |evs| ==> !MayPan(evs[i])) ==> r.canvasPosition == s.canvasPosition
    ensures !s.isDragging && (forall i :: 0 <= i < |evs| ==> !evs[i].MouseDown?) ==> !r.isDragging
    decreases |evs|
  {
    if |evs| == 0 then s else Run(Step(s, evs[0]), evs[1..])
  }

  /** A run of mouse-moves through the pointer positions `ps`. */
  function Moves(ps: seq<Point>): (evs: seq<Event>)
    ensures |evs| == |ps|
    ensures forall i :: 0 <= i < |ps| ==> evs[i] == MouseMove(ps[i])
  {
    seq(|ps|, i requires 0 <= i < |ps| => MouseMove(ps[i]))
  }

  /** Handling `a` then `b` is handling `a + b`. */
  lemma {:induction false} RunAppend(s: State, a: seq<Event>, b: seq<Event>)
    ensures Run(s, a + b) == Run(Run(s, a), b)
    decreases |a|
  {
    if |a| == 0 {
      assert a + b == b;
    } else {
      assert (a + b)[1..] == a[1..] + b;
      RunAppend(Step(s, a[0]), a[1..], b);
    }
  }

  /** Mouse-up is idempotent. */
  lemma MouseUpIdempotent(s: State)
    ensures OnMouseUp(OnMouseUp(s)) == OnMouseUp(s)
  {
  }

  /** "Move to (0,0)" is idempotent. */
  lemma MoveToOriginIdempotent(s: State)
    ensures OnMoveToOrigin(OnMoveToOrigin(s)) == OnMoveToOrigin(s)
  {
  }

  /** Two mouse-downs from rest start and end a drag: the drag start is the first pointer
      and the pan position is untouched. */
  lemma MouseDownTwiceFromRest(s: State, p: Point, q: Point)
    requires !s.isDragging
    ensures Run(s, [MouseDown(p), MouseDown(q)]) == s.(dragStart := p)
  {
    var evs := [MouseDown(p), MouseDown(q)];
    var pressed := OnMouseDown(s, p);
    assert evs[1..] == [MouseDown(q)];
    assert Run(s, evs) == Run(pressed, [MouseDown(q)]);
    assert [MouseDown(q)][1..] == [];
    assert Run(pressed, [MouseDown(q)]) == OnMouseDown(pressed, q);
  }

  /** Telescoping: however many moves a drag goes through, the pan position moves by the
      last pointer minus the drag start, because each move measures from the previous one. */
  lemma {:induction false} DragTelescopes(s: State, ps: seq<Point>)
    requires s.isDragging && |ps| > 0
    ensures Run(s, Moves(ps)) ==
      State(true, ps[|ps| - 1], s.canvasPosition.Plus(ps[|ps| - 1].Minus(s.dragStart)))
    decreases |ps|
  {
    var evs := Moves(ps);
    var next := Step(s, evs[0]);
    assert next == State(true, ps[0], s.canvasPosition.Plus(ps[0].Minus(s.dragStart)));
    assert evs[1..] == Moves(ps[1..]);
    if |ps| == 1 {
      assert Run(next, evs[1..]) == next;
    } else {
      DragTelescopes(next, ps[1..]);
    }
  }

  /** Moves while not dragging are ignored altogether. */
  lemma {:induction false} IdleMovesIgnored(s: State, ps: seq<Point>)
    requires !s.isDragging
    ensures Run(s, Moves(ps)) == s
    decreases |ps|
  {
    if |ps| > 0 {
      assert Moves(ps)[1..] == Moves(ps[1..]);
      IdleMovesIgnored(s, ps[1..]);
    }
  }

  /** A whole drag gesture from rest: press at `start`, move through `ps`, release. The pan
      position moves by the last pointer minus `start`, the drag start is left at the last
      pointer, and the machine is at rest again. */
  lemma DragGesture(s: State, start: Point, ps: seq<Point>)
    requires !s.isDragging && |ps| > 0
    ensures Run(s, [MouseDown(start)] + Moves(ps) + [MouseUp]) ==
      State(false, ps[|ps| - 1], s.canvasPosition.Plus(ps[|ps| - 1].Minus(start)))
  {
    var down := [MouseDown(start)];
    RunAppend(s, down + Moves(ps), [MouseUp]);
    RunAppend(s, down, Moves(ps));
    var pressed := Run(s, down);
    assert pressed == State(true, start, s.canvasPosition);
    DragTelescopes(pressed, ps);
  }

  /** A run whose last event is "Move to (0,0)" ends with the pan position at the origin,
      whatever came before. */
  lemma EndsAtOrigin(s: State, evs: seq<Event>)
    ensures Run(s, evs + [MoveToOrigin]).canvasPosition == Origin
  {
    RunAppend(s, evs, [MoveToOrigin]);
  }
}
