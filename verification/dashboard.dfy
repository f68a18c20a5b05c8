/** The waypoint map as a whole: the frame drawn for a viewport state, and how each pointer
    event changes what is on the canvas. */
module Dashboard {
  import opened Geometry
  import opened Waypoints
  import opened Projection
  import opened Render
  import opened Viewport

  /** The draw records of the pass made for viewport state `s`: a clear, then glyph i for
      waypoint i at the state's pan position. Only the pan position is read; dragging and the
      drag start do not affect the picture. */
  function Frame(s: State, size: Size, wps: seq<Waypoint>): (r: seq<DrawOp>)
    ensures |r| == |wps| + 1
    ensures r[0] == ClearRect(size.width, size.height)
    ensures forall i :: 0 <= i < |wps| ==> DrawsWaypoint(r[i + 1], wps[i], s.canvasPosition)
  {
    DrawWaypoints(size, s.canvasPosition, wps)
  }

  /** Mouse-down and mouse-up never change the picture. */
  lemma PressReleaseKeepFrame(s: State, p: Point, size: Size, wps: seq<Waypoint>)
    ensures Frame(Step(s, MouseDown(p)), size, wps) == Frame(s, size, wps)
    ensures Frame(Step(s, MouseUp), size, wps) == Frame(s, size, wps)
  {
  }

  /** A move while dragging by pointer displacement `p - dragStart` moves every glyph by the
      opposite displacement: the map slides against the cursor. */
  lemma DragMoveShiftsFrame(s: State, p: Point, size: Size, wps: seq<Waypoint>)
    requires s.isDragging
    ensures Frame(Step(s, MouseMove(p)), size, wps) ==
      ShiftAll(Frame(s, size, wps), p.Minus(s.dragStart).Neg())
  {
    DrawPanShift(size, s.canvasPosition, p.Minus(s.dragStart), wps);
  }

  /** A whole drag gesture from rest, pressed at `start` and ending at the last of `ps`,
      shifts the picture by `start` minus that last pointer. */
  lemma DragGestureShiftsFrame(s: State, start: Point, ps: seq<Point>, size: Size, wps: seq<Waypoint>)
    requires !s.isDragging && |ps| > 0
    ensures Frame(Run(s, [MouseDown(start)] + Moves(ps) + [MouseUp]), size, wps) ==
      ShiftAll(Frame(s, size, wps), ps[|ps| - 1].Minus(start).Neg())
  {
    DragGesture(s, start, ps);
    DrawPanShift(size, s.canvasPosition, ps[|ps| - 1].Minus(start), wps);
  }

  /** After "Move to (0,0)" every waypoint is drawn at its world position plus (250, 250). */
  lemma OriginFrame(s: State, size: Size, wps: seq<Waypoint>)
    ensures forall i :: 0 <= i < |wps| ==>
      Frame(Step(s, MoveToOrigin), size, wps)[i + 1].center ==
        wps[i].Position().Plus(Point(MapOffset, MapOffset))
  {
    var reset := Step(s, MoveToOrigin);
    assert reset.canvasPosition == Origin;
    assert Frame(reset, size, wps) == DrawWaypoints(size, Origin, wps);
    DrawAtOrigin(size, wps);
  }

  /** Without a mouse-down the mount state never changes: moves are ignored at rest,
      mouse-up keeps it at rest, and "Move to (0,0)" finds the pan already at the origin. */
  lemma {:induction false} NoPressKeepsMount(evs: seq<Event>)
    requires forall i :: 0 <= i < |evs| ==> !evs[i].MouseDown?
    ensures Run(Initial, evs) == Initial
    decreases |evs|
  {
    if |evs| > 0 {
      assert Step(Initial, evs[0]) == Initial;
      NoPressKeepsMount(evs[1..]);
    }
  }

  /** Without a mouse-down the frame is always the frame of the mount state, the pass at pan (0, 0). */
  lemma NoPressKeepsMountFrame(evs: seq<Event>, size: Size, wps: seq<Waypoint>)
    requires forall i :: 0 <= i < |evs| ==> !evs[i].MouseDown?
    ensures Frame(Run(Initial, evs), size, wps) == DrawWaypoints(size, Origin, wps)
  {
    NoPressKeepsMount(evs);
  }
}
