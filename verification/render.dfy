/** One render pass of the waypoint map, abstracted to a list of draw records: a clear of
    the whole canvas followed by one glyph (circle plus label) per waypoint. */
module Render {
  import opened Geometry
  import opened Options
  import opened Waypoints
  import opened Projection

  /** Canvas size in pixels. */
  datatype Size = Size(width: int, height: int)

  /** Radius of every waypoint circle. */
  const GlyphRadius := 5

  /** The label's text baseline is anchored this many pixels below the circle's centre. */
  const LabelDrop := 3

  /** An abstract canvas operation. `Glyph` stands for the filled, stroked circle at `center`
      together with the label text, centred on the baseline anchor `textAt`. */
  datatype DrawOp =
    | ClearRect(width: int, height: int)
    | Glyph(center: Point, radius: int, fill: Color, text: Option<string>, textAt: Point)

  /** True when `g` is the glyph of waypoint `w` at pan `pan`, stated field by field. */
  predicate DrawsWaypoint(g: DrawOp, w: Waypoint, pan: Point) {
    && g.Glyph?
    && g.center == Project(w.Position(), pan)
    && g.radius == GlyphRadius
    && g.fill == ColorOf(w.kind)
    && g.text == LabelOf(w.kind)
    && g.textAt == g.center.Plus(Point(0, LabelDrop))
  }

  /** The glyph drawn for one waypoint under pan position `pan`: a radius-5 circle at the
      waypoint's projection in its type's colour, its label anchored straight below the centre. */
  function GlyphFor(w: Waypoint, pan: Point): (g: DrawOp)
    ensures DrawsWaypoint(g, w, pan)
  {
    var c := Project(w.Position(), pan);
    Glyph(c, GlyphRadius, ColorOf(w.kind), LabelOf(w.kind), c.Plus(Point(0, LabelDrop)))
  }

  /** The glyphs of a waypoint list, in list order, none skipped. */
  function Glyphs(wps: seq<Waypoint>, pan: Point): (r: seq<DrawOp>)
    ensures |r| == |wps|
    ensures forall i :: 0 <= i < |wps| ==> DrawsWaypoint(r[i], wps[i], pan)
  {
    if |wps| == 0 then []
    else [GlyphFor(wps[0], pan)] + Glyphs(wps[1..], pan)
  }

  /** The draw records of one pass: clear the canvas, then one glyph per waypoint. */
  function DrawWaypoints(size: Size, pan: Point, wps: seq<Waypoint>): (r: seq<DrawOp>)
    ensures |r| == |wps| + 1
    ensures r[0] == ClearRect(size.width, size.height)
    // Implied by the next clause; stated on its own so callers get it without unfolding `DrawsWaypoint`.
    ensures forall i :: 1 <= i < |r| ==> r[i].Glyph?
    ensures forall i :: 0 <= i < |wps| ==> DrawsWaypoint(r[i + 1], wps[i], pan)
  {
    [ClearRect(size.width, size.height)] + Glyphs(wps, pan)
  }

  /** Each glyph's centre, unprojected, is its waypoint's world position: the pass loses no
      position and draws nothing that is not a waypoint. */
  lemma GlyphCentersRecoverPositions(size: Size, pan: Point, wps: seq<Waypoint>)
    ensures forall i :: 0 <= i < |wps| ==>
      Unproject(DrawWaypoints(size, pan, wps)[i + 1].center, pan) == wps[i].Position()
  {
  }

  /** Drawing two lists one after the other yields the glyphs of their concatenation. */
  lemma {:induction false} GlyphsAppend(a: seq<Waypoint>, b: seq<Waypoint>, pan: Point)
    ensures Glyphs(a + b, pan) == Glyphs(a, pan) + Glyphs(b, pan)
  {
    if |a| == 0 {
      assert a + b == b;
    } else {
      assert (a + b)[1..] == a[1..] + b;
      GlyphsAppend(a[1..], b, pan);
    }
  }

  /** A draw record moved by displacement `d`; a clear is not moved. */
  function ShiftOp(op: DrawOp, d: Point): DrawOp {
    match op
    case ClearRect(w, h) => ClearRect(w, h)
    case Glyph(c, r, f, l, at) => Glyph(c.Plus(d), r, f, l, at.Plus(d))
  }

  /** Every record of a pass moved by `d`. */
  function ShiftAll(ops: seq<DrawOp>, d: Point): (r: seq<DrawOp>)
    ensures |r| == |ops|
    ensures forall i :: 0 <= i < |ops| ==> r[i] == ShiftOp(ops[i], d)
  {
    seq(|ops|, i requires 0 <= i < |ops| => ShiftOp(ops[i], d))
  }

  /** Panning by `d` moves the glyphs of a waypoint list by `-d`, in the same order. */
  lemma {:induction false} GlyphsPanShift(wps: seq<Waypoint>, pan: Point, d: Point)
    ensures Glyphs(wps, pan.Plus(d)) == ShiftAll(Glyphs(wps, pan), d.Neg())
  {
    var moved, shifted := Glyphs(wps, pan.Plus(d)), ShiftAll(Glyphs(wps, pan), d.Neg());
    forall i | 0 <= i < |wps|
      ensures moved[i] == shifted[i]
    {
      assert DrawsWaypoint(moved[i], wps[i], pan.Plus(d));
      assert DrawsWaypoint(Glyphs(wps, pan)[i], wps[i], pan);
      ProjectPanShift(wps[i].Position(), pan, d);
    }
  }

  /** Panning by `d` redraws the same pass with every glyph moved by `-d`: same clear,
      same colours, labels and radii, same order. */
  lemma DrawPanShift(size: Size, pan: Point, d: Point, wps: seq<Waypoint>)
    ensures DrawWaypoints(size, pan.Plus(d), wps) == ShiftAll(DrawWaypoints(size, pan, wps), d.Neg())
  {
    var clear := ClearRect(size.width, size.height);
    var glyphs := Glyphs(wps, pan);
    GlyphsPanShift(wps, pan, d);
    assert ShiftAll([clear] + glyphs, d.Neg()) == [clear] + ShiftAll(glyphs, d.Neg());
  }

  /** At pan position (0, 0) every waypoint is drawn at its world position plus (250, 250). */
  lemma DrawAtOrigin(size: Size, wps: seq<Waypoint>)
    ensures forall i :: 0 <= i < |wps| ==>
      DrawWaypoints(size, Origin, wps)[i + 1].center == wps[i].Position().Plus(Point(MapOffset, MapOffset))
  {
    var frame := DrawWaypoints(size, Origin, wps);
    var glyphs := Glyphs(wps, Origin);
    assert frame == [ClearRect(size.width, size.height)] + glyphs;
    forall i | 0 <= i < |wps|
      ensures frame[i + 1].center == wps[i].Position().Plus(Point(MapOffset, MapOffset))
    {
      var g, w := glyphs[i], wps[i];
      assert frame[i + 1] == g;
      assert g.center == Project(w.Position(), Origin);
      ProjectAtOrigin(w.Position());
    }
  }
}
