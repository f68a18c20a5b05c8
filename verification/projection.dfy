/** The map's world-to-canvas projection: a pure translation by a fixed offset minus the
    current pan position. There is no scale and no dependence on the canvas size. */
module Projection {
  import opened Geometry

  /** The fixed canvas offset added to both coordinates of every waypoint. */
  const MapOffset := 250

  /** The displacement from world to canvas coordinates under pan position `pan`. */
  function Offset(pan: Point): Point {
    Point(MapOffset, MapOffset).Minus(pan)
  }

  /** Canvas position of world point `w` when the map is panned to `pan`. */
  function Project(w: Point, pan: Point): (s: Point)
    ensures s.Minus(w) == Offset(pan)
  {
    Point(MapOffset + w.x - pan.x, MapOffset + w.y - pan.y)
  }

  /** World point drawn at canvas position `s` under pan position `pan`. */
  function Unproject(s: Point, pan: Point): (w: Point)
    ensures Project(w, pan) == s
  {
    Point(s.x - MapOffset + pan.x, s.y - MapOffset + pan.y)
  }

  /** Unprojecting a projected point gives back the world point. */
  lemma UnprojectProject(w: Point, pan: Point)
    ensures Unproject(Project(w, pan), pan) == w
  {
  }

  /** Distinct world points land on distinct canvas points. */
  lemma ProjectInjective(a: Point, b: Point, pan: Point)
    ensures Project(a, pan) == Project(b, pan) <==> a == b
  {
  }

  /** Moving the pan position by `d` moves every projected point by `-d`. */
  lemma ProjectPanShift(w: Point, pan: Point, d: Point)
    ensures Project(w, pan.Plus(d)) == Project(w, pan).Plus(d.Neg())
  {
  }

  /** The canvas displacement between two waypoints equals their world displacement,
      whatever the pan position. */
  lemma ProjectPreservesOffsets(a: Point, b: Point, pan: Point)
    ensures Project(a, pan).Minus(Project(b, pan)) == a.Minus(b)
  {
  }

  /** At pan position (0, 0) the world origin is drawn at (250, 250). */
  lemma ProjectAtOrigin(w: Point)
    ensures Project(w, Origin) == w.Plus(Point(MapOffset, MapOffset))
  {
  }
}
