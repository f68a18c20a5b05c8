/** Waypoints of the headquarters system and how the map classifies them for drawing. */
module Waypoints {
  import opened Geometry
  import opened Options

  /** A waypoint as the system endpoint returns it: its symbol, its type string and its
      integer world position. Fields the map does not read (orbitals, traits) are not kept. */
  datatype Waypoint = Waypoint(symbol: string, kind: string, x: int, y: int) {

    /** World position of the waypoint. */
    function Position(): Point {
      Point(x, y)
    }
  }

  /** Fill colours of a waypoint glyph, named as the canvas style strings. */
  datatype Color = Green | Gray | Blue | Red {

    /** The CSS colour name written into `fillStyle`. */
    function CssName(): string {
      match this
      case Green => "green"
      case Gray => "gray"
      case Blue => "blue"
      case Red => "red"
    }
  }

  const Planet := "PLANET"
  const Moon := "MOON"
  const OrbitalStation := "ORBITAL_STATION"

  /** The label drawn for an orbital station instead of its initial. */
  const OrbitalStationLabel := "OS"

  /** Colour of a waypoint glyph: a total classification with a catch-all for every other type. */
  function ColorOf(kind: string): (c: Color)
    ensures c == Green <==> kind == Planet
    ensures c == Gray <==> kind == Moon
    ensures c == Blue <==> kind == OrbitalStation
    ensures c == Red <==> kind !in {Planet, Moon, OrbitalStation}
  {
    if kind == Planet then Green
    else if kind == Moon then Gray
    else if kind == OrbitalStation then Blue
    else Red
  }

  /** Text drawn on a waypoint glyph: "OS" for orbital stations, otherwise the first
      character of the type. Indexing an empty type string yields `undefined`, here `None`. */
  function LabelOf(kind: string): (l: Option<string>)
    ensures kind == OrbitalStation ==> l == Some(OrbitalStationLabel)
    ensures l.None? <==> |kind| == 0
    ensures l.Some? ==> 1 <= |l.value| <= 2 && l.value[0] == kind[0]
    ensures l.Some? ==> (|l.value| == 2 <==> kind == OrbitalStation)
    ensures l.Some? && kind != OrbitalStation ==> l.value == kind[..1]
  {
    if kind == OrbitalStation then Some(OrbitalStationLabel)
    else if |kind| == 0 then None
    else Some([kind[0]])
  }

  /** The fill style written for each type: "green", "gray", "blue", and "red" for the rest. */
  lemma ColorCssNames(kind: string)
    ensures kind == Planet ==> ColorOf(kind).CssName() == "green"
    ensures kind == Moon ==> ColorOf(kind).CssName() == "gray"
    ensures kind == OrbitalStation ==> ColorOf(kind).CssName() == "blue"
    ensures kind !in {Planet, Moon, OrbitalStation} ==> ColorOf(kind).CssName() == "red"
  {
  }

  /** Blue glyphs are exactly the two-letter labelled ones: both classifications single out
      the orbital station and agree on it. */
  lemma BlueIffTwoLetterLabel(kind: string)
    ensures ColorOf(kind) == Blue <==> (LabelOf(kind).Some? && |LabelOf(kind).value| == 2)
  {
  }

  /** Types sharing an initial share a label unless one of them is the orbital station:
      e.g. every type starting with 'P' is drawn with "P", whatever its colour. */
  lemma SameInitialSameLabel(a: string, b: string)
    requires |a| > 0 && |b| > 0 && a[0] == b[0]
    requires a != OrbitalStation && b != OrbitalStation
    ensures LabelOf(a) == LabelOf(b)
  {
  }
}
