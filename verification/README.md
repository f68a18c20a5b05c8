# Waypoint map viewport of the space-traders dashboard

This project models the interactive waypoint map of the space-traders browser client's
dashboard (`src/routes/dashboard.jsx`). It proves properties of that model in Dafny. The map
shows the waypoints of the player's headquarters system on a canvas. The user can pan it by
dragging and can send it back to the origin with a button. The model has five parts:

- **Projection** (`projection.dfy`). A waypoint at world position `w` is drawn at
  `250 + w - canvasPosition` on both axes. The map has no scale and no zoom.
- **Render pass** (`render.dfy`). `drawWaypoints` becomes a pure function that returns draw
  records. The first record clears the canvas. After it comes one glyph per waypoint, in list
  order. A glyph is a radius-5 circle in the waypoint's colour. Its label's text baseline is
  anchored 3 pixels below the centre.
- **Classification** (`waypoints.dfy`). `getWaypointColor` maps a waypoint type to a colour.
  The label expression gives "OS" for an orbital station and the type's first character for
  any other type.
- **Pan/drag state machine** (`viewport.dfy`). The component state `isDragging`, `dragStart`
  and `canvasPosition` is an explicit record. The mouse-down, mouse-move and mouse-up handlers
  and the "Move to (0,0)" button are transition functions on that record. `dashboard.dfy` ties
  the state machine to the frame it draws.
- **Headquarters system symbol** (`headquarters.dfy`). The headquarters waypoint symbol is
  split on `-` with JavaScript `split` semantics. The first two pieces are joined back into the
  system symbol that is then fetched.

Coordinates are integers: pointer client coordinates and waypoint positions are whole numbers.
`dashboard.jsx` has no zoom, hit-testing, animated recentring, orbital filtering or navigation
planning, so the model has none either.

## Model

| member | source | states |
|---|---|---|
| Waypoints.ColorOf | src/routes/dashboard.jsx:104-115 | PLANET is green, MOON gray, ORBITAL_STATION blue, and every other type (and only those) red; each colour holds exactly when its type matches |
| Waypoints.LabelOf | src/routes/dashboard.jsx:97 | ORBITAL_STATION is labelled "OS"; an empty type gives `undefined`; otherwise the label has one or two characters, always starts with the type's initial, has two characters exactly for ORBITAL_STATION, and is the one-character initial for every other type |
| Waypoints.ColorCssNames | src/routes/dashboard.jsx:104-115 | the fill style written is "green" for PLANET, "gray" for MOON, "blue" for ORBITAL_STATION and "red" for every other type |
| Waypoints.BlueIffTwoLetterLabel | src/routes/dashboard.jsx:97-115 | the colour and label classifications single out the same type: a glyph is blue exactly when its label has two letters |
| Waypoints.SameInitialSameLabel | src/routes/dashboard.jsx:97 | any two non-empty types that are not ORBITAL_STATION and share an initial get the same label, so the label alone cannot tell them apart |
| Projection.Project | src/routes/dashboard.jsx:84-85 | projection is a pure translation: canvas minus world is the same vector for every waypoint and depends only on the pan position |
| Projection.Unproject | src/routes/dashboard.jsx:84-85 | the inverse map: projecting an unprojected canvas point gives that point back |
| Projection.UnprojectProject | src/routes/dashboard.jsx:84-85 | unprojecting a projected world point gives that world point back |
| Projection.ProjectInjective | src/routes/dashboard.jsx:84-85 | two waypoints are drawn at the same spot exactly when they have the same world position |
| Projection.ProjectPanShift | src/routes/dashboard.jsx:84-85 | moving `canvasPosition` by `d` moves every projected point by `-d` |
| Projection.ProjectPreservesOffsets | src/routes/dashboard.jsx:84-85 | the canvas offset between two waypoints equals their world offset, whatever the pan |
| Projection.ProjectAtOrigin | src/routes/dashboard.jsx:84-85 | with pan (0,0) a waypoint is drawn at its world position plus (250,250) |
| Render.GlyphFor | src/routes/dashboard.jsx:84-100 | the glyph of one waypoint: a circle of radius 5 at the waypoint's projection, filled with its type's colour, with its type's label centred on a baseline anchor 3 pixels straight below the centre |
| Render.Glyphs | src/routes/dashboard.jsx:83-101 | one glyph per waypoint, in list order, none filtered; glyph i is at waypoint i's projection, has radius 5 and the waypoint's colour and label, and its label's baseline anchor is 3 pixels below the centre |
| Render.DrawWaypoints | src/routes/dashboard.jsx:80-101 | a pass is a clear of the whole canvas followed by exactly one glyph per waypoint, in input order, each matching its waypoint field by field |
| Render.GlyphCentersRecoverPositions | src/routes/dashboard.jsx:83-88 | unprojecting the centre of glyph i gives waypoint i's world position, so the pass loses no position |
| Render.GlyphsAppend | src/routes/dashboard.jsx:83-101 | the glyphs of a concatenated list are the concatenation of the glyphs of its parts, so each waypoint is drawn independently of the others |
| Render.GlyphsPanShift | src/routes/dashboard.jsx:83-101 | panning by `d` moves every waypoint's glyph and label by `-d` and keeps the list's length, order, colours, labels and radii |
| Render.DrawPanShift | src/routes/dashboard.jsx:80-101 | panning by `d` gives the same pass with every glyph and label moved by `-d`; the clear, colours, labels, radii and order do not change |
| Render.DrawAtOrigin | src/routes/dashboard.jsx:84-88 | with pan (0,0) glyph i is centred at waypoint i's world position plus (250,250) |
| Viewport.OnMouseDown | src/routes/dashboard.jsx:138-145 | mouse-down toggles dragging and never pans; starting a drag records the pointer as the drag start, and stopping one keeps the old drag start |
| Viewport.OnMouseMove | src/routes/dashboard.jsx:147-159 | when not dragging, mouse-move changes nothing; when dragging, the drag start becomes the pointer; in both cases dragging is unchanged and `canvasPosition - dragStart` stays the same |
| Viewport.OnMouseUp | src/routes/dashboard.jsx:161-163 | mouse-up always leaves the machine not dragging and keeps the drag start and pan position |
| Viewport.OnMoveToOrigin | src/routes/dashboard.jsx:117-119 | the button sets the pan position to (0,0) and keeps the dragging flag and drag start |
| Viewport.Step | src/routes/dashboard.jsx:132-134 | for events from the canvas listeners and from the button's `onClick` (line 190): only mouse-down can start a drag, mouse-up always ends one, only a move or "Move to (0,0)" can change the pan position, and "Move to (0,0)" leaves it at the origin |
| Viewport.Run | src/routes/dashboard.jsx:132-134 | handling events one by one: a run with no mouse-move and no "Move to (0,0)" never changes the pan position, and a run from rest with no mouse-down stays at rest |
| Viewport.MouseUpIdempotent | src/routes/dashboard.jsx:161-163 | a second mouse-up has no further effect |
| Viewport.MoveToOriginIdempotent | src/routes/dashboard.jsx:117-119 | a second press of the button has no further effect |
| Viewport.MouseDownTwiceFromRest | src/routes/dashboard.jsx:138-145 | from rest, two mouse-downs start and end a drag; the result differs from the start only in the drag start, which is the first pointer |
| Viewport.DragTelescopes | src/routes/dashboard.jsx:147-159 | any non-empty run of moves while dragging pans by exactly the last pointer minus the initial drag start, stays dragging, and leaves the drag start at the last pointer |
| Viewport.IdleMovesIgnored | src/routes/dashboard.jsx:147-148 | any run of moves while not dragging leaves the state unchanged |
| Viewport.DragGesture | src/routes/dashboard.jsx:138-163 | a press at `start` from rest, then moves ending at `p`, then a release, pans by `p - start` and leaves the machine at rest with the drag start at `p` |
| Viewport.EndsAtOrigin | src/routes/dashboard.jsx:117-119 | any run that ends with "Move to (0,0)" ends with the pan position at the origin |
| Dashboard.Frame | src/routes/dashboard.jsx:73-77 | the pass drawn for a viewport state is a clear of the canvas followed by glyph i for waypoint i at that state's `canvasPosition`; dragging and the drag start are not read |
| Dashboard.PressReleaseKeepFrame | src/routes/dashboard.jsx:138-163 | mouse-down and mouse-up never change the drawn picture |
| Dashboard.DragMoveShiftsFrame | src/routes/dashboard.jsx:147-159 | a move while dragging shifts every glyph by the opposite of the pointer's displacement since the drag start, so the map slides against the cursor |
| Dashboard.DragGestureShiftsFrame | src/routes/dashboard.jsx:138-163 | after a whole drag gesture from `start` to `p`, the picture is the old picture shifted by `start - p` |
| Dashboard.OriginFrame | src/routes/dashboard.jsx:117-119 | after "Move to (0,0)", glyph i is centred at waypoint i's world position plus (250,250) |
| Dashboard.NoPressKeepsMount | src/routes/dashboard.jsx:13-16 | from the mount state (not dragging, both points at the origin), any run of events without a mouse-down leaves the state exactly as mounted |
| Dashboard.NoPressKeepsMountFrame | src/routes/dashboard.jsx:13-16 | without a mouse-down the map never moves from its mount frame, the pass at pan (0,0) |
| Headquarters.Split | src/routes/dashboard.jsx:31 | `split("-")` returns at least one piece; no piece contains `-`; joining the pieces with `-` rebuilds the input |
| Headquarters.SystemSymbol | src/routes/dashboard.jsx:31-33 | with a `-` in the symbol, the system symbol is a prefix of it that holds exactly one `-` and ends at a `-` or at the end of the symbol; with no `-` it is the symbol followed by `-undefined`; SystemOfWaypoint, SystemOfSystem and SystemOfBareSymbol give its value for two or more, one and no separators |
| Headquarters.SplitJoin | src/routes/dashboard.jsx:31 | splitting a `-`-join of `-`-free pieces gives the pieces back, so split and join are mutually inverse |
| Headquarters.SystemOfWaypoint | src/routes/dashboard.jsx:31-33 | for a symbol with at least two `-` separators, the system symbol is the first two pieces joined by `-` |
| Headquarters.SystemOfSystem | src/routes/dashboard.jsx:31-33 | a symbol with exactly one `-` is returned unchanged as the system symbol |
| Headquarters.SystemOfBareSymbol | src/routes/dashboard.jsx:31-33 | a symbol with no `-` gives the symbol followed by `-undefined`, because the missing second piece is `undefined` in the template string |
| Headquarters.SystemOfExample | src/routes/dashboard.jsx:31-33 | "X1-AB12-C3" gives the system symbol "X1-AB12" |

## Left out

- The fetch chain for the agent, the system and the system details, and its `console.error` handling (src/routes/dashboard.jsx:18-60). This is network I/O. Only the symbol derivation at lines 31-33 is modelled.
- The window resize listener (src/routes/dashboard.jsx:62-70). This is host plumbing. The canvas size appears in the model only as a parameter of the clear record.
- React hooks, the effect's dependency list and the redraw scheduling (src/routes/dashboard.jsx:73-78). The model gives the frame of each state. It does not model when React redraws. Dashboard.NoPressKeepsMountFrame therefore gives the frame of the mount state, not a frame that is actually drawn on mount.
- The first pass is never drawn. When the canvas first appears, the draw effect runs while `canvas` is still `null`. The ref callback's `setCanvas` (line 130) is not in the effect's dependency list (line 78), so nothing is drawn until a pan, a resize or a press of "Move to (0,0)".
- "Move to (0,0)" creates a new `{x: 0, y: 0}` object (line 118), so React redraws even when the pan is already at the origin. The model compares positions by value, so a second press is a no-op there.
- Viewport.OnMouseDown models the handler body at src/routes/dashboard.jsx:138-145, not the page's listeners. The canvas listeners are registered through a ref callback (src/routes/dashboard.jsx:121-136). The handlers of the first render that shows the canvas are added while `canvas` (line 14) is still `null`. When React later calls that callback with `null`, the test at line 122 fails, so those handlers are never removed. Handlers of later renders are removed by their own callback's `null` call (lines 124-126). The leaked handlers always see `isDragging` as false, so on the page every mouse-down also runs lines 142-143 and sets `dragStart` to the pointer. By a reading of React 18's batching, a mouse-down during a drag therefore restarts the drag at the pointer instead of ending it. The model's "stopping a drag keeps the old drag start", and Viewport.MouseDownTwiceFromRest, hold for the handler body but not for the page. The model handles each event once, against the latest state.
- Canvas styling (src/routes/dashboard.jsx:87-100). The black stroke, black label fill, "10px Arial" font, centred alignment, the default alphabetic text baseline (so the 10px label is drawn mostly above its anchor, over the circle) and the full-circle arc angles are left out. Each glyph keeps its centre, radius, fill colour, label and label anchor.
- Waypoints.LabelOf: a type is modelled as a sequence of Unicode scalar values, while `type[0]` (line 97) is the first UTF-16 code unit. A type starting outside the Basic Multilingual Plane is labelled here with its whole first character, where the page would take a lone surrogate. The game's waypoint types are ASCII names, so they are unaffected.
- Drawing an `undefined` label: the canvas would print the text "undefined". The model stops at `None`.
- JavaScript numbers are doubles. The model uses unbounded integers and does not model precision loss beyond 2^53.
- The JSX markup (src/routes/dashboard.jsx:165-194), `src/routes/passerelle.jsx`, `src/routes/login.jsx`, `src/main.jsx` and `src/routes/dashboard copy.jsx`. They hold authenticated fetches, cookie access, routing and markup, with no computable map logic.
- Zoom, hit-testing, animated recentring, orbital filtering, ship selection and fuel-based navigation planning. The dashboard source does not contain them.
