/**
 * The viewer's view state (web/src/App.jsx): a zoom factor changed by the mouse
 * wheel and clamped to [0.05, 32], and a pan offset moved by dragging.
 */
module ViewerView {
  import opened Wrappers

  datatype Point = Point(x: real, y: real)

  /** `scale`, `offset` and `drag` (the last pointer position while a drag is on). */
  datatype View = View(scale: real, offset: Point, drag: Option<Point>)

  const MinScale: real := 0.05
  const MaxScale: real := 32.0
  /** Wheel sensitivity: the factor is `exp(-deltaY * 0.001)`. */
  const WheelRate: real := 0.001

  const InitialView: View := View(1.0, Point(0.0, 0.0), None)

  /** `Math.min(32, Math.max(0.05, s * factor))`. */
  function ZoomScale(s: real, factor: real): (r: real)
    ensures MinScale <= r <= MaxScale
    ensures MinScale <= s * factor <= MaxScale ==> r == s * factor
  {
    var grown := if s * factor >= MinScale then s * factor else MinScale;
    if grown <= MaxScale then grown else MaxScale
  }

  /** A wheel event: the scale is multiplied by `exp(-deltaY * 0.001)` and clamped; nothing else changes. */
  function Wheel(v: View, deltaY: real, exp: real -> real): View
  {
    v.(scale := ZoomScale(v.scale, exp(-deltaY * WheelRate)))
  }

  function PointerDown(v: View, p: Point): View { v.(drag := Some(p)) }

  /** With a drag on, the offset moves by the pointer's step and the drag follows the pointer. */
  function PointerMove(v: View, p: Point): View
  {
    match v.drag
    case None => v
    case Some(d) => v.(offset := Point(v.offset.x + (p.x - d.x), v.offset.y + (p.y - d.y)), drag := Some(p))
  }

  function PointerUp(v: View): View { v.(drag := None) }

  /** A run of pointer moves, in order. */
  function Moves(v: View, ps: seq<Point>): View
    decreases |ps|
  {
    if ps == [] then v else Moves(PointerMove(v, ps[0]), ps[1..])
  }

  // ---------------------------------------------------------------------------
  // Properties

  /** Zooming in (factor at least 1) from a scale in range never makes the scale smaller. */
  lemma ZoomInNeverShrinks(s: real, factor: real)
    requires MinScale <= s <= MaxScale && factor >= 1.0
    ensures ZoomScale(s, factor) >= s
  {
    assert s * factor - s == s * (factor - 1.0);
    MulNonNegative(s, factor - 1.0);
  }

  /** Zooming out (factor in (0,1]) from a scale in range never makes the scale larger. */
  lemma ZoomOutNeverGrows(s: real, factor: real)
    requires MinScale <= s <= MaxScale && 0.0 < factor <= 1.0
    ensures ZoomScale(s, factor) <= s
  {
    assert s - s * factor == s * (1.0 - factor);
    MulNonNegative(s, 1.0 - factor);
  }

  lemma MulNonNegative(a: real, b: real)
    requires a >= 0.0 && b >= 0.0
    ensures a * b >= 0.0
  {
  }

  /** A wheel event with `deltaY < 0` zooms in whenever `exp` is above 1 on positive arguments. */
  lemma WheelUpZoomsIn(v: View, deltaY: real, exp: real -> real)
    requires MinScale <= v.scale <= MaxScale && deltaY < 0.0
    requires exp(-deltaY * WheelRate) >= 1.0
    ensures Wheel(v, deltaY, exp).scale >= v.scale
    ensures Wheel(v, deltaY, exp).offset == v.offset && Wheel(v, deltaY, exp).drag == v.drag
  {
    ZoomInNeverShrinks(v.scale, exp(-deltaY * WheelRate));
  }

  /** Without a drag, pointer moves change nothing. */
  lemma {:induction false} MovesWithoutDrag(v: View, ps: seq<Point>)
    requires v.drag.None?
    ensures Moves(v, ps) == v
    decreases |ps|
  {
    if ps != [] {
      MovesWithoutDrag(PointerMove(v, ps[0]), ps[1..]);
    }
  }

  /**
   * During a drag, a run of moves shifts the offset by the pointer's whole
   * displacement, from the drag start to the last position, and the drag ends
   * at the last position; the scale is untouched.
   */
  lemma {:induction false} MovesDisplacement(v: View, ps: seq<Point>)
    requires v.drag.Some? && ps != []
    ensures Moves(v, ps).scale == v.scale
    ensures Moves(v, ps).drag == Some(ps[|ps| - 1])
    ensures Moves(v, ps).offset.x == v.offset.x + (ps[|ps| - 1].x - v.drag.value.x)
    ensures Moves(v, ps).offset.y == v.offset.y + (ps[|ps| - 1].y - v.drag.value.y)
    decreases |ps|
  {
    if |ps| > 1 {
      MovesDisplacement(PointerMove(v, ps[0]), ps[1..]);
    }
  }

  /** The view state of the component: the fields the event handlers update. */
  class Viewport {
    var scale: real
    var offset: Point
    var drag: Option<Point>

    function State(): View
      reads this
    {
      View(scale, offset, drag)
    }

    /** The scale always lies in [0.05, 32]. */
    predicate Valid()
      reads this
    {
      MinScale <= scale <= MaxScale
    }

    constructor ()
      ensures Valid() && State() == InitialView
    {
      scale, offset, drag := 1.0, Point(0.0, 0.0), None;
    }

    /** `onWheel`. */
    method OnWheel(deltaY: real, exp: real -> real)
      modifies this
      ensures Valid()
      ensures State() == Wheel(old(State()), deltaY, exp)
    {
      var factor := exp(-deltaY * WheelRate);
      scale := ZoomScale(scale, factor);
    }

    /** `onPointerDown`: a drag starts at the pointer. */
    method OnPointerDown(p: Point)
      requires Valid()
      modifies this
      ensures Valid()
      ensures State() == PointerDown(old(State()), p)
    {
      drag := Some(p);
    }

    /** `onPointerMove`. */
    method OnPointerMove(p: Point)
      requires Valid()
      modifies this
      ensures Valid()
      ensures State() == PointerMove(old(State()), p)
    {
      if drag.None? {
        return;
      }
      var dx := p.x - drag.value.x;
      var dy := p.y - drag.value.y;
      drag := Some(p);
      offset := Point(offset.x + dx, offset.y + dy);
    }

    /** `onPointerUp`: the drag ends. */
    method OnPointerUp()
      requires Valid()
      modifies this
      ensures Valid()
      ensures State() == PointerUp(old(State()))
    {
      drag := None;
    }
  }
}
