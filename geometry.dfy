/**
 * Rectangles (CGRect) over `real`, and the axis vocabulary shared by layouts and
 * constraints. Sizes are not normalised: CGRect's treatment of negative sizes is
 * not part of this model.
 */
module Geometry {

  /** A rectangle: origin (x, y) and size (width, height). */
  datatype Rect = Rect(x: real, y: real, width: real, height: real)

  /** `CGRect.zero`. */
  const Zero: Rect := Rect(0.0, 0.0, 0.0, 0.0)

  function MinX(r: Rect): real { r.x }
  function MidX(r: Rect): real { r.x + r.width / 2.0 }
  function MaxX(r: Rect): real { r.x + r.width }
  function MinY(r: Rect): real { r.y }
  function MidY(r: Rect): real { r.y + r.height / 2.0 }
  function MaxY(r: Rect): real { r.y + r.height }

  function Min(a: real, b: real): real { if a <= b then a else b }
  function Max(a: real, b: real): real { if a <= b then b else a }

  /** True when `outer` covers `inner` on both axes. */
  predicate Contains(outer: Rect, inner: Rect) {
    && outer.x <= inner.x && MaxX(inner) <= MaxX(outer)
    && outer.y <= inner.y && MaxY(inner) <= MaxY(outer)
  }

  lemma ContainsTrans(a: Rect, b: Rect, c: Rect)
    requires Contains(a, b) && Contains(b, c)
    ensures Contains(a, c)
  {
  }

  /** True when neither dimension is negative (a standardised CGRect). */
  predicate NonNegative(r: Rect) {
    r.width >= 0.0 && r.height >= 0.0
  }

  /** `CGRect.union`: the smallest rectangle that covers both arguments. */
  function Union(a: Rect, b: Rect): (r: Rect)
    ensures Contains(r, a) && Contains(r, b)
    ensures forall c :: Contains(c, a) && Contains(c, b) ==> Contains(c, r)
    ensures NonNegative(a) && NonNegative(b) ==> NonNegative(r)
  {
    var x := Min(a.x, b.x);
    var y := Min(a.y, b.y);
    Rect(x, y, Max(MaxX(a), MaxX(b)) - x, Max(MaxY(a), MaxY(b)) - y)
  }

  /** The two layout axes (`RectAxis`). */
  datatype Axis = Horizontal | Vertical

  /** A position along an axis (`RectAxisAnchor`). */
  datatype AxisAnchor = Leading | Trailing | Center

  /** Origin of `r` on `axis`. */
  function OriginOn(axis: Axis, r: Rect): real {
    match axis
    case Horizontal => r.x
    case Vertical => r.y
  }

  /** Size of `r` on `axis`. */
  function SizeOn(axis: Axis, r: Rect): real {
    match axis
    case Horizontal => r.width
    case Vertical => r.height
  }

  function MinOn(axis: Axis, r: Rect): real {
    match axis
    case Horizontal => MinX(r)
    case Vertical => MinY(r)
  }

  function MidOn(axis: Axis, r: Rect): real {
    match axis
    case Horizontal => MidX(r)
    case Vertical => MidY(r)
  }

  function MaxOn(axis: Axis, r: Rect): real {
    match axis
    case Horizontal => MaxX(r)
    case Vertical => MaxY(r)
  }

  /** `r` with its origin on `axis` moved to `v`; nothing else changes. */
  function WithOriginOn(axis: Axis, r: Rect, v: real): (s: Rect)
    ensures OriginOn(axis, s) == v
    ensures SizeOn(axis, s) == SizeOn(axis, r)
    ensures axis.Horizontal? ==> s.y == r.y && s.height == r.height
    ensures axis.Vertical? ==> s.x == r.x && s.width == r.width
  {
    match axis
    case Horizontal => r.(x := v)
    case Vertical => r.(y := v)
  }
}
