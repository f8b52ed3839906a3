/**
 * The layout algebra (`RectBasedLayout`): rules that place and size a rectangle
 * inside an available source rectangle. `Layout` is the product of an
 * `Alignment` (origin) and a `Filling` (size) and runs filling first.
 */
module Layouts {
  import opened Geometry

  /** `Layout.Alignment.Horizontal`: how origin.x is chosen. */
  datatype AlignX =
    | AlignEqualX                     // origin.x = source.origin.x
    | CenterX(offset: real)
    | Left(offset: real)
    | Right(offset: real)
    | CalculatedX(use: Rect -> real)  // `calculated(_:)`: caller-supplied

  /** `Layout.Alignment.Vertical`: how origin.y is chosen. */
  datatype AlignY =
    | AlignEqualY
    | CenterY(offset: real)
    | Top(offset: real)
    | Bottom(offset: real)
    | CalculatedY(use: Rect -> real)

  /** `Layout.Filling.Horizontal` / `.Vertical`: how one dimension is chosen. */
  datatype Fill =
    | FillEqual
    | Fixed(value: real)
    | Scaled(scale: real)
    | Boxed(insets: real)
    | FillCalculated(use: Rect -> real)

  datatype Alignment = Alignment(horizontal: AlignX, vertical: AlignY)
  datatype Filling = Filling(horizontal: Fill, vertical: Fill)

  /** The closed set of rectangle layouts the engine offers. */
  datatype RectLayout =
    | Layout(alignment: Alignment, filling: Filling)
    | AlignmentOnly(only: Alignment)
    | FillingOnly(fill: Filling)
    | EqualLayout                        // `Layout.equal`
    | Constantly(value: Rect)            // `Layout.equal(_:)`
    | AnyLayout(form: (Rect, Rect) -> Rect)  // `AnyRectBasedLayout`

  /** `Alignment.equal` and `Filling.equal`. */
  const AlignmentEqual: Alignment := Alignment(AlignEqualX, AlignEqualY)
  const FillingEqual: Filling := Filling(FillEqual, FillEqual)

  /** Geometric meaning of a horizontal alignment rule for a placed rect `r`. */
  ghost predicate PlacedX(a: AlignX, r: Rect, source: Rect) {
    match a
    case AlignEqualX => MinX(r) == MinX(source)
    case CenterX(o) => MidX(r) == MidX(source) + o
    case Left(o) => MinX(r) == MinX(source) + o
    case Right(o) => MaxX(r) == MaxX(source) - o
    case CalculatedX(use) => MinX(r) == use(source)
  }

  /** Geometric meaning of a vertical alignment rule for a placed rect `r`. */
  ghost predicate PlacedY(a: AlignY, r: Rect, source: Rect) {
    match a
    case AlignEqualY => MinY(r) == MinY(source)
    case CenterY(o) => MidY(r) == MidY(source) + o
    case Top(o) => MinY(r) == MinY(source) + o
    case Bottom(o) => MaxY(r) == MaxY(source) - o
    case CalculatedY(use) => MinY(r) == use(source)
  }

  /** Applies a horizontal alignment: moves origin.x only. */
  function AlignXApply(a: AlignX, rect: Rect, source: Rect): (r: Rect)
    ensures r.y == rect.y && r.width == rect.width && r.height == rect.height
    ensures PlacedX(a, r, source)
  {
    match a
    case AlignEqualX => rect.(x := source.x)
    case CenterX(o) => rect.(x := MidX(source) - rect.width / 2.0 + o)
    case Left(o) => rect.(x := source.x + o)
    case Right(o) => rect.(x := MaxX(source) - rect.width - o)
    case CalculatedX(use) => rect.(x := use(source))
  }

  /** Applies a vertical alignment: moves origin.y only. */
  function AlignYApply(a: AlignY, rect: Rect, source: Rect): (r: Rect)
    ensures r.x == rect.x && r.width == rect.width && r.height == rect.height
    ensures PlacedY(a, r, source)
  {
    match a
    case AlignEqualY => rect.(y := source.y)
    case CenterY(o) => rect.(y := MidY(source) - rect.height / 2.0 + o)
    case Top(o) => rect.(y := source.y + o)
    case Bottom(o) => rect.(y := MaxY(source) - rect.height - o)
    case CalculatedY(use) => rect.(y := use(source))
  }

  /** `Alignment.trailing(_:)` / `leading(_:)`: resolved from the RTL flag when built. */
  function TrailingX(rtl: bool, offset: real): (a: AlignX)
    ensures (a.Left? || a.Right?) && a.offset == offset
    ensures a.Right? <==> !rtl
  {
    if rtl then Left(offset) else Right(offset)
  }
  function LeadingX(rtl: bool, offset: real): (a: AlignX)
    ensures (a.Left? || a.Right?) && a.offset == offset
    ensures a.Left? <==> !rtl
  {
    if rtl then Right(offset) else Left(offset)
  }

  /**
   * The dimension a filling rule gives, from the source dimension `sourceSize`
   * (`source.width` or `source.height`) and the whole `source` (for `calculated`).
   */
  function FillSize(f: Fill, sourceSize: real, source: Rect): (d: real)
    ensures f.Boxed? ==> d >= 0.0
    ensures f.Boxed? ==> (sourceSize - f.insets >= 0.0 ==> d == sourceSize - f.insets)
    ensures f.Boxed? ==> (sourceSize - f.insets < 0.0 ==> d == 0.0)
    ensures f.FillEqual? ==> d == sourceSize
    ensures f.Fixed? ==> d == f.value
    ensures f.Scaled? ==> d == sourceSize * f.scale
    ensures f.FillCalculated? ==> d == f.use(source)
  {
    match f
    case FillEqual => sourceSize
    case Fixed(v) => v
    case Scaled(s) => sourceSize * s
    case Boxed(i) => Max(0.0, sourceSize - i)
    case FillCalculated(use) => use(source)
  }

  /** `Filling.formLayout`: vertical then horizontal; the origin is untouched. */
  function ApplyFilling(f: Filling, rect: Rect, source: Rect): (r: Rect)
    ensures r.x == rect.x && r.y == rect.y
    ensures r.width == FillSize(f.horizontal, source.width, source)
    ensures r.height == FillSize(f.vertical, source.height, source)
  {
    var v := rect.(height := FillSize(f.vertical, source.height, source));
    v.(width := FillSize(f.horizontal, source.width, source))
  }

  /** `Alignment.formLayout`: vertical then horizontal; the size is untouched. */
  function ApplyAlignment(a: Alignment, rect: Rect, source: Rect): (r: Rect)
    ensures r.width == rect.width && r.height == rect.height
    ensures PlacedX(a.horizontal, r, source) && PlacedY(a.vertical, r, source)
  {
    AlignXApply(a.horizontal, AlignYApply(a.vertical, rect, source), source)
  }

  /** `layout(rect:in:)`: lays out `rect` inside the available `source`. */
  function LayoutRect(l: RectLayout, rect: Rect, source: Rect): (r: Rect)
    ensures l.EqualLayout? ==> r == source
    ensures l.Constantly? ==> r == l.value
  {
    match l
    case Layout(a, f) => ApplyAlignment(a, ApplyFilling(f, rect, source), source)
    case AlignmentOnly(a) => ApplyAlignment(a, rect, source)
    case FillingOnly(f) => ApplyFilling(f, rect, source)
    case EqualLayout => source
    case Constantly(v) => v
    case AnyLayout(form) => form(rect, source)
  }

  /**
   * A `Layout` fills first and aligns second: the result has the filled size,
   * and right/bottom/center alignment are measured with that filled size.
   */
  lemma FillingBeforeAlignment(a: Alignment, f: Filling, rect: Rect, source: Rect)
    ensures var r := LayoutRect(Layout(a, f), rect, source);
      && r.width == FillSize(f.horizontal, source.width, source)
      && r.height == FillSize(f.vertical, source.height, source)
      && PlacedX(a.horizontal, r, source)
      && PlacedY(a.vertical, r, source)
  {
  }

  /** The layouts that overwrite every field never read the incoming rect. */
  predicate OverwritesRect(l: RectLayout) {
    l.Layout? || l.EqualLayout? || l.Constantly?
  }

  lemma OverwritingLayoutIgnoresRect(l: RectLayout, r1: Rect, r2: Rect, source: Rect)
    requires OverwritesRect(l)
    ensures LayoutRect(l, r1, source) == LayoutRect(l, r2, source)
  {
  }

  /** `Layout(alignment: .equal, filling: .equal)` behaves like `Layout.equal`. */
  lemma EqualPartsMakeEqualLayout(rect: Rect, source: Rect)
    ensures LayoutRect(Layout(AlignmentEqual, FillingEqual), rect, source)
         == LayoutRect(EqualLayout, rect, source)
  {
  }

  /** Source (0,0,300,100) with left(10), top(5), fixed(50), fixed(20) gives (10,5,50,20). */
  lemma FixedLeftTopScenario(rect: Rect)
    ensures LayoutRect(Layout(Alignment(Left(10.0), Top(5.0)), Filling(Fixed(50.0), Fixed(20.0))),
                       rect, Rect(0.0, 0.0, 300.0, 100.0))
         == Rect(10.0, 5.0, 50.0, 20.0)
  {
  }

  /** Leading/trailing name the left/right edge, swapped under right-to-left. */
  lemma LeadingTrailingResolution(offset: real)
    ensures LeadingX(false, offset) == Left(offset) && TrailingX(false, offset) == Right(offset)
    ensures LeadingX(true, offset) == Right(offset) && TrailingX(true, offset) == Left(offset)
    ensures forall rtl :: LeadingX(rtl, offset) == TrailingX(!rtl, offset)
  {
  }

  /** The internal axis-generic alignments (`AxisLeading`, `AxisTrailing`, `AxisCenter`). */
  function AxisAlign(anchor: AxisAnchor, axis: Axis, offset: real, rect: Rect, source: Rect): (r: Rect)
    ensures SizeOn(axis, r) == SizeOn(axis, rect)
  {
    match anchor
    case Leading => WithOriginOn(axis, rect, MinOn(axis, source) + offset)
    case Trailing => WithOriginOn(axis, rect, MaxOn(axis, source) - SizeOn(axis, rect) - offset)
    case Center => WithOriginOn(axis, rect, MidOn(axis, source) - SizeOn(axis, rect) / 2.0 + offset)
  }

  /** The axis-generic alignments agree with the named horizontal/vertical rules. */
  lemma AxisAlignMatchesNamedRules(offset: real, rect: Rect, source: Rect)
    ensures AxisAlign(Leading, Horizontal, offset, rect, source) == AlignXApply(Left(offset), rect, source)
    ensures AxisAlign(Trailing, Horizontal, offset, rect, source) == AlignXApply(Right(offset), rect, source)
    ensures AxisAlign(Center, Horizontal, offset, rect, source) == AlignXApply(CenterX(offset), rect, source)
    ensures AxisAlign(Leading, Vertical, offset, rect, source) == AlignYApply(Top(offset), rect, source)
    ensures AxisAlign(Trailing, Vertical, offset, rect, source) == AlignYApply(Bottom(offset), rect, source)
    ensures AxisAlign(Center, Vertical, offset, rect, source) == AlignYApply(CenterY(offset), rect, source)
  {
  }

  /** The horizontal and vertical parts of an alignment commute. */
  lemma AlignmentAxesCommute(a: Alignment, rect: Rect, source: Rect)
    ensures AlignXApply(a.horizontal, AlignYApply(a.vertical, rect, source), source)
         == AlignYApply(a.vertical, AlignXApply(a.horizontal, rect, source), source)
  {
  }
}
