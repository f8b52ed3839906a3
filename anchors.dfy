/**
 * The constraint algebra (`RectBasedConstraint`, `LayoutAnchor`): transforms of a
 * source rectangle by a reference rectangle, and their left fold.
 *
 * The directional primitives `LayoutWorkspace.Before/After/Center.{align,limit,pull}`,
 * the `ConstraintsAggregator`, `CGRect.apply(edgeInsets:)`, a text item's baseline
 * position, coordinate conversion and size-to-fit are outside this model: an
 * `Env` value supplies them as functions. What is modelled about the directional
 * façades is which primitive each of them resolves to.
 */
module Anchors {
  import opened Geometry
  import opened Items
  import L = Layouts

  /** `LayoutWorkspace.Before`, `.After` and `.Center`. */
  datatype Workspace = Before | After | Centered

  /** What a directional primitive does with the reference edge. */
  datatype Behaviour = Align | Limit | Pull

  /** One directional primitive: `LayoutWorkspace.<workspace>.<behaviour>(axis:anchor:)`. */
  datatype Primitive = Primitive(workspace: Workspace, behaviour: Behaviour, axis: Axis, anchor: AxisAnchor)

  /** `.inner` / `.outer` of the directional façades. */
  datatype Dependence = Inner | Outer

  /** The directional façades `LayoutAnchor.Top`, `.Bottom`, `.Left`, `.Right`, `.Leading`, `.Trailing`. */
  datatype Edge = TopEdge | BottomEdge | LeftEdge | RightEdge | LeadingEdge | TrailingEdge

  /** `LayoutAnchor.Center.AlignDependence.center` / `.origin`. */
  datatype CenterDependence = OnCenter | OnOrigin

  datatype EdgeInsets = EdgeInsets(top: real, left: real, bottom: real, right: real)

  /** `LayoutAnchor.Size.height(_:)` / `.width(_:)`. */
  datatype SizeAnchor = Height(multiplier: real) | Width(multiplier: real)

  /** The closed set of rectangle constraints. */
  datatype Constraint =
    | Equal                             // `LayoutAnchor.equal` (and `.zero`)
    | Constantly(value: Rect)           // `LayoutAnchor.equal(_:)`
    | Size(size: SizeAnchor)
    | BaselineAlign(presenter: ItemId)  // `LayoutAnchor.Baseline.align(of:)`
    | Inset(insets: EdgeInsets)         // `LayoutAnchor.insets(_:)`
    | Anchor(primitive: Primitive)      // a directional façade, resolved
    | CenterAlign(dependence: CenterDependence)

  /** The external capabilities the engine calls but does not define. */
  datatype Env = Env(
    primitive: (Primitive, Rect, Rect) -> Rect,       // (primitive, source, reference)
    aggregate: (seq<Primitive>, Rect, Rect) -> Rect,  // `ConstraintsAggregator`
    inset: (EdgeInsets, Rect) -> Rect,                // `CGRect.apply(edgeInsets:)`
    baseline: ItemId -> real,                         // `TextPresentedItem.baselinePosition`
    convert: (Rect, ItemId, ItemId) -> Rect,          // (rect, from, to): `to.convert(rect:from:)`
    fit: (ItemId, Rect) -> Rect)                      // `contentConstraint.constrained(sourceRect: r, by: r)`

  /** `Configuration.isRTLMode`, which the source fixes to `false`. */
  const DefaultRTL: bool := false

  /** `LayoutAnchor.zero`: as written it builds `Equal()`, not the zero-rect constraint. */
  const ZeroAnchor: Constraint := Equal

  /** The physical edge a façade names: leading/trailing are left/right, swapped under RTL. */
  function PhysicalEdge(edge: Edge, rtl: bool): (e: Edge)
    ensures e != LeadingEdge && e != TrailingEdge
  {
    match edge
    case LeadingEdge => if rtl then RightEdge else LeftEdge
    case TrailingEdge => if rtl then LeftEdge else RightEdge
    case _ => edge
  }

  /**
   * The primitive a façade's `.align(by:)`, `.limit(on:)` or `.pull(from:)` builds.
   * Top and bottom work on the vertical axis, the others on the horizontal one;
   * top and left use the leading anchor, bottom and right the trailing one; an inner
   * dependence on a leading edge works `After` it, on a trailing edge `Before` it,
   * and an outer dependence the opposite way.
   */
  function Resolve(edge: Edge, behaviour: Behaviour, dependence: Dependence, rtl: bool): (p: Primitive)
    ensures p.behaviour == behaviour
    ensures p.axis == (if PhysicalEdge(edge, rtl) in {TopEdge, BottomEdge} then Vertical else Horizontal)
    ensures p.anchor == (if PhysicalEdge(edge, rtl) in {TopEdge, LeftEdge} then Leading else Trailing)
    ensures p.workspace == (if (dependence == Inner) == (p.anchor == Leading) then After else Before)
  {
    match PhysicalEdge(edge, rtl)
    case TopEdge => Primitive(if dependence == Inner then After else Before, behaviour, Vertical, Leading)
    case BottomEdge => Primitive(if dependence == Inner then Before else After, behaviour, Vertical, Trailing)
    case LeftEdge => Primitive(if dependence == Inner then After else Before, behaviour, Horizontal, Leading)
    case RightEdge => Primitive(if dependence == Inner then Before else After, behaviour, Horizontal, Trailing)
  }

  /** A façade constraint, e.g. `LayoutAnchor.Bottom.limit(on: .inner)`. */
  function EdgeConstraint(edge: Edge, behaviour: Behaviour, dependence: Dependence, rtl: bool): Constraint {
    Anchor(Resolve(edge, behaviour, dependence, rtl))
  }

  /** Leading resolves to Left and Trailing to Right, swapped when `rtl` is set. */
  lemma LeadingTrailingResolution(b: Behaviour, d: Dependence)
    ensures Resolve(LeadingEdge, b, d, false) == Resolve(LeftEdge, b, d, false)
    ensures Resolve(TrailingEdge, b, d, false) == Resolve(RightEdge, b, d, false)
    ensures Resolve(LeadingEdge, b, d, true) == Resolve(RightEdge, b, d, false)
    ensures Resolve(TrailingEdge, b, d, true) == Resolve(LeftEdge, b, d, false)
    ensures forall rtl :: Resolve(LeadingEdge, b, d, rtl) == Resolve(TrailingEdge, b, d, !rtl)
  {
  }

  /** With the configuration as shipped, leading is left and trailing is right. */
  lemma DefaultConfigurationIsLeftToRight(b: Behaviour, d: Dependence)
    ensures EdgeConstraint(LeadingEdge, b, d, DefaultRTL) == EdgeConstraint(LeftEdge, b, d, DefaultRTL)
    ensures EdgeConstraint(TrailingEdge, b, d, DefaultRTL) == EdgeConstraint(RightEdge, b, d, DefaultRTL)
  {
  }

  /** Distinct physical façades build distinct primitives. */
  lemma ResolveInjective(e1: Edge, b1: Behaviour, d1: Dependence, e2: Edge, b2: Behaviour, d2: Dependence, rtl: bool)
    requires e1 !in {LeadingEdge, TrailingEdge} && e2 !in {LeadingEdge, TrailingEdge}
    requires Resolve(e1, b1, d1, rtl) == Resolve(e2, b2, d2, rtl)
    ensures e1 == e2 && b1 == b2 && d1 == d2
  {
  }

  /** The two aligned primitives `Center.align(by:)` aggregates. */
  function CenterParts(d: CenterDependence): (ps: seq<Primitive>)
    ensures |ps| == 2 && ps[0].axis != ps[1].axis
    ensures forall i :: 0 <= i < |ps| ==> ps[i].behaviour == Align && ps[i].anchor == Center
  {
    match d
    case OnCenter => [Primitive(Centered, Align, Vertical, Center), Primitive(Centered, Align, Horizontal, Center)]
    case OnOrigin => [Primitive(After, Align, Horizontal, Center), Primitive(After, Align, Vertical, Center)]
  }

  /** `formConstrain(sourceRect:by:)`: constrains `src` by the reference `ref`. */
  function Constrain(c: Constraint, src: Rect, ref: Rect, env: Env): (r: Rect)
    ensures c.Equal? ==> r == ref
    ensures c.Constantly? ==> r == c.value
    ensures c.Size? && c.size.Height? ==>
      r.x == src.x && r.y == src.y && r.width == src.width && r.height == ref.height * c.size.multiplier
    ensures c.Size? && c.size.Width? ==>
      r.x == src.x && r.y == src.y && r.height == src.height && r.width == ref.width * c.size.multiplier
    ensures c.BaselineAlign? ==>
      r.x == src.x && r.width == src.width && r.height == src.height
      && MaxY(ref) - r.y == env.baseline(c.presenter)
  {
    match c
    case Equal => ref
    case Constantly(v) => v
    case Size(Height(m)) => src.(height := ref.height * m)
    case Size(Width(m)) => src.(width := ref.width * m)
    case BaselineAlign(item) => src.(y := MaxY(ref) - env.baseline(item))
    case Inset(e) => env.inset(e, src)
    case Anchor(p) => env.primitive(p, src, ref)
    case CenterAlign(d) => env.aggregate(CenterParts(d), src, ref)
  }

  /** `LayoutAnchor.zero` copies the reference, exactly like `LayoutAnchor.equal`. */
  lemma ZeroCopiesReference(src: Rect, ref: Rect, env: Env)
    ensures Constrain(ZeroAnchor, src, ref, env) == ref
    ensures Constrain(ZeroAnchor, src, ref, env) == Constrain(Equal, src, ref, env)
  {
  }

  /** `constrainedBy(rect:use:)`: a left fold of `cs` over `src`, all against one reference. */
  function ConstrainAll(src: Rect, ref: Rect, cs: seq<Constraint>, env: Env): (r: Rect)
    ensures cs == [] ==> r == src
    ensures cs != [] && cs[|cs| - 1] == Equal ==> r == ref
    ensures cs != [] && cs[|cs| - 1].Constantly? ==> r == cs[|cs| - 1].value
    decreases |cs|
  {
    if cs == [] then src
    else ConstrainAll(Constrain(cs[0], src, ref, env), ref, cs[1..], env)
  }

  /** Folding a concatenation folds the second list over the first list's result. */
  lemma {:induction false} ConstrainAllAppend(src: Rect, ref: Rect, a: seq<Constraint>, b: seq<Constraint>, env: Env)
    ensures ConstrainAll(src, ref, a + b, env) == ConstrainAll(ConstrainAll(src, ref, a, env), ref, b, env)
    decreases |a|
  {
    if a == [] {
      assert a + b == b;
    } else {
      assert (a + b)[0] == a[0] && (a + b)[1..] == a[1..] + b;
      ConstrainAllAppend(Constrain(a[0], src, ref, env), ref, a[1..], b, env);
    }
  }

  /** The empty list is the identity, and `[c1, c2]` is `c2(c1(src, ref), ref)`. */
  lemma ConstrainAllSmall(src: Rect, ref: Rect, c1: Constraint, c2: Constraint, env: Env)
    ensures ConstrainAll(src, ref, [], env) == src
    ensures ConstrainAll(src, ref, [c1], env) == Constrain(c1, src, ref, env)
    ensures ConstrainAll(src, ref, [c1, c2], env) == Constrain(c2, Constrain(c1, src, ref, env), ref, env)
  {
    var r1 := Constrain(c1, src, ref, env);
    assert [c1, c2][1..] == [c2];
    assert [c2][1..] == [];
    assert ConstrainAll(r1, ref, [c2], env) == ConstrainAll(Constrain(c2, r1, ref, env), ref, [], env);
  }

  /** Appending a constraint to a list applies it last, to the folded result. */
  lemma {:induction false} ConstrainAllSnoc(src: Rect, ref: Rect, cs: seq<Constraint>, c: Constraint, env: Env)
    ensures ConstrainAll(src, ref, cs + [c], env) == Constrain(c, ConstrainAll(src, ref, cs, env), ref, env)
  {
    ConstrainAllAppend(src, ref, cs, [c], env);
  }

  /** A list ending in `Equal` yields the reference whatever came before. */
  lemma {:induction false} EqualLastWins(src: Rect, ref: Rect, cs: seq<Constraint>, env: Env)
    ensures ConstrainAll(src, ref, cs + [Equal], env) == ref
  {
    ConstrainAllSnoc(src, ref, cs, Equal, env);
  }

  /** Constraints do not commute: a constant then a height differs from the reverse order. */
  lemma OrderMatters(env: Env)
    ensures var src, ref, v := Zero, Rect(0.0, 0.0, 10.0, 10.0), Rect(1.0, 1.0, 1.0, 1.0);
      ConstrainAll(src, ref, [Constantly(v), Size(Height(1.0))], env)
      != ConstrainAll(src, ref, [Size(Height(1.0)), Constantly(v)], env)
  {
    var src, ref, v := Zero, Rect(0.0, 0.0, 10.0, 10.0), Rect(1.0, 1.0, 1.0, 1.0);
    ConstrainAllSmall(src, ref, Constantly(v), Size(Height(1.0)), env);
    ConstrainAllSmall(src, ref, Size(Height(1.0)), Constantly(v), env);
  }

  /**
   * `layout(rect:in:use:)` with `(rect, constraint)` pairs: each pair constrains
   * the running source by its own rect, starting from the available `sourceRect`.
   */
  function ConstrainPairs(src: Rect, pairs: seq<(Rect, Constraint)>, env: Env): (r: Rect)
    ensures pairs == [] ==> r == src
    ensures pairs != [] && pairs[|pairs| - 1].1 == Equal ==> r == pairs[|pairs| - 1].0
    ensures pairs != [] && pairs[|pairs| - 1].1.Constantly? ==> r == pairs[|pairs| - 1].1.value
    decreases |pairs|
  {
    if pairs == [] then src
    else ConstrainPairs(Constrain(pairs[0].1, src, pairs[0].0, env), pairs[1..], env)
  }

  function LayoutWithPairs(l: L.RectLayout, rect: Rect, sourceRect: Rect, pairs: seq<(Rect, Constraint)>, env: Env): (r: Rect)
    ensures pairs == [] ==> r == L.LayoutRect(l, rect, sourceRect)
    ensures l.EqualLayout? && pairs != [] && pairs[|pairs| - 1].1 == Equal ==> r == pairs[|pairs| - 1].0
  {
    L.LayoutRect(l, rect, ConstrainPairs(sourceRect, pairs, env))
  }

  /** Pairs that all carry the same reference fold exactly like `constrainedBy`. */
  lemma {:induction false} PairsWithOneReference(src: Rect, ref: Rect, cs: seq<Constraint>, env: Env)
    ensures ConstrainPairs(src, seq(|cs|, i requires 0 <= i < |cs| => (ref, cs[i])), env)
         == ConstrainAll(src, ref, cs, env)
    decreases |cs|
  {
    var pairs := seq(|cs|, i requires 0 <= i < |cs| => (ref, cs[i]));
    if cs != [] {
      assert pairs[1..] == seq(|cs[1..]|, i requires 0 <= i < |cs[1..]| => (ref, cs[1..][i]));
      PairsWithOneReference(Constrain(cs[0], src, ref, env), ref, cs[1..], env);
    }
  }

  /**
   * The constraints are folded over the available source rect, not over the
   * item's rect: for a `Layout` rule the item's incoming rect does not matter.
   */
  lemma LayoutWithPairsIgnoresItemRect(l: L.RectLayout, r1: Rect, r2: Rect, sourceRect: Rect,
                                       pairs: seq<(Rect, Constraint)>, env: Env)
    requires L.OverwritesRect(l)
    ensures LayoutWithPairs(l, r1, sourceRect, pairs, env) == LayoutWithPairs(l, r2, sourceRect, pairs, env)
  {
    L.OverwritingLayoutIgnoresRect(l, r1, r2, ConstrainPairs(sourceRect, pairs, env));
  }

  /**
   * `RectBasedLayout.apply(for:in:use:)` with `(rect, constraint)` pairs: the
   * item's frame is laid out in the constrained `sourceRect`; nothing else changes.
   */
  function ApplyIn(l: L.RectLayout, id: ItemId, sourceRect: Rect, pairs: seq<(Rect, Constraint)>,
                   w: World, env: Env): (w': World)
    requires id in w.items
    ensures SameShape(w, w')
    ensures w'.items[id].frame == LayoutWithPairs(l, w.items[id].frame, sourceRect, pairs, env)
    ensures forall k :: k in w.items && k != id ==> w'.items[k] == w.items[k]
  {
    WithFrame(w, id, LayoutWithPairs(l, w.items[id].frame, sourceRect, pairs, env))
  }

  /**
   * `RectBasedLayout.apply(for:use:)` with pairs: the available space is the
   * parent's `layoutBounds`; the item must have a parent (the source unwraps it).
   */
  function ApplyInParent(l: L.RectLayout, id: ItemId, pairs: seq<(Rect, Constraint)>,
                         w: World, env: Env): (w': World)
    requires Attached(w, id)
    ensures SameShape(w, w') && Attached(w', id)
    ensures w'.items[id].frame
         == LayoutWithPairs(l, w.items[id].frame, w.items[ParentOf(w, id)].layoutBounds, pairs, env)
    ensures forall k :: k in w.items && k != id ==> w'.items[k] == w.items[k]
  {
    ApplyIn(l, id, w.items[ParentOf(w, id)].layoutBounds, pairs, w, env)
  }

  /**
   * `Alignment.apply(with:for:use:)` and `Filling.apply(with:for:use:)` both fill
   * first and align second, in two writes to the item's frame; the outcome is
   * one write of the combined `Layout(alignment, filling)`.
   */
  lemma FillThenAlignIsLayout(a: L.Alignment, f: L.Filling, id: ItemId,
                              pairs: seq<(Rect, Constraint)>, w: World, env: Env)
    requires Attached(w, id)
    ensures Attached(ApplyInParent(L.FillingOnly(f), id, pairs, w, env), id)
    ensures ApplyInParent(L.AlignmentOnly(a), id, pairs, ApplyInParent(L.FillingOnly(f), id, pairs, w, env), env)
         == ApplyInParent(L.Layout(a, f), id, pairs, w, env)
  {
    var w1 := ApplyInParent(L.FillingOnly(f), id, pairs, w, env);
    var w2 := ApplyInParent(L.AlignmentOnly(a), id, pairs, w1, env);
    var w3 := ApplyInParent(L.Layout(a, f), id, pairs, w, env);
    assert ParentOf(w1, id) == ParentOf(w, id);
    assert w2.items[id] == w3.items[id];
    assert w2.items == w3.items;
  }
}
