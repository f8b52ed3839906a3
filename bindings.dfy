/**
 * Item-bound constraints (`LayoutConstraintProtocol` and its conformers): a list
 * of anchor constraints tied to another layout item, which supplies the reference
 * rectangle, converted into the coordinate space being laid out.
 *
 * A weak reference to an item that has been released is modelled by an id that
 * is no longer a key of `World.items`; `MutableLayoutConstraint`, a class whose
 * active flag every holder shares, is a handle into `World.switches`.
 */
module Bindings {
  import opened Wrappers
  import opened Geometry
  import opened Items
  import opened Anchors

  datatype Bound =
    | Related(item: ItemId, anchors: seq<Constraint>)   // `LayoutConstraint`
    | Adjust(item: ItemId, sizes: seq<SizeAnchor>)      // `AdjustLayoutConstraint`
    | Content(item: ItemId, anchors: seq<Constraint>)   // `ContentLayoutConstraint`
    | Baseline(item: ItemId, anchors: seq<Constraint>)  // `BaselineLayoutConstraint`
    | Mutable(base: Bound, switch: SwitchId)            // `MutableLayoutConstraint`

  /** The constraint under every mutable wrapper. */
  function Innermost(c: Bound): (b: Bound)
    ensures !b.Mutable?
  {
    match c
    case Mutable(b, _) => Innermost(b)
    case _ => c
  }

  /** The item a constraint is tied to: `layoutItem(is:)` holds of exactly this id. */
  function Target(c: Bound): (id: ItemId)
    ensures id == Innermost(c).item
  {
    match c
    case Mutable(b, _) => Target(b)
    case _ => c.item
  }

  /** `isActive`: the item still has a super item; a mutable wrapper also needs its own flag. */
  predicate IsActive(c: Bound, w: World)
    ensures IsActive(c, w) ==> Attached(w, Target(c))
  {
    match c
    case Mutable(b, s) => s in w.switches && w.switches[s] && IsActive(b, w)
    case _ => Attached(w, c.item)
  }

  /** `isIndependent`: only the size-adjusting constraint needs no other item's frame. */
  predicate IsIndependent(c: Bound)
    ensures IsIndependent(c) <==> Innermost(c).Adjust?
  {
    match c
    case Adjust(_, _) => true
    case Mutable(b, _) => IsIndependent(b)
    case _ => false
  }

  /**
   * What `constrainRect(for:in:)` and `convert(rectIfNeeded:to:)` need so as not to
   * stop with a fatal error: the item and its super item for the related and
   * baseline constraints (which convert from the super item), the item for the
   * content constraint (which converts from the item) and the adjusting one.
   */
  predicate Resolvable(c: Bound, w: World) {
    match c
    case Related(id, _) => Attached(w, id)
    case Baseline(id, _) => Attached(w, id)
    case Content(id, _) => id in w.items
    case Adjust(id, _) => id in w.items
    case Mutable(b, _) => Resolvable(b, w)
  }

  /** A constraint that may be used for layout can also be evaluated. */
  lemma {:induction false} ActiveIsResolvable(c: Bound, w: World)
    requires IsActive(c, w)
    ensures Resolvable(c, w) && Attached(w, Target(c))
  {
    if c.Mutable? {
      ActiveIsResolvable(c.base, w);
    }
  }

  /** `space.convert(rect:from:)`, skipped when both spaces are the same item. */
  function Convert(rect: Rect, from: ItemId, to: ItemId, env: Env): (r: Rect)
    ensures from == to ==> r == rect
  {
    if from == to then rect else env.convert(rect, from, to)
  }

  /** `convert(rectIfNeeded:to:)`: brings a rect of the constraint's item into `space`. */
  function ConvertIfNeeded(c: Bound, rect: Rect, space: ItemId, w: World, env: Env): (r: Rect)
    requires Resolvable(c, w)
    ensures IsIndependent(c) ==> r == rect
  {
    match c
    case Related(id, _) => Convert(rect, ParentOf(w, id), space, env)
    case Baseline(id, _) => Convert(rect, ParentOf(w, id), space, env)
    case Content(id, _) => Convert(rect, id, space, env)
    case Adjust(_, _) => rect
    case Mutable(b, _) => ConvertIfNeeded(b, rect, space, w, env)
  }

  /** The line of a text item's baseline: its frame moved down by the baseline, with no height. */
  function BaselineRect(frame: Rect, baseline: real): (r: Rect)
    ensures r.x == frame.x && r.width == frame.width
    ensures r.y == frame.y + baseline && r.height == 0.0
  {
    frame.(y := frame.y + baseline, height := 0.0)
  }

  /**
   * `constrainRect(for:in:)`: the reference rect, in `space`. Related: the item's
   * frame; adjusting: the current source rect; content: the item's layout bounds;
   * baseline: the item's baseline line.
   */
  function ConstrainRect(c: Bound, current: Rect, space: ItemId, w: World, env: Env): (r: Rect)
    requires Resolvable(c, w)
    ensures IsIndependent(c) ==> r == current
    ensures c.Related? && ParentOf(w, c.item) == space ==> r == w.items[c.item].frame
    ensures c.Content? && c.item == space ==> r == w.items[c.item].layoutBounds
    ensures c.Baseline? && ParentOf(w, c.item) == space ==>
      r == BaselineRect(w.items[c.item].frame, env.baseline(c.item))
  {
    match c
    case Related(id, _) => ConvertIfNeeded(c, w.items[id].frame, space, w, env)
    case Adjust(_, _) => current
    case Content(id, _) => ConvertIfNeeded(c, w.items[id].layoutBounds, space, w, env)
    case Baseline(id, _) => ConvertIfNeeded(c, BaselineRect(w.items[id].frame, env.baseline(id)), space, w, env)
    case Mutable(b, _) => ConstrainRect(b, current, space, w, env)
  }

  /** The size anchors of an adjusting constraint as rect constraints. */
  function SizeConstraints(sizes: seq<SizeAnchor>): (cs: seq<Constraint>)
    ensures |cs| == |sizes|
    ensures forall i :: 0 <= i < |sizes| ==> cs[i] == Size(sizes[i])
  {
    seq(|sizes|, i requires 0 <= i < |sizes| => Size(sizes[i]))
  }

  /** Size anchors alone never move the origin. */
  lemma {:induction false} SizesKeepOrigin(src: Rect, ref: Rect, sizes: seq<SizeAnchor>, env: Env)
    ensures ConstrainAll(src, ref, SizeConstraints(sizes), env).x == src.x
    ensures ConstrainAll(src, ref, SizeConstraints(sizes), env).y == src.y
    decreases |sizes|
  {
    var cs := SizeConstraints(sizes);
    if sizes != [] {
      assert cs[1..] == SizeConstraints(sizes[1..]);
      SizesKeepOrigin(Constrain(cs[0], src, ref, env), ref, sizes[1..], env);
    }
  }

  /**
   * `formConstrain(sourceRect:by:)`: the anchors folded against `ref`; the adjusting
   * constraint folds its sizes against the item's fitted content rect for `ref`.
   */
  function FormConstrain(c: Bound, src: Rect, ref: Rect, env: Env): (r: Rect)
    ensures IsIndependent(c) ==> r.x == src.x && r.y == src.y
    ensures (c.Related? || c.Content? || c.Baseline?) && c.anchors == [] ==> r == src
  {
    match c
    case Related(_, cs) => ConstrainAll(src, ref, cs, env)
    case Content(_, cs) => ConstrainAll(src, ref, cs, env)
    case Baseline(_, cs) => ConstrainAll(src, ref, cs, env)
    case Adjust(id, sizes) =>
      SizesKeepOrigin(src, env.fit(id, ref), sizes, env);
      ConstrainAll(src, env.fit(id, ref), SizeConstraints(sizes), env)
    case Mutable(b, _) => FormConstrain(b, src, ref, env)
  }

  /** `constrained(sourceRect:in:)`: constrain `src` by this constraint's own reference rect. */
  function Constrained(c: Bound, src: Rect, space: ItemId, w: World, env: Env): Rect
    requires Resolvable(c, w)
  {
    FormConstrain(c, src, ConstrainRect(c, src, space, w, env), env)
  }

  /** A mutable wrapper delegates everything but its activity to its base. */
  lemma MutableIsTransparent(b: Bound, s: SwitchId, src: Rect, ref: Rect, space: ItemId, w: World, env: Env)
    requires Resolvable(b, w)
    ensures Target(Mutable(b, s)) == Target(b) && IsIndependent(Mutable(b, s)) == IsIndependent(b)
    ensures Constrained(Mutable(b, s), src, space, w, env) == Constrained(b, src, space, w, env)
    ensures ConvertIfNeeded(Mutable(b, s), ref, space, w, env) == ConvertIfNeeded(b, ref, space, w, env)
    ensures IsActive(Mutable(b, s), w) <==> s in w.switches && w.switches[s] && IsActive(b, w)
  {
  }

  /** Switching a handle sets the activity of every wrapper sharing it at once. */
  lemma SwitchDecidesActivity(b: Bound, s: SwitchId, w: World, flag: bool)
    ensures var w' := w.(switches := w.switches[s := flag]);
      IsActive(Mutable(b, s), w') <==> flag && IsActive(b, w')
  {
  }

  /** `MutableLayoutConstraint(base:isActive:)`, i.e. `base.active(_:)`: a new shared switch. */
  method MakeMutable(store: ItemStore, base: Bound, active: bool) returns (m: Bound)
    requires store.Valid()
    modifies store
    ensures store.Valid()
    ensures m.Mutable? && m.base == base && m.switch !in old(store.world.switches)
    ensures store.world == old(store.world).(switches := old(store.world.switches)[m.switch := active])
  {
    var s := store.NewSwitch(active);
    m := Mutable(base, s);
  }

  /** `constraints.lazy.filter { $0.isActive }`: the active constraints, in order. */
  function ActiveOnly(cs: seq<Bound>, w: World): (r: seq<Bound>)
    ensures |r| <= |cs|
    ensures forall c :: c in r <==> c in cs && IsActive(c, w)
  {
    if cs == [] then []
    else if IsActive(cs[0], w) then [cs[0]] + ActiveOnly(cs[1..], w)
    else ActiveOnly(cs[1..], w)
  }

  /** The filter distributes over concatenation, so it keeps the input's order and repetitions. */
  lemma {:induction false} ActiveOnlyAppend(a: seq<Bound>, b: seq<Bound>, w: World)
    ensures ActiveOnly(a + b, w) == ActiveOnly(a, w) + ActiveOnly(b, w)
    decreases |a|
  {
    if a == [] {
      assert a + b == b;
    } else {
      assert (a + b)[0] == a[0] && (a + b)[1..] == a[1..] + b;
      ActiveOnlyAppend(a[1..], b, w);
    }
  }

  /** On one constraint the filter keeps it exactly when it is active. */
  lemma ActiveOnlySingle(c: Bound, w: World)
    ensures ActiveOnly([c], w) == if IsActive(c, w) then [c] else []
  {
    assert [c][1..] == [];
  }

  predicate AllResolvable(cs: seq<Bound>, w: World) {
    forall c :: c in cs ==> Resolvable(c, w)
  }

  lemma ActiveOnlyResolvable(cs: seq<Bound>, w: World)
    ensures AllResolvable(ActiveOnly(cs, w), w)
  {
    forall c | c in ActiveOnly(cs, w) ensures Resolvable(c, w) {
      ActiveIsResolvable(c, w);
    }
  }

  /** `constraints.reduce(sourceRect) { $1.constrained(sourceRect: $0, in: space) }`. */
  function ItemFold(cs: seq<Bound>, src: Rect, space: ItemId, w: World, env: Env): (r: Rect)
    requires AllResolvable(cs, w)
    ensures cs == [] ==> r == src
    ensures (forall c :: c in cs ==> IsIndependent(c)) ==> r.x == src.x && r.y == src.y
    decreases |cs|
  {
    if cs == [] then src
    else ItemFold(cs[1..], Constrained(cs[0], src, space, w, env), space, w, env)
  }

  /** The ledger of frames already computed during one snapshot (`completedRects`). */
  type Ledger = seq<(ItemId, Rect)>

  /** `completedRects.first { constraint.layoutItem(is: $0.0) }?.1`: the first entry for `id`. */
  function Lookup(ledger: Ledger, id: ItemId): (o: Option<Rect>)
    ensures o.None? <==> forall i :: 0 <= i < |ledger| ==> ledger[i].0 != id
    ensures o.Some? ==> exists i :: 0 <= i < |ledger| && ledger[i] == (id, o.value)
                                    && forall j :: 0 <= j < i ==> ledger[j].0 != id
  {
    if ledger == [] then None
    else if ledger[0].0 == id then Some(ledger[0].1)
    else
      var o := Lookup(ledger[1..], id);
      assert o.Some? ==> exists i :: 0 < i < |ledger| && ledger[i] == (id, o.value)
                                     && forall j :: 0 <= j < i ==> ledger[j].0 != id by {
        if o.Some? {
          var k :| 0 <= k < |ledger[1..]| && ledger[1..][k] == (id, o.value)
                   && forall j :: 0 <= j < k ==> ledger[1..][j].0 != id;
          assert ledger[k + 1] == (id, o.value);
          assert forall j :: 0 <= j < k + 1 ==> ledger[j].0 != id by {
            forall j | 0 <= j < k + 1 ensures ledger[j].0 != id {
              if j > 0 { assert ledger[j] == ledger[1..][j - 1]; }
            }
          }
        }
      }
      o
  }

  /**
   * The reference rect one constraint gets during a snapshot: an independent
   * constraint never reads the ledger; any other uses the first ledger entry of its
   * item, converted into `space`, and falls back to `constrainRect` without one.
   */
  function LedgerRef(c: Bound, src: Rect, space: ItemId, ledger: Ledger, w: World, env: Env): (r: Rect)
    requires Resolvable(c, w)
    ensures IsIndependent(c) ==> r == ConstrainRect(c, src, space, w, env)
    ensures !IsIndependent(c) && Lookup(ledger, Target(c)).None? ==> r == ConstrainRect(c, src, space, w, env)
    ensures !IsIndependent(c) && Lookup(ledger, Target(c)).Some? ==>
      r == ConvertIfNeeded(c, Lookup(ledger, Target(c)).value, space, w, env)
  {
    if IsIndependent(c) then ConstrainRect(c, src, space, w, env)
    else match Lookup(ledger, Target(c))
      case Some(frame) => ConvertIfNeeded(c, frame, space, w, env)
      case None => ConstrainRect(c, src, space, w, env)
  }

  /** The reduce of `snapshot(for:completedRects:)` over the active constraints. */
  function LedgerFold(cs: seq<Bound>, src: Rect, space: ItemId, ledger: Ledger, w: World, env: Env): (r: Rect)
    requires AllResolvable(cs, w)
    ensures cs == [] ==> r == src
    ensures (forall c :: c in cs ==> IsIndependent(c)) ==> r.x == src.x && r.y == src.y
    decreases |cs|
  {
    if cs == [] then src
    else LedgerFold(cs[1..], FormConstrain(cs[0], src, LedgerRef(cs[0], src, space, ledger, w, env), env),
                    space, ledger, w, env)
  }

  /** With an empty ledger, the snapshot reduce is exactly the plain layout reduce. */
  lemma {:induction false} EmptyLedgerFold(cs: seq<Bound>, src: Rect, space: ItemId, w: World, env: Env)
    requires AllResolvable(cs, w)
    ensures LedgerFold(cs, src, space, [], w, env) == ItemFold(cs, src, space, w, env)
    decreases |cs|
  {
    if cs != [] {
      EmptyLedgerFold(cs[1..], Constrained(cs[0], src, space, w, env), space, w, env);
    }
  }

  /** Independent constraints give the same result whatever the ledger holds. */
  lemma {:induction false} IndependentIgnoresLedger(cs: seq<Bound>, src: Rect, space: ItemId,
                                                    l1: Ledger, l2: Ledger, w: World, env: Env)
    requires AllResolvable(cs, w)
    requires forall c :: c in cs ==> IsIndependent(c)
    ensures LedgerFold(cs, src, space, l1, w, env) == LedgerFold(cs, src, space, l2, w, env)
    decreases |cs|
  {
    if cs != [] {
      var next := FormConstrain(cs[0], src, LedgerRef(cs[0], src, space, l1, w, env), env);
      assert next == FormConstrain(cs[0], src, LedgerRef(cs[0], src, space, l2, w, env), env);
      IndependentIgnoresLedger(cs[1..], next, space, l1, l2, w, env);
    }
  }
}
