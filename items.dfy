/**
 * The host's items, seen through handles. A `LayoutItem` is an external object
 * with a mutable frame, a parent link (`superItem`) and `layoutBounds`; the engine
 * holds it weakly. Here every item is a handle into `World.items`: a handle that
 * no longer resolves is an item that has been deallocated.
 *
 * `World.switches` holds the on/off flag of every `MutableLayoutConstraint`,
 * which is a shared object in the source: all constraint lists that hold it see
 * the same flag.
 */
module Items {
  import opened Geometry
  import opened Wrappers

  type ItemId = nat
  type SwitchId = nat

  datatype ItemRec = ItemRec(frame: Rect, parent: Option<ItemId>, layoutBounds: Rect)

  datatype World = World(items: map<ItemId, ItemRec>, switches: map<SwitchId, bool>)

  /** `superItem != nil`: the item exists and so does its parent. */
  predicate Attached(w: World, id: ItemId) {
    && id in w.items
    && w.items[id].parent.Some?
    && w.items[id].parent.value in w.items
  }

  function ParentOf(w: World, id: ItemId): (p: ItemId)
    requires Attached(w, id)
    ensures p in w.items
  {
    w.items[id].parent.value
  }

  /**
   * `item.frame = r`: the item's frame becomes `r`; a handle that does not
   * resolve is left alone (Swift's `item?.frame = r`).
   */
  function WithFrame(w: World, id: ItemId, r: Rect): (w': World)
    ensures w'.items.Keys == w.items.Keys && w'.switches == w.switches
    ensures id in w.items ==> w'.items[id].frame == r
    ensures forall k :: k in w.items ==>
      w'.items[k].parent == w.items[k].parent && w'.items[k].layoutBounds == w.items[k].layoutBounds
    ensures forall k :: k in w.items && k != id ==> w'.items[k] == w.items[k]
  {
    if id in w.items then w.(items := w.items[id := w.items[id].(frame := r)]) else w
  }

  /**
   * Two worlds that differ at most in item frames: same items, same parents,
   * same layout bounds, same switches. Layout passes only ever write frames.
   */
  ghost predicate SameShape(w1: World, w2: World) {
    && w1.items.Keys == w2.items.Keys
    && w1.switches == w2.switches
    && forall k :: k in w1.items ==>
         w1.items[k].parent == w2.items[k].parent && w1.items[k].layoutBounds == w2.items[k].layoutBounds
  }

  lemma SameShapeAttached(w1: World, w2: World, id: ItemId)
    requires SameShape(w1, w2)
    ensures Attached(w1, id) <==> Attached(w2, id)
    ensures Attached(w1, id) ==> ParentOf(w1, id) == ParentOf(w2, id)
  {
  }

  /** The host state that a layout pass reads and writes. */
  class ItemStore {
    var world: World
    var nextSwitch: SwitchId

    /** Every switch handle handed out so far is below `nextSwitch`. */
    ghost predicate Valid()
      reads this
    {
      forall s :: s in world.switches ==> s < nextSwitch
    }

    constructor (items: map<ItemId, ItemRec>)
      ensures Valid()
      ensures world == World(items, map[])
    {
      world := World(items, map[]);
      nextSwitch := 0;
    }

    /** A frame write (`item.frame = r`). */
    method SetFrame(id: ItemId, r: Rect)
      requires Valid()
      modifies this
      ensures Valid() && nextSwitch == old(nextSwitch)
      ensures world == WithFrame(old(world), id, r)
    {
      world := WithFrame(world, id, r);
    }

    /** Allocates the flag of a new `MutableLayoutConstraint`. */
    method NewSwitch(active: bool) returns (s: SwitchId)
      requires Valid()
      modifies this
      ensures Valid()
      ensures s !in old(world.switches)
      ensures world == old(world).(switches := old(world.switches)[s := active])
    {
      s := nextSwitch;
      world := world.(switches := world.switches[s := active]);
      nextSwitch := nextSwitch + 1;
    }

    /** The `isActive` setter of `MutableLayoutConstraint`. */
    method SetSwitch(s: SwitchId, active: bool)
      requires Valid()
      requires s in world.switches
      modifies this
      ensures Valid() && nextSwitch == old(nextSwitch)
      ensures world == old(world).(switches := old(world.switches)[s := active])
    {
      world := world.(switches := world.switches[s := active]);
    }
  }
}
