/**
 * The layout engine's objects. `LayoutBlock` is a class: its layout rule and its
 * constraints are replaced in place, and every scheme holding the block sees the
 * change. `LayoutScheme` is a value type whose `blocks` list is changed by its
 * mutating methods; a scheme variable is a class here, and a scheme nested in
 * another one is the value `Node.Scheme(blocks)`.
 *
 * Each operation is proved to compute what the value-level definitions in
 * `Blocks` say, for the blocks' current settings (`NodeValue`).
 */
module Engine {
  import opened Wrappers
  import opened Geometry
  import opened Items
  import opened Anchors
  import opened Bindings
  import opened Blocks
  import L = Layouts

  class LayoutBlock {
    const item: ItemId
    var itemLayout: L.RectLayout
    var constraints: seq<Bound>

    constructor (item: ItemId, layout: L.RectLayout, constraints: seq<Bound>)
      ensures this.item == item && itemLayout == layout && this.constraints == constraints
    {
      this.item := item;
      itemLayout := layout;
      this.constraints := constraints;
    }

    /** The block's current settings as a value. */
    function Value(): (v: BlockVal)
      reads this
    {
      BlockVal(item, itemLayout, constraints)
    }

    /** `isActive`: the item exists and has a super item. */
    predicate IsActive(w: World)
      ensures IsActive(w) ==> AllAttached({item}, w)
      ensures item !in w.items ==> !IsActive(w)
      ensures Layoutable({item}, w) && item in w.items ==> IsActive(w)
    {
      Attached(w, item)
    }

    method SetLayout(layout: L.RectLayout)
      modifies this
      ensures itemLayout == layout && constraints == old(constraints)
    {
      itemLayout := layout;
    }

    method SetConstraints(constraints: seq<Bound>)
      modifies this
      ensures this.constraints == constraints && itemLayout == old(itemLayout)
    {
      this.constraints := constraints;
    }

    /** `layout()` (`source == None`) and `layout(in:)`: skipped when the item is gone. */
    method Layout(store: ItemStore, source: Option<Rect>, env: Env)
      requires store.Valid() && Layoutable({item}, store.world)
      modifies store
      ensures store.Valid()
      ensures store.world == LayoutBlockStep(Value(), old(store.world), source, env)
    {
      LayoutBlockM(Value(), store, source, env);
    }

    /** `snapshot(for:)`: the frame a layout in `sourceRect` would give, without writing it. */
    method Snapshot(store: ItemStore, sourceRect: Rect, env: Env) returns (frame: Rect)
      requires Attached(store.world, item)
      ensures frame == BlockFrame(Value(), store.world, sourceRect, env)
    {
      frame := BlockFrame(Value(), store.world, sourceRect, env);
    }

    /** `snapshot(for:completedRects:)`: the frame against the ledger, then the ledger with it in front. */
    method SnapshotInto(store: ItemStore, sourceRect: Rect, ledger: Ledger, env: Env)
      returns (frame: Rect, ledger': Ledger)
      requires Attached(store.world, item)
      ensures frame == SnapshotBlockFrame(Value(), store.world, sourceRect, ledger, env)
      ensures ledger' == [(item, frame)] + ledger
    {
      frame := SnapshotBlockFrame(Value(), store.world, sourceRect, ledger, env);
      ledger' := [(item, frame)] + ledger;
    }

    /** `apply(snapshot:)`: writes the snapshot's frame to the item, if it still exists. */
    method Apply(store: ItemStore, s: Blocks.Snapshot)
      requires store.Valid()
      modifies store
      ensures store.Valid()
      ensures store.world == WithFrame(old(store.world), item, s.frame)
    {
      store.SetFrame(item, s.frame);
    }
  }

  /** A member of a scheme: a shared block object or a nested scheme value. */
  datatype Node = Block(block: LayoutBlock) | Scheme(nodes: seq<Node>)

  function BlocksOf(n: Node): set<LayoutBlock>
    decreases n
  {
    match n
    case Block(b) => {b}
    case Scheme(ns) => BlocksOfSeq(ns)
  }

  function BlocksOfSeq(ns: seq<Node>): set<LayoutBlock>
    decreases ns
  {
    if ns == [] then {} else BlocksOfSeq(ns[..|ns| - 1]) + BlocksOf(ns[|ns| - 1])
  }

  /** Every block reachable from a member is an allocated object (so calls that allocate do not touch it). */
  lemma {:induction false} BlocksAllocated(n: Node)
    ensures forall b :: b in BlocksOf(n) ==> allocated(b)
    decreases n
  {
    if n.Scheme? {
      BlocksAllocatedSeq(n.nodes);
    }
  }

  lemma {:induction false} BlocksAllocatedSeq(ns: seq<Node>)
    ensures forall b :: b in BlocksOfSeq(ns) ==> allocated(b)
    decreases ns
  {
    if ns != [] {
      BlocksAllocatedSeq(ns[..|ns| - 1]);
      BlocksAllocated(ns[|ns| - 1]);
    }
  }

  function NodeValue(n: Node): NodeVal
    reads BlocksOf(n)
    decreases n
  {
    match n
    case Block(b) => BlockNode(b.Value())
    case Scheme(ns) => SchemeNode(NodesValue(ns))
  }

  function NodesValue(ns: seq<Node>): (vs: seq<NodeVal>)
    reads BlocksOfSeq(ns)
    ensures |vs| == |ns|
    decreases ns
  {
    if ns == [] then [] else NodesValue(ns[..|ns| - 1]) + [NodeValue(ns[|ns| - 1])]
  }

  /** A block is reachable from a list of members exactly when it is reachable from one of them. */
  lemma {:induction false} BlocksOfSeqMembers(ns: seq<Node>)
    ensures forall b :: b in BlocksOfSeq(ns) <==> exists k :: 0 <= k < |ns| && b in BlocksOf(ns[k])
    decreases ns
  {
    if ns != [] {
      var init := ns[..|ns| - 1];
      BlocksOfSeqMembers(init);
      assert forall k :: 0 <= k < |init| ==> init[k] == ns[k];
      forall b | exists k :: 0 <= k < |ns| && b in BlocksOf(ns[k])
        ensures b in BlocksOfSeq(ns)
      {
        var k :| 0 <= k < |ns| && b in BlocksOf(ns[k]);
        if k < |init| { assert b in BlocksOf(init[k]); }
      }
    }
  }

  /**
   * `isActive` of a member: an attached item, or a scheme with an active member
   * (`blocks.contains(where: { $0.isActive })`); so a member is active exactly when
   * one of the blocks in it is.
   */
  predicate NodeIsActive(n: Node, w: World)
    ensures NodeIsActive(n, w) <==> exists b :: b in BlocksOf(n) && b.IsActive(w)
    decreases n
  {
    match n
    case Block(b) => b.IsActive(w)
    case Scheme(ns) =>
      assert (exists k :: 0 <= k < |ns| && NodeIsActive(ns[k], w))
        <==> exists b :: b in BlocksOf(n) && b.IsActive(w) by {
        BlocksOfSeqMembers(ns);
        if exists k :: 0 <= k < |ns| && NodeIsActive(ns[k], w) {
          var k :| 0 <= k < |ns| && NodeIsActive(ns[k], w);
          var b :| b in BlocksOf(ns[k]) && b.IsActive(w);
          assert b in BlocksOf(n);
        }
        if exists b :: b in BlocksOf(n) && b.IsActive(w) {
          var b :| b in BlocksOf(n) && b.IsActive(w);
          assert b in BlocksOfSeq(ns);
          var k :| 0 <= k < |ns| && b in BlocksOf(ns[k]);
          assert NodeIsActive(ns[k], w);
        }
      }
      exists k :: 0 <= k < |ns| && NodeIsActive(ns[k], w)
  }

  /** `blocks.filter { $0.isActive }`. */
  function FilterActive(ns: seq<Node>, w: World): (r: seq<Node>)
    ensures |r| <= |ns|
    ensures forall k :: 0 <= k < |r| ==> r[k] in ns && NodeIsActive(r[k], w)
    ensures forall k :: 0 <= k < |ns| && NodeIsActive(ns[k], w) ==> ns[k] in r
  {
    if ns == [] then []
    else FilterActive(ns[..|ns| - 1], w) + (if NodeIsActive(ns[|ns| - 1], w) then [ns[|ns| - 1]] else [])
  }

  /** The filter keeps order: filtering a concatenation concatenates the filtered parts. */
  lemma {:induction false} FilterActiveAppend(a: seq<Node>, b: seq<Node>, w: World)
    ensures FilterActive(a + b, w) == FilterActive(a, w) + FilterActive(b, w)
    decreases |b|
  {
    if b == [] {
      assert a + b == a;
    } else {
      var ab := a + b;
      assert ab[..|ab| - 1] == a + b[..|b| - 1];
      assert ab[|ab| - 1] == b[|b| - 1];
      FilterActiveAppend(a, b[..|b| - 1], w);
    }
  }

  /** A single member is kept exactly when it is active. */
  lemma FilterActiveSingle(n: Node, w: World)
    ensures FilterActive([n], w) == if NodeIsActive(n, w) then [n] else []
  {
    assert [n][..0] == [];
  }

  /** A scheme is active exactly when filtering its members keeps one. */
  lemma SchemeActiveIffSomeKept(ns: seq<Node>, w: World)
    ensures NodeIsActive(Scheme(ns), w) <==> FilterActive(ns, w) != []
  {
    var r := FilterActive(ns, w);
    if r != [] {
      assert r[0] in ns && NodeIsActive(r[0], w);
    }
  }

  // ---------------------------------------------------------------- layout passes
  //
  // A pass reads every block's settings once, as values: no pass changes a block.

  /** One block's `layout()` / `layout(in:)`. */
  method LayoutBlockM(b: BlockVal, store: ItemStore, source: Option<Rect>, env: Env)
    requires store.Valid() && Layoutable({b.item}, store.world)
    modifies store
    ensures store.Valid()
    ensures store.world == LayoutBlockStep(b, old(store.world), source, env)
  {
    if b.item !in store.world.items {
      return;
    }
    var w := store.world;
    var src := if source.Some? then source.value else w.items[ParentOf(w, b.item)].layoutBounds;
    store.SetFrame(b.item, BlockFrame(b, w, src, env));
  }

  method LayoutNodeM(n: NodeVal, store: ItemStore, source: Option<Rect>, env: Env)
    requires store.Valid() && Layoutable(ItemsOf(n), store.world)
    modifies store
    ensures store.Valid()
    ensures store.world == LayoutNode(n, old(store.world), source, env)
    decreases n
  {
    match n
    case BlockNode(b) => LayoutBlockM(b, store, source, env);
    case SchemeNode(cs) => LayoutSeqM(cs, store, source, env);
  }

  /** `blocks.forEach { $0.layout(in: sourceRect) }`. */
  method LayoutSeqM(ns: seq<NodeVal>, store: ItemStore, source: Option<Rect>, env: Env)
    requires store.Valid() && Layoutable(ItemsOfSeq(ns), store.world)
    modifies store
    ensures store.Valid()
    ensures store.world == LayoutNodes(ns, old(store.world), source, env)
    decreases ns
  {
    ghost var w0 := store.world;
    ItemsOfPrefix(ns, 0);
    var i := 0;
    while i < |ns|
      invariant 0 <= i <= |ns|
      invariant store.Valid()
      invariant Layoutable(ItemsOfSeq(ns), store.world)
      invariant ItemsOfSeq(ns[..i]) <= ItemsOfSeq(ns)
      invariant store.world == LayoutNodes(ns[..i], w0, source, env)
    {
      ItemsOfElem(ns, i);
      ItemsOfPrefix(ns, i + 1);
      assert ns[..i + 1][..i] == ns[..i];
      ghost var before := store.world;
      LayoutNodeM(ns[i], store, source, env);
      LayoutableKept(ItemsOfSeq(ns), before, store.world);
      i := i + 1;
    }
    assert ns[..i] == ns;
  }

  // ---------------------------------------------------------------- snapshots

  method SnapshotNodeM(n: NodeVal, store: ItemStore, sourceRect: Rect, ledger: Ledger, env: Env)
    returns (s: Blocks.Snapshot, ledger': Ledger)
    requires AllAttached(ItemsOf(n), store.world)
    ensures (s, ledger') == SnapshotNode(n, sourceRect, ledger, store.world, env)
    decreases n
  {
    match n
    case BlockNode(b) =>
      var f := SnapshotBlockFrame(b, store.world, sourceRect, ledger, env);
      s := Blocks.Snapshot(f, []);
      ledger' := [(b.item, f)] + ledger;
    case SchemeNode(cs) =>
      var p := SnapshotSeqM(cs, store, sourceRect, ledger, env);
      s := Blocks.Snapshot(p.frame.GetOr(Zero), p.snaps);
      ledger' := p.ledger;
  }

  /** `blocks.map { ... }` of `snapshot(for:completedRects:)`, with the running union. */
  method SnapshotSeqM(ns: seq<NodeVal>, store: ItemStore, sourceRect: Rect, ledger: Ledger, env: Env)
    returns (p: Pass)
    requires AllAttached(ItemsOfSeq(ns), store.world)
    ensures p == SnapshotNodes(ns, sourceRect, ledger, store.world, env)
    decreases ns
  {
    var snaps: seq<Blocks.Snapshot> := [];
    var frame: Option<Rect> := None;
    var l := ledger;
    ItemsOfPrefix(ns, 0);
    var i := 0;
    while i < |ns|
      invariant 0 <= i <= |ns|
      invariant ItemsOfSeq(ns[..i]) <= ItemsOfSeq(ns)
      invariant Pass(snaps, frame, l) == SnapshotNodes(ns[..i], sourceRect, ledger, store.world, env)
    {
      ItemsOfElem(ns, i);
      ItemsOfPrefix(ns, i + 1);
      assert ns[..i + 1][..i] == ns[..i];
      var s, l' := SnapshotNodeM(ns[i], store, sourceRect, l, env);
      snaps := snaps + [s];
      frame := if frame.Some? then Some(Union(frame.value, s.frame)) else Some(s.frame);
      l := l';
      i := i + 1;
    }
    assert ns[..i] == ns;
    p := Pass(snaps, frame, l);
  }

  // ---------------------------------------------------------------- applying snapshots

  method ApplyNodeM(n: NodeVal, store: ItemStore, s: Blocks.Snapshot)
    requires store.Valid()
    modifies store
    ensures store.Valid()
    ensures store.world == ApplyNode(n, s, old(store.world))
    decreases n
  {
    match n
    case BlockNode(b) => store.SetFrame(b.item, s.frame);
    case SchemeNode(cs) => ApplySeqM(cs, store, s.children);
  }

  /** `for child in snapshot.childSnapshots { iterator.next()?.apply(snapshot: child) }`. */
  method ApplySeqM(ns: seq<NodeVal>, store: ItemStore, ss: seq<Blocks.Snapshot>)
    requires store.Valid()
    modifies store
    ensures store.Valid()
    ensures store.world == ApplyNodes(ns, ss, old(store.world))
    decreases ns
  {
    ghost var w0 := store.world;
    var i := 0;
    while i < |ss|
      invariant 0 <= i <= |ss|
      invariant store.Valid()
      invariant store.world == ApplyNodes(ns[..if i < |ns| then i else |ns|], ss, w0)
    {
      if i < |ns| {
        ApplyNodesStep(ns, ss, i, w0);
        ApplyNodeM(ns[i], store, ss[i]);
      }
      i := i + 1;
    }
    if |ss| < |ns| {
      assert ns[..|ss|][..|ss|] == ns[..|ss|];
    } else {
      assert ns[..|ns|] == ns;
    }
  }

  // ---------------------------------------------------------------- current state

  method CurrentRectM(n: NodeVal, store: ItemStore) returns (r: Rect)
    requires Measurable(n, store.world)
    ensures r == CurrentRect(n, store.world)
    decreases n
  {
    match n
    case BlockNode(b) => r := store.world.items[b.item].frame;
    case SchemeNode(cs) => r := CurrentRectSeqM(cs, store);
  }

  /** `blocks.reduce(nil) { $0?.union($1.currentRect) ?? $1.currentRect }!`. */
  method CurrentRectSeqM(ns: seq<NodeVal>, store: ItemStore) returns (r: Rect)
    requires |ns| > 0 && Measurable(SchemeNode(ns), store.world)
    ensures r == CurrentRectSeq(ns, store.world)
    decreases ns
  {
    var acc: Option<Rect> := None;
    var i := 0;
    while i < |ns|
      invariant 0 <= i <= |ns|
      invariant acc.None? <==> i == 0
      invariant acc.Some? ==> acc.value == CurrentRectSeq(ns[..i], store.world)
    {
      var c := CurrentRectM(ns[i], store);
      if acc.Some? {
        assert ns[..i + 1][..i] == ns[..i];
        acc := Some(Union(acc.value, c));
      } else {
        acc := Some(c);
      }
      i := i + 1;
    }
    assert ns[..i] == ns;
    r := acc.value;
  }

  method CurrentSnapshotM(n: NodeVal, store: ItemStore) returns (s: Blocks.Snapshot)
    requires Measurable(n, store.world)
    ensures s == CurrentSnapshot(n, store.world)
    decreases n, 1
  {
    match n
    case BlockNode(b) =>
      s := Blocks.Snapshot(store.world.items[b.item].frame, []);
    case SchemeNode(cs) =>
      var frame, children := CurrentChildrenM(cs, store);
      ghost var t := CurrentSnapshot(n, store.world);
      assert children == t.children;
      s := Blocks.Snapshot(frame, children);
  }

  /** The `blocks.map` of `currentSnapshot`: each block's frame, and their union. */
  method CurrentChildrenM(cs: seq<NodeVal>, store: ItemStore) returns (frame: Rect, children: seq<Blocks.Snapshot>)
    requires |cs| > 0 && Measurable(SchemeNode(cs), store.world)
    ensures frame == CurrentRectSeq(cs, store.world)
    ensures |children| == |cs|
    ensures forall k :: 0 <= k < |cs| ==> children[k] == Blocks.Snapshot(CurrentRect(cs[k], store.world), [])
    decreases cs, 0
  {
    children := [];
    var acc: Option<Rect> := None;
    var i := 0;
    while i < |cs|
      invariant 0 <= i <= |cs|
      invariant |children| == i
      invariant forall k :: 0 <= k < i ==> children[k] == Blocks.Snapshot(CurrentRect(cs[k], store.world), [])
      invariant acc.None? <==> i == 0
      invariant acc.Some? ==> acc.value == CurrentRectSeq(cs[..i], store.world)
    {
      var child := CurrentSnapshotM(cs[i], store);
      assert child.frame == CurrentRect(cs[i], store.world);
      if acc.Some? {
        CurrentRectSeqSnoc(cs, i, store.world);
        acc := Some(Union(acc.value, child.frame));
      } else {
        acc := Some(child.frame);
      }
      ghost var prev := children;
      children := children + [Blocks.Snapshot(child.frame, [])];
      forall k | 0 <= k < i + 1
        ensures children[k] == Blocks.Snapshot(CurrentRect(cs[k], store.world), [])
      {
        if k < i { assert children[k] == prev[k]; }
      }
      i := i + 1;
    }
    assert cs[..i] == cs;
    frame := acc.value;
  }

  // ---------------------------------------------------------------- the scheme

  class LayoutScheme {
    var blocks: seq<Node>

    constructor (blocks: seq<Node>)
      ensures this.blocks == blocks
    {
      this.blocks := blocks;
    }

    /** The scheme as a member of another scheme (a copy of its current blocks). */
    function AsNode(): Node
      reads this
    {
      Scheme(blocks)
    }

    function Value(): seq<NodeVal>
      reads this, BlocksOfSeq(blocks)
    {
      NodesValue(blocks)
    }

    /** `isActive`: some member is active, so `removeInactiveBlocks()` would keep one. */
    predicate IsActive(w: World)
      reads this
      ensures IsActive(w) <==> NodeIsActive(AsNode(), w)
      ensures IsActive(w) <==> FilterActive(blocks, w) != []
    {
      SchemeActiveIffSomeKept(blocks, w);
      exists k :: 0 <= k < |blocks| && NodeIsActive(blocks[k], w)
    }

    /** `layout()` and `layout(in:)`: each member in order. */
    method Layout(store: ItemStore, source: Option<Rect>, env: Env)
      requires store.Valid() && Layoutable(ItemsOfSeq(Value()), store.world)
      modifies store
      ensures store.Valid() && Value() == old(Value())
      ensures store.world == LayoutNodes(Value(), old(store.world), source, env)
    {
      BlocksAllocatedSeq(blocks);
      LayoutSeqM(Value(), store, source, env);
    }

    /** `snapshot(for:)`: a snapshot that starts from an empty ledger. */
    method Snapshot(store: ItemStore, sourceRect: Rect, env: Env) returns (s: Blocks.Snapshot)
      requires AllAttached(ItemsOfSeq(Value()), store.world)
      ensures AllAttached(ItemsOfSeq(Value()), store.world)
      ensures s == SnapshotWith(SchemeNode(Value()), sourceRect, [], store.world, env)
      ensures |s.children| == |blocks|
      ensures blocks == [] ==> s.frame == Zero
    {
      BlocksAllocatedSeq(blocks);
      var l;
      s, l := SnapshotNodeM(SchemeNode(Value()), store, sourceRect, [], env);
    }

    /** `snapshot(for:completedRects:)`. */
    method SnapshotInto(store: ItemStore, sourceRect: Rect, ledger: Ledger, env: Env)
      returns (s: Blocks.Snapshot, ledger': Ledger)
      requires AllAttached(ItemsOfSeq(Value()), store.world)
      ensures AllAttached(ItemsOfSeq(Value()), store.world)
      ensures (s, ledger') == SnapshotNode(SchemeNode(Value()), sourceRect, ledger, store.world, env)
    {
      BlocksAllocatedSeq(blocks);
      s, ledger' := SnapshotNodeM(SchemeNode(Value()), store, sourceRect, ledger, env);
    }

    /** `apply(snapshot:)`. */
    method Apply(store: ItemStore, s: Blocks.Snapshot)
      requires store.Valid()
      modifies store
      ensures store.Valid() && Value() == old(Value())
      ensures store.world == ApplyNodes(Value(), s.children, old(store.world))
    {
      BlocksAllocatedSeq(blocks);
      ApplySeqM(Value(), store, s.children);
    }

    /** `currentRect`; the source stops with a fatal error on an empty scheme. */
    method CurrentRect(store: ItemStore) returns (r: Rect)
      requires Measurable(SchemeNode(Value()), store.world)
      ensures Measurable(SchemeNode(Value()), store.world)
      ensures r == Blocks.CurrentRect(SchemeNode(Value()), store.world)
      ensures forall k :: 0 <= k < |blocks| ==> Contains(r, Blocks.CurrentRect(Value()[k], store.world))
    {
      BlocksAllocatedSeq(blocks);
      r := CurrentRectSeqM(Value(), store);
    }

    /** `currentSnapshot`. */
    method CurrentSnapshot(store: ItemStore) returns (s: Blocks.Snapshot)
      requires Measurable(SchemeNode(Value()), store.world)
      ensures Measurable(SchemeNode(Value()), store.world)
      ensures s == Blocks.CurrentSnapshot(SchemeNode(Value()), store.world)
    {
      BlocksAllocatedSeq(blocks);
      s := CurrentSnapshotM(SchemeNode(Value()), store);
    }

    /** `insertLayout(block:to:)`; an index past the end is a runtime trap in the source. */
    method InsertLayout(n: Node, position: nat)
      requires position <= |blocks|
      modifies this
      ensures blocks == old(blocks)[..position] + [n] + old(blocks)[position..]
    {
      blocks := blocks[..position] + [n] + blocks[position..];
    }

    /** `removeInactiveBlocks()`: keeps the active members, in order. */
    method RemoveInactiveBlocks(store: ItemStore)
      modifies this
      ensures blocks == FilterActive(old(blocks), store.world)
    {
      var kept: seq<Node> := [];
      var i := 0;
      while i < |blocks|
        invariant 0 <= i <= |blocks|
        invariant kept == FilterActive(blocks[..i], store.world)
      {
        assert blocks[..i + 1][..i] == blocks[..i];
        if NodeIsActive(blocks[i], store.world) {
          kept := kept + [blocks[i]];
        }
        i := i + 1;
      }
      assert blocks[..i] == blocks;
      blocks := kept;
    }
  }
}
