/**
 * What a layout block and a layout scheme compute, stated on values: a block is
 * an item with its layout rule and its item-bound constraints; a scheme is an
 * ordered list of blocks and nested schemes. The classes in `Engine` are proved
 * to do exactly this.
 */
module Blocks {
  import opened Wrappers
  import opened Geometry
  import opened Items
  import opened Anchors
  import opened Bindings
  import L = Layouts

  datatype BlockVal = BlockVal(item: ItemId, layout: L.RectLayout, constraints: seq<Bound>)

  datatype NodeVal = BlockNode(block: BlockVal) | SchemeNode(children: seq<NodeVal>)

  /** `LayoutSnapshotProtocol`: a frame and the snapshots of the children (none for a `CGRect`). */
  datatype Snapshot = Snapshot(frame: Rect, children: seq<Snapshot>)

  /** The running state of a scheme's snapshot: child snapshots, their union so far, the ledger. */
  datatype Pass = Pass(snaps: seq<Snapshot>, frame: Option<Rect>, ledger: Ledger)

  function ItemsOf(n: NodeVal): set<ItemId>
    decreases n
  {
    match n
    case BlockNode(b) => {b.item}
    case SchemeNode(cs) => ItemsOfSeq(cs)
  }

  function ItemsOfSeq(ns: seq<NodeVal>): set<ItemId>
    decreases ns
  {
    if ns == [] then {} else ItemsOfSeq(ns[..|ns| - 1]) + ItemsOf(ns[|ns| - 1])
  }

  lemma {:induction false} ItemsOfPrefix(ns: seq<NodeVal>, k: nat)
    requires k <= |ns|
    ensures ItemsOfSeq(ns[..k]) <= ItemsOfSeq(ns)
    decreases |ns|
  {
    if k < |ns| {
      ItemsOfPrefix(ns[..|ns| - 1], k);
      assert ns[..|ns| - 1][..k] == ns[..k];
    } else {
      assert ns[..k] == ns;
    }
  }

  lemma {:induction false} ItemsOfElem(vs: seq<NodeVal>, k: nat)
    requires k < |vs|
    ensures ItemsOf(vs[k]) <= ItemsOfSeq(vs)
    decreases |vs|
  {
    if k < |vs| - 1 {
      ItemsOfElem(vs[..|vs| - 1], k);
    }
  }

  function LedgerIds(ledger: Ledger): set<ItemId> {
    set e | e in ledger :: e.0
  }

  /** Every block's item exists and has a super item (what a snapshot demands). */
  predicate AllAttached(items: set<ItemId>, w: World) {
    forall i :: i in items ==> Attached(w, i)
  }

  /** Every block whose item still exists has a super item (what a layout pass demands). */
  predicate Layoutable(items: set<ItemId>, w: World) {
    forall i :: i in items && i in w.items ==> Attached(w, i)
  }

  lemma LayoutableKept(items: set<ItemId>, w1: World, w2: World)
    requires SameShape(w1, w2) && Layoutable(items, w1)
    ensures Layoutable(items, w2)
  {
    forall i | i in items && i in w2.items ensures Attached(w2, i) {
      SameShapeAttached(w1, w2, i);
    }
  }

  // ---------------------------------------------------------------- one block

  /**
   * `layout(rect:from:in:use:)` for the block's item with its active constraints:
   * the constraints narrow `sourceRect` in the super item's space and the layout
   * rule places the item's frame in the result. It is also `snapshot(for:)` of a block.
   */
  function BlockFrame(b: BlockVal, w: World, sourceRect: Rect, env: Env): (r: Rect)
    requires Attached(w, b.item)
    ensures (forall c :: c in b.constraints ==> !IsActive(c, w)) ==>
      r == L.LayoutRect(b.layout, w.items[b.item].frame, sourceRect)
  {
    assert (forall c :: c in b.constraints ==> !IsActive(c, w)) ==> ActiveOnly(b.constraints, w) == [] by {
      var r := ActiveOnly(b.constraints, w);
      if r != [] { assert r[0] in r; }
    }
    ActiveOnlyResolvable(b.constraints, w);
    L.LayoutRect(b.layout, w.items[b.item].frame,
                 ItemFold(ActiveOnly(b.constraints, w), sourceRect, ParentOf(w, b.item), w, env))
  }

  /**
   * `layout()` (`source == None`: the super item's layout bounds) and `layout(in:)`:
   * a block whose item is gone does nothing; otherwise only its item's frame changes.
   */
  function LayoutBlockStep(b: BlockVal, w: World, source: Option<Rect>, env: Env): (w': World)
    requires Layoutable({b.item}, w)
    ensures SameShape(w, w')
    ensures b.item !in w.items ==> w' == w
    ensures forall k :: k in w.items && k != b.item ==> w'.items[k] == w.items[k]
    ensures b.item in w.items ==>
      w'.items[b.item].frame == BlockFrame(b, w, source.GetOr(w.items[ParentOf(w, b.item)].layoutBounds), env)
  {
    if b.item !in w.items then w
    else
      var src := source.GetOr(w.items[ParentOf(w, b.item)].layoutBounds);
      WithFrame(w, b.item, BlockFrame(b, w, src, env))
  }

  /**
   * An inactive constraint is skipped wherever it stands in the block's list: the
   * frame is the one the list without it gives.
   */
  lemma InactiveConstraintIgnored(b: BlockVal, pre: seq<Bound>, c: Bound, post: seq<Bound>,
                                  w: World, sourceRect: Rect, env: Env)
    requires Attached(w, b.item) && !IsActive(c, w)
    ensures BlockFrame(b.(constraints := pre + [c] + post), w, sourceRect, env)
         == BlockFrame(b.(constraints := pre + post), w, sourceRect, env)
  {
    ActiveOnlyAppend(pre + [c], post, w);
    ActiveOnlyAppend(pre, [c], w);
    ActiveOnlyAppend(pre, post, w);
    ActiveOnlySingle(c, w);
    assert ActiveOnly(pre, w) + [] == ActiveOnly(pre, w);
  }

  /** The frame `snapshot(for:completedRects:)` computes for a block against `ledger`. */
  function SnapshotBlockFrame(b: BlockVal, w: World, sourceRect: Rect, ledger: Ledger, env: Env): (r: Rect)
    requires Attached(w, b.item)
    ensures (forall c :: c in b.constraints && IsActive(c, w) ==> IsIndependent(c)) ==>
      r == BlockFrame(b, w, sourceRect, env)
  {
    ActiveOnlyResolvable(b.constraints, w);
    var cs := ActiveOnly(b.constraints, w);
    assert (forall c :: c in cs ==> IsIndependent(c)) ==>
      LedgerFold(cs, sourceRect, ParentOf(w, b.item), ledger, w, env)
        == ItemFold(cs, sourceRect, ParentOf(w, b.item), w, env) by {
      if forall c :: c in cs ==> IsIndependent(c) {
        IndependentIgnoresLedger(cs, sourceRect, ParentOf(w, b.item), ledger, [], w, env);
        EmptyLedgerFold(cs, sourceRect, ParentOf(w, b.item), w, env);
      }
    }
    L.LayoutRect(b.layout, w.items[b.item].frame,
                 LedgerFold(ActiveOnly(b.constraints, w), sourceRect, ParentOf(w, b.item), ledger, w, env))
  }

  /** With nothing in the ledger, the ledger-aware snapshot is the plain `snapshot(for:)`. */
  lemma EmptyLedgerSnapshot(b: BlockVal, w: World, sourceRect: Rect, env: Env)
    requires Attached(w, b.item)
    ensures SnapshotBlockFrame(b, w, sourceRect, [], env) == BlockFrame(b, w, sourceRect, env)
  {
    ActiveOnlyResolvable(b.constraints, w);
    EmptyLedgerFold(ActiveOnly(b.constraints, w), sourceRect, ParentOf(w, b.item), w, env);
  }

  // ---------------------------------------------------------------- snapshots

  /**
   * `snapshot(for:completedRects:)`: a block prepends `(item, frame)` to the ledger;
   * a scheme snapshots its children in order, threading the ledger.
   */
  function SnapshotNode(n: NodeVal, sourceRect: Rect, ledger: Ledger, w: World, env: Env): (r: (Snapshot, Ledger))
    requires AllAttached(ItemsOf(n), w)
    ensures n.BlockNode? ==> r.0.children == [] && r.1 == [(n.block.item, r.0.frame)] + ledger
    ensures n.SchemeNode? ==> |r.0.children| == |n.children|
    decreases n
  {
    match n
    case BlockNode(b) =>
      var f := SnapshotBlockFrame(b, w, sourceRect, ledger, env);
      (Snapshot(f, []), [(b.item, f)] + ledger)
    case SchemeNode(cs) =>
      var p := SnapshotNodes(cs, sourceRect, ledger, w, env);
      (Snapshot(p.frame.GetOr(Zero), p.snaps), p.ledger)
  }

  /**
   * The children of a scheme: each child's snapshot in order, the frame the union of
   * all child frames (absent for no children), the ledger after the last child.
   */
  function SnapshotNodes(ns: seq<NodeVal>, sourceRect: Rect, ledger: Ledger, w: World, env: Env): (p: Pass)
    requires AllAttached(ItemsOfSeq(ns), w)
    ensures |p.snaps| == |ns|
    ensures p.frame.None? <==> ns == []
    decreases ns
  {
    if ns == [] then Pass([], None, ledger)
    else
      var q := SnapshotNodes(ns[..|ns| - 1], sourceRect, ledger, w, env);
      var r := SnapshotNode(ns[|ns| - 1], sourceRect, q.ledger, w, env);
      var frame := if q.frame.Some? then Union(q.frame.value, r.0.frame) else r.0.frame;
      Pass(q.snaps + [r.0], Some(frame), r.1)
  }

  /** Child `k` of a scheme's snapshot is that block's snapshot against the ledger its predecessors left. */
  lemma {:induction false} SnapshotChildAt(ns: seq<NodeVal>, k: nat, sourceRect: Rect, ledger: Ledger, w: World, env: Env)
    requires AllAttached(ItemsOfSeq(ns), w) && k < |ns|
    ensures AllAttached(ItemsOfSeq(ns[..k]), w) && AllAttached(ItemsOf(ns[k]), w)
    ensures SnapshotNodes(ns, sourceRect, ledger, w, env).snaps[k]
         == SnapshotNode(ns[k], sourceRect, SnapshotNodes(ns[..k], sourceRect, ledger, w, env).ledger, w, env).0
    decreases |ns|
  {
    ItemsOfPrefix(ns, k);
    ItemsOfElem(ns, k);
    var init := ns[..|ns| - 1];
    assert ItemsOfSeq(ns) == ItemsOfSeq(init) + ItemsOf(ns[|ns| - 1]);
    if k < |ns| - 1 {
      assert init[..k] == ns[..k] && init[k] == ns[k];
      SnapshotChildAt(init, k, sourceRect, ledger, w, env);
    }
  }

  /** `a` is what `b` ends with: the ledger a pass started from is still its tail. */
  predicate EndsWith(b: Ledger, a: Ledger) {
    |a| <= |b| && b[|b| - |a|..] == a
  }

  lemma EndsWithTrans(c: Ledger, b: Ledger, a: Ledger)
    requires EndsWith(c, b) && EndsWith(b, a)
    ensures EndsWith(c, a)
  {
    assert c[|c| - |a|..] == c[|c| - |b|..][|b| - |a|..];
  }

  /**
   * A snapshot only prepends to the ledger it was given: one entry per block,
   * each under the block's item.
   */
  lemma {:induction false} SnapshotNodeLedger(n: NodeVal, sourceRect: Rect, ledger: Ledger, w: World, env: Env)
    requires AllAttached(ItemsOf(n), w)
    ensures var l := SnapshotNode(n, sourceRect, ledger, w, env).1;
      LedgerIds(l) == ItemsOf(n) + LedgerIds(ledger) && EndsWith(l, ledger)
    decreases n
  {
    match n
    case BlockNode(b) =>
      var l := SnapshotNode(n, sourceRect, ledger, w, env).1;
      assert forall e :: e in l <==> e == l[0] || e in ledger;
    case SchemeNode(cs) =>
      SnapshotNodesLedger(cs, sourceRect, ledger, w, env);
  }

  lemma {:induction false} SnapshotNodesLedger(ns: seq<NodeVal>, sourceRect: Rect, ledger: Ledger, w: World, env: Env)
    requires AllAttached(ItemsOfSeq(ns), w)
    ensures var l := SnapshotNodes(ns, sourceRect, ledger, w, env).ledger;
      LedgerIds(l) == ItemsOfSeq(ns) + LedgerIds(ledger) && EndsWith(l, ledger)
    decreases ns
  {
    if ns != [] {
      var q := SnapshotNodes(ns[..|ns| - 1], sourceRect, ledger, w, env);
      SnapshotNodesLedger(ns[..|ns| - 1], sourceRect, ledger, w, env);
      SnapshotNodeLedger(ns[|ns| - 1], sourceRect, q.ledger, w, env);
      EndsWithTrans(SnapshotNodes(ns, sourceRect, ledger, w, env).ledger, q.ledger, ledger);
    }
  }

  /**
   * A scheme's snapshot frame is the smallest rectangle that covers every child's
   * snapshot frame.
   */
  lemma {:induction false} SnapshotFrameIsUnion(ns: seq<NodeVal>, sourceRect: Rect, ledger: Ledger, w: World, env: Env)
    requires AllAttached(ItemsOfSeq(ns), w) && ns != []
    ensures SnapshotNodes(ns, sourceRect, ledger, w, env).frame.Some?
    ensures forall k :: 0 <= k < |ns| ==>
      Contains(SnapshotNodes(ns, sourceRect, ledger, w, env).frame.value, SnapshotNodes(ns, sourceRect, ledger, w, env).snaps[k].frame)
    ensures forall c ::
      (forall k :: 0 <= k < |ns| ==> Contains(c, SnapshotNodes(ns, sourceRect, ledger, w, env).snaps[k].frame))
      ==> Contains(c, SnapshotNodes(ns, sourceRect, ledger, w, env).frame.value)
    decreases ns
  {
    var p := SnapshotNodes(ns, sourceRect, ledger, w, env);
    var q := SnapshotNodes(ns[..|ns| - 1], sourceRect, ledger, w, env);
    var s := p.snaps[|ns| - 1];
    assert p.snaps == q.snaps + [s];
    if |ns| > 1 {
      assert ItemsOfSeq(ns) == ItemsOfSeq(ns[..|ns| - 1]) + ItemsOf(ns[|ns| - 1]);
      SnapshotFrameIsUnion(ns[..|ns| - 1], sourceRect, ledger, w, env);
      var f := q.frame.value;
      var u := p.frame.value;
      assert u == Union(f, s.frame);
      assert forall k :: 0 <= k < |ns| - 1 ==> Contains(f, q.snaps[k].frame);
      assert Contains(u, f) && Contains(u, s.frame);
      forall k | 0 <= k < |ns| ensures Contains(u, p.snaps[k].frame) {
        if k < |ns| - 1 {
          assert p.snaps[k] == q.snaps[k];
          assert Contains(f, q.snaps[k].frame);
          ContainsTrans(u, f, q.snaps[k].frame);
        }
      }
      forall c | forall k :: 0 <= k < |ns| ==> Contains(c, p.snaps[k].frame)
        ensures Contains(c, u)
      {
        assert forall k :: 0 <= k < |ns| - 1 ==> Contains(c, q.snaps[k].frame) by {
          forall k | 0 <= k < |ns| - 1 ensures Contains(c, q.snaps[k].frame) {
            assert p.snaps[k] == q.snaps[k];
          }
        }
        assert Contains(c, f) && Contains(c, s.frame);
      }
    }
  }

  /** `snapshot(for:)` of a scheme, and `snapshot(for:constrainRects:)` of any block. */
  function SnapshotWith(n: NodeVal, sourceRect: Rect, constrainRects: Ledger, w: World, env: Env): (s: Snapshot)
    requires AllAttached(ItemsOf(n), w)
    ensures n.BlockNode? ==>
      s == Snapshot(SnapshotBlockFrame(n.block, w, sourceRect, constrainRects, env), [])
    ensures n.BlockNode? && constrainRects == [] ==> s.frame == BlockFrame(n.block, w, sourceRect, env)
    ensures n.SchemeNode? ==> |s.children| == |n.children|
    ensures n.SchemeNode? && n.children == [] ==> s.frame == Zero
  {
    assert n.BlockNode? && constrainRects == [] ==>
      SnapshotBlockFrame(n.block, w, sourceRect, [], env) == BlockFrame(n.block, w, sourceRect, env) by {
      if n.BlockNode? { EmptyLedgerSnapshot(n.block, w, sourceRect, env); }
    }
    SnapshotNode(n, sourceRect, constrainRects, w, env).0
  }

  // ---------------------------------------------------------------- layout passes

  /** `layout()` / `layout(in:)` of a block or a scheme (every block, in order). */
  function LayoutNode(n: NodeVal, w: World, source: Option<Rect>, env: Env): (w': World)
    requires Layoutable(ItemsOf(n), w)
    ensures SameShape(w, w')
    ensures forall k :: k in w.items && k !in ItemsOf(n) ==> w'.items[k] == w.items[k]
    decreases n
  {
    match n
    case BlockNode(b) => LayoutBlockStep(b, w, source, env)
    case SchemeNode(cs) => LayoutNodes(cs, w, source, env)
  }

  function LayoutNodes(ns: seq<NodeVal>, w: World, source: Option<Rect>, env: Env): (w': World)
    requires Layoutable(ItemsOfSeq(ns), w)
    ensures SameShape(w, w')
    ensures forall k :: k in w.items && k !in ItemsOfSeq(ns) ==> w'.items[k] == w.items[k]
    decreases ns
  {
    if ns == [] then w
    else
      var w1 := LayoutNodes(ns[..|ns| - 1], w, source, env);
      LayoutableKept(ItemsOfSeq(ns), w, w1);
      LayoutNode(ns[|ns| - 1], w1, source, env)
  }

  // ---------------------------------------------------------------- applying snapshots

  /**
   * `apply(snapshot:)`: a block writes the snapshot's frame to its item (nothing when
   * the item is gone); a scheme pairs its blocks with the child snapshots in order.
   */
  function ApplyNode(n: NodeVal, s: Snapshot, w: World): (w': World)
    ensures SameShape(w, w')
    ensures forall k :: k in w.items && k !in ItemsOf(n) ==> w'.items[k] == w.items[k]
    decreases n
  {
    match n
    case BlockNode(b) => WithFrame(w, b.item, s.frame)
    case SchemeNode(cs) =>
      ItemsOfPrefix(cs, if |s.children| < |cs| then |s.children| else |cs|);
      ApplyNodes(cs, s.children, w)
  }

  /** Pairs blocks and snapshots up to the shorter of the two lists. */
  function ApplyNodes(ns: seq<NodeVal>, ss: seq<Snapshot>, w: World): (w': World)
    ensures SameShape(w, w')
    ensures forall k :: k in w.items && k !in ItemsOfSeq(ns[..if |ss| < |ns| then |ss| else |ns|]) ==>
      w'.items[k] == w.items[k]
    decreases ns
  {
    if ns == [] then w
    else if |ss| < |ns| then
      assert ns[..|ss|][..|ss|] == ns[..|ss|];
      ApplyNodes(ns[..|ss|], ss, w)
    else
      var w1 := ApplyNodes(ns[..|ns| - 1], ss, w);
      assert ns[..|ns|] == ns;
      assert ns[..|ns| - 1][..|ns| - 1] == ns[..|ns| - 1];
      ApplyNode(ns[|ns| - 1], ss[|ns| - 1], w1)
  }

  /** One more pair of the zip: the next block takes the next snapshot. */
  lemma ApplyNodesStep(ns: seq<NodeVal>, ss: seq<Snapshot>, i: nat, w: World)
    requires i < |ns| && i < |ss|
    ensures ApplyNodes(ns[..i + 1], ss, w) == ApplyNode(ns[i], ss[i], ApplyNodes(ns[..i], ss, w))
  {
    assert ns[..i + 1][..i] == ns[..i];
  }

  // ---------------------------------------------------------------- current state

  /** What `currentRect` demands: every item exists and no scheme on the way is empty. */
  predicate Measurable(n: NodeVal, w: World)
    decreases n
  {
    match n
    case BlockNode(b) => b.item in w.items
    case SchemeNode(cs) => |cs| > 0 && forall k :: 0 <= k < |cs| ==> Measurable(cs[k], w)
  }

  /** `currentRect`: the item's frame, or the union of the children's current rects. */
  function CurrentRect(n: NodeVal, w: World): (r: Rect)
    requires Measurable(n, w)
    ensures n.BlockNode? ==> r == w.items[n.block.item].frame
    ensures n.SchemeNode? ==> CoversAll(r, n.children, w)
    ensures n.SchemeNode? ==> forall c :: CoversAll(c, n.children, w) ==> Contains(c, r)
    decreases n, 1
  {
    match n
    case BlockNode(b) => w.items[b.item].frame
    case SchemeNode(cs) => CurrentRectSeq(cs, w)
  }

  /** `c` contains the current rect of every node in `ns`. */
  predicate CoversAll(c: Rect, ns: seq<NodeVal>, w: World)
    requires forall k :: 0 <= k < |ns| ==> Measurable(ns[k], w)
    decreases ns, 2
  {
    forall k :: 0 <= k < |ns| ==> Contains(c, CurrentRect(ns[k], w))
  }

  /** The union of the current rects: the least rect that covers each of them. */
  function CurrentRectSeq(ns: seq<NodeVal>, w: World): (r: Rect)
    requires |ns| > 0 && forall k :: 0 <= k < |ns| ==> Measurable(ns[k], w)
    ensures CoversAll(r, ns, w)
    ensures forall c :: CoversAll(c, ns, w) ==> Contains(c, r)
    decreases ns, 3
  {
    if |ns| == 1 then CurrentRect(ns[0], w)
    else
      var init := ns[..|ns| - 1];
      var last := CurrentRect(ns[|ns| - 1], w);
      var q := CurrentRectSeq(init, w);
      var r := Union(q, last);
      assert CoversAll(r, ns, w) by {
        forall k | 0 <= k < |ns| - 1 ensures Contains(r, CurrentRect(ns[k], w)) {
          assert init[k] == ns[k];
        }
      }
      assert forall c :: CoversAll(c, ns, w) ==> Contains(c, r) by {
        forall c | CoversAll(c, ns, w) ensures Contains(c, r) {
          assert CoversAll(c, init, w) by {
            forall k | 0 <= k < |init| ensures Contains(c, CurrentRect(init[k], w)) {
              assert init[k] == ns[k];
            }
          }
          assert Contains(c, last);
        }
      }
      r
  }

  /** Extending the blocks by one unions in that block's current rect. */
  lemma CurrentRectSeqSnoc(ns: seq<NodeVal>, i: nat, w: World)
    requires 0 < i < |ns| && forall k :: 0 <= k < |ns| ==> Measurable(ns[k], w)
    ensures CurrentRectSeq(ns[..i + 1], w) == Union(CurrentRectSeq(ns[..i], w), CurrentRect(ns[i], w))
  {
    assert ns[..i + 1][..i] == ns[..i];
  }

  /**
   * `currentSnapshot`: the item's frame for a block; for a scheme, the union of the
   * children's current frames, with those frames (not their own children) as children.
   */
  function CurrentSnapshot(n: NodeVal, w: World): (s: Snapshot)
    requires Measurable(n, w)
    ensures n.BlockNode? ==> s == Snapshot(w.items[n.block.item].frame, [])
    ensures n.SchemeNode? ==> s.frame == CurrentRect(n, w) && |s.children| == |n.children|
    ensures n.SchemeNode? ==> forall k :: 0 <= k < |n.children| ==>
      s.children[k] == Snapshot(CurrentRect(n.children[k], w), [])
    decreases n
  {
    match n
    case BlockNode(b) => Snapshot(w.items[b.item].frame, [])
    case SchemeNode(cs) =>
      Snapshot(CurrentRectSeq(cs, w), seq(|cs|, k requires 0 <= k < |cs| => Snapshot(CurrentRect(cs[k], w), [])))
  }
}
