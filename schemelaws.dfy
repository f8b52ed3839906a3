/**
 * Laws that relate the three ways a scheme places its items: laying out
 * directly (`layout(in:)`), computing a snapshot (`snapshot(for:)`) and applying
 * it (`apply(snapshot:)`).
 *
 * The snapshot keeps a ledger of the frames it has computed so far and answers
 * every item-bound constraint from it; a direct layout instead reads the frames
 * already written to the items. `Overlay` is the world in which every ledger
 * frame has been written, and the proofs show that both passes stay in step
 * with it.
 */
module SchemeLaws {
  import opened Wrappers
  import opened Geometry
  import opened Items
  import opened Anchors
  import opened Bindings
  import opened Blocks
  import L = Layouts

  /** `w` with every frame in the ledger written to its item; the first entry for an item wins. */
  function Overlay(w: World, ledger: Ledger): (r: World)
    ensures SameShape(w, r)
    ensures forall id :: id in w.items && Lookup(ledger, id).Some? ==> r.items[id].frame == Lookup(ledger, id).value
    ensures forall id :: id in w.items && Lookup(ledger, id).None? ==> r.items[id] == w.items[id]
    decreases |ledger|
  {
    if ledger == [] then w
    else WithFrame(Overlay(w, ledger[1..]), ledger[0].0, ledger[0].1)
  }

  lemma NotInLedger(ledger: Ledger, id: ItemId)
    requires id !in LedgerIds(ledger)
    ensures Lookup(ledger, id).None?
  {
    forall i | 0 <= i < |ledger| ensures ledger[i].0 != id {
      assert ledger[i] in ledger;
    }
  }

  // ---------------------------------------------------------------- activity

  /** Activity reads only parents and switches, which no layout pass writes. */
  lemma {:induction false} ActivityKept(c: Bound, w1: World, w2: World)
    requires SameShape(w1, w2)
    ensures IsActive(c, w1) <==> IsActive(c, w2)
    ensures Resolvable(c, w1) <==> Resolvable(c, w2)
  {
    match c
    case Mutable(b, _) => ActivityKept(b, w1, w2);
    case _ => SameShapeAttached(w1, w2, c.item);
  }

  lemma {:induction false} ActiveOnlyKept(cs: seq<Bound>, w1: World, w2: World)
    requires SameShape(w1, w2)
    ensures ActiveOnly(cs, w1) == ActiveOnly(cs, w2)
    decreases |cs|
  {
    if cs != [] {
      ActivityKept(cs[0], w1, w2);
      ActiveOnlyKept(cs[1..], w1, w2);
    }
  }

  // ---------------------------------------------------------------- which constraints agree

  /**
   * A constraint whose reference is the same in both passes: a related or an
   * adjusting one always; a content or a baseline one only when its item is none
   * of the items in `laidOut` (for those, the snapshot reads the ledger frame where
   * the direct layout reads the layout bounds or the baseline line).
   */
  predicate SafeBound(c: Bound, laidOut: set<ItemId>) {
    match c
    case Related(_, _) => true
    case Adjust(_, _) => true
    case Content(id, _) => id !in laidOut
    case Baseline(id, _) => id !in laidOut
    case Mutable(b, _) => SafeBound(b, laidOut)
  }

  predicate SafeNode(n: NodeVal, laidOut: set<ItemId>)
    decreases n
  {
    match n
    case BlockNode(b) => forall c :: c in b.constraints ==> SafeBound(c, laidOut)
    case SchemeNode(cs) => SafeNodes(cs, laidOut)
  }

  predicate SafeNodes(ns: seq<NodeVal>, laidOut: set<ItemId>)
    decreases ns
  {
    forall k :: 0 <= k < |ns| ==> SafeNode(ns[k], laidOut)
  }

  /** No item is laid out by two blocks of the tree. */
  predicate DistinctNode(n: NodeVal)
    decreases n
  {
    match n
    case BlockNode(_) => true
    case SchemeNode(cs) => DistinctNodes(cs)
  }

  predicate DistinctNodes(ns: seq<NodeVal>)
    decreases ns
  {
    ns == [] ||
    (&& DistinctNodes(ns[..|ns| - 1])
     && DistinctNode(ns[|ns| - 1])
     && ItemsOfSeq(ns[..|ns| - 1]) !! ItemsOf(ns[|ns| - 1]))
  }

  /**
   * The reference rect a snapshot takes from the ledger is the one a direct layout
   * reads in the world where the ledger's frames have been written.
   */
  lemma {:induction false} LedgerRefIsOverlayRef(c: Bound, src: Rect, space: ItemId, ledger: Ledger,
                                                 laidOut: set<ItemId>, w: World, env: Env)
    requires Resolvable(c, w) && SafeBound(c, laidOut) && LedgerIds(ledger) <= laidOut
    ensures Resolvable(c, Overlay(w, ledger))
    ensures LedgerRef(c, src, space, ledger, w, env) == ConstrainRect(c, src, space, Overlay(w, ledger), env)
  {
    var o := Overlay(w, ledger);
    ActivityKept(c, w, o);
    match c
    case Related(id, _) =>
      SameShapeAttached(w, o, id);
    case Adjust(_, _) =>
    case Content(id, _) =>
      NotInLedger(ledger, id);
    case Baseline(id, _) =>
      NotInLedger(ledger, id);
      SameShapeAttached(w, o, id);
    case Mutable(b, _) =>
      LedgerRefIsOverlayRef(b, src, space, ledger, laidOut, w, env);
  }

  /** The snapshot's reduce over a constraint list is the layout reduce in the overlaid world. */
  lemma {:induction false} LedgerFoldIsOverlayFold(cs: seq<Bound>, src: Rect, space: ItemId, ledger: Ledger,
                                                   laidOut: set<ItemId>, w: World, env: Env)
    requires AllResolvable(cs, w) && LedgerIds(ledger) <= laidOut
    requires forall c :: c in cs ==> SafeBound(c, laidOut)
    ensures AllResolvable(cs, Overlay(w, ledger))
    ensures LedgerFold(cs, src, space, ledger, w, env) == ItemFold(cs, src, space, Overlay(w, ledger), env)
    decreases |cs|
  {
    forall c | c in cs ensures Resolvable(c, Overlay(w, ledger)) {
      ActivityKept(c, w, Overlay(w, ledger));
    }
    if cs != [] {
      LedgerRefIsOverlayRef(cs[0], src, space, ledger, laidOut, w, env);
      var next := FormConstrain(cs[0], src, LedgerRef(cs[0], src, space, ledger, w, env), env);
      assert next == Constrained(cs[0], src, space, Overlay(w, ledger), env);
      LedgerFoldIsOverlayFold(cs[1..], next, space, ledger, laidOut, w, env);
    }
  }

  /** One block: its snapshot frame is the frame a direct layout gives in the overlaid world. */
  lemma SnapshotFrameIsOverlayFrame(b: BlockVal, sourceRect: Rect, ledger: Ledger, laidOut: set<ItemId>,
                                    w: World, env: Env)
    requires Attached(w, b.item) && b.item !in LedgerIds(ledger) && LedgerIds(ledger) <= laidOut
    requires SafeNode(BlockNode(b), laidOut)
    ensures Attached(Overlay(w, ledger), b.item)
    ensures SnapshotBlockFrame(b, w, sourceRect, ledger, env) == BlockFrame(b, Overlay(w, ledger), sourceRect, env)
  {
    var o := Overlay(w, ledger);
    SameShapeAttached(w, o, b.item);
    NotInLedger(ledger, b.item);
    ActiveOnlyKept(b.constraints, w, o);
    ActiveOnlyResolvable(b.constraints, w);
    var active := ActiveOnly(b.constraints, w);
    LedgerFoldIsOverlayFold(active, sourceRect, ParentOf(w, b.item), ledger, laidOut, w, env);
  }

  /** Snapshots beyond the blocks are never read. */
  lemma {:induction false} ApplyNodesIgnoresExtra(ns: seq<NodeVal>, ss: seq<Snapshot>, extra: seq<Snapshot>, w: World)
    requires |ns| <= |ss|
    ensures ApplyNodes(ns, ss + extra, w) == ApplyNodes(ns, ss, w)
    decreases |ns|
  {
    if ns != [] {
      ApplyNodesIgnoresExtra(ns[..|ns| - 1], ss, extra, w);
      assert (ss + extra)[|ns| - 1] == ss[|ns| - 1];
    }
  }

  // ---------------------------------------------------------------- the round trip

  /**
   * Starting from the world with the ledger written, both a direct layout and
   * applying the snapshot end in the world with the extended ledger written.
   */
  lemma {:induction false} NodeRoundTrip(n: NodeVal, sourceRect: Rect, ledger: Ledger, laidOut: set<ItemId>,
                                         w: World, env: Env)
    requires AllAttached(ItemsOf(n), w) && DistinctNode(n) && SafeNode(n, laidOut)
    requires ItemsOf(n) <= laidOut && LedgerIds(ledger) <= laidOut && ItemsOf(n) !! LedgerIds(ledger)
    ensures Layoutable(ItemsOf(n), Overlay(w, ledger))
    ensures LayoutNode(n, Overlay(w, ledger), Some(sourceRect), env)
         == Overlay(w, SnapshotNode(n, sourceRect, ledger, w, env).1)
    ensures ApplyNode(n, SnapshotNode(n, sourceRect, ledger, w, env).0, Overlay(w, ledger))
         == Overlay(w, SnapshotNode(n, sourceRect, ledger, w, env).1)
    decreases n
  {
    forall i | i in ItemsOf(n) ensures Attached(Overlay(w, ledger), i) {
      SameShapeAttached(w, Overlay(w, ledger), i);
    }
    match n
    case BlockNode(b) =>
      SnapshotFrameIsOverlayFrame(b, sourceRect, ledger, laidOut, w, env);
    case SchemeNode(cs) =>
      NodesRoundTrip(cs, sourceRect, ledger, laidOut, w, env);
  }

  lemma {:induction false} NodesRoundTrip(ns: seq<NodeVal>, sourceRect: Rect, ledger: Ledger, laidOut: set<ItemId>,
                                          w: World, env: Env)
    requires AllAttached(ItemsOfSeq(ns), w) && DistinctNodes(ns) && SafeNodes(ns, laidOut)
    requires ItemsOfSeq(ns) <= laidOut && LedgerIds(ledger) <= laidOut && ItemsOfSeq(ns) !! LedgerIds(ledger)
    ensures Layoutable(ItemsOfSeq(ns), Overlay(w, ledger))
    ensures LayoutNodes(ns, Overlay(w, ledger), Some(sourceRect), env)
         == Overlay(w, SnapshotNodes(ns, sourceRect, ledger, w, env).ledger)
    ensures ApplyNodes(ns, SnapshotNodes(ns, sourceRect, ledger, w, env).snaps, Overlay(w, ledger))
         == Overlay(w, SnapshotNodes(ns, sourceRect, ledger, w, env).ledger)
    decreases ns
  {
    forall i | i in ItemsOfSeq(ns) ensures Attached(Overlay(w, ledger), i) {
      SameShapeAttached(w, Overlay(w, ledger), i);
    }
    if ns != [] {
      var init, last := ns[..|ns| - 1], ns[|ns| - 1];
      assert ItemsOfSeq(ns) == ItemsOfSeq(init) + ItemsOf(last);
      assert SafeNodes(init, laidOut) by {
        forall k | 0 <= k < |init| ensures SafeNode(init[k], laidOut) {
          assert init[k] == ns[k];
        }
      }
      assert SafeNode(last, laidOut);
      var q := SnapshotNodes(init, sourceRect, ledger, w, env);
      var r := SnapshotNode(last, sourceRect, q.ledger, w, env);
      var p := SnapshotNodes(ns, sourceRect, ledger, w, env);
      assert p.snaps == q.snaps + [r.0] && p.ledger == r.1;
      var v, vq := Overlay(w, ledger), Overlay(w, q.ledger);
      assert Layoutable(ItemsOfSeq(init), v) && LayoutNodes(init, v, Some(sourceRect), env) == vq
          && ApplyNodes(init, q.snaps, v) == vq by {
        NodesRoundTrip(init, sourceRect, ledger, laidOut, w, env);
      }
      assert LedgerIds(q.ledger) == ItemsOfSeq(init) + LedgerIds(ledger) by {
        SnapshotNodesLedger(init, sourceRect, ledger, w, env);
      }
      assert LayoutNode(last, vq, Some(sourceRect), env) == Overlay(w, r.1)
          && ApplyNode(last, r.0, vq) == Overlay(w, r.1) by {
        NodeRoundTrip(last, sourceRect, q.ledger, laidOut, w, env);
      }
      assert ApplyNodes(init, p.snaps, v) == vq by {
        ApplyNodesIgnoresExtra(init, q.snaps, [r.0], v);
      }
      assert ns[..|ns|] == ns;
    }
  }

  /**
   * `apply(snapshot: scheme.snapshot(for: rect))` writes the same frames as
   * `layout(in: rect)`, when no item is laid out twice and every content or
   * baseline constraint refers to an item outside the scheme.
   */
  lemma SnapshotThenApplyIsLayout(ns: seq<NodeVal>, sourceRect: Rect, w: World, env: Env)
    requires AllAttached(ItemsOfSeq(ns), w) && DistinctNodes(ns) && SafeNodes(ns, ItemsOfSeq(ns))
    ensures ApplyNode(SchemeNode(ns), SnapshotWith(SchemeNode(ns), sourceRect, [], w, env), w)
         == LayoutNode(SchemeNode(ns), w, Some(sourceRect), env)
  {
    assert LedgerIds([]) == {};
    assert Overlay(w, []) == w;
    NodesRoundTrip(ns, sourceRect, [], ItemsOfSeq(ns), w, env);
  }

  // ---------------------------------------------------------------- where the round trip fails

  /** Conversion between spaces left as the identity, and every other capability trivial. */
  const PlainEnv: Env := Env((p, src, ref) => src, (ps, src, ref) => src, (e, r) => r, i => 0.0,
                             (r, from, to) => r, (i, r) => r)

  /** A root (0), an item 1 with layout bounds (0,0,1,1), and an item 2, both children of the root. */
  const TwoItems: World := World(map[
    0 := ItemRec(Zero, None, Zero),
    1 := ItemRec(Zero, Some(0), Rect(0.0, 0.0, 1.0, 1.0)),
    2 := ItemRec(Zero, Some(0), Zero)], map[])

  const Owner: BlockVal := BlockVal(1, L.EqualLayout, [])
  const Reader: BlockVal := BlockVal(2, L.EqualLayout, [Content(1, [Equal])])

  /** Item 1 fills the source; item 2 takes item 1's content rect (`ContentLayoutConstraint` with `equal`). */
  const ContentAfterOwner: seq<NodeVal> := [BlockNode(Owner), BlockNode(Reader)]

  const Available: Rect := Rect(0.0, 0.0, 10.0, 10.0)

  lemma ExampleShape()
    ensures ContentAfterOwner[..1] == [BlockNode(Owner)] && ContentAfterOwner[..1][..0] == []
    ensures ItemsOfSeq(ContentAfterOwner[..1]) == {1} && ItemsOfSeq(ContentAfterOwner) == {1, 2}
    ensures AllAttached(ItemsOfSeq(ContentAfterOwner), TwoItems) && DistinctNodes(ContentAfterOwner)
    ensures ActiveOnly(Owner.constraints, TwoItems) == []
    ensures ActiveOnly(Reader.constraints, WithFrame(TwoItems, 1, Available)) == Reader.constraints
  {
    var ns := ContentAfterOwner;
    assert ns[..1] == [BlockNode(Owner)] && ns[..1][..0] == [] && ns[1] == BlockNode(Reader);
    assert ItemsOfSeq(ns[..1]) == {1};
    assert DistinctNodes(ns[..1]) by {
      assert DistinctNodes(ns[..1][..0]);
    }
    assert ItemsOf(ns[1]) == {2};
  }

  /** The snapshot of item 1 alone: the available rect, entered in the ledger. */
  lemma ExampleSnapshotOwner()
    ensures AllAttached(ItemsOfSeq([BlockNode(Owner)]), TwoItems)
    ensures SnapshotNodes([BlockNode(Owner)], Available, [], TwoItems, PlainEnv)
         == Pass([Snapshot(Available, [])], Some(Available), [(1, Available)])
  {
    ExampleShape();
    var one := [BlockNode(Owner)];
    assert one[..0] == [];
    assert SnapshotBlockFrame(Owner, TwoItems, Available, [], PlainEnv) == Available;
    var l: Ledger := [(1, Available)];
    assert l + [] == l;
    assert SnapshotNode(one[0], Available, [], TwoItems, PlainEnv) == (Snapshot(Available, []), l);
  }

  /** Item 2 then reads item 1's ledger frame. */
  lemma ExampleSnapshotReader()
    ensures Attached(TwoItems, 2)
    ensures SnapshotBlockFrame(Reader, TwoItems, Available, [(1, Available)], PlainEnv) == Available
  {
    assert ActiveOnly(Reader.constraints, TwoItems) == Reader.constraints;
    assert LedgerRef(Content(1, [Equal]), Available, 0, [(1, Available)], TwoItems, PlainEnv) == Available;
  }

  /** The snapshot: item 1 gets the available rect, and item 2 reads it back from the ledger. */
  lemma ExampleSnapshot()
    ensures AllAttached(ItemsOfSeq(ContentAfterOwner), TwoItems)
    ensures |SnapshotNodes(ContentAfterOwner, Available, [], TwoItems, PlainEnv).snaps| == 2
    ensures SnapshotNodes(ContentAfterOwner, Available, [], TwoItems, PlainEnv).snaps[1] == Snapshot(Available, [])
  {
    ExampleShape();
    var ns := ContentAfterOwner;
    var l: Ledger := [(1, Available)];
    assert ns[..1] == [BlockNode(Owner)] && ns[1] == BlockNode(Reader) && |ns| == 2;
    var q := SnapshotNodes(ns[..1], Available, [], TwoItems, PlainEnv);
    assert q.ledger == l by {
      ExampleSnapshotOwner();
    }
    var r := SnapshotNode(ns[1], Available, l, TwoItems, PlainEnv);
    assert r.0 == Snapshot(Available, []) by {
      ExampleSnapshotReader();
    }
    assert SnapshotNodes(ns, Available, [], TwoItems, PlainEnv).snaps == q.snaps + [r.0];
  }

  /** The direct layout: item 1 gets the available rect, and item 2 reads item 1's layout bounds. */
  lemma ExampleLayout()
    ensures Layoutable(ItemsOfSeq(ContentAfterOwner), TwoItems)
    ensures LayoutNodes(ContentAfterOwner, TwoItems, Some(Available), PlainEnv).items[2].frame
         == Rect(0.0, 0.0, 1.0, 1.0)
  {
    ExampleShape();
    var ns := ContentAfterOwner;
    assert BlockFrame(Owner, TwoItems, Available, PlainEnv) == Available;
    var one := ns[..1];
    assert LayoutNodes(one[..0], TwoItems, Some(Available), PlainEnv) == TwoItems;
    assert LayoutNode(one[0], TwoItems, Some(Available), PlainEnv) == WithFrame(TwoItems, 1, Available);
    var w1 := LayoutNodes(one, TwoItems, Some(Available), PlainEnv);
    assert w1 == WithFrame(TwoItems, 1, Available);
    assert BlockFrame(Reader, w1, Available, PlainEnv) == Rect(0.0, 0.0, 1.0, 1.0);
  }

  /**
   * A content constraint on an item laid out earlier in the same scheme: the
   * snapshot reads the item's new frame from the ledger, the direct layout reads
   * its layout bounds, so applying the snapshot differs from laying out.
   */
  lemma ContentConstraintBreaksRoundTrip()
    ensures AllAttached(ItemsOfSeq(ContentAfterOwner), TwoItems) && DistinctNodes(ContentAfterOwner)
    ensures !SafeNodes(ContentAfterOwner, ItemsOfSeq(ContentAfterOwner))
    ensures ApplyNode(SchemeNode(ContentAfterOwner),
                      SnapshotWith(SchemeNode(ContentAfterOwner), Available, [], TwoItems, PlainEnv),
                      TwoItems).items[2].frame
         == Available
    ensures LayoutNode(SchemeNode(ContentAfterOwner), TwoItems, Some(Available), PlainEnv).items[2].frame
         != Available
  {
    ExampleShape();
    ExampleSnapshot();
    ExampleLayout();
    assert !SafeNode(ContentAfterOwner[1], {1, 2});
    var ss := SnapshotNodes(ContentAfterOwner, Available, [], TwoItems, PlainEnv).snaps;
    assert ApplyNodes(ContentAfterOwner, ss, TwoItems).items[2].frame == Available;
  }

  // ---------------------------------------------------------------- order within a scheme

  /** A scheme of two members lays out the first, then the second in the world the first left. */
  lemma LayoutPair(a: NodeVal, b: NodeVal, w: World, source: Option<Rect>, env: Env)
    requires Layoutable(ItemsOf(a) + ItemsOf(b), w)
    ensures Layoutable(ItemsOfSeq([a, b]), w) && Layoutable(ItemsOf(a), w)
    ensures Layoutable(ItemsOf(b), LayoutNode(a, w, source, env))
    ensures LayoutNodes([a, b], w, source, env) == LayoutNode(b, LayoutNode(a, w, source, env), source, env)
  {
    var ns := [a, b];
    assert ns[..1] == [a] && ns[..1][..0] == [] && ns[1] == b;
    assert ItemsOfSeq([a]) == ItemsOf(a) by {
      assert ItemsOfSeq([a][..0]) == {};
    }
    assert ItemsOfSeq(ns) == ItemsOf(a) + ItemsOf(b);
    LayoutableKept(ItemsOf(a) + ItemsOf(b), w, LayoutNode(a, w, source, env));
    assert LayoutNodes([a], w, source, env) == LayoutNode(a, w, source, env);
  }

  /** Item 2 takes item 1's frame (`LayoutConstraint` with `equal`), both children of the root. */
  const RelReader: BlockVal := BlockVal(2, L.EqualLayout, [Related(1, [Equal])])

  /** Items 1 and 2 are live children of a live root 0. */
  predicate SiblingsUnderRoot(w: World) {
    && 0 in w.items && 1 in w.items && 2 in w.items
    && w.items[1].parent == Some(0) && w.items[2].parent == Some(0)
  }

  /** The owner gives item 1 the source rect. */
  lemma OwnerLaidOut(w: World, src: Rect)
    requires SiblingsUnderRoot(w)
    ensures Layoutable(ItemsOf(BlockNode(Owner)), w)
    ensures LayoutNode(BlockNode(Owner), w, Some(src), PlainEnv) == WithFrame(w, 1, src)
  {
    assert ActiveOnly(Owner.constraints, w) == [];
    assert BlockFrame(Owner, w, src, PlainEnv) == src;
  }

  /** The reader's frame is item 1's current frame. */
  lemma RelReaderCopiesItem1(w: World, src: Rect)
    requires SiblingsUnderRoot(w)
    ensures Attached(w, 2)
    ensures BlockFrame(RelReader, w, src, PlainEnv) == w.items[1].frame
  {
    assert ActiveOnly(RelReader.constraints, w) == RelReader.constraints;
  }

  /** Owner first: item 2 reads the frame item 1 was just given. */
  lemma RelatedAfterOwnerReadsNewFrame(w: World, src: Rect)
    requires SiblingsUnderRoot(w)
    ensures Layoutable(ItemsOfSeq([BlockNode(Owner), BlockNode(RelReader)]), w)
    ensures LayoutNodes([BlockNode(Owner), BlockNode(RelReader)], w, Some(src), PlainEnv).items[1].frame == src
    ensures LayoutNodes([BlockNode(Owner), BlockNode(RelReader)], w, Some(src), PlainEnv).items[2].frame == src
  {
    var w1 := WithFrame(w, 1, src);
    assert SiblingsUnderRoot(w1);
    assert LayoutNode(BlockNode(Owner), w, Some(src), PlainEnv) == w1 by {
      OwnerLaidOut(w, src);
    }
    assert BlockFrame(RelReader, w1, src, PlainEnv) == src by {
      RelReaderCopiesItem1(w1, src);
    }
    LayoutPair(BlockNode(Owner), BlockNode(RelReader), w, Some(src), PlainEnv);
  }

  /** Reader first: item 2 reads item 1's frame from before the pass. */
  lemma RelatedBeforeOwnerReadsOldFrame(w: World, src: Rect)
    requires SiblingsUnderRoot(w)
    ensures Layoutable(ItemsOfSeq([BlockNode(RelReader), BlockNode(Owner)]), w)
    ensures LayoutNodes([BlockNode(RelReader), BlockNode(Owner)], w, Some(src), PlainEnv).items[1].frame == src
    ensures LayoutNodes([BlockNode(RelReader), BlockNode(Owner)], w, Some(src), PlainEnv).items[2].frame
         == w.items[1].frame
  {
    var w1 := LayoutNode(BlockNode(RelReader), w, Some(src), PlainEnv);
    assert w1.items[2].frame == w.items[1].frame by {
      RelReaderCopiesItem1(w, src);
    }
    assert SiblingsUnderRoot(w1);
    assert LayoutNode(BlockNode(Owner), w1, Some(src), PlainEnv) == WithFrame(w1, 1, src) by {
      OwnerLaidOut(w1, src);
    }
    LayoutPair(BlockNode(RelReader), BlockNode(Owner), w, Some(src), PlainEnv);
  }

  /** In the two-item world, the order of the two blocks decides item 2's frame. */
  lemma RelatedOrderMatters()
    ensures Layoutable(ItemsOfSeq([BlockNode(Owner), BlockNode(RelReader)]), TwoItems)
    ensures Layoutable(ItemsOfSeq([BlockNode(RelReader), BlockNode(Owner)]), TwoItems)
    ensures LayoutNodes([BlockNode(Owner), BlockNode(RelReader)], TwoItems, Some(Available), PlainEnv).items[2].frame
         != LayoutNodes([BlockNode(RelReader), BlockNode(Owner)], TwoItems, Some(Available), PlainEnv).items[2].frame
  {
    assert SiblingsUnderRoot(TwoItems);
    RelatedAfterOwnerReadsNewFrame(TwoItems, Available);
    RelatedBeforeOwnerReadsOldFrame(TwoItems, Available);
  }
}
