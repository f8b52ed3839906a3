# CGLayout in Dafny

A model of the layout core of CGLayout (`Sources/Classes/CGLayout.swift`), a
Swift library that computes item frames from rectangle rules instead of
solving linear constraints. The model has four layers.

- **Rect layouts** (`layouts.dfy`). `Layout`, `Layout.Alignment` and
  `Layout.Filling` are pure functions from an item rect and an available
  source rect to a new rect. The filling part runs first, then the alignment
  part. `Layout.equal`, `Layout.equal(_:)` and `AnyRectBasedLayout` are
  modelled too.
- **Constraints** (`anchors.dfy`). `LayoutAnchor` and the fold
  `CGRect.constrainedBy(rect:use:)` transform a source rect by a reference
  rect. The leading and trailing façades resolve to left and right
  primitives, depending on `Configuration.isRTLMode`.
- **Bound constraints** (`bindings.dfy`). `LayoutConstraint`,
  `AdjustLayoutConstraint`, `ContentLayoutConstraint`,
  `BaselineLayoutConstraint` and `MutableLayoutConstraint` refer to items
  by handle. Each is active only while its item is in a hierarchy, and it
  reads that item's frame or bounds, converted to the laid-out item's
  coordinate space.
- **Blocks and schemes** (`blocks.dfy`, `engine.dfy`). `LayoutBlock` and
  `LayoutScheme` walk a tree of blocks. They offer layout, snapshot (which
  computes frames without writing them), apply-snapshot, current rect and
  current snapshot. The blocks are Dafny classes, and the item tree they
  write is an `ItemStore` object (`items.dfy`) holding a value-level
  `World`. Every pass method is proved against a specification function.
  The laws that relate these functions are in `schemelaws.dfy`.

Items are map entries keyed by `ItemId`, and a missing key is a released
item (Swift's `weak` reference). The on/off state of a
`MutableLayoutConstraint` is a switch in the same world, so the world holds
all mutable state.

## Where snapshot-then-apply differs from layout

- **Snapshot then apply.** From the documentation of `snapshot(for:)` and
  `apply(snapshot:)` (lines 778-787 and 870-879), one would expect
  `apply(snapshot: snapshot(for: r))` to write the frames `layout(in: r)`
  writes. The code does so under two conditions:
  - every item appears once in the scheme;
  - every content or baseline constraint refers to an item that is not laid
    out in the same scheme.

  The reason is how a snapshot consults its ledger of already-computed
  frames (`constrainRects`). A content constraint that finds its item in
  the ledger uses that item's frame, converted from the item's own space,
  not its `layoutBounds`. A baseline constraint uses the ledger frame
  without the baseline shift. A direct layout reads bounds and baselines
  from the live items.

  `SchemeLaws.SnapshotThenApplyIsLayout` proves the law under exactly these
  hypotheses. `SchemeLaws.ContentConstraintBreaksRoundTrip` shows a two-block
  scheme where a block's content constraint on an earlier block makes
  apply-of-snapshot and layout give different frames.

## Model

| member | source | states |
|---|---|---|
| Geometry.Union | Sources/Classes/CGLayout.swift:899-903 | the scheme frame `union`: covers both rects, is covered by every rect that covers both, and has no negative size when neither input does |
| Layouts.AlignXApply | Sources/Classes/CGLayout.swift:1700-1742 | horizontal alignment changes only `origin.x`. Equal puts minX on the source's minX. Center puts midX on the source's midX plus the offset. Left puts minX at the source's minX plus the offset. Right puts maxX at the source's maxX minus the offset. A calculated rule's origin is the value it computes |
| Layouts.AlignYApply | Sources/Classes/CGLayout.swift:1763-1803 | the same rules vertically, with top and bottom, changing only `origin.y` |
| Layouts.FillSize | Sources/Classes/CGLayout.swift:1854-1895 | a filling dimension: equal takes the source's size, fixed takes its value, boxed takes the source's size minus the insets but never below 0, scaled takes the source's size times the scale, and a calculated rule takes the value it computes from the source |
| Layouts.ApplyFilling | Sources/Classes/CGLayout.swift:1815-1821 | filling keeps the origin and sets width and height by the horizontal and vertical rules |
| Layouts.ApplyAlignment | Sources/Classes/CGLayout.swift:1643-1646 | alignment keeps the size, and the result satisfies both the horizontal and the vertical placement rules |
| Layouts.LayoutRect | Sources/Classes/CGLayout.swift:1974-1988 | `Layout.equal` returns the source rect, and `Layout.equal(_:)` returns its constant rect |
| Layouts.FillingBeforeAlignment | Sources/Classes/CGLayout.swift:1616-1619 | a `Layout` gives the filled size, placed by the alignment rules measured with that filled size |
| Layouts.OverwritingLayoutIgnoresRect | Sources/Classes/CGLayout.swift:1616-1619 | a combined `Layout`, `Layout.equal` and a constant layout set all four fields, so they give the same result for any incoming item rect |
| Layouts.EqualPartsMakeEqualLayout | Sources/Classes/CGLayout.swift:1648 | equal alignment combined with equal filling gives exactly the source rect |
| Layouts.FixedLeftTopScenario | Sources/Classes/CGLayout.swift:1616-1619 | in source (0,0,300,100), left(10), top(5), fixed(50) and fixed(20) give the frame (10,5,50,20) |
| Layouts.LeadingTrailingResolution | Sources/Classes/CGLayout.swift:1741-1742 | leading means left and trailing means right in left-to-right mode; in right-to-left mode they swap |
| Layouts.LeadingX | Sources/Classes/CGLayout.swift:1742 | `Horizontal.leading(_:)`: a left or right rule with the given offset, left exactly in left-to-right mode |
| Layouts.TrailingX | Sources/Classes/CGLayout.swift:1741 | `Horizontal.trailing(_:)`: a left or right rule with the given offset, right exactly in left-to-right mode |
| Layouts.AxisAlign | Sources/Classes/CGLayout.swift:1650-1678 | an axis alignment keeps the rect's size on its axis |
| Layouts.AxisAlignMatchesNamedRules | Sources/Classes/CGLayout.swift:1650-1678 | axis leading, trailing and center (with an offset) coincide with left/top, right/bottom and center of the named alignments |
| Layouts.AlignmentAxesCommute | Sources/Classes/CGLayout.swift:1643-1646 | applying the vertical part before the horizontal part (the code's order) gives the same rect as the reverse order |
| Anchors.PhysicalEdge | Sources/Classes/CGLayout.swift:1086-1087 | resolving an edge never yields leading or trailing; left, right, top and bottom are fixed points |
| Anchors.Resolve | Sources/Classes/CGLayout.swift:1273-1592 | a façade builds a primitive with its own behaviour. Top and bottom work on the vertical axis and left and right on the horizontal axis. Top and left use the leading anchor, bottom and right the trailing one. An inner dependence works after a leading edge and before a trailing edge; an outer dependence works the other way. Leading and trailing are first resolved to their physical edge |
| Anchors.LeadingTrailingResolution | Sources/Classes/CGLayout.swift:1052-1216 | leading and trailing resolve to left and right in left-to-right mode and to right and left in right-to-left mode, for every behaviour and dependence |
| Anchors.DefaultConfigurationIsLeftToRight | Sources/Classes/CGLayout.swift:1962-1969 | under the default configuration, leading is left and trailing is right |
| Anchors.ResolveInjective | Sources/Classes/CGLayout.swift:1273-1592 | distinct physical façades resolve to distinct primitives |
| Anchors.CenterParts | Sources/Classes/CGLayout.swift:997-1004 | `Center.align(by:)` aggregates exactly two centre-anchored align primitives, on different axes |
| Anchors.Constrain | Sources/Classes/CGLayout.swift:949-1270 | equal copies the reference rect, and a constant gives its constant rect. A height (or width) anchor keeps the origin and the other dimension, and sets that dimension to the reference's times the multiplier. A baseline alignment keeps x, width and height, and puts the reference's maxY minus the text baseline at y |
| Anchors.ZeroCopiesReference | Sources/Classes/CGLayout.swift:1040 | the zero anchor (`equal`) makes the constrained rect equal to the reference, for any source |
| Anchors.ConstrainAll | Sources/Classes/CGLayout.swift:162-164 | `constrainedBy(rect:use:)` over a list of anchors: no anchors leave the source unchanged; a last `equal` gives the reference rect; a last constant gives its rect |
| Anchors.ConstrainAllAppend | Sources/Classes/CGLayout.swift:162-164 | folding `a + b` is folding `b` over the result of folding `a` |
| Anchors.ConstrainAllSmall | Sources/Classes/CGLayout.swift:162-164 | a two-anchor fold applies the first anchor, then the second |
| Anchors.ConstrainAllSnoc | Sources/Classes/CGLayout.swift:162-164 | appending an anchor applies it to the result of the fold |
| Anchors.EqualLastWins | Sources/Classes/CGLayout.swift:162-164 | whatever anchors come before, a final `equal` makes the result the reference rect |
| Anchors.OrderMatters | Sources/Classes/CGLayout.swift:162-164 | the fold is order-sensitive: swapping a constant anchor and a height anchor changes the result |
| Anchors.ConstrainPairs | Sources/Classes/CGLayout.swift:90-92 | the reduce over (rect, constraint) pairs: no pairs leave the source unchanged; a last `equal` pair gives that pair's rect; a last constant gives its rect |
| Anchors.LayoutWithPairs | Sources/Classes/CGLayout.swift:90-95 | `layout(rect:in:use:)`: with no pairs it is the plain layout in the source; an `equal` layout after a last `equal` pair gives that pair's rect |
| Anchors.PairsWithOneReference | Sources/Classes/CGLayout.swift:90-95 | folding (rect, constraint) pairs that share one reference rect equals `constrainedBy` over the constraints |
| Anchors.LayoutWithPairsIgnoresItemRect | Sources/Classes/CGLayout.swift:90-95 | constraints constrain the available source, not the item rect, so a layout that sets all four fields ignores the item's rect |
| Anchors.ApplyIn | Sources/Classes/CGLayout.swift:80-82 | `apply(for:in:use:)` sets the item's frame to the constrained layout of its old frame and leaves every other item and the hierarchy unchanged |
| Anchors.ApplyInParent | Sources/Classes/CGLayout.swift:71-73 | `apply(for:use:)` does the same in the parent's `layoutBounds`; the item must have a parent |
| Anchors.FillThenAlignIsLayout | Sources/Classes/CGLayout.swift:2016-2040 | `Alignment.apply(with:)` and `Filling.apply(with:)` (filling write, then alignment write) give the same world as one write of `Layout(alignment, filling)` |
| Bindings.IsActive | Sources/Classes/CGLayout.swift:389-613 | `isActive` of every constraint kind; an active constraint's target item is in a hierarchy |
| Bindings.IsIndependent | Sources/Classes/CGLayout.swift:391-563 | `isIndependent`: true exactly for adjust (size) constraints, looking through mutable wrappers |
| Bindings.Target | Sources/Classes/CGLayout.swift:395-397 | the item `layoutItem(is:)` matches, the innermost base's item for a mutable wrapper |
| Bindings.ActiveIsResolvable | Sources/Classes/CGLayout.swift:389-408 | an active constraint has a live item with a parent, so evaluating it never reaches the source's fatal error |
| Bindings.Convert | Sources/Classes/CGLayout.swift:425-429 | converting a rect from an item's space into the same item's space is the identity |
| Bindings.ConvertIfNeeded | Sources/Classes/CGLayout.swift:425-429 | a constraint that does not depend on coordinates (adjust) leaves the rect unconverted |
| Bindings.BaselineRect | Sources/Classes/CGLayout.swift:573-580 | the baseline reference keeps x and width, moves y down by the baseline position and has zero height |
| Bindings.ConstrainRect | Sources/Classes/CGLayout.swift:404-580 | the reference rect. Adjust uses the current rect. Related uses the item's frame, unconverted when the laid-out space is the item's parent. Content uses `layoutBounds`, unconverted when the space is the item itself. Baseline uses the frame's baseline line, unconverted in the parent's space |
| Bindings.SizeConstraints | Sources/Classes/CGLayout.swift:466-472 | the size anchors of an adjust constraint become one `Size` constraint each, in order |
| Bindings.SizesKeepOrigin | Sources/Classes/CGLayout.swift:468-472 | folding any size anchors keeps the source's origin |
| Bindings.FormConstrain | Sources/Classes/CGLayout.swift:415-417 | an adjust constraint keeps the origin, and a constraint with no anchors leaves the rect unchanged |
| Bindings.MutableIsTransparent | Sources/Classes/CGLayout.swift:630-651 | a mutable wrapper constrains, converts and targets exactly like its base; it is active exactly when its switch is on and the base is active |
| Bindings.SwitchDecidesActivity | Sources/Classes/CGLayout.swift:610-613 | setting the switch of a mutable constraint makes it active exactly when the flag is set and its base is active |
| Bindings.MakeMutable | Sources/Classes/CGLayout.swift:365-367 | `mutable(active:)` wraps the base with a fresh switch holding the initial state; nothing else in the world changes |
| Bindings.ActiveOnly | Sources/Classes/CGLayout.swift:767 | the active filter keeps exactly the active constraints, never more than the input |
| Bindings.ActiveOnlyAppend | Sources/Classes/CGLayout.swift:767 | the filter keeps order: filtering `a + b` gives the filtered `a` followed by the filtered `b` |
| Bindings.ActiveOnlySingle | Sources/Classes/CGLayout.swift:767 | one constraint is kept exactly when it is active, so with `ActiveOnlyAppend` the filter keeps the active constraints in order and with their multiplicity |
| Bindings.ItemFold | Sources/Classes/CGLayout.swift:767-769 | the live reduce over active constraints: no constraints leave the source unchanged, and size-only (independent) constraints keep its origin |
| Bindings.ActiveOnlyResolvable | Sources/Classes/CGLayout.swift:767 | every constraint left by the filter can be evaluated |
| Bindings.Lookup | Sources/Classes/CGLayout.swift:800 | the `first(where:)` search of the ledger: None exactly when the item has no entry; otherwise an entry for the item with that frame |
| Bindings.LedgerRef | Sources/Classes/CGLayout.swift:799-806 | in a snapshot, a coordinate-dependent constraint whose item is in the ledger uses the ledger frame, converted from that item's space; otherwise it uses the live reference |
| Bindings.LedgerFold | Sources/Classes/CGLayout.swift:799-807 | the snapshot reduce: no constraints leave the source unchanged, and size-only constraints keep its origin |
| Bindings.EmptyLedgerFold | Sources/Classes/CGLayout.swift:885-888 | with an empty ledger, the snapshot fold equals the live fold of layout |
| Bindings.IndependentIgnoresLedger | Sources/Classes/CGLayout.swift:800 | constraints that do not depend on coordinates give the same fold whatever the ledger holds |
| Items.ParentOf | Sources/Classes/CGLayout.swift:732 | the parent of an item in a hierarchy is a live item |
| Items.WithFrame | Sources/Classes/CGLayout.swift:820 | `item?.frame = r`: only the item's frame changes, and a released item leaves the world unchanged |
| Items.SameShapeAttached | Sources/Classes/CGLayout.swift:732 | frame writes never change whether an item is in a hierarchy, or who its parent is |
| Items.ItemStore.constructor | Sources/Classes/CGLayout.swift:186-199 | a store of items with no switches yet |
| Items.ItemStore.SetFrame | Sources/Classes/CGLayout.swift:820 | the store's world becomes `WithFrame` of the old one |
| Items.ItemStore.NewSwitch | Sources/Classes/CGLayout.swift:620-623 | a fresh switch with its initial state; items unchanged |
| Items.ItemStore.SetSwitch | Sources/Classes/CGLayout.swift:611 | the `isActive` setter: only that switch changes |
| Blocks.ItemsOfPrefix | Sources/Classes/CGLayout.swift:866-868 | the items of a prefix of a scheme are items of the scheme |
| Blocks.ItemsOfElem | Sources/Classes/CGLayout.swift:866-868 | the items of one block are items of the scheme |
| Blocks.LayoutableKept | Sources/Classes/CGLayout.swift:764-777 | a layout pass never takes an item out of its hierarchy |
| Blocks.BlockFrame | Sources/Classes/CGLayout.swift:767-769 | the frame block layout computes; when no constraint is active it is the plain layout of the item's frame in the source |
| Blocks.InactiveConstraintIgnored | Sources/Classes/CGLayout.swift:767 | an inactive constraint, wherever it stands in the list, leaves the block frame as if it were absent |
| Blocks.LayoutBlockStep | Sources/Classes/CGLayout.swift:764-777 | block layout sets its item's frame to `BlockFrame` in the given source, or in the parent's `layoutBounds` when none is given; nothing else changes, and a released item leaves the world unchanged |
| Blocks.SnapshotBlockFrame | Sources/Classes/CGLayout.swift:796-810 | the ledger-aware frame; when every active constraint is size-only it equals the frame layout computes, whatever the ledger |
| Blocks.EmptyLedgerSnapshot | Sources/Classes/CGLayout.swift:783-787 | `snapshot(for:)` (empty ledger) computes the frame that layout would write |
| Blocks.SnapshotWith | Sources/Classes/CGLayout.swift:885-888 | a snapshot with a given starting ledger: a block's is its ledger-aware frame with no children, equal to the layout frame for an empty ledger; a scheme's has one child per block and frame zero when empty |
| Blocks.SnapshotNode | Sources/Classes/CGLayout.swift:796-811 | a block's snapshot has no children, and the frame is pushed to the front of the ledger under the block's item; a scheme's has one child per block |
| Blocks.SnapshotNodes | Sources/Classes/CGLayout.swift:897-904 | one snapshot per block; the union frame is absent exactly when the scheme is empty |
| Blocks.SnapshotChildAt | Sources/Classes/CGLayout.swift:899-900 | the k-th child snapshot is computed with the ledger of the blocks before it (ledger threading) |
| Blocks.EndsWithTrans | Sources/Classes/CGLayout.swift:809 | extending the ledger only ever prepends entries |
| Blocks.SnapshotNodeLedger | Sources/Classes/CGLayout.swift:809 | a snapshot adds exactly the node's items to the ledger and keeps the old ledger as its tail |
| Blocks.SnapshotNodesLedger | Sources/Classes/CGLayout.swift:897-904 | a scheme snapshot adds exactly the scheme's items to the ledger and keeps the old ledger as its tail |
| Blocks.SnapshotFrameIsUnion | Sources/Classes/CGLayout.swift:901-903 | a non-empty scheme's snapshot frame covers every child frame and is the least such rect |
| Blocks.LayoutNode | Sources/Classes/CGLayout.swift:859-868 | layout of a block or scheme changes only the frames of its own items |
| Blocks.LayoutNodes | Sources/Classes/CGLayout.swift:866-868 | the blocks of a scheme, laid out in order, change only the frames of the scheme's items |
| Blocks.ApplyNode | Sources/Classes/CGLayout.swift:817-821 | applying a snapshot changes only the frames of the node's items |
| Blocks.ApplyNodes | Sources/Classes/CGLayout.swift:874-879 | the zip of blocks and child snapshots changes only the frames of the zipped blocks' items |
| Blocks.ApplyNodesStep | Sources/Classes/CGLayout.swift:875-878 | applying one more block is one more step of the zip |
| Blocks.CurrentRect | Sources/Classes/CGLayout.swift:751-754 | a block's current rect is its item's frame; a scheme's current rect covers every child's current rect and is covered by every rect that covers them all |
| Blocks.CurrentRectSeq | Sources/Classes/CGLayout.swift:852-855 | the union of the blocks' current rects covers each of them and is the least rect that does |
| Blocks.CurrentSnapshot | Sources/Classes/CGLayout.swift:839-846 | a block's current snapshot is its item's frame with no children; a scheme's has its current rect as frame and, for each block, that block's current rect as a childless snapshot |
| Engine.LayoutBlock.constructor | Sources/Classes/CGLayout.swift:756-760 | the block keeps its item, layout and constraints |
| Engine.LayoutBlock.IsActive | Sources/Classes/CGLayout.swift:732 | a block is active only if its item exists and has a live parent; in a world a layout pass accepts, every block whose item exists is active |
| Engine.LayoutBlock.SetLayout | Sources/Classes/CGLayout.swift:734-738 | `setLayout` replaces the layout and keeps the constraints |
| Engine.LayoutBlock.SetConstraints | Sources/Classes/CGLayout.swift:740-744 | `setConstraints` replaces the constraints and keeps the layout |
| Engine.LayoutBlock.Layout | Sources/Classes/CGLayout.swift:764-777 | the world becomes `LayoutBlockStep` of the old world |
| Engine.LayoutBlock.Snapshot | Sources/Classes/CGLayout.swift:783-787 | returns the block frame that layout would compute in the source rect |
| Engine.LayoutBlock.SnapshotInto | Sources/Classes/CGLayout.swift:796-811 | returns the ledger-aware frame and the ledger with `(item, frame)` in front |
| Engine.LayoutBlock.Apply | Sources/Classes/CGLayout.swift:817-821 | writes the snapshot's frame to the item |
| Engine.NodesValue | Sources/Classes/CGLayout.swift:835 | reading a scheme's settings gives one value per block |
| Engine.NodeIsActive | Sources/Classes/CGLayout.swift:836 | a member is active exactly when some block reachable from it is active |
| Engine.FilterActive | Sources/Classes/CGLayout.swift:915 | keeps exactly the active blocks, never more than the input |
| Engine.FilterActiveAppend | Sources/Classes/CGLayout.swift:915 | the filter keeps order: filtering `a + b` gives the filtered `a` followed by the filtered `b` |
| Engine.FilterActiveSingle | Sources/Classes/CGLayout.swift:915 | one block is kept exactly when it is active, so with `FilterActiveAppend` the filter keeps the active blocks in order and with their multiplicity |
| Engine.SchemeActiveIffSomeKept | Sources/Classes/CGLayout.swift:836 | a scheme is active exactly when filtering its blocks keeps at least one |
| Engine.LayoutBlockM | Sources/Classes/CGLayout.swift:764-777 | a block's layout pass ends in `LayoutBlockStep` |
| Engine.LayoutNodeM | Sources/Classes/CGLayout.swift:859-868 | a node's layout pass ends in `LayoutNode` |
| Engine.LayoutSeqM | Sources/Classes/CGLayout.swift:866-868 | the loop over a scheme's blocks ends in `LayoutNodes` |
| Engine.SnapshotNodeM | Sources/Classes/CGLayout.swift:796-811 | computes `SnapshotNode` |
| Engine.SnapshotSeqM | Sources/Classes/CGLayout.swift:897-904 | the loop that threads the ledger computes `SnapshotNodes` |
| Engine.ApplyNodeM | Sources/Classes/CGLayout.swift:817-821 | an apply pass ends in `ApplyNode` |
| Engine.ApplySeqM | Sources/Classes/CGLayout.swift:874-879 | the zip loop ends in `ApplyNodes` |
| Engine.CurrentRectM | Sources/Classes/CGLayout.swift:751-754 | computes `CurrentRect` |
| Engine.CurrentRectSeqM | Sources/Classes/CGLayout.swift:852-855 | the union loop computes `CurrentRectSeq` |
| Engine.CurrentSnapshotM | Sources/Classes/CGLayout.swift:839-846 | computes `CurrentSnapshot` |
| Engine.CurrentChildrenM | Sources/Classes/CGLayout.swift:841-845 | the `blocks.map` loop: one childless snapshot per block holding its current rect, and the union of those rects as frame |
| Engine.LayoutScheme.constructor | Sources/Classes/CGLayout.swift:848-850 | the scheme holds the given blocks |
| Engine.LayoutScheme.IsActive | Sources/Classes/CGLayout.swift:836 | `blocks.contains(where: { $0.isActive })`: the scheme is active exactly when it is active as a member, and exactly when `removeInactiveBlocks()` would keep a block |
| Engine.LayoutScheme.Layout | Sources/Classes/CGLayout.swift:859-868 | the world becomes `LayoutNodes` of the old world; the blocks are unchanged |
| Engine.LayoutScheme.Snapshot | Sources/Classes/CGLayout.swift:885-888 | the snapshot with an empty ledger; one child per block; frame zero for an empty scheme |
| Engine.LayoutScheme.SnapshotInto | Sources/Classes/CGLayout.swift:897-904 | computes `SnapshotNode` of the scheme with the given ledger |
| Engine.LayoutScheme.Apply | Sources/Classes/CGLayout.swift:874-879 | the world becomes `ApplyNodes` of the blocks zipped with the snapshot's children |
| Engine.LayoutScheme.CurrentRect | Sources/Classes/CGLayout.swift:852-855 | the union of the blocks' current rects, which covers every block's current rect |
| Engine.LayoutScheme.CurrentSnapshot | Sources/Classes/CGLayout.swift:839-846 | computes `CurrentSnapshot` of the scheme |
| Engine.LayoutScheme.InsertLayout | Sources/Classes/CGLayout.swift:906-910 | the block is inserted at the position; the blocks before and after it keep their order |
| Engine.LayoutScheme.RemoveInactiveBlocks | Sources/Classes/CGLayout.swift:912-916 | the blocks become the active ones among the old blocks |
| SchemeLaws.Overlay | Sources/Classes/CGLayout.swift:800 | the world with the ledger's frames written: where the ledger has an entry for an item, the first one is its frame; other items and the hierarchy are unchanged |
| SchemeLaws.NotInLedger | Sources/Classes/CGLayout.swift:800 | an item with no ledger entry is not found by the lookup |
| SchemeLaws.ActivityKept | Sources/Classes/CGLayout.swift:389 | frame writes change neither whether a constraint is active nor whether it can be evaluated |
| SchemeLaws.ActiveOnlyKept | Sources/Classes/CGLayout.swift:767 | frame writes do not change which constraints pass the active filter |
| SchemeLaws.LedgerRefIsOverlayRef | Sources/Classes/CGLayout.swift:799-806 | for related and adjust constraints, and for content and baseline constraints on items not yet laid out, the ledger reference equals the live reference in the overlaid world |
| SchemeLaws.LedgerFoldIsOverlayFold | Sources/Classes/CGLayout.swift:799-807 | the same for the whole constraint fold |
| SchemeLaws.SnapshotFrameIsOverlayFrame | Sources/Classes/CGLayout.swift:796-811 | a block's ledger-aware snapshot frame is the frame layout computes after the ledger's frames are written |
| SchemeLaws.ApplyNodesIgnoresExtra | Sources/Classes/CGLayout.swift:874-879 | surplus child snapshots are ignored by the zip |
| SchemeLaws.NodeRoundTrip | Sources/Classes/CGLayout.swift:796-821 | for a node with distinct items and safe constraints: layout and apply-of-snapshot, both starting from the ledger-overlaid world, end in the world overlaid with the snapshot's ledger |
| SchemeLaws.NodesRoundTrip | Sources/Classes/CGLayout.swift:866-904 | the same for a scheme's sequence of blocks |
| SchemeLaws.SnapshotThenApplyIsLayout | Sources/Classes/CGLayout.swift:866-904 | applying a scheme's snapshot gives the same world as laying it out, when items are distinct and content and baseline constraints refer outside the scheme |
| SchemeLaws.ExampleShape | Sources/Classes/CGLayout.swift:514-518 | the two-item example world is well formed |
| SchemeLaws.ExampleSnapshotOwner | Sources/Classes/CGLayout.swift:796-811 | the first block's snapshot in the example |
| SchemeLaws.ExampleSnapshotReader | Sources/Classes/CGLayout.swift:799-806 | the second block's snapshot reads the first block's ledger frame |
| SchemeLaws.ExampleSnapshot | Sources/Classes/CGLayout.swift:897-904 | in the example, the second child's snapshot frame is the whole available rect |
| SchemeLaws.ExampleLayout | Sources/Classes/CGLayout.swift:866-868 | in the example, direct layout gives the second item the first item's `layoutBounds` |
| SchemeLaws.ContentConstraintBreaksRoundTrip | Sources/Classes/CGLayout.swift:514-518 | a scheme with distinct items, whose content constraint refers inside the scheme, where apply-of-snapshot and layout give the second item different frames |
| SchemeLaws.LayoutPair | Sources/Classes/CGLayout.swift:866-868 | a two-block scheme lays out the first block, then the second in the world the first left |
| SchemeLaws.RelatedAfterOwnerReadsNewFrame | Sources/Classes/CGLayout.swift:866-868 | for sibling items 1 and 2, when a block laying out 1 in the source comes before a block whose `LayoutConstraint` (`equal`) refers to 1, item 2 gets item 1's new frame, the source rect |
| SchemeLaws.RelatedBeforeOwnerReadsOldFrame | Sources/Classes/CGLayout.swift:866-868 | with the two blocks swapped, item 2 gets item 1's frame from before the pass, while item 1 still ends at the source rect |
| SchemeLaws.RelatedOrderMatters | Sources/Classes/CGLayout.swift:866-868 | in the two-item world the two orders give item 2 different frames: block order within a scheme is significant |

## Left out

- The platform extensions (`CALayer`, `UIView`, `NSView`, `UILabel` and the others at lines 215-330) are not modelled. An item is a record with a frame, a parent and layout bounds.
- Coordinate conversion (`convert(rect:from:to:)`), `baselinePosition` and `sizeThatFits` are platform calls. They are function parameters of `Env`. The model knows only that converting within one item's space is the identity.
- The workspace primitives `LayoutWorkspace.Before/After/Center` (`align`, `limit`, `pull`), `ConstraintsAggregator`, `CGRect.apply(edgeInsets:)` and `_SizeThatFitsConstraint` are function parameters of `Env`. The model covers which primitive each façade selects, not the arithmetic the primitive performs.
- `StackLayoutScheme` is not part of this model.
- The `LayoutSnapshot` struct is not part of this model. Its role is played by the `Snapshot` datatype: a frame plus child snapshots.
- Main-thread requirements, `debugWarning` and `debugFatalError` messages are left out. The model is sequential.
- Engine.LayoutBlock.Apply: the debug `assert(isActive)` at line 818 is not made a precondition. The method behaves like a release build, writing the frame when the item is live.
- Fatal errors in the source become preconditions:
  - a snapshot of a block whose item has no parent (`AllAttached`);
  - evaluating a constraint on a released item, which active constraints never are (`ActiveIsResolvable`);
  - `currentRect`/`currentSnapshot` of a block with a released item, or of a scheme with no blocks (`Measurable`). An empty scheme's `currentSnapshot` would pass a nil frame, so it is excluded the same way.
- `inLayoutTime` is the live item. Its main-thread snapshot behaviour is not modelled.
- CGFloat is `real`. There is no rounding, NaN, infinity or normalisation of rects with negative sizes in `union`, `minX` and `maxX`.
- Items.WithFrame: an item's `layoutBounds` are not recomputed when its frame is written. In UIKit and AppKit the bounds size follows the frame size, and the model keeps bounds as independent data.
- `LayoutScheme` is a Swift struct held in a variable; here it is a class, and its `mutating` methods modify the object.
- Engine.LayoutScheme.Layout: each pass reads the blocks' settings once, at its start. A layout rule that changes a block's settings during the pass is not modelled.
- The `[LayoutConstraintProtocol]` overloads of `apply(for:use:)`, `apply(for:in:use:)` and `layout(rect:from:in:use:)` (lines 102-131) are modelled through block layout (`Blocks.LayoutBlockStep`), the only place the core uses them.
- SchemeLaws.SnapshotThenApplyIsLayout assumes distinct items, and content and baseline constraints that refer outside the scheme; without them the law fails (`SchemeLaws.ContentConstraintBreaksRoundTrip`), so it is weaker than the unconditional round trip.
- The example application's view controller is not part of this model.
