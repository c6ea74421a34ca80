# ASCollectionView table core, in Dafny

This project models three deterministic parts of ASCollectionView, the SwiftUI wrapper
around Texture's table and collection nodes, and proves what they promise.

- **The table-view coordinator** (`ASDKTableView.Coordinator`). It reconciles three views of the
  selection:
  - the selection bindings of the section data sources;
  - the rows the native table view has selected;
  - the coordinator's shadow copy of the last merge.

  It also owns the edge-triggered "reached bottom" callback, the `hasDoneInitialSetup` gate in
  front of populating the data source and the drop-proposal decision. The coordinator is the
  class `TableCoordinator.Coordinator`.
  Its state is four of the source's private tracking fields (`hasDoneInitialSetup`,
  `shouldAnimateScrollPositionSet`, `selectedIndexPaths`, `hasAlreadyReachedBottom`), plus a call
  log. Every call it makes on a collaborator is appended to its
  `log` field as an `Effect`: the diffable data source, each section data source's
  `updateSelection(with:)`, the table view's select and deselect calls, and the parent's
  callback. The pure parts live in `TableSelection` and `TableDrop`.
- **The duplicate section identifier check** (`debugOnly_checkHasUniqueSections`, module
  `SectionIdentity`). It is a method of the `ASDKTableView` view itself, not of its
  coordinator, and is called when the view is updated.
- **Staged changeset application** (`ASTableNode.reload(using:...)`, module `StagedReload`).
  Both overloads are methods that return the table node's calls as a trace, in call order.
  `setData`, `reloadData` and `performBatchUpdates` are the top-level `Call`s. The calls made
  inside one batch's updates closure are that `PerformBatchUpdates`'s `Update`s. Each method
  is proved equal to a specification function (`ReloadTrace`, `StageUpdates`, ...). The
  lemmas then characterise that function: the window fall-back, the early exit on interrupt,
  one batch per stage, the fixed order of kinds inside a batch, empty sets skipped, and one
  move per pair.
- **The left-aligned flow layout** (`AlignedFlowLayout`). The base flow layout (`super`) is an
  input: the frame of each item it lays out and its content size. The layout itself is split
  in two:
  - `layoutAttributesForItem(at:)` is the recursive function `AlignedFrame`;
  - `layoutAttributesForElements(in:)` is a method that rewrites the frames of an array of
    `LayoutAttributes` objects in place.

  Coordinates are exact reals.

Module `Foundation` holds the shared `Option` and `IndexPath(section, item)` types.

Modelling decisions:

- `CGRect.intersects` is read as "the standardised rectangles overlap in a region of positive
  area" (`AlignedFlowLayout.Intersects`). Rectangles that only touch at an edge, and empty
  rectangles, do not intersect.
- A section data source is what the coordinator reads of it (`TableSelection.SectionSource`):
  its optional selected-indices binding and its `dropEnabled` flag.
  - `updateSelection(with:)` is recorded as an effect.
  - `TableSelection.WithDelivered` states the assumption that it stores what it was given in
    the binding. The section data source's code is not part of this model.
- The table view's `indexPathsForSelectedRows` is an input of type `Option<set<IndexPath>>`;
  `nil` reads as empty. The scroll view's content height, offset and frame height are the
  input `ScrollMetrics`. Whether the node has a window is a boolean input. The `interrupt`
  closure is an optional Dafny function.
- `setData` and the diffable data source are not modelled as state: their calls appear in
  the trace or the log.
- The trace records `setData(changeset.data)` inside a batch as `SetStageData`, and the
  fall-back's `setData` as the top-level `SetData`.

## Model

| member | source | states |
|---|---|---|
| TableSelection.SelectedInDataSource | Sources/ASCollectionView/Implementation/ASDKTableView.swift:566-574 | A path is in the data-source selection exactly when its section exists, has a binding, and that binding holds its item: the union over sections of `(offset, i)` for each bound index `i`. |
| TableSelection.UnboundSectionContributesNothing | Sources/ASCollectionView/Implementation/ASDKTableView.swift:570 | A section without a selection binding contributes no path, whatever its offset. |
| TableSelection.ThreeWayMerge | Sources/ASCollectionView/Implementation/ASDKTableView.swift:576-580 | The merge is one of the two sides, never a mixture. It differs from the live table view's selection only when the table view still shows the base, and then it is the data source's selection. |
| TableSelection.ThreeWayMergeKeepsChangedSide | Sources/ASCollectionView/Implementation/ASDKTableView.swift:576-580 | The merge takes the data source's selection while the table view equals the base, and the table view's otherwise. So the side that moved away from the base is kept, and when both moved the live table view wins. |
| TableSelection.SelectionDifferences | Sources/ASCollectionView/Implementation/ASDKTableView.swift:582-587 | Only selected rows are deselected and only unselected rows are selected. The two sets are disjoint. Deselecting and then selecting reaches the new selection. |
| TableSelection.SelectionDifferencesUnique | Sources/ASCollectionView/Implementation/ASDKTableView.swift:582-587 | Any diff that only deselects selected rows, only selects unselected ones and reaches the new selection equals `(old - new, new - old)`. |
| TableSelection.SelectionBySection | Sources/ASCollectionView/Implementation/ASDKTableView.swift:591-595 | The grouping has one entry per section offset. The entry for offset `k` holds exactly the items selected in section `k`, which is empty when the section has none. |
| TableSelection.ItemsInSection | Sources/ASCollectionView/Implementation/ASDKTableView.swift:591-595 | The items grouped under section `s` are exactly the items of the selected paths in section `s`. |
| TableSelection.BindingsReadBack | Sources/ASCollectionView/Implementation/ASDKTableView.swift:589-600 | Writing a selection into the bindings and reading the data-source selection back yields that selection, minus the paths whose section is missing or has no binding. Paths beyond the section count are delivered nowhere. |
| TableCoordinator.BindingUpdates | Sources/ASCollectionView/Implementation/ASDKTableView.swift:596-599 | There is one `updateSelection(with:)` per section, in offset order. Section `k` receives exactly its items of the selection. |
| TableCoordinator.AgreeingSelectionIsLeftAlone | Sources/ASCollectionView/Implementation/ASDKTableView.swift:552-556 | When the data source and the table view agree, `updateSelection` issues no call and leaves the shadow selection as it was. |
| TableCoordinator.ReconciledSelectionIsStable | Sources/ASCollectionView/Implementation/ASDKTableView.swift:552-607 | After a reconciling `updateSelection`, three things hold. The shadow is the merge. The table view, once it has applied the calls, shows the merge. The bindings, once they have stored what they were delivered, read back the merge. A second `updateSelection` against that state is therefore a no-op. This needs every row selected in the table view to lie in a bound section. |
| TableCoordinator.FiresOncePerEntry | Sources/ASCollectionView/Implementation/ASDKTableView.swift:817-832 | Over a run of scroll events from a cleared flag, the check fires at event `i` exactly when `i` is in the bottom zone and `i - 1` was not. So it fires once per entry into the zone and never again while the events stay in it. |
| TableCoordinator.Coordinator.constructor | Sources/ASCollectionView/Implementation/ASDKTableView.swift:125-135 | A new coordinator has not done its setup, does not animate the next scroll-position change, and has an empty shadow selection; nothing has been called. Its reached-bottom flag, declared with the bottom check at ASDKTableView.swift:817, starts clear. |
| TableCoordinator.Coordinator.PopulateDataSource | Sources/ASCollectionView/Implementation/ASDKTableView.swift:223-244 | Before the initial setup it does nothing. Afterwards it applies the snapshot with the given animation and remembers that animation for the next scroll-position change. |
| TableCoordinator.Coordinator.UpdateSelectionBindings | Sources/ASCollectionView/Implementation/ASDKTableView.swift:589-600 | It appends exactly `BindingUpdates(selection, sectionCount)` to the log. |
| TableCoordinator.Coordinator.UpdateSelectionInTableView | Sources/ASCollectionView/Implementation/ASDKTableView.swift:602-607 | It deselects all rows of the diff's deselect set and then selects all rows of its select set. Both use the same flag: the transaction has an animation and does not disable animations. |
| TableCoordinator.Coordinator.UpdateSelection | Sources/ASCollectionView/Implementation/ASDKTableView.swift:552-563 | If the data source and the table view agree, nothing changes. Otherwise the shadow becomes the three-way merge with the old shadow as base. The log then gains the per-section binding updates, followed by the deselections and the selections that move the table view to the merge. |
| TableCoordinator.Coordinator.UpdateContent | Sources/ASCollectionView/Implementation/ASDKTableView.swift:246-255 | Before the initial setup nothing changes. Afterwards it does three things. It repopulates, animated only when the parent animates data refreshes and the transaction animates. It updates the cell sizes with the transaction's animation. Then it reconciles the selection as `UpdateSelection` does. |
| TableCoordinator.Coordinator.CheckIfReachedBottom | Sources/ASCollectionView/Implementation/ASDKTableView.swift:817-832 | Afterwards the flag equals "in the bottom zone". The callback, when the parent has one, is called only on a transition from outside into the zone. |
| TableCoordinator.Coordinator.OnMoveToParent | Sources/ASCollectionView/Implementation/ASDKTableView.swift:322-329 | Once setup has been done, a call changes nothing. Otherwise it sets the flag, populates without animation, and checks for the bottom when a table view controller is present. |
| TableCoordinator.Coordinator.OnMoveFromParent | Sources/ASCollectionView/Implementation/ASDKTableView.swift:331-335 | It clears the setup flag, so the next `onMoveToParent` populates again, and tells the data source it disappeared. |
| TableDrop.CanDrop | Sources/ASCollectionView/Implementation/ASDKTableView.swift:616-620 | The result is false for an empty index path and for a section out of range. Otherwise it is exactly that section's `dropEnabled`. |
| TableDrop.DropSessionDidUpdate | Sources/ASCollectionView/Implementation/ASDKTableView.swift:622-640 | The proposal is copy exactly when this table view has no active drag. It is cancel exactly when there is an active drag and a destination that cannot take the drop. It is move exactly when there is an active drag and the destination is absent or droppable. It is never forbidden. Cancel carries the unspecified intent; copy and move insert at the destination. |
| SectionIdentity.CheckHasUniqueSections | Sources/ASCollectionView/Implementation/ASDKTableView.swift:94-110 | The conflicts found by the single pass are exactly the identifiers that occur at two different positions. |
| StagedReload.IndexSet | Sources/ASCollectionView/Datasource/ASTableNodeExtension.swift:91 | `IndexSet(offsets)` holds exactly the offsets listed. |
| StagedReload.RowIndexPaths | Sources/ASCollectionView/Datasource/ASTableNodeExtension.swift:107 | Each element path becomes the index path with row `element` and section `section`, in order, one for one. |
| StagedReload.SectionMoves | Sources/ASCollectionView/Datasource/ASTableNodeExtension.swift:102-104 | There is one `moveSection(source, toSection: target)` per moved pair, in order. |
| StagedReload.RowMoves | Sources/ASCollectionView/Datasource/ASTableNodeExtension.swift:118-120 | There is one `moveRow` per moved pair, in order. Each element maps to row and keeps its section. |
| StagedReload.IssueSectionMoves | Sources/ASCollectionView/Datasource/ASTableNodeExtension.swift:102-104 | The loop over the moved sections issues exactly `SectionMoves(moved)`. |
| StagedReload.IssueRowMoves | Sources/ASCollectionView/Datasource/ASTableNodeExtension.swift:118-120 | The loop over the moved elements issues exactly `RowMoves(moved)`. |
| StagedReload.PerformSectionUpdates | Sources/ASCollectionView/Datasource/ASTableNodeExtension.swift:90-104 | The section part of the updates closure issues exactly `SectionUpdates(cs, anim)`. |
| StagedReload.PerformRowUpdates | Sources/ASCollectionView/Datasource/ASTableNodeExtension.swift:106-120 | The row part of the updates closure issues exactly `RowUpdates(cs, anim)`. |
| StagedReload.PerformStageUpdates | Sources/ASCollectionView/Datasource/ASTableNodeExtension.swift:87-121 | The updates closure of one stage issues exactly `StageUpdates(cs, anim)`. |
| StagedReload.RunStages | Sources/ASCollectionView/Datasource/ASTableNodeExtension.swift:81-122 | The loop over the stages issues exactly `StagesFrom(staged, 0, ...)`. That is a batch update per stage until `interrupt` first returns true, and then the fall-back. |
| StagedReload.Reload | Sources/ASCollectionView/Datasource/ASTableNodeExtension.swift:65-123 | The trace equals `ReloadTrace`. With no window and at least one stage it is exactly `[SetData(last.data), ReloadData]`. With no stages it is empty, window or not. |
| StagedReload.ReloadWithAnimation | Sources/ASCollectionView/Datasource/ASTableNodeExtension.swift:28-45 | The single-animation overload issues the general overload's trace with the one animation in all six places. `interrupt` and the data pass through unchanged. Every animated call in the trace uses that animation. |
| StagedReload.InterruptedReload | Sources/ASCollectionView/Datasource/ASTableNodeExtension.swift:81-85 | If `interrupt` first returns true at stage `k`, the trace has three parts: the batches of stages `0` to `k - 1` in order, then `SetData(last.data), ReloadData`, then nothing. |
| StagedReload.UninterruptedReload | Sources/ASCollectionView/Datasource/ASTableNodeExtension.swift:81-122 | If `interrupt` never fires (or is absent), the trace is `Batches(staged)`. |
| StagedReload.OneBatchPerChangeset | Sources/ASCollectionView/Datasource/ASTableNodeExtension.swift:81-122 | `Batches` has exactly one batch update per changeset, and batch `i` holds the updates of changeset `i`. |
| StagedReload.StagesFromSplit | Sources/ASCollectionView/Datasource/ASTableNodeExtension.swift:81-86 | Without an interruption before stage `k`, the stages from `i` are the batches of stages `i` to `k - 1`, followed by the stages from `k`. |
| StagedReload.StageIsOrdered | Sources/ASCollectionView/Datasource/ASTableNodeExtension.swift:87-120 | A batch starts with `setData(changeset.data)`. It then follows the fixed order: section deletes, inserts, reloads and moves, then row deletes, inserts, reloads and moves. |
| StagedReload.SectionUpdatesOrdered | Sources/ASCollectionView/Datasource/ASTableNodeExtension.swift:90-104 | The section calls come in the order deletes, inserts, reloads, moves. |
| StagedReload.RowUpdatesOrdered | Sources/ASCollectionView/Datasource/ASTableNodeExtension.swift:106-120 | The row calls come in the order deletes, inserts, reloads, moves. |
| StagedReload.SectionKinds | Sources/ASCollectionView/Datasource/ASTableNodeExtension.swift:90-104 | Among the section calls, the calls of each kind are exactly that kind's piece. |
| StagedReload.RowKinds | Sources/ASCollectionView/Datasource/ASTableNodeExtension.swift:106-120 | Among the row calls, the calls of each kind are exactly that kind's piece. |
| StagedReload.StageCallsByKind | Sources/ASCollectionView/Datasource/ASTableNodeExtension.swift:87-120 | A batch holds the following and nothing else. It has one `setData` with the stage's data. Each delete/insert/reload kind has no call when its list is empty and one call otherwise, carrying the listed offsets or paths and that kind's animation. There is one move per moved section and one per moved element. |
| StagedReload.StageUsesOnly | Sources/ASCollectionView/Datasource/ASTableNodeExtension.swift:34-43 | With one animation forwarded to all six parameters, every animated call of a batch uses it. |
| StagedReload.StagesFromUsesOnly | Sources/ASCollectionView/Datasource/ASTableNodeExtension.swift:34-43 | The same holds for every batch of the stages from `i`. |
| StagedReload.ReloadUsesOnly | Sources/ASCollectionView/Datasource/ASTableNodeExtension.swift:28-45 | The same holds for the whole trace of the single-animation overload. |
| AlignedFlowLayout.LeftEdge | Sources/ASCollectionView/Layout/AlignedFlowLayout.swift:47-55 | The left edge is the section inset's left, plus the collection view's adjusted content inset's left when there is a collection view. |
| AlignedFlowLayout.ContentWidth | Sources/ASCollectionView/Layout/AlignedFlowLayout.swift:57-66 | The content width exists exactly when there is a collection view. Measured from the left edge, it ends at the frame width less the right content inset and the right section inset. |
| AlignedFlowLayout.ContentSize | Sources/ASCollectionView/Layout/AlignedFlowLayout.swift:68-71 | The content height is the base height. The width is the content width when there is a collection view, and the base width otherwise. |
| AlignedFlowLayout.IsSameLine | Sources/ASCollectionView/Layout/AlignedFlowLayout.swift:73-87 | The test is false without a content width. Otherwise it is the strict overlap (`Intersects`) of the current item's line with the aligned predecessor's frame. The line starts at the left edge, is the content width wide, and has the current item's y and height. So two items are only on one line when their vertical extents overlap. |
| AlignedFlowLayout.SameLineReadsOnlyRow | Sources/ASCollectionView/Layout/AlignedFlowLayout.swift:80-86 | The same-line test reads only the current item's y and height, never its x or width. |
| AlignedFlowLayout.AlignedFrame | Sources/ASCollectionView/Layout/AlignedFlowLayout.swift:89-115 | An item has a frame exactly when the base layout has one. Its y, width and height are the base layout's; only x changes. |
| AlignedFlowLayout.AlignmentRules | Sources/ASCollectionView/Layout/AlignedFlowLayout.swift:96-112 | The first item of a section, and an item without previous attributes, go to `leftEdge`. An item on its predecessor's line goes to the predecessor's aligned `maxX` plus the spacing. Any other item goes to `leftEdge`. |
| AlignedFlowLayout.ContentSizeRule | Sources/ASCollectionView/Layout/AlignedFlowLayout.swift:68-71 | The content height is always the base height. Without a collection view the width is the base width. With one, the width is `contentWidth`, which spans from `leftEdge` to the right insets. |
| AlignedFlowLayout.NoCollectionViewLeftAligns | Sources/ASCollectionView/Layout/AlignedFlowLayout.swift:57-79 | Without a collection view `contentWidth` is nil and no two items share a line, so every item sits at the section inset's left. |
| AlignedFlowLayout.NeverLeftOfEdge | Sources/ASCollectionView/Layout/AlignedFlowLayout.swift:96-112 | With non-negative spacing, no aligned item starts left of `leftEdge`. |
| AlignedFlowLayout.SameLineItemsDoNotOverlap | Sources/ASCollectionView/Layout/AlignedFlowLayout.swift:105-108 | An item placed on its predecessor's line starts at least the spacing to the right of where the aligned predecessor ends. |
| AlignedFlowLayout.OneLinePacksLeft | Sources/ASCollectionView/Layout/AlignedFlowLayout.swift:96-112 | When items `0..n` of a section all share a line, item `n` sits at `leftEdge` plus the widths of the items before it plus one spacing per gap. |
| AlignedFlowLayout.IgnoresBaseX | Sources/ASCollectionView/Layout/AlignedFlowLayout.swift:89-115 | The aligned frames never depend on the x the base layout chose. Two base layouts that differ only in their items' x give the same frames. |
| AlignedFlowLayout.AlignmentIsIdempotent | Sources/ASCollectionView/Layout/AlignedFlowLayout.swift:89-115 | Aligning frames that are already aligned changes nothing. |
| AlignedFlowLayout.FrameAfterAlignment | Sources/ASCollectionView/Layout/AlignedFlowLayout.swift:36-41 | A cell's frame becomes its aligned frame when the layout has one for it, and is kept otherwise. Supplementary and decoration views keep their frames. |
| AlignedFlowLayout.LayoutAttributesForElements | Sources/ASCollectionView/Layout/AlignedFlowLayout.swift:30-45 | The attributes come back as they were given, whether absent or the same array of objects. Afterwards each object's frame is `FrameAfterAlignment` of its old frame, assigned in place. |

## Left out

- Snapshot building, index titles and `refreshVisibleCells` in `populateDataSource`. These are shown only as one `ApplySnapshot` effect. The diffable data source and the cell nodes are not part of this model.
- Cell nodes, hosting controllers, supplementary views, swipe actions, context menus, prefetching, highlighting, and the forwarding of select and deselect events. They are platform plumbing outside the selection rules.
- The coordinator's `parent`, `tableViewController`, `dataSource` and height `cache` fields are not state of the model: the parent and the table view's metrics are inputs, and the diffable data source is assumed present. In the source `dataSource?` is optional-chained, so without a data source `populateDataSource`, `updateContent` and `onMoveFromParent` make no call; the model always logs `ApplySnapshot`, `UpdateCellSizes` and `DidDisappear`.
- `TableCoordinator.Coordinator.UpdateSelectionInTableView`: the source makes one `deselectRow` call per path and then one `selectRow` call per path, in the unspecified iteration order of a `Set`. The model groups each set's per-path calls into one `DeselectRows` and one `SelectRows` effect; their order within a set is not modelled.
- Drag items, `performDropWith` and `onMoveAction`. They call section data-source code that is not part of this model. Only the proposal decision is modelled.
- Keyboard handling, content insets, scroll-position application, content-size propagation and the refresh control. They are platform geometry and main-queue scheduling.
- The `print` of the duplicate-identifier warning. `SectionIdentity.CheckHasUniqueSections` returns the conflict set the warning would list.
- `@autoclosure` animation parameters are modelled as values: the animation expressions are assumed pure. In the source each is evaluated once per animated call, so an impure or non-deterministic expression could give different calls different animations, which `StagedReload.Uniform` cannot represent.
- `CGFloat` rounding. Coordinates are exact reals, and standardisation of negative widths follows Core Graphics.
- `AlignedFlowLayout.Intersects`: this is the strict-overlap reading of `CGRect.intersects`. Rectangles that only touch, and empty rectangles, do not count.
- `AlignedFlowLayout.AlignedFrame`: the result is not written into the base layout's cached attributes object. The frame is returned as a new value. `AlignedFlowLayout.IgnoresBaseX` and `AlignedFlowLayout.AlignmentIsIdempotent` show that the aligned frames never read the base x, so writing it back in place would give the same frames.
- `TableCoordinator.Coordinator.UpdateSelection`: the effects record calls. What the native table view and the section data sources do with them is stated as assumptions in `TableSelection.ApplyDiff` and `TableSelection.WithDelivered`, not checked.
- Negative indices: indices are `nat`. The selection bindings are assumed to hold non-negative indices, because `selectedIndexPathsInDataSource` maps the bound `Set<Int>` into index paths without a check. Section offsets, element paths and table-view index paths are non-negative. An index path with no indices is `TableDrop.EmptyPath`.
- `TableDrop.DropPath`: an index path with one index, or with three or more, is not modelled. Such a path passes the `isEmpty` guard of `canDrop` and then traps on `.section`. The table view only hands its drop delegate two-index paths.
