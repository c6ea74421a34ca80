/** The table-view coordinator's own state: the setup gate, the shadow selection and the
    reached-bottom flag. Everything the coordinator does to its collaborators (the diffable
    data source, the section data sources, the native table view, the parent's callback) is
    recorded as an `Effect` appended to `log`, in call order. */
module TableCoordinator {
  import opened Foundation
  import opened TableSelection

  /** The parts of the declarative parent the modelled code reads. */
  datatype Parent = Parent(sections: seq<SectionSource>, hasReachedBottomCallback: bool, animateOnDataRefresh: bool)

  /** A SwiftUI transaction: whether it carries an animation, and whether it disables animations. */
  datatype Transaction = Transaction(hasAnimation: bool, disablesAnimations: bool)

  /** `(transaction?.animation != nil) && !(transaction?.disablesAnimations ?? false)` */
  predicate AnimationEnabled(transaction: Option<Transaction>) {
    transaction.Some? && transaction.value.hasAnimation && !transaction.value.disablesAnimations
  }

  /** What the scroll view reports: content height, vertical content offset, frame height. */
  datatype ScrollMetrics = ScrollMetrics(contentHeight: real, offsetY: real, frameHeight: real)

  /** The bottom zone: what is left of the content below the offset fits in the frame. */
  predicate InBottomZone(m: ScrollMetrics) {
    m.contentHeight - m.offsetY <= m.frameHeight
  }

  datatype Effect =
    | ApplySnapshot(animated: bool)                        // populateDataSource: index titles, snapshot, visible cells
    | UpdateCellSizes(animated: bool)                      // dataSource.updateCellSizes
    | UpdateSectionSelection(section: nat, items: set<nat>) // section data source updateSelection(with:)
    | DeselectRows(paths: set<IndexPath>, animated: bool)  // deselectRow for each path
    | SelectRows(paths: set<IndexPath>, animated: bool)    // selectRow for each path
    | ReachedBottom                                        // parent's onReachedBottom callback
    | DidDisappear                                         // dataSource.didDisappear

  /** One `updateSelectionBindings` call: one delivery per section, in offset order. */
  function BindingUpdates(selection: set<IndexPath>, sectionCount: nat): (r: seq<Effect>)
    ensures |r| == sectionCount
    ensures forall k :: 0 <= k < sectionCount ==> r[k] == UpdateSectionSelection(k, ItemsInSection(selection, k))
  {
    var bySection := SelectionBySection(selection, sectionCount);
    seq(sectionCount, k requires 0 <= k < sectionCount => UpdateSectionSelection(k, bySection[k]))
  }

  /** The outcome of one `updateSelection`: the new shadow selection and the effects issued. */
  datatype SelectionUpdate = SelectionUpdate(shadow: set<IndexPath>, effects: seq<Effect>)

  /** `updateSelection`, as a function of the shadow selection, the sections, what the
      table view reports as selected (`nil` read as empty) and the transaction. */
  function SelectionUpdateFor(shadow: set<IndexPath>, sections: seq<SectionSource>,
                              tableViewSelected: Option<set<IndexPath>>, transaction: Option<Transaction>): SelectionUpdate
  {
    var inDataSource := SelectedInDataSource(sections);
    var inTableView := tableViewSelected.GetOr({});
    if inDataSource == inTableView then SelectionUpdate(shadow, [])
    else
      var merged := ThreeWayMerge(shadow, inDataSource, inTableView);
      var diff := SelectionDifferences(inTableView, merged);
      var animated := AnimationEnabled(transaction);
      SelectionUpdate(merged, BindingUpdates(merged, |sections|)
                              + [DeselectRows(diff.toDeselect, animated), SelectRows(diff.toSelect, animated)])
  }

  /** When the data source and the table view agree, `updateSelection` does nothing: it issues
      no call and does not even refresh the shadow selection. */
  lemma AgreeingSelectionIsLeftAlone(shadow: set<IndexPath>, sections: seq<SectionSource>,
                                     tableViewSelected: Option<set<IndexPath>>, transaction: Option<Transaction>)
    requires SelectedInDataSource(sections) == tableViewSelected.GetOr({})
    ensures SelectionUpdateFor(shadow, sections, tableViewSelected, transaction) == SelectionUpdate(shadow, [])
  {
  }

  /** After a reconciling `updateSelection` the table view (once it has applied the deselect and
      select calls) shows the merged selection, which the shadow now holds, and the bindings,
      once they store what they were delivered, read back the same selection -- provided every
      row the table view had selected lies in a section with a binding. So a second
      `updateSelection` against that new state is a no-op. */
  lemma ReconciledSelectionIsStable(shadow: set<IndexPath>, sections: seq<SectionSource>,
                                    inTableView: set<IndexPath>, transaction: Option<Transaction>)
    requires forall p :: p in inTableView ==> HasBinding(sections, p.section)
    requires SelectedInDataSource(sections) != inTableView
    ensures var u := SelectionUpdateFor(shadow, sections, Some(inTableView), transaction);
            var merged := ThreeWayMerge(shadow, SelectedInDataSource(sections), inTableView);
            var diff := SelectionDifferences(inTableView, merged);
            var sections' := WithDelivered(sections, SelectionBySection(merged, |sections|));
            && u.shadow == merged
            && ApplyDiff(inTableView, diff) == merged
            && SelectedInDataSource(sections') == merged
            && SelectionUpdateFor(u.shadow, sections', Some(ApplyDiff(inTableView, diff)), transaction)
               == SelectionUpdate(merged, [])
  {
    var inDataSource := SelectedInDataSource(sections);
    var merged := ThreeWayMerge(shadow, inDataSource, inTableView);
    BindingsReadBack(sections, merged);
    var readBack := set p | p in merged && HasBinding(sections, p.section);
    forall p | p in merged ensures p in readBack {
      if p in inDataSource {
        assert BindingSelects(sections, p);
      }
    }
  }

  /** Whether `checkIfReachedBottom` fires, and the flag it leaves, from the flag before. */
  datatype BottomCheck = BottomCheck(reached: bool, fires: bool)

  function BottomStep(alreadyReached: bool, m: ScrollMetrics): BottomCheck {
    if InBottomZone(m) then BottomCheck(true, !alreadyReached) else BottomCheck(false, false)
  }

  /** The flag after checking each of `ms` in turn, starting from `start`. */
  function ReachedAfter(start: bool, ms: seq<ScrollMetrics>): bool
    decreases |ms|
  {
    if ms == [] then start else BottomStep(ReachedAfter(start, ms[..|ms| - 1]), ms[|ms| - 1]).reached
  }

  /** Over a run of scroll events starting with the flag clear, the check at position `i`
      fires exactly when that event is in the bottom zone and the one before was not: once
      per entry into the zone, never while staying in it. */
  lemma {:induction false} FiresOncePerEntry(ms: seq<ScrollMetrics>, i: nat)
    requires i < |ms|
    ensures BottomStep(ReachedAfter(false, ms[..i]), ms[i]).fires
            <==> InBottomZone(ms[i]) && (i == 0 || !InBottomZone(ms[i - 1]))
  {
    if i > 0 {
      assert ms[..i][..i - 1] == ms[..i - 1];
      assert ms[..i][i - 1] == ms[i - 1];
    }
  }

  class Coordinator {
    var hasDoneInitialSetup: bool
    var shouldAnimateScrollPositionSet: bool
    var selectedIndexPaths: set<IndexPath>
    var hasAlreadyReachedBottom: bool
    var log: seq<Effect>

    constructor ()
      ensures !hasDoneInitialSetup && !shouldAnimateScrollPositionSet && !hasAlreadyReachedBottom
      ensures selectedIndexPaths == {} && log == []
    {
      hasDoneInitialSetup := false;
      shouldAnimateScrollPositionSet := false;
      selectedIndexPaths := {};
      hasAlreadyReachedBottom := false;
      log := [];
    }

    /** `populateDataSource`: a no-op before the initial setup; afterwards it applies the
        snapshot and remembers whether to animate the next scroll-position change. */
    method PopulateDataSource(animated: bool)
      modifies this`log, this`shouldAnimateScrollPositionSet
      ensures !hasDoneInitialSetup ==> log == old(log) && shouldAnimateScrollPositionSet == old(shouldAnimateScrollPositionSet)
      ensures hasDoneInitialSetup ==> log == old(log) + [ApplySnapshot(animated)] && shouldAnimateScrollPositionSet == animated
    {
      if !hasDoneInitialSetup {
        return;
      }
      log := log + [ApplySnapshot(animated)];
      shouldAnimateScrollPositionSet := animated;
    }

    /** `updateSelectionBindings`: delivers to each section offset its items of `selection`. */
    method UpdateSelectionBindings(selection: set<IndexPath>, sectionCount: nat)
      modifies this`log
      ensures log == old(log) + BindingUpdates(selection, sectionCount)
    {
      var bySection := SelectionBySection(selection, sectionCount);
      var offset := 0;
      while offset < sectionCount
        invariant 0 <= offset <= sectionCount
        invariant log == old(log) + BindingUpdates(selection, sectionCount)[..offset]
      {
        log := log + [UpdateSectionSelection(offset, bySection[offset])];
        offset := offset + 1;
      }
      assert BindingUpdates(selection, sectionCount)[..offset] == BindingUpdates(selection, sectionCount);
    }

    /** `updateSelectionInTableView`: all deselections, then all selections. */
    method UpdateSelectionInTableView(diff: SelectionDiff, transaction: Option<Transaction>)
      modifies this`log
      ensures log == old(log) + [DeselectRows(diff.toDeselect, AnimationEnabled(transaction)),
                                 SelectRows(diff.toSelect, AnimationEnabled(transaction))]
    {
      var animated := AnimationEnabled(transaction);
      log := log + [DeselectRows(diff.toDeselect, animated)];
      log := log + [SelectRows(diff.toSelect, animated)];
    }

    /** `updateSelection`: when the data source and the table view disagree, merge the two
        with the shadow selection as base, store the merge as the new shadow, write it to the
        bindings and move the table view to it. */
    method UpdateSelection(sections: seq<SectionSource>, tableViewSelected: Option<set<IndexPath>>,
                           transaction: Option<Transaction>)
      modifies this`selectedIndexPaths, this`log
      ensures var u := SelectionUpdateFor(old(selectedIndexPaths), sections, tableViewSelected, transaction);
              selectedIndexPaths == u.shadow && log == old(log) + u.effects
    {
      var selectedInDataSource := SelectedInDataSource(sections);
      var selectedInTableView := tableViewSelected.GetOr({});
      if selectedInDataSource == selectedInTableView {
        return;
      }
      var newSelection := ThreeWayMerge(selectedIndexPaths, selectedInDataSource, selectedInTableView);
      var diff := SelectionDifferences(selectedInTableView, newSelection);
      selectedIndexPaths := newSelection;
      UpdateSelectionBindings(newSelection, |sections|);
      UpdateSelectionInTableView(diff, transaction);
    }

    /** `updateContent`: a no-op before the initial setup; afterwards it repopulates (animated
        only when the parent animates refreshes and the transaction animates), updates the
        cell sizes and reconciles the selection. */
    method UpdateContent(parent: Parent, tableViewSelected: Option<set<IndexPath>>, transaction: Option<Transaction>)
      modifies this`log, this`shouldAnimateScrollPositionSet, this`selectedIndexPaths
      ensures !old(hasDoneInitialSetup) ==> log == old(log) && unchanged(this)
      ensures old(hasDoneInitialSetup) ==>
                var animated := AnimationEnabled(transaction);
                var u := SelectionUpdateFor(old(selectedIndexPaths), parent.sections, tableViewSelected, transaction);
                && shouldAnimateScrollPositionSet == (parent.animateOnDataRefresh && animated)
                && selectedIndexPaths == u.shadow
                && log == old(log) + [ApplySnapshot(parent.animateOnDataRefresh && animated), UpdateCellSizes(animated)] + u.effects
    {
      if !hasDoneInitialSetup {
        return;
      }
      var animated := AnimationEnabled(transaction);
      ghost var before := log;
      PopulateDataSource(parent.animateOnDataRefresh && animated);
      log := log + [UpdateCellSizes(animated)];
      assert log == before + [ApplySnapshot(parent.animateOnDataRefresh && animated), UpdateCellSizes(animated)];
      UpdateSelection(parent.sections, tableViewSelected, transaction);
    }

    /** `checkIfReachedBottom`: fires the callback (when the parent has one) on entering the
        bottom zone, stays quiet while in it, and clears the flag on leaving it. */
    method CheckIfReachedBottom(m: ScrollMetrics, hasCallback: bool)
      modifies this`hasAlreadyReachedBottom, this`log
      ensures var step := BottomStep(old(hasAlreadyReachedBottom), m);
              hasAlreadyReachedBottom == step.reached
              && log == old(log) + (if step.fires && hasCallback then [ReachedBottom] else [])
      ensures hasAlreadyReachedBottom == InBottomZone(m)
    {
      if m.contentHeight - m.offsetY <= m.frameHeight {
        if !hasAlreadyReachedBottom {
          hasAlreadyReachedBottom := true;
          if hasCallback {
            log := log + [ReachedBottom];
          }
        }
      } else {
        hasAlreadyReachedBottom := false;
      }
    }

    /** `onMoveToParent`: the first call after construction or after `onMoveFromParent` sets
        the flag, populates without animation and checks for the bottom when a table view
        controller is attached (`view`); any later call does nothing. */
    method OnMoveToParent(parent: Parent, view: Option<ScrollMetrics>)
      modifies this`hasDoneInitialSetup, this`shouldAnimateScrollPositionSet, this`hasAlreadyReachedBottom, this`log
      ensures hasDoneInitialSetup
      ensures old(hasDoneInitialSetup) ==> unchanged(this)
      ensures !old(hasDoneInitialSetup) ==>
                && !shouldAnimateScrollPositionSet
                && match view
                   case None =>
                     hasAlreadyReachedBottom == old(hasAlreadyReachedBottom) && log == old(log) + [ApplySnapshot(false)]
                   case Some(m) =>
                     var step := BottomStep(old(hasAlreadyReachedBottom), m);
                     && hasAlreadyReachedBottom == step.reached
                     && log == old(log) + [ApplySnapshot(false)]
                                        + (if step.fires && parent.hasReachedBottomCallback then [ReachedBottom] else [])
    {
      if hasDoneInitialSetup {
        return;
      }
      hasDoneInitialSetup := true;
      PopulateDataSource(false);
      if view.Some? {
        CheckIfReachedBottom(view.value, parent.hasReachedBottomCallback);
      }
    }

    /** `onMoveFromParent`: clears the setup flag and tells the data source it disappeared. */
    method OnMoveFromParent()
      modifies this`hasDoneInitialSetup, this`log
      ensures !hasDoneInitialSetup && log == old(log) + [DidDisappear]
    {
      hasDoneInitialSetup := false;
      log := log + [DidDisappear];
    }
  }
}
