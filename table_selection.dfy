/** Selection reconciliation of the table-view coordinator: the pure parts.
    Three sources say which rows are selected: the selection bindings of the section data
    sources, the live table view, and the coordinator's own shadow copy of the last merge. */
module TableSelection {
  import opened Foundation

  /** What the coordinator reads of one section's data source: its selected-indices binding
      (absent when the section was given none) and whether it accepts drops. */
  datatype SectionSource = SectionSource(selectedIndices: Option<set<nat>>, dropEnabled: bool)

  /** Section `s` exists and carries a selection binding. */
  predicate HasBinding(sections: seq<SectionSource>, s: nat) {
    s < |sections| && sections[s].selectedIndices.Some?
  }

  /** The binding of section `p.section` holds `p.item`. */
  predicate BindingSelects(sections: seq<SectionSource>, p: IndexPath) {
    HasBinding(sections, p.section) && p.item in sections[p.section].selectedIndices.value
  }

  /** The index paths one section contributes: `(offset, i)` for each bound index `i`. */
  function SectionPaths(section: SectionSource, offset: nat): set<IndexPath> {
    match section.selectedIndices
    case None => {}
    case Some(indices) => set i | i in indices :: IndexPath(offset, i)
  }

  /** `selectedIndexPathsInDataSource`: a left fold over the enumerated sections that unions
      each section's bound indices, paired with the section's offset. */
  function SelectedInDataSource(sections: seq<SectionSource>): (r: set<IndexPath>)
    ensures forall p :: p in r <==> BindingSelects(sections, p)
    decreases |sections|
  {
    if sections == [] then {}
    else
      var n := |sections| - 1;
      var earlier := SelectedInDataSource(sections[..n]);
      assert forall p :: BindingSelects(sections[..n], p) <==> p.section < n && BindingSelects(sections, p);
      earlier + SectionPaths(sections[n], n)
  }

  /** A section without a binding contributes nothing, whatever its position. */
  lemma UnboundSectionContributesNothing(sections: seq<SectionSource>, s: nat, i: nat)
    requires s < |sections| && sections[s].selectedIndices.None?
    ensures IndexPath(s, i) !in SelectedInDataSource(sections)
  {
  }

  /** `threeWayMerge`: take the data source's selection while the table view still shows the
      base; as soon as the table view differs from the base, take the table view's. */
  function ThreeWayMerge(base: set<IndexPath>, dataSource: set<IndexPath>, tableView: set<IndexPath>): (r: set<IndexPath>)
    ensures r == dataSource || r == tableView
    ensures r != tableView ==> tableView == base && r == dataSource
  {
    if base == tableView then dataSource else tableView
  }

  /** The merge keeps whichever side moved away from the base; when both moved, the live
      table view wins; when neither moved, the base is kept. */
  lemma ThreeWayMergeKeepsChangedSide(base: set<IndexPath>, dataSource: set<IndexPath>, tableView: set<IndexPath>)
    ensures dataSource == base ==> ThreeWayMerge(base, dataSource, tableView) == tableView
    ensures tableView == base ==> ThreeWayMerge(base, dataSource, tableView) == dataSource
    ensures dataSource != base && tableView != base ==> ThreeWayMerge(base, dataSource, tableView) == tableView
    ensures dataSource == tableView ==> ThreeWayMerge(base, dataSource, tableView) == tableView
  {
  }

  /** The rows to deselect and to select to move a table view from one selection to another. */
  datatype SelectionDiff = SelectionDiff(toDeselect: set<IndexPath>, toSelect: set<IndexPath>)

  /** Applying a diff: deselect first, then select. */
  function ApplyDiff(current: set<IndexPath>, d: SelectionDiff): set<IndexPath> {
    (current - d.toDeselect) + d.toSelect
  }

  /** `selectionDifferences`: only selected rows are deselected, only unselected rows are
      selected, no row is both, and applying the diff reaches the new selection. */
  function SelectionDifferences(oldSelected: set<IndexPath>, newSelected: set<IndexPath>): (d: SelectionDiff)
    ensures d.toDeselect <= oldSelected && d.toSelect !! oldSelected
    ensures d.toDeselect !! d.toSelect
    ensures ApplyDiff(oldSelected, d) == newSelected
  {
    SelectionDiff(oldSelected - newSelected, newSelected - oldSelected)
  }

  /** Those three properties pin the diff down: it is the only one that has them. */
  lemma SelectionDifferencesUnique(oldSelected: set<IndexPath>, newSelected: set<IndexPath>, d: SelectionDiff)
    requires d.toDeselect <= oldSelected && d.toSelect !! oldSelected
    requires ApplyDiff(oldSelected, d) == newSelected
    ensures d == SelectionDifferences(oldSelected, newSelected)
  {
    var e := SelectionDifferences(oldSelected, newSelected);
    forall p | p in d.toDeselect ensures p in e.toDeselect {
      assert p in oldSelected && p !in d.toSelect;
    }
    forall p | p in e.toDeselect ensures p in d.toDeselect {
      assert p in oldSelected && p !in newSelected;
    }
    assert d.toDeselect == e.toDeselect;
    forall p | p in d.toSelect ensures p in e.toSelect {
      assert p in newSelected && p !in oldSelected;
    }
    forall p | p in e.toSelect ensures p in d.toSelect {
      assert p in newSelected && p !in oldSelected;
    }
    assert d.toSelect == e.toSelect;
  }

  /** `updateSelectionBindings`' grouping: the items of `selection` in each section offset
      below `sectionCount`, the empty set for a section that has none; paths of sections at
      or beyond `sectionCount` are delivered nowhere. */
  function SelectionBySection(selection: set<IndexPath>, sectionCount: nat): (r: seq<set<nat>>)
    ensures |r| == sectionCount
    ensures forall k, i :: 0 <= k < sectionCount ==> (i in r[k] <==> IndexPath(k, i) in selection)
  {
    seq(sectionCount, (k: nat) => ItemsInSection(selection, k))
  }

  /** The items `selection` holds in section `s`. */
  function ItemsInSection(selection: set<IndexPath>, s: nat): (r: set<nat>)
    ensures forall i :: i in r <==> IndexPath(s, i) in selection
  {
    var r := set p | p in selection && p.section == s :: p.item;
    assert forall i :: IndexPath(s, i) in selection ==> IndexPath(s, i).item in r;
    r
  }

  /** The sections after each one with a binding has stored what it was delivered
      (a section data source's `updateSelection(with:)` is taken to write its binding;
      a section without a binding keeps having none). */
  function WithDelivered(sections: seq<SectionSource>, delivered: seq<set<nat>>): (r: seq<SectionSource>)
    requires |delivered| == |sections|
    ensures |r| == |sections|
  {
    seq(|sections|, k requires 0 <= k < |sections| =>
      if sections[k].selectedIndices.Some? then sections[k].(selectedIndices := Some(delivered[k])) else sections[k])
  }

  /** Writing a selection into the bindings and reading it back yields that selection,
      minus the paths whose section is missing or has no binding. */
  lemma BindingsReadBack(sections: seq<SectionSource>, selection: set<IndexPath>)
    ensures SelectedInDataSource(WithDelivered(sections, SelectionBySection(selection, |sections|)))
         == set p | p in selection && HasBinding(sections, p.section)
  {
    var delivered := SelectionBySection(selection, |sections|);
    var after := WithDelivered(sections, delivered);
    var expected := set p | p in selection && HasBinding(sections, p.section);
    forall p ensures p in SelectedInDataSource(after) <==> p in expected {
      if p.section < |sections| {
        assert HasBinding(after, p.section) <==> HasBinding(sections, p.section);
        if HasBinding(sections, p.section) {
          assert after[p.section].selectedIndices.value == delivered[p.section];
        }
      }
    }
  }
}
