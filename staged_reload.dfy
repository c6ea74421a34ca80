/** `ASTableNode.reload(using:...)`: applying a staged changeset to a table node, one batch
    update per stage, with a fall-back to "set the final data and reload everything". The
    table node's calls are recorded as a trace, in call order: the top-level calls (`setData`,
    `reloadData`, `performBatchUpdates`) as `Call`s, and the calls made inside one
    `performBatchUpdates` closure as that call's `Update`s. */
module StagedReload {
  import opened Foundation

  /** `UITableView.RowAnimation`, carried as a tag. */
  datatype RowAnimation = Fade | Right | Left | Top | Bottom | NoAnimation | Middle | Automatic

  /** A DifferenceKit element path: the element's offset and its section's offset. */
  datatype ElementPath = ElementPath(element: nat, section: nat)

  /** One stage of a staged changeset: the data after the stage and the changes that lead there. */
  datatype Changeset<C> = Changeset(
    data: C,
    sectionDeleted: seq<nat>,
    sectionInserted: seq<nat>,
    sectionUpdated: seq<nat>,
    sectionMoved: seq<(nat, nat)>,
    elementDeleted: seq<ElementPath>,
    elementInserted: seq<ElementPath>,
    elementUpdated: seq<ElementPath>,
    elementMoved: seq<(ElementPath, ElementPath)>)

  /** The six animation parameters of the general overload. */
  datatype Animations = Animations(
    deleteSections: RowAnimation, insertSections: RowAnimation, reloadSections: RowAnimation,
    deleteRows: RowAnimation, insertRows: RowAnimation, reloadRows: RowAnimation)

  /** The single-animation overload forwards one value to all six parameters. */
  function Uniform(animation: RowAnimation): Animations {
    Animations(animation, animation, animation, animation, animation, animation)
  }

  /** A call made inside the updates closure of one batch update. */
  datatype Update<C> =
    | SetStageData(data: C)
    | DeleteSections(sections: set<nat>, animation: RowAnimation)
    | InsertSections(sections: set<nat>, animation: RowAnimation)
    | ReloadSections(sections: set<nat>, animation: RowAnimation)
    | MoveSection(sourceSection: nat, targetSection: nat)
    | DeleteRows(rows: seq<IndexPath>, animation: RowAnimation)
    | InsertRows(rows: seq<IndexPath>, animation: RowAnimation)
    | ReloadRows(rows: seq<IndexPath>, animation: RowAnimation)
    | MoveRow(sourceRow: IndexPath, targetRow: IndexPath)

  /** A top-level call on the table node during `reload`. */
  datatype Call<C> =
    | SetData(data: C)
    | ReloadData
    | PerformBatchUpdates(updates: seq<Update<C>>)

  /** `IndexSet(offsets)`: the offsets as a set. */
  function IndexSet(offsets: seq<nat>): (r: set<nat>)
    ensures forall k :: k in r <==> k in offsets
  {
    set k | k in offsets
  }

  /** `IndexPath(row: path.element, section: path.section)` for each element path, in order. */
  function RowIndexPaths(paths: seq<ElementPath>): (r: seq<IndexPath>)
    ensures |r| == |paths|
    ensures forall i :: 0 <= i < |paths| ==> r[i].section == paths[i].section && r[i].item == paths[i].element
  {
    seq(|paths|, i requires 0 <= i < |paths| => IndexPath(paths[i].section, paths[i].element))
  }

  function SectionDeletes<C>(cs: Changeset<C>, anim: Animations): seq<Update<C>> {
    if |cs.sectionDeleted| == 0 then [] else [DeleteSections(IndexSet(cs.sectionDeleted), anim.deleteSections)]
  }

  function SectionInserts<C>(cs: Changeset<C>, anim: Animations): seq<Update<C>> {
    if |cs.sectionInserted| == 0 then [] else [InsertSections(IndexSet(cs.sectionInserted), anim.insertSections)]
  }

  function SectionReloads<C>(cs: Changeset<C>, anim: Animations): seq<Update<C>> {
    if |cs.sectionUpdated| == 0 then [] else [ReloadSections(IndexSet(cs.sectionUpdated), anim.reloadSections)]
  }

  function SectionMoves<C>(moves: seq<(nat, nat)>): (r: seq<Update<C>>)
    ensures |r| == |moves|
    ensures forall i :: 0 <= i < |moves| ==> r[i] == MoveSection(moves[i].0, moves[i].1)
  {
    seq(|moves|, i requires 0 <= i < |moves| => MoveSection(moves[i].0, moves[i].1))
  }

  function RowDeletes<C>(cs: Changeset<C>, anim: Animations): seq<Update<C>> {
    if |cs.elementDeleted| == 0 then [] else [DeleteRows(RowIndexPaths(cs.elementDeleted), anim.deleteRows)]
  }

  function RowInserts<C>(cs: Changeset<C>, anim: Animations): seq<Update<C>> {
    if |cs.elementInserted| == 0 then [] else [InsertRows(RowIndexPaths(cs.elementInserted), anim.insertRows)]
  }

  function RowReloads<C>(cs: Changeset<C>, anim: Animations): seq<Update<C>> {
    if |cs.elementUpdated| == 0 then [] else [ReloadRows(RowIndexPaths(cs.elementUpdated), anim.reloadRows)]
  }

  function RowMoves<C>(moves: seq<(ElementPath, ElementPath)>): (r: seq<Update<C>>)
    ensures |r| == |moves|
    ensures forall i :: 0 <= i < |moves| ==>
              r[i] == MoveRow(IndexPath(moves[i].0.section, moves[i].0.element), IndexPath(moves[i].1.section, moves[i].1.element))
  {
    seq(|moves|, i requires 0 <= i < |moves| =>
      MoveRow(IndexPath(moves[i].0.section, moves[i].0.element), IndexPath(moves[i].1.section, moves[i].1.element)))
  }

  /** Section deletes, inserts and reloads, each only when there is something to do, then
      one move per moved section. */
  function SectionUpdates<C>(cs: Changeset<C>, anim: Animations): seq<Update<C>> {
    SectionDeletes(cs, anim) + SectionInserts(cs, anim) + SectionReloads(cs, anim) + SectionMoves(cs.sectionMoved)
  }

  /** Row deletes, inserts and reloads, each only when there is something to do, then one
      move per moved element. */
  function RowUpdates<C>(cs: Changeset<C>, anim: Animations): seq<Update<C>> {
    RowDeletes(cs, anim) + RowInserts(cs, anim) + RowReloads(cs, anim) + RowMoves(cs.elementMoved)
  }

  /** The calls of the updates closure for one stage: set the stage's data, then the section
      changes, then the row changes. */
  function StageUpdates<C>(cs: Changeset<C>, anim: Animations): seq<Update<C>> {
    [SetStageData(cs.data)] + SectionUpdates(cs, anim) + RowUpdates(cs, anim)
  }

  /** `interrupt` is given and returns true for this changeset. */
  predicate Interrupts<C>(interrupt: Option<Changeset<C> -> bool>, cs: Changeset<C>) {
    interrupt.Some? && interrupt.value(cs)
  }

  /** Set the last stage's data, then reload everything. */
  function Fallback<C>(staged: seq<Changeset<C>>): seq<Call<C>>
    requires |staged| > 0
  {
    [SetData(staged[|staged| - 1].data), ReloadData]
  }

  /** The stages from `i` on: a batch update each, until one interrupts. */
  function StagesFrom<C>(staged: seq<Changeset<C>>, i: nat, anim: Animations,
                         interrupt: Option<Changeset<C> -> bool>): seq<Call<C>>
    requires i <= |staged|
    decreases |staged| - i
  {
    if i == |staged| then []
    else if Interrupts(interrupt, staged[i]) then Fallback(staged)
    else [PerformBatchUpdates(StageUpdates(staged[i], anim))] + StagesFrom(staged, i + 1, anim, interrupt)
  }

  /** What one `reload` call issues: without a window and with at least one stage, only the
      fall-back; otherwise the stages in turn. */
  function ReloadTrace<C>(staged: seq<Changeset<C>>, anim: Animations,
                          interrupt: Option<Changeset<C> -> bool>, hasWindow: bool): seq<Call<C>>
  {
    if !hasWindow && |staged| > 0 then Fallback(staged) else StagesFrom(staged, 0, anim, interrupt)
  }

  /** The batch updates of a run of changesets. */
  function Batches<C>(css: seq<Changeset<C>>, anim: Animations): seq<Call<C>>
    decreases |css|
  {
    if |css| == 0 then [] else [PerformBatchUpdates(StageUpdates(css[0], anim))] + Batches(css[1..], anim)
  }

  // ---------------------------------------------------------------------------------------
  // The methods

  /** The updates closure passed to `performBatchUpdates` for one changeset. */
  method PerformStageUpdates<C>(cs: Changeset<C>, anim: Animations) returns (updates: seq<Update<C>>)
    ensures updates == StageUpdates(cs, anim)
  {
    updates := [SetStageData(cs.data)];
    var sectionCalls := PerformSectionUpdates(cs, anim);
    var rowCalls := PerformRowUpdates(cs, anim);
    updates := updates + sectionCalls + rowCalls;
  }

  method PerformSectionUpdates<C>(cs: Changeset<C>, anim: Animations) returns (updates: seq<Update<C>>)
    ensures updates == SectionUpdates(cs, anim)
  {
    updates := [];
    if |cs.sectionDeleted| != 0 {
      updates := updates + [DeleteSections(IndexSet(cs.sectionDeleted), anim.deleteSections)];
    }
    if |cs.sectionInserted| != 0 {
      updates := updates + [InsertSections(IndexSet(cs.sectionInserted), anim.insertSections)];
    }
    if |cs.sectionUpdated| != 0 {
      updates := updates + [ReloadSections(IndexSet(cs.sectionUpdated), anim.reloadSections)];
    }
    var moves := IssueSectionMoves(cs.sectionMoved);
    updates := updates + moves;
  }

  /** One `moveSection` call per moved pair, in order. */
  method IssueSectionMoves<C>(moved: seq<(nat, nat)>) returns (updates: seq<Update<C>>)
    ensures updates == SectionMoves(moved)
  {
    updates := [];
    var i := 0;
    while i < |moved|
      invariant 0 <= i <= |moved|
      invariant updates == SectionMoves(moved)[..i]
    {
      var (source, target) := moved[i];
      updates := updates + [MoveSection(source, target)];
      i := i + 1;
    }
    assert SectionMoves<C>(moved)[..i] == SectionMoves(moved);
  }

  method PerformRowUpdates<C>(cs: Changeset<C>, anim: Animations) returns (updates: seq<Update<C>>)
    ensures updates == RowUpdates(cs, anim)
  {
    updates := [];
    if |cs.elementDeleted| != 0 {
      updates := updates + [DeleteRows(RowIndexPaths(cs.elementDeleted), anim.deleteRows)];
    }
    if |cs.elementInserted| != 0 {
      updates := updates + [InsertRows(RowIndexPaths(cs.elementInserted), anim.insertRows)];
    }
    if |cs.elementUpdated| != 0 {
      updates := updates + [ReloadRows(RowIndexPaths(cs.elementUpdated), anim.reloadRows)];
    }
    var moves := IssueRowMoves(cs.elementMoved);
    updates := updates + moves;
  }

  /** One `moveRow` call per moved element path pair, in order. */
  method IssueRowMoves<C>(moved: seq<(ElementPath, ElementPath)>) returns (updates: seq<Update<C>>)
    ensures updates == RowMoves(moved)
  {
    updates := [];
    var j := 0;
    while j < |moved|
      invariant 0 <= j <= |moved|
      invariant updates == RowMoves(moved)[..j]
    {
      var (source, target) := moved[j];
      updates := updates + [MoveRow(IndexPath(source.section, source.element), IndexPath(target.section, target.element))];
      j := j + 1;
    }
    assert RowMoves<C>(moved)[..j] == RowMoves(moved);
  }

  /** `reload(using:deleteSectionsAnimation:...:interrupt:setData:)`. */
  method Reload<C>(staged: seq<Changeset<C>>, anim: Animations,
                   interrupt: Option<Changeset<C> -> bool>, hasWindow: bool) returns (trace: seq<Call<C>>)
    ensures trace == ReloadTrace(staged, anim, interrupt, hasWindow)
    ensures !hasWindow && |staged| > 0 ==> trace == [SetData(staged[|staged| - 1].data), ReloadData]
    ensures |staged| == 0 ==> trace == []
  {
    if !hasWindow && |staged| > 0 {
      trace := [SetData(staged[|staged| - 1].data), ReloadData];
      return;
    }
    trace := RunStages(staged, anim, interrupt);
  }

  /** The loop over the stages: a batch update each, until `interrupt` stops it. */
  method RunStages<C>(staged: seq<Changeset<C>>, anim: Animations,
                      interrupt: Option<Changeset<C> -> bool>) returns (trace: seq<Call<C>>)
    ensures trace == StagesFrom(staged, 0, anim, interrupt)
  {
    trace := [];
    var i := 0;
    while i < |staged|
      invariant 0 <= i <= |staged|
      invariant trace + StagesFrom(staged, i, anim, interrupt) == StagesFrom(staged, 0, anim, interrupt)
    {
      var changeset := staged[i];
      if Interrupts(interrupt, changeset) {
        InterruptedStage(staged, i, anim, interrupt);
        trace := trace + Fallback(staged);
        return;
      }
      var updates := PerformStageUpdates(changeset, anim);
      PerformedStage(staged, i, anim, interrupt, updates);
      AppendAssoc(trace, [PerformBatchUpdates(updates)], StagesFrom(staged, i + 1, anim, interrupt));
      trace := trace + [PerformBatchUpdates(updates)];
      i := i + 1;
    }
    assert trace + [] == trace;
  }

  lemma AppendAssoc<T>(a: seq<T>, b: seq<T>, c: seq<T>)
    ensures (a + b) + c == a + (b + c)
  {
  }

  lemma InterruptedStage<C>(staged: seq<Changeset<C>>, i: nat, anim: Animations, interrupt: Option<Changeset<C> -> bool>)
    requires i < |staged| && Interrupts(interrupt, staged[i])
    ensures StagesFrom(staged, i, anim, interrupt) == Fallback(staged)
  {
  }

  lemma PerformedStage<C>(staged: seq<Changeset<C>>, i: nat, anim: Animations, interrupt: Option<Changeset<C> -> bool>,
                          updates: seq<Update<C>>)
    requires i < |staged| && !Interrupts(interrupt, staged[i])
    requires updates == StageUpdates(staged[i], anim)
    ensures StagesFrom(staged, i, anim, interrupt) == [PerformBatchUpdates(updates)] + StagesFrom(staged, i + 1, anim, interrupt)
  {
  }

  /** `reload(using:with:interrupt:setData:)`: the same animation for every kind of change;
      `interrupt` and the data pass through unchanged. */
  method ReloadWithAnimation<C>(staged: seq<Changeset<C>>, animation: RowAnimation,
                                interrupt: Option<Changeset<C> -> bool>, hasWindow: bool) returns (trace: seq<Call<C>>)
    ensures trace == ReloadTrace(staged, Uniform(animation), interrupt, hasWindow)
    ensures TraceUsesOnly(trace, animation)
  {
    trace := Reload(staged, Uniform(animation), interrupt, hasWindow);
    ReloadUsesOnly(staged, animation, interrupt, hasWindow);
  }

  // ---------------------------------------------------------------------------------------
  // Properties of the trace

  /** The batches of a run of changesets are one batch update per changeset, in order. */
  lemma {:induction false} OneBatchPerChangeset<C>(css: seq<Changeset<C>>, anim: Animations)
    ensures |Batches(css, anim)| == |css|
    ensures forall i :: 0 <= i < |css| ==> Batches(css, anim)[i] == PerformBatchUpdates(StageUpdates(css[i], anim))
    decreases |css|
  {
    if |css| != 0 {
      OneBatchPerChangeset(css[1..], anim);
      var b := Batches(css, anim);
      forall i | 0 <= i < |css| ensures b[i] == PerformBatchUpdates(StageUpdates(css[i], anim)) {
        if i > 0 {
          assert b[i] == Batches(css[1..], anim)[i - 1];
          assert css[1..][i - 1] == css[i];
        }
      }
    }
  }

  /** Without interruption before stage `k`, the stages from `i` are the batches of stages
      `i` to `k - 1` followed by the stages from `k`. */
  lemma {:induction false} StagesFromSplit<C>(staged: seq<Changeset<C>>, i: nat, k: nat, anim: Animations,
                                               interrupt: Option<Changeset<C> -> bool>)
    requires i <= k <= |staged|
    requires forall j :: i <= j < k ==> !Interrupts(interrupt, staged[j])
    ensures StagesFrom(staged, i, anim, interrupt) == Batches(staged[i..k], anim) + StagesFrom(staged, k, anim, interrupt)
    decreases k - i
  {
    if i == k {
      assert |staged[i..k]| == 0;
    } else {
      StagesFromSplit(staged, i + 1, k, anim, interrupt);
      var run := staged[i..k];
      assert run[0] == staged[i] && run[1..] == staged[i + 1..k];
      var first: seq<Call<C>> := [PerformBatchUpdates(StageUpdates(staged[i], anim))];
      PerformedStage(staged, i, anim, interrupt, StageUpdates(staged[i], anim));
      assert Batches(run, anim) == first + Batches(staged[i + 1..k], anim);
      AppendAssoc(first, Batches(staged[i + 1..k], anim), StagesFrom(staged, k, anim, interrupt));
    }
  }

  /** If `interrupt` first returns true at stage `k`, the trace holds the batches of stages
      0 to k - 1, then the fall-back, and nothing after it. */
  lemma InterruptedReload<C>(staged: seq<Changeset<C>>, k: nat, anim: Animations,
                             interrupt: Option<Changeset<C> -> bool>, hasWindow: bool)
    requires hasWindow
    requires k < |staged| && Interrupts(interrupt, staged[k])
    requires forall j :: 0 <= j < k ==> !Interrupts(interrupt, staged[j])
    ensures ReloadTrace(staged, anim, interrupt, hasWindow)
         == Batches(staged[..k], anim) + [SetData(staged[|staged| - 1].data), ReloadData]
  {
    StagesFromSplit(staged, 0, k, anim, interrupt);
    assert staged[0..k] == staged[..k];
  }

  /** If `interrupt` never returns true (or is not given), the trace is one batch update per
      stage, in order. */
  lemma UninterruptedReload<C>(staged: seq<Changeset<C>>, anim: Animations,
                               interrupt: Option<Changeset<C> -> bool>, hasWindow: bool)
    requires hasWindow || |staged| == 0
    requires forall j :: 0 <= j < |staged| ==> !Interrupts(interrupt, staged[j])
    ensures ReloadTrace(staged, anim, interrupt, hasWindow) == Batches(staged, anim)
  {
    StagesFromSplit(staged, 0, |staged|, anim, interrupt);
    assert staged[0..|staged|] == staged;
  }

  // ---------------------------------------------------------------------------------------
  // Properties of one batch

  /** The order of calls within the updates closure. */
  function Rank<C>(u: Update<C>): nat {
    match u
    case SetStageData(_) => 0
    case DeleteSections(_, _) => 1
    case InsertSections(_, _) => 2
    case ReloadSections(_, _) => 3
    case MoveSection(_, _) => 4
    case DeleteRows(_, _) => 5
    case InsertRows(_, _) => 6
    case ReloadRows(_, _) => 7
    case MoveRow(_, _) => 8
  }

  predicate RankOrdered<C>(t: seq<Update<C>>) {
    forall i, j :: 0 <= i < j < |t| ==> Rank(t[i]) <= Rank(t[j])
  }

  predicate RanksWithin<C>(t: seq<Update<C>>, lo: nat, hi: nat) {
    forall i :: 0 <= i < |t| ==> lo <= Rank(t[i]) <= hi
  }

  lemma SingleRankOrdered<C>(t: seq<Update<C>>, k: nat)
    requires RanksWithin(t, k, k)
    ensures RankOrdered(t)
  {
  }

  lemma OrderedConcat<C>(a: seq<Update<C>>, b: seq<Update<C>>, lo: nat, k: nat, hi: nat)
    requires RankOrdered(a) && RankOrdered(b)
    requires lo <= k <= hi && RanksWithin(a, lo, k) && RanksWithin(b, k, hi)
    ensures RankOrdered(a + b) && RanksWithin(a + b, lo, hi)
  {
    forall i, j | 0 <= i < j < |a + b| ensures Rank((a + b)[i]) <= Rank((a + b)[j]) {
      if j < |a| {
        assert (a + b)[i] == a[i] && (a + b)[j] == a[j];
      } else if i < |a| {
        assert (a + b)[i] == a[i] && (a + b)[j] == b[j - |a|];
      } else {
        assert (a + b)[i] == b[i - |a|] && (a + b)[j] == b[j - |a|];
      }
    }
    forall i | 0 <= i < |a + b| ensures lo <= Rank((a + b)[i]) <= hi {
      if i < |a| {
        assert (a + b)[i] == a[i];
      } else {
        assert (a + b)[i] == b[i - |a|];
      }
    }
  }

  lemma SectionUpdatesOrdered<C>(cs: Changeset<C>, anim: Animations)
    ensures RankOrdered(SectionUpdates(cs, anim)) && RanksWithin(SectionUpdates(cs, anim), 1, 4)
  {
    var d, n, u, m := SectionDeletes(cs, anim), SectionInserts(cs, anim), SectionReloads(cs, anim), SectionMoves<C>(cs.sectionMoved);
    SingleRankOrdered(d, 1);
    SingleRankOrdered(n, 2);
    SingleRankOrdered(u, 3);
    SingleRankOrdered(m, 4);
    OrderedConcat(d, n, 1, 1, 2);
    OrderedConcat(d + n, u, 1, 2, 3);
    OrderedConcat(d + n + u, m, 1, 3, 4);
  }

  lemma RowUpdatesOrdered<C>(cs: Changeset<C>, anim: Animations)
    ensures RankOrdered(RowUpdates(cs, anim)) && RanksWithin(RowUpdates(cs, anim), 5, 8)
  {
    var d, n, u, m := RowDeletes(cs, anim), RowInserts(cs, anim), RowReloads(cs, anim), RowMoves<C>(cs.elementMoved);
    SingleRankOrdered(d, 5);
    SingleRankOrdered(n, 6);
    SingleRankOrdered(u, 7);
    SingleRankOrdered(m, 8);
    OrderedConcat(d, n, 5, 5, 6);
    OrderedConcat(d + n, u, 5, 6, 7);
    OrderedConcat(d + n + u, m, 5, 7, 8);
  }

  /** Every updates closure keeps the fixed order: set the stage's data first, then section
      deletes, inserts, reloads, moves, then row deletes, inserts, reloads, moves. */
  lemma StageIsOrdered<C>(cs: Changeset<C>, anim: Animations)
    ensures RankOrdered(StageUpdates(cs, anim))
    ensures |StageUpdates(cs, anim)| >= 1 && StageUpdates(cs, anim)[0] == SetStageData(cs.data)
  {
    var head: seq<Update<C>> := [SetStageData(cs.data)];
    SectionUpdatesOrdered(cs, anim);
    RowUpdatesOrdered(cs, anim);
    OrderedConcat(head, SectionUpdates(cs, anim), 0, 1, 4);
    OrderedConcat(head + SectionUpdates(cs, anim), RowUpdates(cs, anim), 0, 4, 8);
  }

  /** The calls of one kind (one rank), in the order they are issued. */
  function OfRank<C>(t: seq<Update<C>>, k: nat): seq<Update<C>>
    decreases |t|
  {
    if |t| == 0 then [] else (if Rank(t[0]) == k then [t[0]] else []) + OfRank(t[1..], k)
  }

  lemma {:induction false} OfRankAppend<C>(a: seq<Update<C>>, b: seq<Update<C>>, k: nat)
    ensures OfRank(a + b, k) == OfRank(a, k) + OfRank(b, k)
    decreases |a|
  {
    if |a| == 0 {
      assert a + b == b;
    } else {
      var ab := a + b;
      var first: seq<Update<C>> := if Rank(a[0]) == k then [a[0]] else [];
      assert ab[0] == a[0] && ab[1..] == a[1..] + b;
      assert OfRank(ab, k) == first + OfRank(a[1..] + b, k);
      OfRankAppend(a[1..], b, k);
      assert OfRank(a, k) == first + OfRank(a[1..], k);
      AppendAssoc(first, OfRank(a[1..], k), OfRank(b, k));
    }
  }

  lemma {:induction false} OfRankWithin<C>(t: seq<Update<C>>, lo: nat, hi: nat, k: nat)
    requires RanksWithin(t, lo, hi)
    ensures k < lo || hi < k ==> OfRank(t, k) == []
    ensures lo == hi == k ==> OfRank(t, k) == t
    decreases |t|
  {
    if |t| != 0 {
      assert forall i :: 0 <= i < |t[1..]| ==> t[1..][i] == t[i + 1];
      OfRankWithin(t[1..], lo, hi, k);
      assert t == [t[0]] + t[1..];
    }
  }

  /** The calls of one kind in four pieces of one kind each. */
  lemma KindsOfFour<C>(a: seq<Update<C>>, b: seq<Update<C>>, c: seq<Update<C>>, d: seq<Update<C>>,
                       ra: nat, rb: nat, rc: nat, rd: nat, k: nat)
    requires RanksWithin(a, ra, ra) && RanksWithin(b, rb, rb) && RanksWithin(c, rc, rc) && RanksWithin(d, rd, rd)
    ensures OfRank(a + b + c + d, k)
         == (if k == ra then a else []) + (if k == rb then b else []) + (if k == rc then c else []) + (if k == rd then d else [])
  {
    OfRankWithin(a, ra, ra, k);
    OfRankWithin(b, rb, rb, k);
    OfRankWithin(c, rc, rc, k);
    OfRankWithin(d, rd, rd, k);
    OfRankAppend(a, b, k);
    OfRankAppend(a + b, c, k);
    OfRankAppend(a + b + c, d, k);
  }

  lemma SectionKinds<C>(cs: Changeset<C>, anim: Animations)
    ensures OfRank(SectionUpdates(cs, anim), 1) == SectionDeletes(cs, anim)
    ensures OfRank(SectionUpdates(cs, anim), 2) == SectionInserts(cs, anim)
    ensures OfRank(SectionUpdates(cs, anim), 3) == SectionReloads(cs, anim)
    ensures OfRank(SectionUpdates(cs, anim), 4) == SectionMoves(cs.sectionMoved)
  {
    var a, b, c, d := SectionDeletes(cs, anim), SectionInserts(cs, anim), SectionReloads(cs, anim), SectionMoves<C>(cs.sectionMoved);
    KindsOfFour(a, b, c, d, 1, 2, 3, 4, 1);
    KindsOfFour(a, b, c, d, 1, 2, 3, 4, 2);
    KindsOfFour(a, b, c, d, 1, 2, 3, 4, 3);
    KindsOfFour(a, b, c, d, 1, 2, 3, 4, 4);
  }

  lemma RowKinds<C>(cs: Changeset<C>, anim: Animations)
    ensures OfRank(RowUpdates(cs, anim), 5) == RowDeletes(cs, anim)
    ensures OfRank(RowUpdates(cs, anim), 6) == RowInserts(cs, anim)
    ensures OfRank(RowUpdates(cs, anim), 7) == RowReloads(cs, anim)
    ensures OfRank(RowUpdates(cs, anim), 8) == RowMoves(cs.elementMoved)
  {
    var a, b, c, d := RowDeletes(cs, anim), RowInserts(cs, anim), RowReloads(cs, anim), RowMoves<C>(cs.elementMoved);
    KindsOfFour(a, b, c, d, 5, 6, 7, 8, 5);
    KindsOfFour(a, b, c, d, 5, 6, 7, 8, 6);
    KindsOfFour(a, b, c, d, 5, 6, 7, 8, 7);
    KindsOfFour(a, b, c, d, 5, 6, 7, 8, 8);
  }

  /** The calls of one kind in a stage are those of its three parts, in order. */
  lemma SplitStage<C>(cs: Changeset<C>, anim: Animations, k: nat)
    ensures OfRank(StageUpdates(cs, anim), k)
         == OfRank<C>([SetStageData(cs.data)], k) + OfRank(SectionUpdates(cs, anim), k) + OfRank(RowUpdates(cs, anim), k)
  {
    var head: seq<Update<C>> := [SetStageData(cs.data)];
    OfRankAppend(head, SectionUpdates(cs, anim), k);
    OfRankAppend(head + SectionUpdates(cs, anim), RowUpdates(cs, anim), k);
  }

  /** The calls of each kind an updates closure makes: the stage's data is set exactly once;
      one delete, insert or reload call per kind when the changeset has changes of that kind
      and none when it has none, the section offsets as a set and the element paths mapped to
      index paths in order; one move call per moved pair, in the changeset's order. With
      `StageIsOrdered` this fixes the whole closure. */
  lemma StageCallsByKind<C>(cs: Changeset<C>, anim: Animations)
    ensures OfRank(StageUpdates(cs, anim), 0) == [SetStageData(cs.data)]
    ensures OfRank(StageUpdates(cs, anim), 1)
         == if |cs.sectionDeleted| == 0 then [] else [DeleteSections(IndexSet(cs.sectionDeleted), anim.deleteSections)]
    ensures OfRank(StageUpdates(cs, anim), 2)
         == if |cs.sectionInserted| == 0 then [] else [InsertSections(IndexSet(cs.sectionInserted), anim.insertSections)]
    ensures OfRank(StageUpdates(cs, anim), 3)
         == if |cs.sectionUpdated| == 0 then [] else [ReloadSections(IndexSet(cs.sectionUpdated), anim.reloadSections)]
    ensures OfRank(StageUpdates(cs, anim), 4) == SectionMoves(cs.sectionMoved)
    ensures OfRank(StageUpdates(cs, anim), 5)
         == if |cs.elementDeleted| == 0 then [] else [DeleteRows(RowIndexPaths(cs.elementDeleted), anim.deleteRows)]
    ensures OfRank(StageUpdates(cs, anim), 6)
         == if |cs.elementInserted| == 0 then [] else [InsertRows(RowIndexPaths(cs.elementInserted), anim.insertRows)]
    ensures OfRank(StageUpdates(cs, anim), 7)
         == if |cs.elementUpdated| == 0 then [] else [ReloadRows(RowIndexPaths(cs.elementUpdated), anim.reloadRows)]
    ensures OfRank(StageUpdates(cs, anim), 8) == RowMoves(cs.elementMoved)
  {
    StageDataCall(cs, anim);
    StageSectionCalls(cs, anim);
    StageRowCalls(cs, anim);
  }

  lemma StageDataCall<C>(cs: Changeset<C>, anim: Animations)
    ensures OfRank(StageUpdates(cs, anim), 0) == [SetStageData(cs.data)]
  {
    var head: seq<Update<C>> := [SetStageData(cs.data)];
    SectionUpdatesOrdered(cs, anim);
    RowUpdatesOrdered(cs, anim);
    SplitStage(cs, anim, 0);
    OfRankWithin(head, 0, 0, 0);
    OfRankWithin(SectionUpdates(cs, anim), 1, 4, 0);
    OfRankWithin(RowUpdates(cs, anim), 5, 8, 0);
  }

  lemma StageSectionCalls<C>(cs: Changeset<C>, anim: Animations)
    ensures OfRank(StageUpdates(cs, anim), 1) == SectionDeletes(cs, anim)
    ensures OfRank(StageUpdates(cs, anim), 2) == SectionInserts(cs, anim)
    ensures OfRank(StageUpdates(cs, anim), 3) == SectionReloads(cs, anim)
    ensures OfRank(StageUpdates(cs, anim), 4) == SectionMoves(cs.sectionMoved)
  {
    var head: seq<Update<C>> := [SetStageData(cs.data)];
    RowUpdatesOrdered(cs, anim);
    SectionKinds(cs, anim);
    forall k | 1 <= k <= 4
      ensures OfRank(StageUpdates(cs, anim), k) == OfRank(SectionUpdates(cs, anim), k)
    {
      SplitStage(cs, anim, k);
      OfRankWithin(head, 0, 0, k);
      OfRankWithin(RowUpdates(cs, anim), 5, 8, k);
    }
  }

  lemma StageRowCalls<C>(cs: Changeset<C>, anim: Animations)
    ensures OfRank(StageUpdates(cs, anim), 5) == RowDeletes(cs, anim)
    ensures OfRank(StageUpdates(cs, anim), 6) == RowInserts(cs, anim)
    ensures OfRank(StageUpdates(cs, anim), 7) == RowReloads(cs, anim)
    ensures OfRank(StageUpdates(cs, anim), 8) == RowMoves(cs.elementMoved)
  {
    var head: seq<Update<C>> := [SetStageData(cs.data)];
    SectionUpdatesOrdered(cs, anim);
    RowKinds(cs, anim);
    forall k | 5 <= k <= 8
      ensures OfRank(StageUpdates(cs, anim), k) == OfRank(RowUpdates(cs, anim), k)
    {
      SplitStage(cs, anim, k);
      OfRankWithin(head, 0, 0, k);
      OfRankWithin(SectionUpdates(cs, anim), 1, 4, k);
    }
  }

  /** The update carries a row animation. */
  predicate Animated<C>(u: Update<C>) {
    u.DeleteSections? || u.InsertSections? || u.ReloadSections? || u.DeleteRows? || u.InsertRows? || u.ReloadRows?
  }

  predicate UsesOnly<C>(t: seq<Update<C>>, animation: RowAnimation) {
    forall i :: 0 <= i < |t| && Animated(t[i]) ==> t[i].animation == animation
  }

  /** Every batch update of the trace animates with `animation` alone. */
  predicate TraceUsesOnly<C>(trace: seq<Call<C>>, animation: RowAnimation) {
    forall i :: 0 <= i < |trace| && trace[i].PerformBatchUpdates? ==> UsesOnly(trace[i].updates, animation)
  }

  lemma UsesOnlyAppend<C>(a: seq<Update<C>>, b: seq<Update<C>>, animation: RowAnimation)
    requires UsesOnly(a, animation) && UsesOnly(b, animation)
    ensures UsesOnly(a + b, animation)
  {
    forall i | 0 <= i < |a + b| && Animated((a + b)[i]) ensures (a + b)[i].animation == animation {
      if i < |a| {
        assert (a + b)[i] == a[i];
      } else {
        assert (a + b)[i] == b[i - |a|];
      }
    }
  }

  lemma StageUsesOnly<C>(cs: Changeset<C>, animation: RowAnimation)
    ensures UsesOnly(StageUpdates(cs, Uniform(animation)), animation)
  {
    var anim := Uniform(animation);
    var d, n, u, m := SectionDeletes(cs, anim), SectionInserts(cs, anim), SectionReloads(cs, anim), SectionMoves<C>(cs.sectionMoved);
    UsesOnlyAppend(d, n, animation);
    UsesOnlyAppend(d + n, u, animation);
    UsesOnlyAppend(d + n + u, m, animation);
    var rd, rn, ru, rm := RowDeletes(cs, anim), RowInserts(cs, anim), RowReloads(cs, anim), RowMoves<C>(cs.elementMoved);
    UsesOnlyAppend(rd, rn, animation);
    UsesOnlyAppend(rd + rn, ru, animation);
    UsesOnlyAppend(rd + rn + ru, rm, animation);
    var head: seq<Update<C>> := [SetStageData(cs.data)];
    UsesOnlyAppend(head, SectionUpdates(cs, anim), animation);
    UsesOnlyAppend(head + SectionUpdates(cs, anim), RowUpdates(cs, anim), animation);
  }

  lemma {:induction false} StagesFromUsesOnly<C>(staged: seq<Changeset<C>>, i: nat, animation: RowAnimation,
                                                  interrupt: Option<Changeset<C> -> bool>)
    requires i <= |staged|
    ensures TraceUsesOnly(StagesFrom(staged, i, Uniform(animation), interrupt), animation)
    decreases |staged| - i
  {
    if i < |staged| && !Interrupts(interrupt, staged[i]) {
      StageUsesOnly(staged[i], animation);
      StagesFromUsesOnly(staged, i + 1, animation, interrupt);
      var rest := StagesFrom(staged, i + 1, Uniform(animation), interrupt);
      var t := StagesFrom(staged, i, Uniform(animation), interrupt);
      forall j | 0 <= j < |t| && t[j].PerformBatchUpdates? ensures UsesOnly(t[j].updates, animation) {
        if j > 0 {
          assert t[j] == rest[j - 1];
        }
      }
    }
  }

  /** With the single-animation overload every animated call carries that one animation. */
  lemma ReloadUsesOnly<C>(staged: seq<Changeset<C>>, animation: RowAnimation,
                          interrupt: Option<Changeset<C> -> bool>, hasWindow: bool)
    ensures TraceUsesOnly(ReloadTrace(staged, Uniform(animation), interrupt, hasWindow), animation)
  {
    StagesFromUsesOnly(staged, 0, animation, interrupt);
  }
}
