/** Drop-proposal decisions of the table-view coordinator. */
module TableDrop {
  import opened Foundation
  import opened TableSelection

  /** A drop destination as the table view reports it. A Foundation index path may have no
      indices at all; `EmptyPath` is that case. */
  datatype DropPath = EmptyPath | Path(at: IndexPath)

  /** The platform's drop operations and insertion intents. */
  datatype DropOperation = Cancel | Forbidden | Copy | Move
  datatype DropIntent = Unspecified | InsertAtDestinationIndexPath | InsertIntoDestinationIndexPath | Automatic

  /** A table-view drop proposal; a proposal built from an operation alone has intent `Unspecified`. */
  datatype DropProposal = DropProposal(operation: DropOperation, intent: DropIntent)

  /** `canDrop(at:)`: the destination is a real index path, its section exists and that
      section's data source accepts drops. */
  function CanDrop(sections: seq<SectionSource>, destination: DropPath): (r: bool)
    ensures destination.EmptyPath? ==> !r
    ensures destination.Path? && destination.at.section >= |sections| ==> !r
    ensures destination.Path? && destination.at.section < |sections| ==> (r <==> sections[destination.at.section].dropEnabled)
  {
    match destination
    case EmptyPath => false
    case Path(at) => at.section < |sections| && sections[at.section].dropEnabled
  }

  /** `dropSessionDidUpdate`: copy when the drag did not start in this table view; inside a
      drag of this table view, cancel over a destination that cannot take the drop and move
      otherwise (also when there is no destination). */
  function DropSessionDidUpdate(sections: seq<SectionSource>, hasActiveDrag: bool, destination: Option<DropPath>): (r: DropProposal)
    ensures r.operation == Copy <==> !hasActiveDrag
    ensures r.operation == Cancel <==> hasActiveDrag && destination.Some? && !CanDrop(sections, destination.value)
    ensures r.operation == Move <==> hasActiveDrag && (destination.None? || CanDrop(sections, destination.value))
    ensures r.operation != Forbidden
    ensures r.intent == (if r.operation == Cancel then Unspecified else InsertAtDestinationIndexPath)
  {
    if hasActiveDrag then
      if destination.Some? && !CanDrop(sections, destination.value) then
        DropProposal(Cancel, Unspecified)
      else
        DropProposal(Move, InsertAtDestinationIndexPath)
    else
      DropProposal(Copy, InsertAtDestinationIndexPath)
  }
}
