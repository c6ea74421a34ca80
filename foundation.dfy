/** Value types shared by the table-view coordinator, the staged reload and the flow layout. */
module Foundation {

  /** Swift's Optional. */
  datatype Option<+T> = None | Some(value: T) {
    /** `self ?? default` */
    function GetOr(default: T): T {
      match this
      case Some(v) => v
      case None => default
    }
  }

  /** A two-level index path: `section` and `item` (a table view calls the item its row).
      Swift indices are `Int`. Section offsets, element paths and table-view index paths are
      non-negative; the selection bindings are assumed to hold non-negative indices. */
  datatype IndexPath = IndexPath(section: nat, item: nat)
}
