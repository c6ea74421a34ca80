/** The debug-build check that no section identifier is used twice in one table. */
module SectionIdentity {

  /** `x` occurs at two different positions of `ids`. */
  predicate UsedMoreThanOnce<T(==)>(ids: seq<T>, x: T) {
    exists i, j :: 0 <= i < j < |ids| && ids[i] == x && ids[j] == x
  }

  /** Extending a sequence by one element makes that element a duplicate exactly when it
      already occurred, and changes nothing for the other values. */
  lemma UsedMoreThanOnceSnoc<T>(ids: seq<T>, y: T, x: T)
    ensures UsedMoreThanOnce(ids + [y], x) <==> UsedMoreThanOnce(ids, x) || (x == y && x in ids)
  {
    var s := ids + [y];
    if UsedMoreThanOnce(s, x) {
      var i, j :| 0 <= i < j < |s| && s[i] == x && s[j] == x;
      if j == |ids| {
        assert ids[i] == x;
      } else {
        assert ids[i] == x && ids[j] == x;
      }
    }
    if x == y && x in ids {
      var i :| 0 <= i < |ids| && ids[i] == x;
      assert s[i] == x && s[|ids|] == x;
    }
    if UsedMoreThanOnce(ids, x) {
      var i, j :| 0 <= i < j < |ids| && ids[i] == x && ids[j] == x;
      assert s[i] == x && s[j] == x;
    }
  }

  /** `debugOnly_checkHasUniqueSections`: walks the section identifiers once, inserting each
      into a set of those seen and recording it as a conflict when the insertion finds it
      already there. The result is exactly the set of identifiers used more than once; the
      warning is printed when it is not empty. */
  method CheckHasUniqueSections<T(==)>(ids: seq<T>) returns (conflicts: set<T>)
    ensures forall x :: x in conflicts <==> UsedMoreThanOnce(ids, x)
  {
    var seen: set<T> := {};
    conflicts := {};
    var k := 0;
    while k < |ids|
      invariant 0 <= k <= |ids|
      invariant forall x :: x in seen <==> x in ids[..k]
      invariant forall x :: x in conflicts <==> UsedMoreThanOnce(ids[..k], x)
    {
      var id := ids[k];
      assert ids[..k + 1] == ids[..k] + [id];
      forall x ensures UsedMoreThanOnce(ids[..k + 1], x) <==> UsedMoreThanOnce(ids[..k], x) || (x == id && x in ids[..k]) {
        UsedMoreThanOnceSnoc(ids[..k], id, x);
      }
      if id in seen {
        conflicts := conflicts + {id};
      } else {
        seen := seen + {id};
      }
      k := k + 1;
    }
    assert ids[..k] == ids;
  }
}
