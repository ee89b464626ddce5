/**
 * The persisted StatusLists an entity falls back on when it is built without one.
 * The store is the sequence of lists in the order they were persisted; a query for an
 * entity type yields the first list whose target entity type is that type.
 */
module Registry {
  import opened Errors
  import opened Statuses

  /** True when some persisted list is meant for `typeName`. */
  predicate HasListFor(store: seq<StatusList>, typeName: string)
  {
    exists k :: 0 <= k < |store| && store[k].targetEntityType == typeName
  }

  /** The first persisted list whose target entity type is `typeName`, if there is one. */
  function Lookup(store: seq<StatusList>, typeName: string): (r: Option<StatusList>)
    ensures r.None? <==> !HasListFor(store, typeName)
    ensures r.Some? ==> r.value in store && r.value.targetEntityType == typeName
    ensures r.Some? ==> exists k :: 0 <= k < |store| && store[k] == r.value &&
                                  forall j :: 0 <= j < k ==> store[j].targetEntityType != typeName
    decreases |store|
  {
    if |store| == 0 then None
    else if store[0].targetEntityType == typeName then Some(store[0])
    else
      var r := Lookup(store[1..], typeName);
      assert HasListFor(store[1..], typeName) ==> HasListFor(store, typeName) by {
        if HasListFor(store[1..], typeName) {
          var k :| 0 <= k < |store[1..]| && store[1..][k].targetEntityType == typeName;
          assert store[k + 1].targetEntityType == typeName;
        }
      }
      assert HasListFor(store, typeName) ==> HasListFor(store[1..], typeName) by {
        if HasListFor(store, typeName) {
          var k :| 0 <= k < |store| && store[k].targetEntityType == typeName;
          assert k > 0 && store[1..][k - 1].targetEntityType == typeName;
        }
      }
      if r.Some? then
        var k :| 0 <= k < |store[1..]| && store[1..][k] == r.value &&
                 forall j :: 0 <= j < k ==> store[1..][j].targetEntityType != typeName;
        assert store[k + 1] == r.value;
        assert forall j :: 0 <= j < k + 1 ==> store[j].targetEntityType != typeName by {
          forall j | 0 <= j < k + 1 ensures store[j].targetEntityType != typeName {
            if j > 0 { assert store[j] == store[1..][j - 1]; }
          }
        }
        r
      else
        r
  }

  /**
   * Persisting one more list: an entity type that already had a list keeps it, a type
   * that had none now finds the new list if it is meant for that type, and every
   * other type is unaffected.
   */
  lemma {:induction false} LookupAfterPersist(store: seq<StatusList>, l: StatusList, typeName: string)
    ensures Lookup(store + [l], typeName) ==
            if Lookup(store, typeName).Some? then Lookup(store, typeName)
            else if l.targetEntityType == typeName then Some(l)
            else None
    decreases |store|
  {
    if |store| == 0 {
      assert store + [l] == [l];
      assert [l][1..] == [];
    } else {
      assert (store + [l])[0] == store[0];
      assert (store + [l])[1..] == store[1..] + [l];
      LookupAfterPersist(store[1..], l, typeName);
    }
  }

  /** Lists persisted for other entity types never satisfy a type's lookup. */
  lemma {:induction false} LookupIgnoresOtherTypes(store: seq<StatusList>, others: seq<StatusList>, typeName: string)
    requires forall k :: 0 <= k < |others| ==> others[k].targetEntityType != typeName
    ensures Lookup(store + others, typeName) == Lookup(store, typeName)
    decreases |others|
  {
    if |others| == 0 {
      assert store + others == store;
    } else {
      var init := others[..|others| - 1];
      assert others == init + [others[|others| - 1]];
      assert store + others == (store + init) + [others[|others| - 1]];
      LookupIgnoresOtherTypes(store, init, typeName);
      LookupAfterPersist(store + init, others[|others| - 1], typeName);
    }
  }
}
