/**
 * The process-wide snapshot storage: a table from (from view, to view,
 * container view, snapshot class) to a snapshot view, whose values are held
 * weakly. A weak value is modelled as a map entry plus the set of views that
 * are still alive; an entry whose view has been deallocated reads as absent,
 * and the table never deletes entries itself.
 */
module SnapshotCache {
  import opened Views

  datatype Option<T> = None | Some(value: T)

  /**
   * The storage key: the identities of the three views and the name of the
   * snapshot class. Reference equality on `View` is object identity.
   */
  datatype Key = Key(from: View, to: View, container: View, typeName: string)

  class SnapshotStorage {
    var entries: map<Key, View>
    /** The views not yet deallocated. */
    var live: set<View>
    /** How many times the `make` closure has been called. */
    ghost var makeCount: nat

    /** Every stored view is of the class its key names. */
    ghost predicate Valid()
      reads this
    {
      forall k :: k in entries ==> entries[k].typeName == k.typeName
    }

    constructor ()
      ensures entries == map[] && live == {} && makeCount == 0
      ensures Valid()
    {
      entries := map[];
      live := {};
      makeCount := 0;
    }

    /** `object(forKey:)` on a strong-to-weak table: the entry, if its view is alive. */
    function Object(key: Key): Option<View>
      reads this
    {
      if key in entries && entries[key] in live then Some(entries[key]) else None
    }

    /** A live stored view that casts to the requested snapshot class. */
    predicate IsHit(key: Key)
      reads this
    {
      Object(key).Some? && Object(key).value.typeName == key.typeName
    }

    /**
     * `_makeSnapshotViewIfNeeded`. A live entry of the requested class is
     * returned and `make` is not called. Otherwise (no entry, an expired
     * entry, or an entry that fails the cast, which is an assertion failure
     * in debug builds) `make` is called once, and its fresh view is stored
     * under the key and returned.
     */
    method MakeSnapshotViewIfNeeded(from: View, to: View, container: View, typeName: string)
      returns (v: View)
      modifies this
      ensures var key := Key(from, to, container, typeName);
        if old(IsHit(key)) then
          && v == old(entries[key])
          && entries == old(entries) && live == old(live) && makeCount == old(makeCount)
        else
          && fresh(v) && v.superview == null && v.animationKeys == []
          && v.Geometry() == ZeroLayout
          && entries == old(entries)[key := v] && live == old(live) + {v}
          && makeCount == old(makeCount) + 1
      ensures v in live && v.typeName == typeName
      ensures Object(Key(from, to, container, typeName)) == Some(v) && IsHit(Key(from, to, container, typeName))
      ensures old(Valid()) ==> Valid()
    {
      var key := Key(from, to, container, typeName);
      var stored := Object(key);
      if stored.None? {
        v := MakeAndStore(key);
        return;
      }
      if stored.value.typeName != typeName {
        // assertionFailure("Unable to cast ...") in debug builds
        v := MakeAndStore(key);
        return;
      }
      v := stored.value;
    }

    /** `makeAndStore()`: call `make` and store its view under `key`. */
    method MakeAndStore(key: Key) returns (v: View)
      modifies this
      ensures fresh(v) && v.typeName == key.typeName && v.superview == null && v.animationKeys == []
      ensures v.Geometry() == ZeroLayout
      ensures entries == old(entries)[key := v] && live == old(live) + {v}
      ensures makeCount == old(makeCount) + 1
      ensures Object(key) == Some(v)
      ensures forall k :: old(allocated(k)) && k != key ==> Object(k) == old(Object(k))
      ensures old(Valid()) ==> Valid()
    {
      v := new View(key.typeName);
      makeCount := makeCount + 1;
      entries := entries[key := v];
      live := live + {v};
    }

    /** The last strong reference to `v` goes away: the table's weak entry expires. */
    method Release(v: View)
      modifies this
      ensures live == old(live) - {v}
      ensures entries == old(entries) && makeCount == old(makeCount)
      ensures forall k :: k in entries && entries[k] == v ==> Object(k) == None
      ensures forall k :: old(allocated(k)) && !(k in entries && entries[k] == v) ==> Object(k) == old(Object(k))
      ensures old(Valid()) ==> Valid()
    {
      live := live - {v};
    }

    /**
     * In a storage whose entries were all made by this storage, a live entry
     * always casts to the requested class: the failed-cast branch of
     * `_makeSnapshotViewIfNeeded` is never taken.
     */
    lemma LiveEntryCasts(key: Key)
      requires Valid() && Object(key).Some?
      ensures IsHit(key) && Object(key).value.typeName == key.typeName
    {
    }
  }

  /**
   * Requesting a snapshot twice for the same views returns the same view and
   * calls `make` at most once; once that view is released, the next request
   * calls `make` again and returns a different view.
   */
  method RequestReleaseRequest(storage: SnapshotStorage, from: View, to: View, container: View, typeName: string)
    returns (first: View, second: View, third: View)
    modifies storage
    ensures second == first && third != first
    ensures storage.makeCount
         == old(storage.makeCount) + if old(storage.IsHit(Key(from, to, container, typeName))) then 1 else 2
  {
    first := storage.MakeSnapshotViewIfNeeded(from, to, container, typeName);
    second := storage.MakeSnapshotViewIfNeeded(from, to, container, typeName);
    storage.Release(first);
    third := storage.MakeSnapshotViewIfNeeded(from, to, container, typeName);
  }
}
