/** The generic locked map every stateful component is built on. */
module KeyedCache {
  import opened Wrappers

  /** `order` lists every member of `keys` exactly once; Go iterates a map in some such order. */
  ghost predicate IsOrderOf<K>(order: seq<K>, keys: set<K>) {
    && (forall i, j :: 0 <= i < j < |order| ==> order[i] != order[j])
    && (forall k :: k in order ==> k in keys)
    && (forall k :: k in keys ==> k in order)
  }

  /** Each method body runs under the cache's lock, so each is one atomic step. */
  class Cache<K(==), V> {
    var entries: map<K, V>

    constructor ()
      ensures entries == map[]
    {
      entries := map[];
    }

    method Set(key: K, value: V)
      modifies this
      ensures entries == old(entries)[key := value]
    {
      entries := entries[key := value];
    }

    method Delete(key: K)
      modifies this
      ensures entries == old(entries) - {key}
    {
      entries := entries - {key};
    }

    method Get(key: K) returns (r: Option<V>)
      ensures r == if key in entries then Some(entries[key]) else None
    {
      r := if key in entries then Some(entries[key]) else None;
    }

    method Keys() returns (keys: seq<K>)
      ensures IsOrderOf(keys, entries.Keys)
    {
      keys := [];
      var rest := entries.Keys;
      while rest != {}
        invariant rest <= entries.Keys
        invariant IsOrderOf(keys, entries.Keys - rest)
        decreases rest
      {
        var k :| k in rest;
        keys := keys + [k];
        rest := rest - {k};
      }
    }

    /** One tick of StartCleanup: visit every entry and drop those the callback condemns. */
    method CleanupPass(shouldDelete: (K, V) -> bool) returns (removed: set<K>)
      modifies this
      ensures removed == set k | k in old(entries) && shouldDelete(k, old(entries)[k])
      ensures entries == old(entries) - removed
    {
      removed := {};
      var keys := Keys();
      for i := 0 to |keys|
        invariant removed == set k | k in keys[..i] && shouldDelete(k, old(entries)[k])
        invariant entries == old(entries) - removed
      {
        assert keys[i] !in removed by {
          assert forall k :: k in keys[..i] ==> exists j :: 0 <= j < i && keys[j] == k;
        }
        if shouldDelete(keys[i], entries[keys[i]]) {
          entries := entries - {keys[i]};
          removed := removed + {keys[i]};
        }
      }
      assert keys[..|keys|] == keys;
    }

    /** First half of Cleanup: collect condemned keys under the read lock. */
    method CollectCondemned(shouldDelete: (K, V) -> bool) returns (condemned: seq<K>)
      ensures forall k :: k in condemned <==> k in entries && shouldDelete(k, entries[k])
    {
      condemned := [];
      var keys := Keys();
      for i := 0 to |keys|
        invariant forall k :: k in condemned <==> k in keys[..i] && shouldDelete(k, entries[k])
      {
        if shouldDelete(keys[i], entries[keys[i]]) {
          condemned := condemned + [keys[i]];
        }
      }
      assert keys[..|keys|] == keys;
    }

    /** Second half of Cleanup: delete the collected keys under the write lock. */
    method DeleteCondemned(condemned: seq<K>)
      modifies this
      ensures entries == old(entries) - (set k | k in condemned)
    {
      for i := 0 to |condemned|
        invariant entries == old(entries) - (set k | k in condemned[..i])
      {
        entries := entries - {condemned[i]};
      }
      assert condemned[..|condemned|] == condemned;
    }
  }

  ghost function Condemned<K, V>(entries: map<K, V>, shouldDelete: (K, V) -> bool): set<K> {
    set k | k in entries && shouldDelete(k, entries[k])
  }

  // ----- Cleanup beside other callers -----

  /** What other callers do while Cleanup holds no lock. */
  datatype Change<K, V> = Put(key: K, value: V) | Remove(key: K)

  function Applied<K, V>(entries: map<K, V>, changes: seq<Change<K, V>>): map<K, V> {
    if changes == [] then entries
    else
      var before := Applied(entries, changes[..|changes| - 1]);
      match changes[|changes| - 1]
      case Put(k, v) => before[k := v]
      case Remove(k) => before - {k}
  }

  predicate IsLast<K(==), V>(changes: seq<Change<K, V>>, i: nat)
    requires i < |changes|
  {
    forall j :: i < j < |changes| ==> changes[j].key != changes[i].key
  }

  /** An unchanged key keeps its entry, and a changed one has the entry its last change leaves. */
  lemma {:induction false} AppliedEntry<K, V>(entries: map<K, V>, changes: seq<Change<K, V>>, k: K) returns (last: Option<nat>)
    ensures last.None? ==> forall i :: 0 <= i < |changes| ==> changes[i].key != k
    ensures last.None? ==> (k in Applied(entries, changes) <==> k in entries)
    ensures last.None? && k in entries ==> Applied(entries, changes)[k] == entries[k]
    ensures last.Some? ==> last.value < |changes| && changes[last.value].key == k && IsLast(changes, last.value)
    ensures last.Some? ==> (k in Applied(entries, changes) <==> changes[last.value].Put?)
    ensures last.Some? && changes[last.value].Put? ==> Applied(entries, changes)[k] == changes[last.value].value
  {
    if changes == [] {
      last := None;
    } else {
      var n := |changes| - 1;
      if changes[n].key == k {
        last := Some(n);
      } else {
        last := AppliedEntry(entries, changes[..n], k);
        assert forall i :: 0 <= i < n ==> changes[..n][i] == changes[i];
      }
    }
  }

  /**
   No key's final value differs, for the callback, from what was collected: a collected key is not left with
   a value the callback spares, nor another key with one it condemns.
   */
  ghost predicate Undisturbed<K, V>(seen: map<K, V>, changes: seq<Change<K, V>>, f: (K, V) -> bool) {
    forall i :: 0 <= i < |changes| && IsLast(changes, i) && changes[i].Put?
      ==> (f(changes[i].key, changes[i].value) <==> changes[i].key in Condemned(seen, f))
  }

  /**
   Cleanup releases its lock between collecting and deleting, and other callers may set and delete entries
   meanwhile.  Its result is that of a pass made under one lock afterwards exactly when no collected key was
   last set to a value the callback spares and no other key to one it condemns.
   */
  lemma TwoPhaseCleanupIsAtomicIff<K, V>(seen: map<K, V>, changes: seq<Change<K, V>>, f: (K, V) -> bool)
    ensures var current := Applied(seen, changes);
      current - Condemned(seen, f) == current - Condemned(current, f) <==> Undisturbed(seen, changes, f)
  {
    var current := Applied(seen, changes);
    if Undisturbed(seen, changes, f) {
      forall k | k in current
        ensures k in Condemned(seen, f) <==> k in Condemned(current, f)
      {
        var last := AppliedEntry(seen, changes, k);
      }
      assert current - Condemned(seen, f) == current - Condemned(current, f);
    } else {
      var i :| 0 <= i < |changes| && IsLast(changes, i) && changes[i].Put?
        && !(f(changes[i].key, changes[i].value) <==> changes[i].key in Condemned(seen, f));
      var k := changes[i].key;
      var last := AppliedEntry(seen, changes, k);
      assert last == Some(i);
      assert k in (current - Condemned(seen, f)).Keys <==> k !in (current - Condemned(current, f)).Keys;
    }
  }
}
