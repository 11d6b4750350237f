/** pkg/konnector/controllers/contextstore: the registry of the running sync workers, keyed by strings. */
module ContextStore {
  import opened Kube

  type Key = string

  function Join(parts: seq<string>): string {
    if parts == [] then "" else if |parts| == 1 then parts[0] else parts[0] + "." + Join(parts[1..])
  }

  function NewKey(exportNamespace: string, exportName: string, suffix: seq<string>): Key {
    if suffix == [] then exportNamespace + "." + exportName
    else exportNamespace + "." + exportName + "." + Join(suffix)
  }

  /** The export that a worker belongs to. The store does not know it: a key may start with those of several exports.
      */
  datatype ExportName = ExportName(ns: string, name: string)

  /** A started worker and the function that cancels its context. */
  class Worker {
    ghost const key: Key
    ghost const owner: ExportName
    var cancelled: bool

    constructor (ghost key: Key, ghost owner: ExportName)
      ensures this.key == key && this.owner == owner && !cancelled
    {
      this.key, this.owner := key, owner;
      cancelled := false;
    }

    method Cancel()
      modifies this
      ensures cancelled
    {
      cancelled := true;
    }
  }

  datatype SyncContext = SyncContext(key: Key, generation: int, cancel: Worker)

  class Store {
    var store: map<Key, SyncContext>
    /** Every worker ever started. */
    ghost var started: set<Worker>

    constructor ()
      ensures Valid() && store == map[] && started == {}
    {
      store, started := map[], {};
    }

    /** No worker is leaked: the started and not cancelled workers are those in the store, each under its own key. */
    ghost predicate Valid()
      reads this, started
    {
      && (forall k | k in store ::
            store[k].key == k && store[k].cancel in started && store[k].cancel.key == k && !store[k].cancel.cancelled)
      && (forall w | w in started && !w.cancelled :: w.key in store && store[w.key].cancel == w)
    }

    method Get(key: Key) returns (c: Option<SyncContext>)
      ensures c == if key in store then Some(store[key]) else None
    {
      return if key in store then Some(store[key]) else None;
    }

    method ListPrefixed(prefix: Key) returns (results: seq<SyncContext>)
      requires Valid()
      ensures forall c :: c in results <==> c.key in store && c == store[c.key] && HasPrefix(c.key, prefix)
      ensures forall i, j | 0 <= i < j < |results| :: results[i].key != results[j].key
    {
      results := [];
      var todo := store.Keys;
      while todo != {}
        invariant todo <= store.Keys
        invariant forall c :: c in results <==>
                    c.key in store.Keys - todo && c == store[c.key] && HasPrefix(c.key, prefix)
        invariant forall i, j | 0 <= i < j < |results| :: results[i].key != results[j].key
        decreases todo
      {
        var k :| k in todo;
        todo := todo - {k};
        if HasPrefix(k, prefix) {
          assert forall i | 0 <= i < |results| :: results[i] in results;
          results := results + [store[k]];
        }
      }
    }

    /** Files a context under a key; what was there before is dropped without being cancelled. */
    method Set(key: Key, value: SyncContext)
      modifies this`store
      ensures store == old(store)[key := value.(key := key)]
    {
      store := store[key := value.(key := key)];
    }

    method Delete(key: Key)
      requires Valid()
      modifies this`store, if key in store then {store[key].cancel} else {}
      ensures Valid() && store == old(store) - {key}
      ensures key in old(store) ==> old(store)[key].cancel.cancelled
    {
      if key in store {
        var c := store[key];
        store := store - {key};
        c.cancel.Cancel();
      }
    }

    method BulkDeletePrefixed(prefix: Key) returns (deleted: seq<SyncContext>)
      requires Valid()
      modifies this`store, started
      ensures Valid() && store == map k | k in old(store) && !HasPrefix(k, prefix) :: old(store)[k]
      ensures forall c :: c in deleted <==> c.key in old(store) && c == old(store)[c.key] && HasPrefix(c.key, prefix)
      ensures forall c | c in deleted :: c.cancel.cancelled
    {
      deleted := ListPrefixed(prefix);
      ghost var gone: set<Key> := {};
      var i := 0;
      while i < |deleted|
        invariant 0 <= i <= |deleted|
        invariant Valid() && started == old(started)
        invariant store == old(store) - gone
        invariant gone == set j | 0 <= j < i :: deleted[j].key
      {
        assert deleted[i] in deleted;
        Delete(deleted[i].key);
        gone := gone + {deleted[i].key};
        i := i + 1;
      }
      forall k | k in old(store)
        ensures k in gone <==> HasPrefix(k, prefix)
      {
        assert HasPrefix(k, prefix) <==> old(store)[k] in deleted;
      }
    }

    /** Starts a worker and files it. The registry stays sound exactly if the key is free; otherwise the worker that
        was filed there is leaked. */
    method Launch(key: Key, generation: int, ghost owner: ExportName)
      requires Valid()
      modifies this
      ensures Valid() <==> key !in old(store)
      ensures key in store && fresh(store[key].cancel)
      ensures store[key].cancel.key == key && store[key].cancel.owner == owner
      ensures started == old(started) + {store[key].cancel}
      ensures store == old(store)[key := SyncContext(key, generation, store[key].cancel)]
    {
      var worker := new Worker(key, owner);
      started := started + {worker};
      Set(key, SyncContext("", generation, worker));
      assert key in old(store) ==> old(store)[key].cancel in started;
    }
  }
}
