/** An abstract stand-in for one RocksDB column family behind the
    `DatabaseColumn` interface (lib/segment/src/common/rocksdb_wrapper/wrapper.rs
    is not part of this model). The column holds a key/value map; a flush makes
    the current contents durable. Every storage call may report an I/O error:
    the model chooses failure nondeterministically, and each contract says
    what a success and what a failure leave behind. */
module DatabaseColumn {
  import opened Wrappers

  type byte = x: int | 0 <= x < 256

  type Key = seq<byte>
  type Value = seq<byte>

  datatype OperationError = StorageError | ServiceError(description: string)

  type OperationResult<T> = Result<T, OperationError>

  /** `entries` lists every pair of `store` exactly once, in some order. */
  ghost predicate Enumerates(store: map<Key, Value>, entries: seq<(Key, Value)>) {
    (forall i :: 0 <= i < |entries| ==> entries[i].0 in store && store[entries[i].0] == entries[i].1) &&
    (forall k :: k in store ==> exists i :: 0 <= i < |entries| && entries[i].0 == k) &&
    (forall i, j :: 0 <= i < j < |entries| ==> entries[i].0 != entries[j].0)
  }

  class Column {
    /** The current contents of the column family. */
    var store: map<Key, Value>
    /** The contents as of the last successful flush. */
    var persisted: map<Key, Value>
    /** Whether the column family exists in the database. */
    var hasFamily: bool

    constructor ()
      ensures store == map[] && persisted == map[] && hasFamily
    {
      store, persisted, hasFamily := map[], map[], true;
    }

    method Put(key: Key, value: Value) returns (r: OperationResult<Unit>)
      modifies this
      ensures r.Ok? ==> store == old(store)[key := value]
      ensures r.Err? ==> store == old(store)
      ensures persisted == old(persisted) && hasFamily == old(hasFamily)
    {
      var failed: bool :| true;
      if failed {
        r := Err(StorageError);
      } else {
        store := store[key := value];
        r := Ok(Unit);
      }
    }

    method Remove(key: Key) returns (r: OperationResult<Unit>)
      modifies this
      ensures r.Ok? ==> store == old(store) - {key}
      ensures r.Err? ==> store == old(store)
      ensures persisted == old(persisted) && hasFamily == old(hasFamily)
    {
      var failed: bool :| true;
      if failed {
        r := Err(StorageError);
      } else {
        store := store - {key};
        r := Ok(Unit);
      }
    }

    /** Runs the column's own flusher. */
    method Flush() returns (r: OperationResult<Unit>)
      modifies this
      ensures r.Ok? ==> persisted == store
      ensures r.Err? ==> persisted == old(persisted)
      ensures store == old(store) && hasFamily == old(hasFamily)
    {
      var failed: bool :| true;
      if failed {
        r := Err(StorageError);
      } else {
        persisted := store;
        r := Ok(Unit);
      }
    }

    /** Looks `key` up and hands the stored bytes to `f`. */
    method GetPinned<T>(key: Key, f: Value -> T) returns (r: OperationResult<Option<T>>)
      ensures r.Ok? ==> r.value == if key in store then Some(f(store[key])) else None
    {
      var failed: bool :| true;
      if failed {
        r := Err(StorageError);
      } else if key in store {
        r := Ok(Some(f(store[key])));
      } else {
        r := Ok(None);
      }
    }

    /** `lock_db().iter()`: the stored pairs, each key once. The database
        yields them in key order; the model fixes no order. */
    method Iter() returns (r: OperationResult<seq<(Key, Value)>>)
      ensures r.Ok? ==> Enumerates(store, r.value)
    {
      var failed: bool :| true;
      if failed {
        return Err(StorageError);
      }
      var entries: seq<(Key, Value)> := [];
      var keys := store.Keys;
      while keys != {}
        invariant keys <= store.Keys
        invariant forall i :: 0 <= i < |entries| ==>
          entries[i].0 in store && entries[i].0 !in keys && store[entries[i].0] == entries[i].1
        invariant forall k :: k in store && k !in keys ==> exists i :: 0 <= i < |entries| && entries[i].0 == k
        invariant forall i, j :: 0 <= i < j < |entries| ==> entries[i].0 != entries[j].0
        decreases keys
      {
        var k :| k in keys;
        ghost var listed := entries;
        entries := entries + [(k, store[k])];
        assert forall i :: 0 <= i < |listed| ==> entries[i] == listed[i];
        assert entries[|listed|].0 == k;
        keys := keys - {k};
      }
      r := Ok(entries);
    }

    method CreateColumnFamilyIfNotExists() returns (r: OperationResult<Unit>)
      modifies this
      ensures r.Ok? ==> hasFamily
      ensures r.Err? ==> hasFamily == old(hasFamily)
      ensures store == old(store) && persisted == old(persisted)
    {
      var failed: bool :| true;
      if failed {
        r := Err(StorageError);
      } else {
        hasFamily := true;
        r := Ok(Unit);
      }
    }

    /** Drops the column family and creates it afresh, empty. */
    method RecreateColumnFamily() returns (r: OperationResult<Unit>)
      modifies this
      ensures r.Ok? ==> hasFamily && store == map[] && persisted == map[]
      ensures r.Err? ==> hasFamily == old(hasFamily) && store == old(store) && persisted == old(persisted)
    {
      var failed: bool :| true;
      if failed {
        r := Err(StorageError);
      } else {
        hasFamily, store, persisted := true, map[], map[];
        r := Ok(Unit);
      }
    }

    method RemoveColumnFamily() returns (r: OperationResult<Unit>)
      modifies this
      ensures r.Ok? ==> !hasFamily && store == map[] && persisted == map[]
      ensures r.Err? ==> hasFamily == old(hasFamily) && store == old(store) && persisted == old(persisted)
    {
      var failed: bool :| true;
      if failed {
        r := Err(StorageError);
      } else {
        hasFamily, store, persisted := false, map[], map[];
        r := Ok(Unit);
      }
    }

    method HasColumnFamily() returns (r: OperationResult<bool>)
      ensures r.Ok? ==> r.value == hasFamily
    {
      var failed: bool :| true;
      if failed {
        r := Err(StorageError);
      } else {
        r := Ok(hasFamily);
      }
    }
  }
}
