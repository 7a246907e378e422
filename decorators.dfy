/** The `ScheduledDelete` decorator around a `DatabaseColumn`: removals are
    not forwarded at once but collected in a pending set, and replayed
    against the inner column only when a flusher runs. Puts and reads go
    straight to the inner column. The mutex around the pending set is not
    modelled: every operation is one sequential step. */
module Decorators {
  import opened Wrappers
  import opened DatabaseColumn

  class ScheduledDelete {
    /** The decorated column. */
    const db: Column
    /** `deleted_pending_persistence`: keys removed but not yet flushed. */
    var pending: set<Key>

    constructor (db: Column)
      ensures this.db == db && pending == {}
    {
      this.db := db;
      pending := {};
    }

    /** A put cancels a scheduled delete of the same key and stores the value
        in the inner column (which may fail on its own). */
    method Put(key: Key, value: Value) returns (r: OperationResult<Unit>)
      modifies this, db
      ensures pending == old(pending) - {key}
      ensures r.Ok? ==> db.store == old(db.store)[key := value]
      ensures r.Err? ==> db.store == old(db.store)
      ensures db.persisted == old(db.persisted) && db.hasFamily == old(db.hasFamily)
    {
      pending := pending - {key};
      r := db.Put(key, value);
    }

    /** A remove only schedules the key; the inner column is untouched. */
    method Remove(key: Key) returns (r: OperationResult<Unit>)
      modifies this
      ensures pending == old(pending) + {key}
      ensures r == Ok(Unit)
    {
      pending := pending + {key};
      r := Ok(Unit);
    }

    /** Takes the pending set (leaving it empty) and returns a flusher that
        will remove exactly those keys from the inner column. */
    method Flusher() returns (f: ScheduledFlush)
      modifies this
      ensures pending == {}
      ensures f.ids == old(pending) && f.column == db
    {
      var ids := pending;
      pending := {};
      f := ScheduledFlush(ids, db);
    }

    /** Reads from the inner column: a key removed but not yet flushed is
        still visible. */
    method GetPinned<T>(key: Key, f: Value -> T) returns (r: OperationResult<Option<T>>)
      ensures r.Ok? ==> r.value == if key in db.store then Some(f(db.store[key])) else None
    {
      r := db.GetPinned(key, f);
    }

    /** `lock_db` hands out the inner column's own handle. */
    method LockDb() returns (c: Column)
      ensures c == db
    {
      c := db;
    }

    method CreateColumnFamilyIfNotExists() returns (r: OperationResult<Unit>)
      modifies db
      ensures r.Ok? ==> db.hasFamily
      ensures r.Err? ==> db.hasFamily == old(db.hasFamily)
      ensures db.store == old(db.store) && db.persisted == old(db.persisted)
      ensures pending == old(pending)
    {
      r := db.CreateColumnFamilyIfNotExists();
    }

    method RecreateColumnFamily() returns (r: OperationResult<Unit>)
      modifies db
      ensures r.Ok? ==> db.hasFamily && db.store == map[] && db.persisted == map[]
      ensures r.Err? ==> db.hasFamily == old(db.hasFamily) && db.store == old(db.store)
      ensures pending == old(pending)
    {
      r := db.RecreateColumnFamily();
    }

    method RemoveColumnFamily() returns (r: OperationResult<Unit>)
      modifies db
      ensures r.Ok? ==> !db.hasFamily && db.store == map[] && db.persisted == map[]
      ensures r.Err? ==> db.hasFamily == old(db.hasFamily) && db.store == old(db.store)
      ensures pending == old(pending)
    {
      r := db.RemoveColumnFamily();
    }

    method HasColumnFamily() returns (r: OperationResult<bool>)
      ensures r.Ok? ==> r.value == db.hasFamily
    {
      r := db.HasColumnFamily();
    }
  }

  /** The boxed closure `flusher` returns: the keys captured when it was
      created and a handle on the inner column. */
  datatype ScheduledFlush = ScheduledFlush(ids: set<Key>, column: Column) {

    /** Removes every captured key from the inner column, stopping at the
        first removal that fails, and then runs the inner column's flusher.
        The order of removals is that of a hash set: unspecified. */
    method Run() returns (r: OperationResult<Unit>)
      modifies column
      ensures r.Ok? ==> column.store == old(column.store) - ids && column.persisted == column.store
      ensures r.Err? ==> exists removed :: removed <= ids && column.store == old(column.store) - removed
      ensures r.Err? ==> column.persisted == old(column.persisted)
      ensures column.hasFamily == old(column.hasFamily)
    {
      var remaining := ids;
      while remaining != {}
        invariant remaining <= ids
        invariant column.store == old(column.store) - (ids - remaining)
        invariant column.hasFamily == old(column.hasFamily) && column.persisted == old(column.persisted)
        decreases remaining
      {
        var id :| id in remaining;
        var removed := column.Remove(id);
        if removed.Err? {
          return Err(removed.error);
        }
        remaining := remaining - {id};
      }
      r := column.Flush();
    }
  }

  /** A remove followed by a put of the same key before any flush leaves the
      key out of the next flusher: the value survives the flush. */
  method RemoveThenPutIsNotDeleted(sd: ScheduledDelete, key: Key, value: Value)
    returns (put: OperationResult<Unit>, flushed: OperationResult<Unit>)
    modifies sd, sd.db
    ensures sd.pending == {}
    ensures put.Ok? && flushed.Ok? ==> key in sd.db.persisted && sd.db.persisted[key] == value
  {
    var _ := sd.Remove(key);
    put := sd.Put(key, value);
    var f := sd.Flusher();
    assert key !in f.ids;
    flushed := f.Run();
  }

  /** A remove is deferred: the value stays readable until a flusher taken
      after the remove has run, and is gone from the inner column (and from
      what it persisted) once that flusher succeeds. */
  method RemoveIsDeferred<T>(sd: ScheduledDelete, key: Key, f: Value -> T)
    returns (before: OperationResult<Option<T>>, flushed: OperationResult<Unit>, after: OperationResult<Option<T>>)
    modifies sd, sd.db
    ensures before.Ok? ==> before.value == if key in old(sd.db.store) then Some(f(old(sd.db.store)[key])) else None
    ensures flushed.Ok? ==> key !in sd.db.store && key !in sd.db.persisted
    ensures flushed.Ok? && after.Ok? ==> after.value == None
  {
    var _ := sd.Remove(key);
    before := sd.GetPinned(key, f);
    var flusher := sd.Flusher();
    flushed := flusher.Run();
    after := sd.GetPinned(key, f);
  }
}
