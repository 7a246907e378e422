/** The boolean payload field index
    (lib/segment/src/index/field_index/binary_index.rs): `BinaryMemory`
    keeps one bit per point in each of two bit vectors, `trues` and
    `falses`; `BinaryIndex` puts a column of the database behind it, one
    record per point. Every method is proved against the value-level
    functions of module BinaryModel. */
module BinaryIndex {
  import opened Wrappers
  import opened DatabaseColumn
  import opened SegmentTypes
  import opened BinaryModel
  import opened BitVecs
  import Json

  /** Point offsets are `u32`, so at most 2^32 slots are ever used. */
  const MAX_SLOTS: nat := 0x1_0000_0000

  class BinaryMemory {
    const trues: BitVec
    const falses: BitVec
    ghost var Repr: set<object>

    ghost predicate Valid()
      reads this, Repr
    {
      this in Repr &&
      trues in Repr && trues.Repr <= Repr && this !in trues.Repr &&
      falses in Repr && falses.Repr <= Repr && this !in falses.Repr &&
      trues.Repr !! falses.Repr &&
      trues.Valid() && falses.Valid() &&
      trues.len == falses.len && trues.len <= MAX_SLOTS
    }

    /** The item of every slot, in point-offset order. */
    ghost function Items(): (items: seq<BinaryItem>)
      reads this, Repr
      requires Valid()
      ensures |items| == trues.len == falses.len
    {
      Zip(trues.Bits(), falses.Bits())
    }

    constructor ()
      ensures Valid() && fresh(Repr) && Items() == []
    {
      trues := new BitVec();
      falses := new BitVec();
      new;
      Repr := {this} + trues.Repr + falses.Repr;
    }

    /** `get`: a point at or beyond the end of the vectors has the empty
        item. */
    function Get(id: PointOffset): (item: BinaryItem)
      reads this, Repr
      requires Valid()
      ensures item == ItemAt(Items(), id)
      ensures id >= trues.len ==> item == Empty
    {
      if id >= trues.len then Empty
      else FromBools(trues.Get(id), falses.Get(id))
    }

    method SetOrInsert(id: PointOffset, item: BinaryItem)
      requires Valid()
      modifies Repr
      ensures Valid() && fresh(Repr - old(Repr))
      ensures Items() == Assigned(old(Items()), id, item)
    {
      if item.IsEmpty() {
        return;
      }
      ghost var t, f := trues.Bits(), falses.Bits();
      Grow(id + 1);
      trues.Set(id, item.Contains(true));
      falses.Set(id, item.Contains(false));
      ZipAssigned(t, f, id, item);
    }

    /** Grows both vectors with clear bits to at least `n` slots. */
    method Grow(n: nat)
      requires Valid() && n <= MAX_SLOTS
      modifies Repr
      ensures Valid() && fresh(Repr - old(Repr))
      ensures trues.Bits() == Padded(old(trues.Bits()), n) && falses.Bits() == Padded(old(falses.Bits()), n)
    {
      if n > trues.len {
        trues.Resize(n, false);
        falses.Resize(n, false);
        Repr := {this} + trues.Repr + falses.Repr;
      }
    }

    /** Clears the point's bits if it is within bounds, then shrinks. */
    method Remove(id: PointOffset)
      requires Valid()
      modifies Repr
      ensures Valid() && Repr == old(Repr)
      ensures Items() == Removed(old(Items()), id)
    {
      ghost var before := Items();
      if id < trues.len {
        trues.Set(id, false);
        falses.Set(id, false);
        assert Items() == before[id := Empty];
      }
      Shrink();
    }

    /** Cuts both vectors to the last populated slot, or empties them when
        no bit is set. */
    method Shrink()
      requires Valid()
      modifies Repr
      ensures Valid() && Repr == old(Repr)
      ensures Items() == Trim(old(Items()))
    {
      var lastTrue := trues.LastOne();
      var lastFalse := falses.LastOne();
      LastOneIsLastPopulated(trues.Bits(), falses.Bits());
      TrimSpec(Items());
      match MaxOption(lastTrue, lastFalse)
      case Some(index) =>
        if index < trues.len - 1 {
          Cut(index + 1);
        } else {
          assert Items()[..|Items()|] == Items();
        }
      case None =>
        Cut(0);
    }

    /** Truncates both vectors to their first `n` slots. */
    method Cut(n: nat)
      requires Valid() && n <= trues.len
      modifies Repr
      ensures Valid() && Repr == old(Repr)
      ensures Items() == old(Items())[..n]
    {
      ghost var t, f := trues.Bits(), falses.Bits();
      trues.Truncate(n);
      falses.Truncate(n);
      assert Zip(t, f)[..n] == Zip(t[..n], f[..n]);
    }

    method CountTrues() returns (count: nat)
      requires Valid()
      ensures count == |MatchingIds(Items(), true)|
    {
      count := trues.CountOnes();
      OnesCountMatches(trues.Bits(), falses.Bits());
    }

    method CountFalses() returns (count: nat)
      requires Valid()
      ensures count == |MatchingIds(Items(), false)|
    {
      count := falses.CountOnes();
      OnesCountMatches(trues.Bits(), falses.Bits());
    }

    /** The larger of the two counts. */
    method IndexedCount() returns (count: nat)
      requires Valid()
      ensures count >= |MatchingIds(Items(), true)| && count >= |MatchingIds(Items(), false)|
      ensures count == |MatchingIds(Items(), true)| || count == |MatchingIds(Items(), false)|
    {
      var t := trues.CountOnes();
      var f := falses.CountOnes();
      OnesCountMatches(trues.Bits(), falses.Bits());
      count := if t < f then f else t;
    }

    /** An iterator over the slots up to the last populated one (one empty
        slot when there is none). */
    method Iter() returns (it: BinaryMemoryIterator)
      requires Valid()
      ensures fresh(it) && it.Valid() && it.memory == this && it.ptr == 0
      ensures it.end == LastPopulated(Items()).GetOr(0) + 1
    {
      var lastFalse := falses.LastOne();
      var lastTrue := trues.LastOne();
      LastOneIsLastPopulated(trues.Bits(), falses.Bits());
      LastPopulatedSpec(Items());
      var end := MaxOption(lastFalse, lastTrue).GetOr(0) + 1;
      it := new BinaryMemoryIterator(this, end);
    }
  }

  /** `bits` grown with clear bits to at least `n` of them. */
  function Padded(bits: seq<bool>, n: nat): (p: seq<bool>)
    ensures |p| == if n <= |bits| then |bits| else n
    ensures forall j :: 0 <= j < |p| ==> p[j] == (j < |bits| && bits[j])
  {
    if n <= |bits| then bits else bits + seq(n - |bits|, _ => false)
  }

  /** Growing both vectors and setting the flags of one slot assigns that
      slot's item. */
  lemma ZipAssigned(t: seq<bool>, f: seq<bool>, id: PointOffset, item: BinaryItem)
    requires |t| == |f| && !item.IsEmpty()
    ensures Zip(Padded(t, id + 1)[id := item.Contains(true)], Padded(f, id + 1)[id := item.Contains(false)])
         == Assigned(Zip(t, f), id, item)
  {
    var lhs := Zip(Padded(t, id + 1)[id := item.Contains(true)], Padded(f, id + 1)[id := item.Contains(false)]);
    var rhs := Assigned(Zip(t, f), id, item);
    forall j | 0 <= j < |lhs| ensures lhs[j] == rhs[j] {
      assert ItemAt(rhs, j) == rhs[j];
    }
  }

  class BinaryMemoryIterator {
    const memory: BinaryMemory
    var ptr: nat
    const end: nat

    ghost predicate Valid()
      reads this, memory, memory.Repr
    {
      memory.Valid() && this !in memory.Repr && ptr <= end <= MAX_SLOTS
    }

    constructor (memory: BinaryMemory, end: nat)
      requires memory.Valid() && end <= MAX_SLOTS
      ensures Valid() && this.memory == memory && ptr == 0 && this.end == end
    {
      this.memory := memory;
      this.end := end;
      ptr := 0;
    }

    /** Yields the item of slot `ptr` and advances, until `end`. */
    method Next() returns (item: Option<BinaryItem>)
      requires Valid()
      modifies this
      ensures Valid()
      ensures old(ptr) == end ==> item == None && ptr == old(ptr)
      ensures old(ptr) < end ==> item == Some(ItemAt(memory.Items(), old(ptr))) && ptr == old(ptr) + 1
    {
      if ptr == end {
        return None;
      }
      item := Some(memory.Get(ptr));
      ptr := ptr + 1;
    }
  }

  datatype PrimaryCondition = PrimaryField(condition: FieldCondition)

  /** `CardinalityEstimation::exact(count)` with one primary clause. */
  datatype CardinalityEstimation = CardinalityEstimation(
    primaryClauses: seq<PrimaryCondition>, min: nat, exp: nat, max: nat)

  datatype PayloadBlockCondition = PayloadBlockCondition(condition: FieldCondition, cardinality: nat)

  datatype PayloadIndexTelemetry = PayloadIndexTelemetry(
    fieldName: Option<string>, pointsCount: nat, pointsValuesCount: nat, histogramBucketSize: Option<nat>)

  /** `storage_cf_name`: the column family of a field's index. */
  function StorageCfName(field: string): (name: string)
    ensures |name| == |field| + 7 && name[..|field|] == field
  {
    field + "_binary"
  }

  lemma StorageCfNameInjective(a: string, b: string)
    requires StorageCfName(a) == StorageCfName(b)
    ensures a == b
  {
    assert a == StorageCfName(a)[..|a|];
  }

  /** The value a condition matches when it is `Match::Value(Bool(v))`,
      the only condition this index answers. */
  function BoolMatch(condition: FieldCondition): (value: Option<bool>)
    ensures value.Some? <==> condition.matching.Some? && condition.matching.value.Value? && condition.matching.value.value.Bool?
  {
    match condition.matching
    case Some(Value(Bool(v))) => Some(v)
    case _ => None
  }

  /** `make_block` of `payload_blocks`. */
  function MakeBlock(count: nat, value: bool, key: string, threshold: nat): (block: seq<PayloadBlockCondition>)
    ensures |block| <= 1 && (|block| == 1 <==> count > threshold)
    ensures |block| == 1 ==> block[0].cardinality == count && BoolMatch(block[0].condition) == Some(value) && block[0].condition.key == key
  {
    if count > threshold then [PayloadBlockCondition(NewMatch(key, Value(Bool(value))), count)] else []
  }

  /** `get_value`: the index takes JSON booleans only. */
  function GetValue(value: Json.Value): (b: Option<bool>)
    ensures b.Some? <==> value.Bool?
    ensures b.Some? ==> b.value == value.b
  {
    Json.AsBool(value)
  }

  class BinaryIndex {
    const memory: BinaryMemory
    const db: Column
    const cfName: string

    ghost predicate Valid()
      reads this, memory, memory.Repr
    {
      memory.Valid() && db !in memory.Repr && Trimmed(memory.Items())
    }

    constructor (db: Column, fieldName: string)
      ensures Valid() && fresh(memory.Repr) && memory.Items() == []
      ensures this.db == db && cfName == StorageCfName(fieldName)
    {
      this.db := db;
      cfName := StorageCfName(fieldName);
      memory := new BinaryMemory();
    }

    method Recreate() returns (r: OperationResult<Unit>)
      modifies db
      ensures r.Ok? ==> db.hasFamily && db.store == map[]
      ensures r.Err? ==> db.store == old(db.store)
    {
      r := db.RecreateColumnFamily();
    }

    /** As written, `points_values_count` adds the false count twice. */
    method GetTelemetryData() returns (t: PayloadIndexTelemetry)
      requires Valid()
      ensures t.pointsValuesCount == TelemetryValuesCountAsWritten(memory.Items())
      ensures t.pointsCount >= |MatchingIds(memory.Items(), true)| && t.pointsCount >= |MatchingIds(memory.Items(), false)|
      ensures t.pointsCount == |MatchingIds(memory.Items(), true)| || t.pointsCount == |MatchingIds(memory.Items(), false)|
      ensures t.fieldName == None && t.histogramBucketSize == None
    {
      var indexed := memory.IndexedCount();
      var falses1 := memory.CountFalses();
      var falses2 := memory.CountFalses();
      t := PayloadIndexTelemetry(None, indexed, falses1 + falses2, None);
    }

    /** The telemetry with `count_trues() + count_falses()`: every value of
        every point is counted once. */
    method GetTelemetryDataCorrected() returns (t: PayloadIndexTelemetry)
      requires Valid()
      ensures t.pointsValuesCount == TotalValues(memory.Items())
      ensures t.pointsCount >= |MatchingIds(memory.Items(), true)| && t.pointsCount >= |MatchingIds(memory.Items(), false)|
      ensures t.pointsCount == |MatchingIds(memory.Items(), true)| || t.pointsCount == |MatchingIds(memory.Items(), false)|
      ensures t.fieldName == None && t.histogramBucketSize == None
    {
      var indexed := memory.IndexedCount();
      var trues := memory.CountTrues();
      var falses := memory.CountFalses();
      assert trues + falses == TelemetryValuesCount(memory.Items());
      t := PayloadIndexTelemetry(None, indexed, trues + falses, None);
    }

    /** The number of values a point has: one for each filter that yields
        it. */
    function ValuesCount(id: PointOffset): (n: nat)
      reads this, memory, memory.Repr
      requires Valid()
      ensures n == (if id in MatchingIds(memory.Items(), true) then 1 else 0)
                 + (if id in MatchingIds(memory.Items(), false) then 1 else 0)
    {
      MatchingIdsSpec(memory.Items(), true);
      MatchingIdsSpec(memory.Items(), false);
      memory.Get(id).ValuesCount()
    }

    function ValuesIsEmpty(id: PointOffset): (empty: bool)
      reads this, memory, memory.Repr
      requires Valid()
      ensures empty <==> id !in MatchingIds(memory.Items(), true) && id !in MatchingIds(memory.Items(), false)
    {
      MatchingIdsSpec(memory.Items(), true);
      MatchingIdsSpec(memory.Items(), false);
      memory.Get(id).IsEmpty()
    }

    method IndexedPoints() returns (count: nat)
      requires Valid()
      ensures count >= |MatchingIds(memory.Items(), true)| && count >= |MatchingIds(memory.Items(), false)|
      ensures count == |MatchingIds(memory.Items(), true)| || count == |MatchingIds(memory.Items(), false)|
    {
      count := memory.IndexedCount();
    }

    /** `load`: reads the column family's pairs and sets the item of each.
        Returns `Ok(false)` when the column family is missing. On success
        every stored record decodes and each point whose record is not empty
        has that record's item; loaded into an empty index, the content then
        agrees with the column. */
    method Load() returns (r: OperationResult<bool>)
      requires Valid()
      modifies memory.Repr
      ensures Valid() && fresh(memory.Repr - old(memory.Repr))
      ensures r == Ok(false) ==> !db.hasFamily && memory.Items() == old(memory.Items())
      ensures r == Ok(true) ==>
                db.hasFamily &&
                exists entries :: Enumerates(db.store, entries) && LoadInto(old(memory.Items()), entries) == Ok(memory.Items())
      ensures r == Ok(true) ==> forall k :: k in db.store ==> DecodeEntry((k, db.store[k])).Ok?
      ensures r == Ok(true) ==> forall id: PointOffset ::
                ItemAt(memory.Items(), id) ==
                if StoredItem(db.store, id).IsEmpty() then ItemAt(old(memory.Items()), id) else StoredItem(db.store, id)
      ensures r == Ok(true) && old(memory.Items()) == [] ==> Mirrors(memory.Items(), db.store)
      ensures r.Err? ==>
        (memory.Items() == old(memory.Items()) ||
         exists entries, k :: Enumerates(db.store, entries) && 0 <= k < |entries| && DecodeEntry(entries[k]).Err? &&
           LoadInto(old(memory.Items()), entries[..k]) == Ok(memory.Items()))
    {
      var has := db.HasColumnFamily();
      if has.Err? {
        return Err(has.error);
      }
      if !has.value {
        return Ok(false);
      }
      var rows := db.Iter();
      if rows.Err? {
        return Err(rows.error);
      }
      var entries := rows.value;
      var loaded := LoadRows(entries);
      if loaded.Err? {
        return Err(loaded.error);
      }
      LoadedFromStore(old(memory.Items()), db.store, entries);
      r := Ok(true);
    }

    /** The loop of `load`: decodes each entry and sets its item, stopping
        at the first entry that does not decode. */
    method LoadRows(entries: seq<(Key, Value)>) returns (r: OperationResult<Unit>)
      requires Valid()
      modifies memory.Repr
      ensures Valid() && fresh(memory.Repr - old(memory.Repr))
      ensures r.Ok? ==> LoadInto(old(memory.Items()), entries) == Ok(memory.Items())
      ensures r.Err? ==>
        exists k :: 0 <= k < |entries| && DecodeEntry(entries[k]).Err? &&
          LoadInto(old(memory.Items()), entries[..k]) == Ok(memory.Items())
    {
      var i := 0;
      while i < |entries|
        invariant 0 <= i <= |entries|
        invariant memory.Valid() && fresh(memory.Repr - old(memory.Repr)) && db !in memory.Repr
        invariant Trimmed(memory.Items())
        invariant LoadInto(old(memory.Items()), entries[..i]) == Ok(memory.Items())
      {
        var decoded := DecodeEntry(entries[i]);
        if decoded.Err? {
          return Err(decoded.error);
        }
        LoadIntoStep(old(memory.Items()), entries, i);
        memory.SetOrInsert(decoded.value.0, decoded.value.1);
        i := i + 1;
      }
      assert entries[..|entries|] == entries;
      r := Ok(Unit);
    }

    /** `clear`: drops the column family. */
    method Clear() returns (r: OperationResult<Unit>)
      modifies db
      ensures r.Ok? ==> !db.hasFamily && db.store == map[]
      ensures r.Err? ==> db.store == old(db.store)
    {
      r := db.RemoveColumnFamily();
    }

    /** Runs the column's flusher. */
    method Flush() returns (r: OperationResult<Unit>)
      modifies db
      ensures r.Ok? ==> db.persisted == db.store
      ensures db.store == old(db.store)
    {
      r := db.Flush();
    }

    /** `filter`: for `Match::Value(Bool(v))`, the points whose item has the
        flag of `v`, in ascending order; None for any other condition. */
    method Filter(condition: FieldCondition) returns (ids: Option<seq<nat>>)
      requires Valid()
      ensures ids.Some? <==> BoolMatch(condition).Some?
      ensures ids.Some? ==> ids.value == MatchingIds(memory.Items(), BoolMatch(condition).value)
      ensures ids.Some? ==> forall i, j :: 0 <= i < j < |ids.value| ==> ids.value[i] < ids.value[j]
      ensures ids.Some? ==> forall id: PointOffset :: id in ids.value <==> memory.Get(id).Contains(BoolMatch(condition).value)
    {
      if BoolMatch(condition).None? {
        return None;
      }
      var value := BoolMatch(condition).value;
      var found := Collect(value);
      MatchingIdsSpec(memory.Items(), value);
      ids := Some(found);
    }

    /** The loop of `filter`: walks the memory's iterator and keeps the
        offsets whose item has the flag `value`. */
    method Collect(value: bool) returns (found: seq<nat>)
      requires Valid()
      ensures found == MatchingIds(memory.Items(), value)
    {
      var it := memory.Iter();
      found := [];
      var pointId: nat := 0;
      while true
        invariant it.Valid() && it.memory == memory && it.end == LastPopulated(memory.Items()).GetOr(0) + 1
        invariant pointId == it.ptr
        invariant found == MatchingIds(Window(memory.Items(), it.ptr), value)
        decreases it.end - it.ptr
      {
        var item := it.Next();
        if item.None? {
          break;
        }
        assert Window(memory.Items(), it.ptr)[..pointId] == Window(memory.Items(), pointId);
        if item.value.Contains(value) {
          found := found + [pointId];
        }
        pointId := pointId + 1;
      }
      MatchingIdsIterated(memory.Items(), value);
    }

    /** `estimate_cardinality`: exactly the number of points `filter` yields
        for the same condition. */
    method EstimateCardinality(condition: FieldCondition) returns (r: Option<CardinalityEstimation>)
      requires Valid()
      ensures r.Some? <==> BoolMatch(condition).Some?
      ensures r.Some? ==>
        var count := |MatchingIds(memory.Items(), BoolMatch(condition).value)|;
        r.value == CardinalityEstimation([PrimaryField(condition)], count, count, count)
    {
      if BoolMatch(condition).None? {
        return None;
      }
      var count;
      if BoolMatch(condition).value {
        count := memory.CountTrues();
      } else {
        count := memory.CountFalses();
      }
      r := Some(CardinalityEstimation([PrimaryField(condition)], count, count, count));
    }

    /** `payload_blocks`: at most two blocks, the `true` one first; a block
        only for a count above `threshold`, carrying that count. */
    method PayloadBlocks(threshold: nat, key: string) returns (blocks: seq<PayloadBlockCondition>)
      requires Valid()
      ensures blocks == MakeBlock(|MatchingIds(memory.Items(), true)|, true, key, threshold)
                      + MakeBlock(|MatchingIds(memory.Items(), false)|, false, key, threshold)
      ensures |blocks| <= 2
    {
      var trues := memory.CountTrues();
      var falses := memory.CountFalses();
      blocks := MakeBlock(trues, true, key, threshold) + MakeBlock(falses, false, key, threshold);
    }

    /** `add_many`: an empty list changes nothing; otherwise the point's item
        is replaced by the flags of its values, then its record is put. */
    method AddMany(id: PointOffset, values: seq<bool>) returns (r: OperationResult<Unit>)
      requires Valid()
      modifies memory.Repr, db
      ensures Valid() && fresh(memory.Repr - old(memory.Repr))
      ensures values == [] ==> r == Ok(Unit) && memory.Items() == old(memory.Items()) && db.store == old(db.store)
      ensures values != [] ==> memory.Items() == Assigned(old(memory.Items()), id, FromValues(values))
      ensures values != [] && r.Ok? ==> db.store == old(db.store)[EncodeKey(id) := EncodeRecord(FromValues(values))]
      ensures values != [] && r.Err? ==> db.store == old(db.store)
      ensures r.Ok? && Mirrors(old(memory.Items()), old(db.store)) ==> Mirrors(memory.Items(), db.store)
    {
      if values == [] {
        return Ok(Unit);
      }
      var hasTrue := true in values;
      var hasFalse := false in values;
      var item := FromBools(hasTrue, hasFalse);
      assert !item.IsEmpty() by {
        if values[0] {
          assert true in values;
        } else {
          assert false in values;
        }
      }
      memory.SetOrInsert(id, item);
      var record := FromBools(hasTrue, hasFalse).Bits();
      r := db.Put(EncodeKey(id), [record]);
      if r.Ok? && Mirrors(old(memory.Items()), old(db.store)) {
        MirrorsAssigned(old(memory.Items()), old(db.store), id, item);
      }
    }

    /** `remove_point`: clears the point in memory, then removes its
        record. */
    method RemovePoint(id: PointOffset) returns (r: OperationResult<Unit>)
      requires Valid()
      modifies memory.Repr, db
      ensures Valid() && memory.Repr == old(memory.Repr)
      ensures memory.Items() == Removed(old(memory.Items()), id)
      ensures r.Ok? ==> db.store == old(db.store) - {EncodeKey(id)}
      ensures r.Err? ==> db.store == old(db.store)
      ensures r.Ok? && Mirrors(old(memory.Items()), old(db.store)) ==> Mirrors(memory.Items(), db.store)
    {
      memory.Remove(id);
      RemovedSpec(old(memory.Items()), id);
      r := db.Remove(EncodeKey(id));
      if r.Ok? && Mirrors(old(memory.Items()), old(db.store)) {
        MirrorsRemoved(old(memory.Items()), old(db.store), id);
      }
    }
  }
}
