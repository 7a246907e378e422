/** The scenarios of the unit tests of binary_index.rs, stated over the
    value-level model: the index contents after a sequence of `add_many`
    calls, the ids `filter` yields, and the reload from disk, both as
    records and as a second index opened over the same column. */
module BinaryExamples {
  import opened Wrappers
  import opened SegmentTypes
  import opened BinaryModel
  import opened DatabaseColumn
  import opened BinaryIndex

  /** The items after `add_many(i, lists[i])` for every `i` in order,
      starting from an empty index. */
  function AddedInOrder(lists: seq<seq<bool>>): (items: seq<BinaryItem>)
    requires |lists| <= 0x1_0000_0000
    ensures Trimmed(items) && |items| <= |lists|
  {
    if |lists| == 0 then []
    else Assigned(AddedInOrder(lists[..|lists| - 1]), |lists| - 1, FromValues(lists[|lists| - 1]))
  }

  /** Strictly ascending ids spread at least one apart. */
  lemma {:induction false} AscendingSpread(ids: seq<nat>)
    requires |ids| > 0
    requires forall i, j :: 0 <= i < j < |ids| ==> ids[i] < ids[j]
    ensures ids[|ids| - 1] - ids[0] >= |ids| - 1
  {
    if |ids| > 1 {
      AscendingSpread(ids[..|ids| - 1]);
      assert ids[|ids| - 2] < ids[|ids| - 1];
    }
  }

  /** A strictly ascending sequence holding exactly one id is that id. */
  lemma AscendingSingleton(ids: seq<nat>, id: nat)
    requires forall i, j :: 0 <= i < j < |ids| ==> ids[i] < ids[j]
    requires forall x: nat :: x in ids <==> x == id
    ensures ids == [id]
  {
    assert id in ids;
    assert ids[0] in ids && ids[|ids| - 1] in ids;
    AscendingSpread(ids);
  }

  /** No item has the flag: no id matches. */
  lemma {:induction false} MatchingIdsNone(items: seq<BinaryItem>, value: bool)
    requires forall j :: 0 <= j < |items| ==> !items[j].Contains(value)
    ensures MatchingIds(items, value) == []
  {
    if |items| > 0 {
      MatchingIdsNone(items[..|items| - 1], value);
    }
  }

  /** `filter_true` / `filter_false`: with one point indexed, `filter`
      yields that point alone exactly when one of its values is the one
      matched, and nothing otherwise. */
  lemma SinglePointFilter(id: PointOffset, values: seq<bool>, value: bool)
    ensures MatchingIds(Assigned([], id, FromValues(values)), value) == if value in values then [id] else []
  {
    var items := Assigned([], id, FromValues(values));
    MatchingIdsSpec(items, value);
    if value in values {
      AscendingSingleton(MatchingIds(items, value), id);
    } else {
      forall j | 0 <= j < |items| ensures !items[j].Contains(value) {
        assert ItemAt(items, j) == items[j];
      }
      MatchingIdsNone(items, value);
    }
  }

  /** `modify_value`: a second `add_many` on the same point replaces its
      flags, so only the new values decide what `filter` yields. */
  lemma ModifyValue(id: PointOffset, before: seq<bool>, after: seq<bool>, value: bool)
    requires after != []
    ensures MatchingIds(Assigned(Assigned([], id, FromValues(before)), id, FromValues(after)), value)
         == if value in after then [id] else []
  {
    var twice := Assigned(Assigned([], id, FromValues(before)), id, FromValues(after));
    var once := Assigned([], id, FromValues(after));
    assert |twice| == |once|;
    forall j | 0 <= j < |twice| ensures twice[j] == once[j] {
      assert ItemAt(twice, j) == ItemAt(once, j);
    }
    assert twice == once;
    SinglePointFilter(id, after, value);
  }

  lemma AddedInOrderStep(lists: seq<seq<bool>>, k: nat)
    requires k < |lists| <= 0x1_0000_0000
    ensures AddedInOrder(lists[..k + 1]) == Assigned(AddedInOrder(lists[..k]), k, FromValues(lists[k]))
  {
    assert lists[..k + 1][..k] == lists[..k];
  }

  /** The value lists of `load_from_disk`: booleans and arrays of booleans
      give their values; `null`, a number and a string give none. */
  const LoadFromDiskValues: seq<seq<bool>> := [
    [true], [false], [true, false], [false, true], [true, true], [false, false],
    [true, false, true], [], [], [], [false], [true]]

  /** The items of `load_from_disk`'s points. */
  const LoadFromDiskItems: seq<BinaryItem> := [
    FromBools(true, false), FromBools(false, true), FromBools(true, true), FromBools(true, true),
    FromBools(true, false), FromBools(false, true), FromBools(true, true), Empty, Empty, Empty,
    FromBools(false, true), FromBools(true, false)]

  /** The items the first four lists leave. */
  lemma FirstFourAdded()
    ensures AddedInOrder(LoadFromDiskValues[..4])
         == [FromBools(true, false), FromBools(false, true), FromBools(true, true), FromBools(true, true)]
  {
    var l := LoadFromDiskValues;
    assert l[..0] == [];
    AddedInOrderStep(l, 0);
    AddedInOrderStep(l, 1);
    AddedInOrderStep(l, 2);
    AddedInOrderStep(l, 3);
  }

  lemma FirstFiveAdded()
    ensures AddedInOrder(LoadFromDiskValues[..5])
         == [FromBools(true, false), FromBools(false, true), FromBools(true, true), FromBools(true, true),
             FromBools(true, false)]
  {
    FirstFourAdded();
    AddedInOrderStep(LoadFromDiskValues, 4);
  }

  lemma FirstSixAdded()
    ensures AddedInOrder(LoadFromDiskValues[..6])
         == [FromBools(true, false), FromBools(false, true), FromBools(true, true), FromBools(true, true),
             FromBools(true, false), FromBools(false, true)]
  {
    FirstFiveAdded();
    AddedInOrderStep(LoadFromDiskValues, 5);
  }

  /** The items the first seven lists leave. */
  lemma FirstSevenAdded()
    ensures AddedInOrder(LoadFromDiskValues[..7])
         == [FromBools(true, false), FromBools(false, true), FromBools(true, true), FromBools(true, true),
             FromBools(true, false), FromBools(false, true), FromBools(true, true)]
  {
    FirstSixAdded();
    AddedInOrderStep(LoadFromDiskValues, 6);
  }

  /** The items all twelve lists leave: the three lists without a boolean
      leave their points empty. */
  lemma LoadFromDiskAdded()
    ensures AddedInOrder(LoadFromDiskValues) == LoadFromDiskItems
  {
    var l := LoadFromDiskValues;
    FirstSevenAdded();
    var seven := AddedInOrder(l[..7]);
    AddedInOrderStep(l, 7);
    AddedInOrderStep(l, 8);
    AddedInOrderStep(l, 9);
    assert AddedInOrder(l[..10]) == seven;
    AddedInOrderStep(l, 10);
    assert seq(3, _ => Empty) == [Empty, Empty, Empty];
    assert AddedInOrder(l[..11]) == seven + [Empty, Empty, Empty, FromBools(false, true)];
    AddedInOrderStep(l, 11);
    assert l[..12] == l;
  }

  /** `load_from_disk`: the records written for those points load back
      into the same index... */
  lemma LoadFromDiskReloads()
    ensures LoadInto([], Records(AddedInOrder(LoadFromDiskValues))) == Ok(AddedInOrder(LoadFromDiskValues))
  {
    var items := AddedInOrder(LoadFromDiskValues);
    LoadRecordsRoundTrip(items);
    TrimSpec(items);
    LoadFromDiskAdded();
    assert items[..|items|] == items;
  }

  /** `load_from_disk`, second half: a new index over the same column,
      once loaded, holds exactly the content of the index that wrote it. */
  method Reopen(index: BinaryIndex, fieldName: string) returns (reopened: BinaryIndex, r: OperationResult<bool>)
    requires index.Valid() && Mirrors(index.memory.Items(), index.db.store)
    ensures r == Ok(false) ==> !index.db.hasFamily
    ensures r == Ok(true) ==> reopened.Valid() && reopened.memory.Items() == index.memory.Items()
  {
    reopened := new BinaryIndex(index.db, fieldName);
    r := reopened.Load();
    if r == Ok(true) {
      MirrorsDetermine(reopened.memory.Items(), index.memory.Items(), index.db.store);
    }
  }

  lemma MatchingIdsStep(items: seq<BinaryItem>, k: nat, value: bool)
    requires k < |items|
    ensures MatchingIds(items[..k + 1], value)
         == MatchingIds(items[..k], value) + (if items[k].Contains(value) then [k] else [])
  {
    assert items[..k + 1][..k] == items[..k];
  }

  /** The ids of the first six items that match `value`. */
  lemma FirstSixMatching(items: seq<BinaryItem>, value: bool)
    requires items == LoadFromDiskItems
    ensures MatchingIds(items[..6], value) == if value then [0, 2, 3, 4] else [1, 2, 3, 5]
  {
    assert items[..0] == [];
    MatchingIdsStep(items, 0, value);
    MatchingIdsStep(items, 1, value);
    MatchingIdsStep(items, 2, value);
    MatchingIdsStep(items, 3, value);
    MatchingIdsStep(items, 4, value);
    MatchingIdsStep(items, 5, value);
  }

  /** ... whose `filter` yields the listed offsets. */
  lemma LoadFromDiskFilters(value: bool)
    ensures MatchingIds(AddedInOrder(LoadFromDiskValues), value)
         == if value then [0, 2, 3, 4, 6, 11] else [1, 2, 3, 5, 6, 10]
  {
    LoadFromDiskAdded();
    var items := LoadFromDiskItems;
    FirstSixMatching(items, value);
    MatchingIdsStep(items, 6, value);
    MatchingIdsStep(items, 7, value);
    MatchingIdsStep(items, 8, value);
    MatchingIdsStep(items, 9, value);
    MatchingIdsStep(items, 10, value);
    MatchingIdsStep(items, 11, value);
    assert items[..12] == items;
  }
}
