# Qdrant boolean index, scheduled deletes and group-by rounds in Dafny

This project models three sequential components of the Qdrant vector
database and proves properties of the model.

- **The boolean payload field index** (`binary_index.rs`). `BinaryMemory`
  keeps two parallel bit vectors, `trues` and `falses`. Bit `id` of each
  one says whether point `id` has a `true` or a `false` value. Together the
  bits describe a map from point offset to a subset of {true, false}, a
  `BinaryItem`. `BinaryIndex` puts a column of the database behind the
  memory:
  - the key of a point is its offset in 4 big-endian bytes;
  - the record is one byte, with `TRUE = 1` and `FALSE = 2`.
  - The model's files:
    - `binary_model.dfy`: the item, the byte formats and the content of the
      index as a sequence of items (module `BinaryModel`).
    - `bitvec.dfy`: a growable bit vector over an array (module `BitVecs`).
    - `binary_index.dfy`: the `BinaryMemory`, `BinaryMemoryIterator` and
      `BinaryIndex` classes, each method proved against `BinaryModel`.
    - `binary_examples.dfy`: the scenarios of the file's unit tests.
- **The scheduled-delete decorator** (`decorators.rs`, in
  `decorators.dfy`). `ScheduledDelete` wraps a database column and defers
  every removal into a pending set:
  - a put cancels the pending removal of its key;
  - the flusher takes the pending set and later replays those removals on
    the inner column, then flushes it.
  - The column itself is an abstract class (`column.dfy`): a key/value map,
    the contents of its last flush, and whether its column family exists.
    Each storage call may fail, and its contract states what a success and
    what a failure leave behind. Listing the pairs yields each one once, in
    no fixed order.
- **Grouped search and recommendation** (`group_by.rs`, in
  `group_by.dfy`). The model covers:
  - the conversions into a `GroupRequest`;
  - `match_on`;
  - how `r#do` shapes the source request;
  - the two bounded loops of `group_by`: up to five requests that look for
    new groups, then up to five that fill the best unfilled groups.
  - The collection's search is a function parameter, and so is the groups
    aggregator (`Aggregator<A>`, a record of functions over an abstract
    state `A`). Both loops are one method, `RunRounds`, that builds each round's request
    (`BuildRoundRequest`) and sends it through `r#do` (`Do`). It is proved equal to
    the recursive specification `Rounds`, and the properties of the loops
    are lemmas about `Rounds`.

`types.dfy` holds the records the core builds or inspects:
- the parts of `serde_json::Value` used (module `Json`);
- conditions, filters, matches and points (module `SegmentTypes`).

`Filter::merge`, `Filter::new_must`, `Filter::new_must_not` and
`Match::new_any` are defined in `lib/segment/src/types.rs`, which this model
does not cover. They are kept as
uninterpreted constructors (`Merged`, `NewMust`, `NewMustNot`, `NewAny`), so
the model records which filters are combined and in what order. It does not
record what the combination means.

Where the source panics, the model returns an error instead: a stored key
that is not 4 bytes long fails `load` with an error.

## Model

| member | source | states |
|---|---|---|
| BinaryModel.FromBools | lib/segment/src/index/field_index/binary_index.rs:31-36 | the item contains TRUE exactly when `has_true` and FALSE exactly when `has_false`; it is empty only when both are false |
| BinaryModel.BinaryItem.Bits | lib/segment/src/index/field_index/binary_index.rs:21-28 | `bits()` is below 4, bit 0 is set iff the item has TRUE, bit 1 iff it has FALSE |
| BinaryModel.FromBitsTruncate | lib/segment/src/index/field_index/binary_index.rs:209 | `from_bits_truncate` keeps only bits 0 and 1: its `bits()` is the byte mod 4, and bytes equal mod 4 give the same item |
| BinaryModel.BitsRoundTrip | lib/segment/src/index/field_index/binary_index.rs:209 | decoding the record byte of an item gives that item back |
| BinaryModel.BinaryItem.ValuesCount | lib/segment/src/index/field_index/binary_index.rs:184-186 | the number of flags set: at most 2, 0 iff the item is empty, 2 iff both flags are set |
| BinaryModel.FromValues | lib/segment/src/index/field_index/binary_index.rs:316-319 | the item `add_many` builds has TRUE iff some value is true, FALSE iff some value is false, and is empty iff the list is empty |
| BinaryModel.EncodeKey | lib/segment/src/index/field_index/binary_index.rs:325 | `to_be_bytes` of a point offset is 4 bytes long |
| BinaryModel.DecodeKey | lib/segment/src/index/field_index/binary_index.rs:204 | `from_be_bytes(key.try_into())` decodes exactly the 4-byte keys |
| BinaryModel.KeyRoundTrip | lib/segment/src/index/field_index/binary_index.rs:204 | decoding the key written for a point gives the point back |
| BinaryModel.DecodeKeyIsInverse | lib/segment/src/index/field_index/binary_index.rs:204 | every 4-byte key is the key of the point it decodes to |
| BinaryModel.EncodeKeyOrder | lib/segment/src/index/field_index/binary_index.rs:325 | big-endian keys keep point order: a point is below another iff its key is byte-wise (lexicographically) below the other's |
| BinaryModel.EncodeKeyInjective | lib/segment/src/index/field_index/binary_index.rs:325 | two points have the same key iff they are the same point |
| BinaryModel.EncodeRecord | lib/segment/src/index/field_index/binary_index.rs:323-325 | the record is one byte, below 4 |
| BinaryModel.DecodeRecord | lib/segment/src/index/field_index/binary_index.rs:205-209 | an empty record is the "Expected a value in binary index" error; otherwise the item is `from_bits_truncate` of the first byte |
| BinaryModel.RecordRoundTrip | lib/segment/src/index/field_index/binary_index.rs:205-209 | the record written for an item decodes to that item |
| BinaryModel.Zip | lib/segment/src/index/field_index/binary_index.rs:47-59 | the item of every slot holds the bit of `trues` and the bit of `falses` at that slot |
| BinaryModel.Window | lib/segment/src/index/field_index/binary_index.rs:119-149 | the first `n` slots the iterator visits, past-the-end slots being empty |
| BinaryModel.Assigned | lib/segment/src/index/field_index/binary_index.rs:61-78 | an empty item changes nothing; otherwise slot `id` holds the item, the length is at least `id + 1`, newly grown slots are empty, every other slot is unchanged, and a trailing populated slot stays populated |
| BinaryModel.LastPopulatedSpec | lib/segment/src/index/field_index/binary_index.rs:91-93 | the last populated slot is populated, below the length, and no later slot is; None iff every slot is empty |
| BinaryModel.TrimSpec | lib/segment/src/index/field_index/binary_index.rs:91-105 | `shrink` cuts to the last populated slot plus one, or to 0 when none is populated, and no point's item changes |
| BinaryModel.RemovedSpec | lib/segment/src/index/field_index/binary_index.rs:80-89 | after `remove(id)` the point has the empty item, every other point keeps its item, the content stays trimmed, and it is empty iff no other point was populated |
| BinaryModel.MatchingIdsSpec | lib/segment/src/index/field_index/binary_index.rs:224-247 | the ids `filter` yields are strictly ascending, below the length, and are exactly the ids whose item contains the flag |
| BinaryModel.MatchingIdsWindow | lib/segment/src/index/field_index/binary_index.rs:119-149 | extending the window with empty slots adds no matching ids |
| BinaryModel.MatchingIdsIterated | lib/segment/src/index/field_index/binary_index.rs:232-241 | iterating up to `end = max(last_false, last_true).unwrap_or(0) + 1` yields the same ids as scanning the whole content |
| BinaryModel.LastOne | lib/segment/src/index/field_index/binary_index.rs:120-121 | `last_one` is a set bit with no set bit after it, and None iff no bit is set |
| BinaryModel.MaxOption | lib/segment/src/index/field_index/binary_index.rs:93 | `Option::max`: None iff both are None, otherwise one of the two and at least both |
| BinaryModel.OnesCountMatches | lib/segment/src/index/field_index/binary_index.rs:107-113 | `count_ones` of `trues` (of `falses`) is the number of points whose item contains TRUE (FALSE) |
| BinaryModel.LastOneIsLastPopulated | lib/segment/src/index/field_index/binary_index.rs:120-122 | the larger last set bit of the two vectors is the last populated slot |
| BinaryModel.DecodeEntry | lib/segment/src/index/field_index/binary_index.rs:203-209 | a stored entry decodes iff its key has 4 bytes and its value is not empty; the key is then the point's encoded key and the item the first byte truncated |
| BinaryModel.LoadIntoSnoc | lib/segment/src/index/field_index/binary_index.rs:203-212 | loading one more entry assigns its decoded item, or fails with its decoding error |
| BinaryModel.LoadIntoStep | lib/segment/src/index/field_index/binary_index.rs:203-212 | loading a prefix one entry longer assigns that entry's decoded item to the prefix's result |
| BinaryModel.LoadRecordsRoundTrip | lib/segment/src/index/field_index/binary_index.rs:198-213 | loading the records written for a content, in ascending key order, into an empty index gives back that content, trimmed |
| BinaryModel.RecordsAscending | lib/segment/src/index/field_index/binary_index.rs:323-325 | the records of a content come in strictly ascending byte-wise key order, the order in which a byte-ordered column family yields them, and every key names a point of the content |
| BinaryModel.KeysOf | lib/segment/src/index/field_index/binary_index.rs:203 | a key is among the listed keys iff some listed entry has it |
| BinaryModel.LoadIntoStore | lib/segment/src/index/field_index/binary_index.rs:203-212 | loading entries that the column holds decodes every one and gives each listed point with a non-empty record that record's item, every other point keeping its item |
| BinaryModel.LoadedFromStore | lib/segment/src/index/field_index/binary_index.rs:198-213 | loading a listing of the whole column decodes every stored record, gives each point with a non-empty record that item, keeps every other point, and into an empty index leaves a content that agrees with the column |
| BinaryModel.MirrorsDetermine | lib/segment/src/index/field_index/binary_index.rs:198-213 | two trimmed contents that agree with the same column are equal, whichever order the column was listed in |
| BinaryModel.MirrorsAssigned | lib/segment/src/index/field_index/binary_index.rs:316-326 | setting a point's item and putting its record under its key keeps content and column in agreement |
| BinaryModel.MirrorsRemoved | lib/segment/src/index/field_index/binary_index.rs:334-341 | removing a point from memory and its key from the column keeps content and column in agreement |
| BinaryModel.TelemetryValuesCount | lib/segment/src/index/field_index/binary_index.rs:175-182 | the evidently intended `count_trues() + count_falses()` is the total number of values over all points |
| BinaryModel.TotalValuesSplit | lib/segment/src/index/field_index/binary_index.rs:175-186 | the sum of `values_count` over all points is the true count plus the false count |
| BinaryModel.TelemetryAsWrittenMiscounts | lib/segment/src/index/field_index/binary_index.rs:179 | for one point holding only `true`, `count_falses() + count_falses()` is 0 while the point has one value |
| BitVecs.BitVec.constructor | lib/segment/src/index/field_index/binary_index.rs:42-43 | `BitVec::new()` is empty |
| BitVecs.BitVec.Get | lib/segment/src/index/field_index/binary_index.rs:55-56 | a read of bit `i` is bit `i` of the vector |
| BitVecs.BitVec.Set | lib/segment/src/index/field_index/binary_index.rs:75-76 | writing bit `i` changes that bit and no other |
| BitVecs.BitVec.Resize | lib/segment/src/index/field_index/binary_index.rs:67-68 | `resize(n, v)` keeps the first `n` bits and pads with `v` up to `n` |
| BitVecs.BitVec.Reserve | lib/segment/src/index/field_index/binary_index.rs:67-68 | growing the storage keeps the length and every bit in use |
| BitVecs.BitVec.Truncate | lib/segment/src/index/field_index/binary_index.rs:96-97 | `truncate(n)` keeps the first `n` bits |
| BitVecs.BitVec.Clear | lib/segment/src/index/field_index/binary_index.rs:100-101 | `clear` leaves no bits |
| BitVecs.BitVec.CountOnes | lib/segment/src/index/field_index/binary_index.rs:108-116 | `count_ones` is the number of set bits |
| BitVecs.BitVec.LastOne | lib/segment/src/index/field_index/binary_index.rs:120-121 | `last_one` is the highest set bit, None when no bit is set |
| BinaryIndex.BinaryMemory.constructor | lib/segment/src/index/field_index/binary_index.rs:40-45 | a new memory holds no items |
| BinaryIndex.BinaryMemory.Get | lib/segment/src/index/field_index/binary_index.rs:47-59 | `get` is the item of the slot, and the empty item at or beyond the length; the two vectors always have equal length |
| BinaryIndex.BinaryMemory.SetOrInsert | lib/segment/src/index/field_index/binary_index.rs:61-78 | the new content is `Assigned` of the old one, with the vectors grown in place |
| BinaryIndex.BinaryMemory.Grow | lib/segment/src/index/field_index/binary_index.rs:66-69 | both vectors are grown in place with clear bits to at least the given length, and no bit in use changes |
| BinaryIndex.BinaryMemory.Remove | lib/segment/src/index/field_index/binary_index.rs:80-89 | the new content is `Removed` of the old one |
| BinaryIndex.BinaryMemory.Shrink | lib/segment/src/index/field_index/binary_index.rs:91-105 | the new content is `Trim` of the old one, cut in place |
| BinaryIndex.BinaryMemory.Cut | lib/segment/src/index/field_index/binary_index.rs:95-100 | truncating both vectors to `n` slots leaves the first `n` items of the content |
| BinaryIndex.BinaryMemory.CountTrues | lib/segment/src/index/field_index/binary_index.rs:107-109 | the number of points whose item contains TRUE |
| BinaryIndex.BinaryMemory.CountFalses | lib/segment/src/index/field_index/binary_index.rs:111-113 | the number of points whose item contains FALSE |
| BinaryIndex.BinaryMemory.IndexedCount | lib/segment/src/index/field_index/binary_index.rs:115-117 | the larger of the two counts |
| BinaryIndex.BinaryMemory.Iter | lib/segment/src/index/field_index/binary_index.rs:119-128 | a fresh iterator at 0 whose end is the last populated slot plus one (1 when no slot is populated) |
| BinaryIndex.BinaryMemoryIterator.constructor | lib/segment/src/index/field_index/binary_index.rs:123-127 | the iterator starts at 0 with the given end |
| BinaryIndex.BinaryMemoryIterator.Next | lib/segment/src/index/field_index/binary_index.rs:140-149 | at the end it yields None and stays; before, it yields the item of `ptr` and advances by one |
| BinaryIndex.StorageCfName | lib/segment/src/index/field_index/binary_index.rs:167-169 | the column family name is the field name followed by `_binary` |
| BinaryIndex.StorageCfNameInjective | lib/segment/src/index/field_index/binary_index.rs:167-169 | different fields get different column families |
| BinaryIndex.BoolMatch | lib/segment/src/index/field_index/binary_index.rs:228-231 | the index answers exactly the conditions `Match::Value(Bool(v))` |
| BinaryIndex.MakeBlock | lib/segment/src/index/field_index/binary_index.rs:274-288 | a block exists iff the count is strictly above the threshold; it matches the value on the key and carries the count |
| BinaryIndex.GetValue | lib/segment/src/index/field_index/binary_index.rs:330-332 | exactly the JSON booleans are indexed values, as themselves |
| BinaryIndex.BinaryIndex.constructor | lib/segment/src/index/field_index/binary_index.rs:158-165 | a new index is empty, on the column family `StorageCfName(field)` |
| BinaryIndex.BinaryIndex.Recreate | lib/segment/src/index/field_index/binary_index.rs:171-173 | on success the column family exists and is empty |
| BinaryIndex.BinaryIndex.GetTelemetryData | lib/segment/src/index/field_index/binary_index.rs:175-182 | `points_count` is the indexed count, the larger of the true and false counts; `points_values_count` is, as written, twice the false count |
| BinaryIndex.BinaryIndex.GetTelemetryDataCorrected | lib/segment/src/index/field_index/binary_index.rs:175-182 | `points_count` is the larger of the true and false counts; with the evident correction, `points_values_count` is the total number of stored values |
| BinaryIndex.BinaryIndex.ValuesCount | lib/segment/src/index/field_index/binary_index.rs:184-186 | a point's number of values is the number of filters (`true`, `false`) that yield it |
| BinaryIndex.BinaryIndex.ValuesIsEmpty | lib/segment/src/index/field_index/binary_index.rs:188-190 | a point has no values iff neither filter yields it |
| BinaryIndex.BinaryIndex.IndexedPoints | lib/segment/src/index/field_index/binary_index.rs:194-196 | `indexed_points` and `count_indexed_points` are the larger of the true and false counts |
| BinaryIndex.BinaryIndex.Load | lib/segment/src/index/field_index/binary_index.rs:198-214 | a missing column family gives `Ok(false)` and changes nothing; success is `LoadInto` of a listing of every stored pair, every stored record decodes, each point with a non-empty record gets that item and the others keep theirs, and from an empty index the content agrees with the column; a failure of `iter()` changes nothing, and a decoding failure stops at the first entry of the listing that does not decode |
| DatabaseColumn.Column.Iter | lib/segment/src/index/field_index/binary_index.rs:203 | `lock_db().iter()`, when it succeeds, lists every stored pair exactly once, each with its stored value |
| BinaryIndex.BinaryIndex.LoadRows | lib/segment/src/index/field_index/binary_index.rs:203-212 | the loop over the entries `iter()` listed: on success the content is `LoadInto` of them; on failure it is `LoadInto` of the entries before the first one that does not decode |
| BinaryIndex.BinaryIndex.Clear | lib/segment/src/index/field_index/binary_index.rs:216-218 | on success the column family is gone |
| BinaryIndex.BinaryIndex.Flush | lib/segment/src/index/field_index/binary_index.rs:220-222 | on success the column's contents are persisted, and they are not changed |
| BinaryIndex.BinaryIndex.Filter | lib/segment/src/index/field_index/binary_index.rs:224-247 | for `Bool(v)` the yielded ids are strictly ascending, and an id is yielded iff its item contains the flag of `v`; any other condition gives None |
| BinaryIndex.BinaryIndex.Collect | lib/segment/src/index/field_index/binary_index.rs:229-238 | walking the memory's iterator and keeping the offsets whose item has the flag gives exactly `MatchingIds` of the content |
| BinaryIndex.BinaryIndex.EstimateCardinality | lib/segment/src/index/field_index/binary_index.rs:249-267 | for `Bool(v)`, an exact estimation (min = exp = max) of the number of ids `filter` yields, with the condition as its primary clause; otherwise None |
| BinaryIndex.BinaryIndex.PayloadBlocks | lib/segment/src/index/field_index/binary_index.rs:269-299 | at most two blocks, the `true` block before the `false` block, each only when its count is above the threshold |
| BinaryIndex.BinaryIndex.AddMany | lib/segment/src/index/field_index/binary_index.rs:307-328 | an empty list changes nothing; otherwise the point's item becomes `FromValues(values)`, overwriting the previous one, and its record is put under its key (a failed put leaves the column as it was); a content that agreed with the column still does after success |
| BinaryIndex.BinaryIndex.RemovePoint | lib/segment/src/index/field_index/binary_index.rs:334-341 | the memory content becomes `Removed(old, id)`; on success the point's key is gone from the column and nothing else there changes, on failure the column is unchanged; a content that agreed with the column still does after success |
| BinaryExamples.AddedInOrder | lib/segment/src/index/field_index/binary_index.rs:415-438 | the content after `add_many(i, lists[i])` in order is trimmed and not longer than the list |
| BinaryExamples.SinglePointFilter | lib/segment/src/index/field_index/binary_index.rs:376-410 | with one point indexed, `filter(v)` yields that point alone iff one of its values is `v`, and nothing otherwise |
| BinaryExamples.ModifyValue | lib/segment/src/index/field_index/binary_index.rs:450-468 | a second `add_many` on a point overwrites its flags: only the new values decide what `filter` yields |
| BinaryExamples.LoadFromDiskAdded | lib/segment/src/index/field_index/binary_index.rs:415-438 | the items of the twelve points of `load_from_disk`, points 7-9 being empty |
| BinaryExamples.LoadFromDiskReloads | lib/segment/src/index/field_index/binary_index.rs:438-441 | the records written for those points load back into the same content |
| BinaryExamples.Reopen | lib/segment/src/index/field_index/binary_index.rs:436-441 | a new index opened over the column of an index that agrees with it, once `load` returns `Ok(true)`, holds exactly the old index's content; `Ok(false)` means the column family is missing |
| BinaryExamples.LoadFromDiskFilters | lib/segment/src/index/field_index/binary_index.rs:443-447 | `filter(false)` yields `[1, 2, 3, 5, 6, 10]` and `filter(true)` yields `[0, 2, 3, 4, 6, 11]` |
| Decorators.ScheduledDelete.constructor | lib/segment/src/common/rocksdb_wrapper/decorators.rs:22-27 | a new decorator has nothing pending |
| Decorators.ScheduledDelete.Put | lib/segment/src/common/rocksdb_wrapper/decorators.rs:31-38 | the key is no longer pending, and the value is stored in the inner column when its put succeeds |
| Decorators.ScheduledDelete.Remove | lib/segment/src/common/rocksdb_wrapper/decorators.rs:40-48 | the key is added to the pending set, the inner column is untouched, and the result is `Ok` |
| Decorators.ScheduledDelete.Flusher | lib/segment/src/common/rocksdb_wrapper/decorators.rs:50-52 | the pending set is empty at once, and the flusher captures exactly the keys pending before |
| Decorators.ScheduledFlush.Run | lib/segment/src/common/rocksdb_wrapper/decorators.rs:53-58 | on success every captured key is gone from the inner column and its contents are persisted; on the first failing removal it stops, having removed a subset of the keys and persisted nothing new; the column family is never created or dropped |
| Decorators.ScheduledDelete.GetPinned | lib/segment/src/common/rocksdb_wrapper/decorators.rs:61-66 | reads the inner column whatever is pending |
| Decorators.ScheduledDelete.LockDb | lib/segment/src/common/rocksdb_wrapper/decorators.rs:68-70 | hands out the inner column |
| Decorators.ScheduledDelete.CreateColumnFamilyIfNotExists | lib/segment/src/common/rocksdb_wrapper/decorators.rs:72-74 | delegates, and the pending set does not change |
| Decorators.ScheduledDelete.RecreateColumnFamily | lib/segment/src/common/rocksdb_wrapper/decorators.rs:76-78 | delegates, and the pending set does not change |
| Decorators.ScheduledDelete.RemoveColumnFamily | lib/segment/src/common/rocksdb_wrapper/decorators.rs:80-82 | delegates, and the pending set does not change |
| Decorators.ScheduledDelete.HasColumnFamily | lib/segment/src/common/rocksdb_wrapper/decorators.rs:84-86 | reports whether the inner column family exists |
| Decorators.RemoveThenPutIsNotDeleted | lib/segment/src/common/rocksdb_wrapper/decorators.rs:31-58 | a remove followed by a put of the same key before flushing does not delete it: after a successful flush the put value is persisted |
| Decorators.RemoveIsDeferred | lib/segment/src/common/rocksdb_wrapper/decorators.rs:40-66 | after a remove the value is still readable, and it is gone (also from what is persisted) once a later flusher succeeds |
| GroupBy.New | lib/collection/src/grouping/group_by.rs:126-137 | the group limit is the inner request's limit; the request, `group_by` and `per_group` are kept |
| GroupBy.FromSearchGroups | lib/collection/src/grouping/group_by.rs:140-170 | the inner search has `limit` and `offset` 0 and every other field of the request; `group_by`, `per_group` and `limit` are carried over |
| GroupBy.FromRecommendGroups | lib/collection/src/grouping/group_by.rs:172-215 | likewise for the inner recommend request, `positive`, `negative`, `using` and `lookup_from` included |
| GroupBy.MergeFilter | lib/collection/src/grouping/group_by.rs:82-91 | the filter becomes the old filter (or the default one) merged with the given one; nothing else changes |
| GroupBy.Shape | lib/collection/src/grouping/group_by.rs:44-75 | the shaped request asks for `limit * per_group` hits (wrapping `usize`), merges "key is not null" into the filter, returns only the key in the payload and no vector, and keeps every other field |
| GroupBy.Do | lib/collection/src/grouping/group_by.rs:29-80 | `r#do` rewrites the cloned request's fields one by one into the request `Shape` describes, and returns what the search answers to it |
| GroupBy.ShapeLimitExact | lib/collection/src/grouping/group_by.rs:170-171 | for limits that come from the `u32` fields of a groups request the product does not wrap |
| GroupBy.FilterMap | lib/collection/src/grouping/group_by.rs:358-363 | `filter_map` yields at most as many values as it is given |
| GroupBy.FilterMapMembership | lib/collection/src/grouping/group_by.rs:358-363 | `filter_map` keeps exactly the values the function maps to Some |
| GroupBy.FilterMapConcat | lib/collection/src/grouping/group_by.rs:358-363 | `filter_map` keeps the original order: it distributes over concatenation |
| GroupBy.FilterMapAllSome | lib/collection/src/grouping/group_by.rs:358-363 | when every value converts, nothing is dropped and the results are in place |
| GroupBy.MatchOn | lib/collection/src/grouping/group_by.rs:355-369 | None for an empty list or a first value that is neither a number nor a string; otherwise a field condition on `path` whose `Match::Any` holds the `as_i64` integers or the `as_str` keywords |
| GroupBy.MatchOnKeywords | lib/collection/src/grouping/group_by.rs:360-365 | the keywords are exactly the string keys, and all of them, in order, when every key is a string |
| GroupBy.MatchOnIntegers | lib/collection/src/grouping/group_by.rs:357-359 | the integers are exactly the keys that convert to an `i64` |
| GroupBy.RoundRequestSpec | lib/collection/src/grouping/group_by.rs:241-298 | keeps the source request's other fields and limit; when points were already aggregated, its last merged filter excludes exactly their ids; a filling round with no aggregated points keeps only the unfilled best groups |
| GroupBy.BuildRoundRequest | lib/collection/src/grouping/group_by.rs:241-298 | the request a round builds by cloning the source request and merging the group and id filters into it step by step is `RoundRequest` |
| GroupBy.RoundsBound | lib/collection/src/grouping/group_by.rs:235-317 | a loop sends at most one request per iteration, and uses every iteration only when it ends neither early nor on an error |
| GroupBy.RoundsStep | lib/collection/src/grouping/group_by.rs:259-316 | an iteration below the limit sends the round's shaped request; an error or an empty answer ends the loop there, and otherwise the loop goes on from the state with the points added |
| GroupBy.RoundsContinue | lib/collection/src/grouping/group_by.rs:272-316 | after a request that returned points, the requests still to be sent and the final state are those of the loop one iteration shorter, started from the state with the points added |
| GroupBy.RoundsExits | lib/collection/src/grouping/group_by.rs:237-314 | a loop stops without a request once the filled best groups reach the limit; it stops after a request that returned no points or an error; every earlier request returned points |
| GroupBy.RoundsShaped | lib/collection/src/grouping/group_by.rs:259-310 | every request a loop sends is shaped by `r#do` |
| GroupBy.GroupRunsBound | lib/collection/src/grouping/group_by.rs:19-20 | `group_by` sends at most `MAX_GET_GROUPS_REQUESTS + MAX_GROUP_FILLING_REQUESTS` = 10 requests |
| GroupBy.RunRounds | lib/collection/src/grouping/group_by.rs:235-317 | the loop, building each round's request imperatively, sends the requests and leaves the aggregator state that `Rounds` specifies |
| GroupBy.GroupByRounds | lib/collection/src/grouping/group_by.rs:231-317 | both loops, the second from the state the first leaves: the first error, or the final aggregator state, and at most 10 requests |

## Left out

- `BitVec` is a small class over `array<bool>` written for this model. The `bitvec` crate is not part of this model; only the effect of the calls the index makes is modelled.
- RocksDB, `DatabaseColumnWrapper` and the `DatabaseColumn` interface (`wrapper.rs` is not part of this model). They are replaced by the abstract `Column`, whose failures are chosen nondeterministically.
- Load order: `load` iterates the column family in the byte-wise key order RocksDB yields. `Column.Iter` lists every stored pair once but fixes no order. `RecordsAscending` and `EncodeKeyOrder` show that the records of a content come in exactly that byte order, and `MirrorsDetermine` shows that the order does not change what a load into an empty index gives.
- BinaryIndex.BinaryIndex.Load: a key that is not 4 bytes long makes the source panic at `unwrap`. The model fails the load with an error instead.
- `parking_lot::Mutex` around the pending set and `Arc<RwLock<DB>>`: every operation is one sequential step, and concurrent callers are not modelled.
- Decorators.ScheduledFlush.Run: removals follow the unspecified order of a hash set. After a failing removal the contract only says that a subset of the keys was removed, not which.
- The async `collection.search`, `recommend_by`, `fill_search_result_with_payload` and `collection_by_name` calls, and read consistency and shard selection. Search and recommend are one function parameter from shaped request to result.
- `GroupsAggregator` and its `distill` are defined in `grouping/aggregator.rs`, and `HashablePoint` in `grouping/types.rs`; this model covers neither. `Group::hydrate_from` and the final `PointGroup` conversion (group_by.rs:319-350, and the `test_hydrated_from` test) are left out with them. The aggregator is an abstract record of functions, and `GroupByRounds` returns the aggregator state instead of the hydrated groups.
- `Filter::merge`, `Filter::new_must`, `Filter::new_must_not` and `Match::new_any` are uninterpreted constructors. They are defined in `lib/segment/src/types.rs`, which this model does not cover.
- `operations/types.rs` is not part of this model. The request records have the fields `group_by.rs` names. Vectors, search parameters, score thresholds, `using` and `lookup_from` are opaque types.
- Floating-point scores of `ScoredPoint`, and JSON floats, are opaque.
- GroupBy.Shape: `limit * per_group` wraps modulo 2^64, as a release build does. A debug build panics on overflow instead.
- The `#[validate(range(min = 1))]` bounds on `GroupRequest` are not enforced by any part of the core and are not modelled.
- The serde `MultiValue` flattening of `add_point` (outside `binary_index.rs`): the example lemmas start from the lists of booleans it produces.
- `openapi/tests/openapi_integration/test_group.py` and `test_collection_update.py`: HTTP tests against a running server.

## Findings

| source | as written | input that shows it | evidently intended | confidence | as-written member | corrected member |
|---|---|---|---|---|---|---|
| lib/segment/src/index/field_index/binary_index.rs:179 | `points_values_count` is `count_falses() + count_falses()` | one point indexed with the single value `true`: it reports 0 values instead of 1 | `count_trues() + count_falses()`, the total number of values over all points | high — not executed | BinaryModel.TelemetryAsWrittenMiscounts | BinaryModel.TotalValuesSplit |
