/** The value-level model of the boolean payload index
    (lib/segment/src/index/field_index/binary_index.rs): the two-flag
    `BinaryItem`, its one-byte record and the four-byte point key, and the
    abstract content of the index as a sequence of items indexed by point
    offset. The classes in module BinaryIndex are proved against the
    functions here. */
module BinaryModel {
  import opened Wrappers
  import opened DatabaseColumn
  import opened SegmentTypes

  /** `BinaryItem`: bit 0 (`TRUE`) says the point has a `true` value, bit 1
      (`FALSE`) that it has a `false` value. */
  datatype BinaryItem = BinaryItem(hasTrue: bool, hasFalse: bool) {
    predicate IsEmpty() {
      !hasTrue && !hasFalse
    }

    /** `contains(TRUE)` for `true`, `contains(FALSE)` for `false`. */
    predicate Contains(value: bool) {
      if value then hasTrue else hasFalse
    }

    /** `bits()`: TRUE is 1, FALSE is 2. */
    function Bits(): (b: byte)
      ensures b < 4
      ensures b % 2 == 1 <==> hasTrue
      ensures b / 2 == 1 <==> hasFalse
    {
      (if hasTrue then 1 else 0) + (if hasFalse then 2 else 0)
    }

    /** `iter().count()`: the number of flags set. */
    function ValuesCount(): (n: nat)
      ensures n <= 2
      ensures n == 0 <==> IsEmpty()
      ensures n == 2 <==> hasTrue && hasFalse
    {
      (if hasTrue then 1 else 0) + (if hasFalse then 1 else 0)
    }
  }

  const Empty := BinaryItem(false, false)

  /** `BinaryItem::from_bools`: starts empty and sets each flag as asked. */
  function FromBools(hasTrue: bool, hasFalse: bool): (item: BinaryItem)
    ensures item.Contains(true) == hasTrue && item.Contains(false) == hasFalse
    ensures item.IsEmpty() <==> !hasTrue && !hasFalse
  {
    BinaryItem(hasTrue, hasFalse)
  }

  /** `from_bits_truncate`: keeps bits 0 and 1 and drops every other bit. */
  function FromBitsTruncate(b: byte): (item: BinaryItem)
    ensures item.Bits() == b % 4
    ensures FromBitsTruncate(b % 4) == item
  {
    BinaryItem(b % 2 == 1, (b / 2) % 2 == 1)
  }

  lemma BitsRoundTrip(item: BinaryItem)
    ensures FromBitsTruncate(item.Bits()) == item
  {
  }

  /** The item `add_many` derives from a point's list of values. */
  function FromValues(values: seq<bool>): (item: BinaryItem)
    ensures item.hasTrue <==> exists i :: 0 <= i < |values| && values[i]
    ensures item.hasFalse <==> exists i :: 0 <= i < |values| && !values[i]
    ensures item.IsEmpty() <==> values == []
  {
    assert values != [] ==> values[0] in values;
    FromBools(true in values, false in values)
  }

  // ---------------------------------------------------------------------
  // Persistence format: key `id.to_be_bytes()`, value `[item.bits()]`.

  function EncodeKey(id: PointOffset): (key: Key)
    ensures |key| == 4
  {
    var b3, rest3 := id % 0x100, id / 0x100;
    var b2, rest2 := rest3 % 0x100, rest3 / 0x100;
    var b1, b0 := rest2 % 0x100, rest2 / 0x100;
    [b0, b1, b2, b3]
  }

  /** `PointOffsetType::from_be_bytes(key.try_into().unwrap())`: a key that
      is not four bytes long makes the source panic; here it gives None. */
  function DecodeKey(key: Key): (id: Option<PointOffset>)
    ensures id.Some? <==> |key| == 4
  {
    if |key| == 4 then
      var id := ((key[0] as int * 0x100 + key[1]) * 0x100 + key[2]) * 0x100 + key[3];
      assert id < 0x1_0000_0000 by {
        assert key[0] as int * 0x100 + key[1] < 0x1_0000;
        assert (key[0] as int * 0x100 + key[1]) * 0x100 + key[2] < 0x100_0000;
      }
      Some(id)
    else
      None
  }

  /** Appending a byte in base 256, and taking it off again. */
  lemma ShiftByte(high: nat, low: byte)
    ensures (high * 0x100 + low) / 0x100 == high && (high * 0x100 + low) % 0x100 == low
  {
  }

  lemma KeyRoundTrip(id: PointOffset)
    ensures DecodeKey(EncodeKey(id)) == Some(id)
  {
  }

  /** Byte-wise lexicographic order on keys: `x` sorts strictly before `y`. */
  predicate KeyLess(x: Key, y: Key) {
    |y| > 0 && (|x| == 0 || x[0] < y[0] || (x[0] == y[0] && KeyLess(x[1..], y[1..])))
  }

  /** One base-`m` digit in front of a smaller remainder orders by the digit
      first and the remainder second. */
  lemma MulMonotone(a: nat, b: nat, m: nat)
    requires a <= b
    ensures a * m <= b * m
  {
    var k: nat := b - a;
    assert b * m == a * m + k * m;
  }

  lemma DigitOrder(d: nat, r: nat, e: nat, s: nat, m: nat)
    requires r < m && s < m
    ensures d * m + r < e * m + s <==> d < e || (d == e && r < s)
    ensures d * m + r == e * m + s <==> d == e && r == s
  {
    if d < e {
      MulMonotone(d + 1, e, m);
      assert (d + 1) * m == d * m + m;
    } else if e < d {
      MulMonotone(e + 1, d, m);
      assert (e + 1) * m == e * m + m;
    }
  }

  /** Byte-wise order of four-byte keys, written out digit by digit. */
  lemma KeyLessFour(x: Key, y: Key)
    requires |x| == 4 && |y| == 4
    ensures KeyLess(x, y) <==>
              x[0] < y[0] || (x[0] == y[0] && (x[1] < y[1] || (x[1] == y[1] &&
              (x[2] < y[2] || (x[2] == y[2] && x[3] < y[3])))))
  {
    var x1, y1 := x[1..], y[1..];
    var x2, y2 := x1[1..], y1[1..];
    var x3, y3 := x2[1..], y2[1..];
    assert !KeyLess(x3[1..], y3[1..]);
    assert KeyLess(x3, y3) <==> x[3] < y[3];
    assert KeyLess(x2, y2) <==> x[2] < y[2] || (x[2] == y[2] && x[3] < y[3]);
    assert KeyLess(x1, y1) <==> x[1] < y[1] || (x[1] == y[1] && KeyLess(x2, y2));
  }

  /** Big-endian value order of four-byte keys, digit by digit. */
  lemma DecodeKeyOrder(x: Key, y: Key)
    requires |x| == 4 && |y| == 4
    ensures DecodeKey(x).value < DecodeKey(y).value <==>
              x[0] < y[0] || (x[0] == y[0] && (x[1] < y[1] || (x[1] == y[1] &&
              (x[2] < y[2] || (x[2] == y[2] && x[3] < y[3])))))
  {
    var x01: nat, y01: nat := x[0] as int * 0x100 + x[1], y[0] as int * 0x100 + y[1];
    var x012: nat, y012: nat := x01 * 0x100 + x[2], y01 * 0x100 + y[2];
    DigitOrder(x[0], x[1], y[0], y[1], 0x100);
    DigitOrder(x01, x[2], y01, y[2], 0x100);
    DigitOrder(x012, x[3], y012, y[3], 0x100);
    assert DecodeKey(x).value == x012 * 0x100 + x[3] && DecodeKey(y).value == y012 * 0x100 + y[3];
  }

  /** Big-endian value order of four-byte keys is their byte-wise order. */
  lemma KeyValueOrder(x: Key, y: Key)
    requires |x| == 4 && |y| == 4
    ensures DecodeKey(x).value < DecodeKey(y).value <==> KeyLess(x, y)
  {
    KeyLessFour(x, y);
    DecodeKeyOrder(x, y);
  }

  /** `to_be_bytes` keeps point order: a smaller offset has a byte-wise
      smaller key. */
  lemma EncodeKeyOrder(a: PointOffset, b: PointOffset)
    ensures a < b <==> KeyLess(EncodeKey(a), EncodeKey(b))
  {
    KeyRoundTrip(a);
    KeyRoundTrip(b);
    KeyValueOrder(EncodeKey(a), EncodeKey(b));
  }

  lemma DecodeKeyIsInverse(key: Key)
    requires |key| == 4
    ensures EncodeKey(DecodeKey(key).value) == key
  {
    var k01 := key[0] as int * 0x100 + key[1];
    var k012 := k01 * 0x100 + key[2];
    ShiftByte(k012, key[3]);
    ShiftByte(k01, key[2]);
    ShiftByte(key[0], key[1]);
  }

  function EncodeRecord(item: BinaryItem): (record: Value)
    ensures |record| == 1 && record[0] < 4
  {
    [item.Bits()]
  }

  /** The first byte of the stored value, through `from_bits_truncate`; an
      empty value is the service error of `load`. */
  function DecodeRecord(record: Value): (r: Result<BinaryItem, OperationError>)
    ensures r.Err? <==> record == []
    ensures r.Ok? ==> r.value.Bits() == record[0] % 4
  {
    if record == [] then Err(ServiceError("Expected a value in binary index"))
    else Ok(FromBitsTruncate(record[0]))
  }

  lemma RecordRoundTrip(item: BinaryItem)
    ensures DecodeRecord(EncodeRecord(item)) == Ok(item)
  {
  }

  // ---------------------------------------------------------------------
  // The content of the index: `items[id]` is the item of point `id`; a
  // point at or beyond the end has the empty item.

  function ItemAt(items: seq<BinaryItem>, id: nat): BinaryItem {
    if id < |items| then items[id] else Empty
  }

  /** The trailing slot, if any, is populated. */
  ghost predicate Trimmed(items: seq<BinaryItem>) {
    |items| == 0 || !items[|items| - 1].IsEmpty()
  }

  /** The items of two equally long bit vectors. */
  function Zip(trues: seq<bool>, falses: seq<bool>): (items: seq<BinaryItem>)
    requires |trues| == |falses|
    ensures |items| == |trues|
    ensures forall id :: 0 <= id < |items| ==> items[id].hasTrue == trues[id] && items[id].hasFalse == falses[id]
  {
    seq(|trues|, id requires 0 <= id < |trues| => FromBools(trues[id], falses[id]))
  }

  /** The first `n` slots, padded with empty items. */
  function Window(items: seq<BinaryItem>, n: nat): (w: seq<BinaryItem>)
    ensures |w| == n && forall id :: 0 <= id < n ==> w[id] == ItemAt(items, id)
  {
    seq(n, id requires 0 <= id < n => ItemAt(items, id))
  }

  /** `set_or_insert`: an empty item changes nothing; otherwise the vectors
      grow to `id + 1` when needed and slot `id` takes the item. */
  function Assigned(items: seq<BinaryItem>, id: PointOffset, item: BinaryItem): (r: seq<BinaryItem>)
    ensures item.IsEmpty() ==> r == items
    ensures !item.IsEmpty() ==> |r| == if id < |items| then |items| else id + 1
    ensures forall j: nat :: ItemAt(r, j) == if j == id && !item.IsEmpty() then item else ItemAt(items, j)
    ensures Trimmed(items) ==> Trimmed(r)
  {
    if item.IsEmpty() then items
    else if id < |items| then items[id := item]
    else items + seq(id - |items|, _ => Empty) + [item]
  }

  /** The last populated slot (`last_one` of the two vectors, the larger). */
  function LastPopulated(items: seq<BinaryItem>): Option<nat>
  {
    if |items| == 0 then None
    else if !items[|items| - 1].IsEmpty() then Some(|items| - 1)
    else LastPopulated(items[..|items| - 1])
  }

  lemma {:induction false} LastPopulatedSpec(items: seq<BinaryItem>)
    ensures LastPopulated(items).None? ==> forall id :: 0 <= id < |items| ==> items[id].IsEmpty()
    ensures LastPopulated(items).Some? ==>
      var last := LastPopulated(items).value;
      last < |items| && !items[last].IsEmpty() &&
      forall id :: last < id < |items| ==> items[id].IsEmpty()
  {
    if |items| > 0 && items[|items| - 1].IsEmpty() {
      var prefix := items[..|items| - 1];
      LastPopulatedSpec(prefix);
      assert forall id :: 0 <= id < |prefix| ==> prefix[id] == items[id];
    }
  }

  /** The length `shrink` cuts the vectors to. */
  function Cut(items: seq<BinaryItem>): nat {
    match LastPopulated(items)
    case Some(last) => last + 1
    case None => 0
  }

  /** `shrink`: drops the empty slots at the end. */
  function Trim(items: seq<BinaryItem>): seq<BinaryItem>
  {
    if |items| > 0 && items[|items| - 1].IsEmpty() then Trim(items[..|items| - 1]) else items
  }

  lemma {:induction false} TrimSpec(items: seq<BinaryItem>)
    ensures Cut(items) <= |items| && Trim(items) == items[..Cut(items)]
    ensures Trimmed(Trim(items))
    ensures forall j: nat :: ItemAt(Trim(items), j) == ItemAt(items, j)
    ensures |Trim(items)| == 0 <==> forall j: nat :: ItemAt(items, j).IsEmpty()
  {
    LastPopulatedSpec(items);
    if |items| > 0 && items[|items| - 1].IsEmpty() {
      var prefix := items[..|items| - 1];
      TrimSpec(prefix);
      assert LastPopulated(items) == LastPopulated(prefix);
      assert prefix[..Cut(prefix)] == items[..Cut(items)];
      forall j: nat ensures ItemAt(prefix, j) == ItemAt(items, j) {
      }
    } else if |items| > 0 {
      assert items[..|items|] == items;
      assert !ItemAt(items, |items| - 1).IsEmpty();
    }
  }

  /** `remove`: clears slot `id` if it is within bounds, then shrinks. */
  function Removed(items: seq<BinaryItem>, id: PointOffset): seq<BinaryItem>
  {
    Trim(if id < |items| then items[id := Empty] else items)
  }

  lemma RemovedSpec(items: seq<BinaryItem>, id: PointOffset)
    ensures forall j: nat :: ItemAt(Removed(items, id), j) == if j == id then Empty else ItemAt(items, j)
    ensures Trimmed(Removed(items, id))
    ensures |Removed(items, id)| == 0 <==> forall j: nat :: j != id ==> ItemAt(items, j).IsEmpty()
  {
    var cleared := if id < |items| then items[id := Empty] else items;
    TrimSpec(cleared);
    assert forall j: nat :: ItemAt(cleared, j) == if j == id then Empty else ItemAt(items, j);
  }

  /** The point offsets whose item contains the flag for `value`, ascending:
      what `filter` yields. */
  function MatchingIds(items: seq<BinaryItem>, value: bool): seq<nat>
  {
    if |items| == 0 then []
    else
      MatchingIds(items[..|items| - 1], value) +
      (if items[|items| - 1].Contains(value) then [|items| - 1] else [])
  }

  lemma {:induction false} MatchingIdsSpec(items: seq<BinaryItem>, value: bool)
    ensures forall i, j :: 0 <= i < j < |MatchingIds(items, value)| ==>
      MatchingIds(items, value)[i] < MatchingIds(items, value)[j]
    ensures forall k :: 0 <= k < |MatchingIds(items, value)| ==> MatchingIds(items, value)[k] < |items|
    ensures forall id: nat :: id in MatchingIds(items, value) <==> ItemAt(items, id).Contains(value)
  {
    if |items| > 0 {
      var prefix := items[..|items| - 1];
      MatchingIdsSpec(prefix, value);
      forall id: nat ensures id in MatchingIds(items, value) <==> ItemAt(items, id).Contains(value) {
        if id < |prefix| {
          assert ItemAt(prefix, id) == ItemAt(items, id);
        }
      }
    }
  }

  /** Slots past `from` that are all empty add no matches. */
  lemma {:induction false} MatchingIdsWindow(items: seq<BinaryItem>, value: bool, from: nat, n: nat)
    requires from <= n
    requires forall id :: from <= id < |items| ==> items[id].IsEmpty()
    ensures MatchingIds(Window(items, n), value) == MatchingIds(Window(items, from), value)
  {
    if n > from {
      MatchingIdsWindow(items, value, from, n - 1);
      assert Window(items, n)[..n - 1] == Window(items, n - 1);
      assert Window(items, n)[n - 1].IsEmpty();
    }
  }

  /** What the iterator of `BinaryMemory` sees — the slots up to the last
      populated one, or one empty slot when nothing is populated — matches
      as the whole content does. */
  lemma MatchingIdsIterated(items: seq<BinaryItem>, value: bool)
    ensures MatchingIds(Window(items, LastPopulated(items).GetOr(0) + 1), value) == MatchingIds(items, value)
  {
    LastPopulatedSpec(items);
    assert Window(items, |items|) == items;
    MatchingIdsWindow(items, value, Cut(items), LastPopulated(items).GetOr(0) + 1);
    MatchingIdsWindow(items, value, Cut(items), |items|);
  }

  // ---------------------------------------------------------------------
  // Bit-vector level: what `count_ones` and `last_one` compute.

  function Ones(bits: seq<bool>): nat
  {
    if |bits| == 0 then 0
    else Ones(bits[..|bits| - 1]) + (if bits[|bits| - 1] then 1 else 0)
  }

  /** `last_one`: the highest set bit, None when no bit is set. */
  function LastOne(bits: seq<bool>): (last: Option<nat>)
    ensures last.Some? ==> last.value < |bits| && bits[last.value]
    ensures last.Some? ==> forall j :: last.value < j < |bits| ==> !bits[j]
    ensures last.None? <==> forall j :: 0 <= j < |bits| ==> !bits[j]
  {
    if |bits| == 0 then None
    else if bits[|bits| - 1] then Some(|bits| - 1)
    else LastOne(bits[..|bits| - 1])
  }

  /** `Option::max`: None is below every Some. */
  function MaxOption(a: Option<nat>, b: Option<nat>): (m: Option<nat>)
    ensures m.None? <==> a.None? && b.None?
    ensures m.Some? ==> (m == a || m == b) && (a.Some? ==> a.value <= m.value) && (b.Some? ==> b.value <= m.value)
  {
    match (a, b)
    case (None, _) => b
    case (_, None) => a
    case (Some(x), Some(y)) => if x < y then b else a
  }

  /** `count_trues` / `count_falses` count the points whose item contains
      the flag. */
  lemma {:induction false} OnesCountMatches(trues: seq<bool>, falses: seq<bool>)
    requires |trues| == |falses|
    ensures Ones(trues) == |MatchingIds(Zip(trues, falses), true)|
    ensures Ones(falses) == |MatchingIds(Zip(trues, falses), false)|
  {
    if |trues| > 0 {
      var n := |trues| - 1;
      OnesCountMatches(trues[..n], falses[..n]);
      assert Zip(trues, falses)[..n] == Zip(trues[..n], falses[..n]);
    }
  }

  /** The larger of the two vectors' last set bit is the last populated
      slot. */
  lemma {:induction false} LastOneIsLastPopulated(trues: seq<bool>, falses: seq<bool>)
    requires |trues| == |falses|
    ensures MaxOption(LastOne(trues), LastOne(falses)) == LastPopulated(Zip(trues, falses))
  {
    if |trues| > 0 {
      var n := |trues| - 1;
      assert Zip(trues, falses)[..n] == Zip(trues[..n], falses[..n]);
      if !trues[n] && !falses[n] {
        LastOneIsLastPopulated(trues[..n], falses[..n]);
      }
    }
  }

  // ---------------------------------------------------------------------
  // Loading the persisted records.

  /** The decoded (point, item) pair of one stored key/value. */
  function DecodeEntry(entry: (Key, Value)): (r: Result<(PointOffset, BinaryItem), OperationError>)
    ensures r.Ok? <==> |entry.0| == 4 && entry.1 != []
    ensures r.Ok? ==> EncodeKey(r.value.0) == entry.0 && r.value.1 == FromBitsTruncate(entry.1[0])
  {
    match DecodeKey(entry.0)
    case None => Err(ServiceError("malformed key in binary index"))
    case Some(id) =>
      DecodeKeyIsInverse(entry.0);
      match DecodeRecord(entry.1)
      case Err(e) => Err(e)
      case Ok(item) => Ok((id, item))
  }

  /** `load`: `set_or_insert` of every decoded entry in order, stopping at
      the first one that does not decode. */
  function LoadInto(items: seq<BinaryItem>, entries: seq<(Key, Value)>): Result<seq<BinaryItem>, OperationError>
    decreases |entries|
  {
    if entries == [] then Ok(items)
    else
      match DecodeEntry(entries[0])
      case Err(e) => Err(e)
      case Ok(entry) => LoadInto(Assigned(items, entry.0, entry.1), entries[1..])
  }

  lemma {:induction false} LoadIntoSnoc(items: seq<BinaryItem>, entries: seq<(Key, Value)>, last: (Key, Value))
    requires LoadInto(items, entries).Ok?
    ensures LoadInto(items, entries + [last]) ==
      match DecodeEntry(last)
      case Err(e) => Err(e)
      case Ok(entry) => Ok(Assigned(LoadInto(items, entries).value, entry.0, entry.1))
    decreases |entries|
  {
    if entries != [] {
      assert (entries + [last])[1..] == entries[1..] + [last];
      var entry := DecodeEntry(entries[0]).value;
      LoadIntoSnoc(Assigned(items, entry.0, entry.1), entries[1..], last);
    }
  }

  /** Loading one more entry of a sequence whose prefix loaded. */
  lemma LoadIntoStep(items: seq<BinaryItem>, entries: seq<(Key, Value)>, i: nat)
    requires i < |entries| && LoadInto(items, entries[..i]).Ok? && DecodeEntry(entries[i]).Ok?
    ensures LoadInto(items, entries[..i + 1]) ==
      Ok(Assigned(LoadInto(items, entries[..i]).value, DecodeEntry(entries[i]).value.0, DecodeEntry(entries[i]).value.1))
  {
    assert entries[..i + 1] == entries[..i] + [entries[i]];
    LoadIntoSnoc(items, entries[..i], entries[i]);
  }

  /** Distinct points have distinct keys. */
  lemma EncodeKeyInjective(a: PointOffset, b: PointOffset)
    ensures EncodeKey(a) == EncodeKey(b) <==> a == b
  {
    KeyRoundTrip(a);
    KeyRoundTrip(b);
  }

  /** The keys `entries` lists. */
  function KeysOf(entries: seq<(Key, Value)>): (keys: set<Key>)
    ensures forall k :: k in keys <==> exists i :: 0 <= i < |entries| && entries[i].0 == k
  {
    set i | 0 <= i < |entries| :: entries[i].0
  }

  lemma KeysOfCons(entries: seq<(Key, Value)>)
    requires entries != []
    ensures KeysOf(entries) == {entries[0].0} + KeysOf(entries[1..])
  {
    var rest := entries[1..];
    forall k | k in KeysOf(entries) ensures k in {entries[0].0} + KeysOf(rest) {
      var i :| 0 <= i < |entries| && entries[i].0 == k;
      if i > 0 {
        assert rest[i - 1].0 == k;
      }
    }
    forall k | k in KeysOf(rest) ensures k in KeysOf(entries) {
      var i :| 0 <= i < |rest| && rest[i].0 == k;
      assert entries[i + 1].0 == k;
    }
  }

  /** The item the record stored under point `id`'s key decodes to, the
      empty item when there is no such record. */
  function StoredItem(store: map<Key, Value>, id: PointOffset): BinaryItem {
    var key := EncodeKey(id);
    if key in store && store[key] != [] then FromBitsTruncate(store[key][0]) else Empty
  }

  /** The column holds the index's records: every stored entry decodes, and
      every point's item is the one its record says. */
  ghost predicate Mirrors(items: seq<BinaryItem>, store: map<Key, Value>) {
    (forall k :: k in store ==> DecodeEntry((k, store[k])).Ok?) &&
    forall id: PointOffset :: ItemAt(items, id) == StoredItem(store, id)
  }

  /** Loading entries taken from `store` that all decode: each listed
      point whose record is not empty takes the item of its record, every
      other point keeps its item. */
  lemma {:induction false} LoadIntoStore(items: seq<BinaryItem>, store: map<Key, Value>, entries: seq<(Key, Value)>)
    requires forall i :: 0 <= i < |entries| ==> entries[i].0 in store && store[entries[i].0] == entries[i].1
    requires LoadInto(items, entries).Ok?
    ensures forall i :: 0 <= i < |entries| ==> DecodeEntry(entries[i]).Ok?
    ensures forall id: PointOffset ::
              ItemAt(LoadInto(items, entries).value, id) ==
              if EncodeKey(id) in KeysOf(entries) && !StoredItem(store, id).IsEmpty() then StoredItem(store, id) else ItemAt(items, id)
    decreases |entries|
  {
    if entries != [] {
      var entry := DecodeEntry(entries[0]).value;
      var next := Assigned(items, entry.0, entry.1);
      var rest := entries[1..];
      LoadIntoStore(next, store, rest);
      assert entry.1 == StoredItem(store, entry.0);
      forall i | 0 <= i < |entries| ensures DecodeEntry(entries[i]).Ok? {
        if i > 0 {
          assert entries[i] == rest[i - 1];
        }
      }
      KeysOfCons(entries);
      forall id: PointOffset ensures ItemAt(LoadInto(items, entries).value, id) ==
        if EncodeKey(id) in KeysOf(entries) && !StoredItem(store, id).IsEmpty() then StoredItem(store, id) else ItemAt(items, id)
      {
        EncodeKeyInjective(id, entry.0);
      }
    }
  }

  /** A column whose listing decodes entry by entry decodes as a whole. */
  lemma EnumeratedDecode(store: map<Key, Value>, entries: seq<(Key, Value)>)
    requires Enumerates(store, entries)
    requires forall i :: 0 <= i < |entries| ==> DecodeEntry(entries[i]).Ok?
    ensures forall k :: k in store ==> DecodeEntry((k, store[k])).Ok?
  {
    forall k | k in store ensures DecodeEntry((k, store[k])).Ok? {
      var i :| 0 <= i < |entries| && entries[i].0 == k;
    }
  }

  /** A point whose key the listing never names has no record. */
  lemma UnlistedEmpty(store: map<Key, Value>, entries: seq<(Key, Value)>, id: PointOffset)
    requires Enumerates(store, entries) && EncodeKey(id) !in KeysOf(entries)
    ensures StoredItem(store, id).IsEmpty()
  {
  }

  /** Loading a full listing of `store`: every stored record decodes, each
      point whose record is not empty takes its item and every other point
      keeps its own; from an empty content the result agrees with the
      column. */
  lemma LoadedFromStore(items: seq<BinaryItem>, store: map<Key, Value>, entries: seq<(Key, Value)>)
    requires Enumerates(store, entries) && LoadInto(items, entries).Ok?
    ensures forall k :: k in store ==> DecodeEntry((k, store[k])).Ok?
    ensures forall id: PointOffset ::
              ItemAt(LoadInto(items, entries).value, id) ==
              if StoredItem(store, id).IsEmpty() then ItemAt(items, id) else StoredItem(store, id)
    ensures items == [] ==> Mirrors(LoadInto(items, entries).value, store)
  {
    LoadIntoStore(items, store, entries);
    EnumeratedDecode(store, entries);
    var result := LoadInto(items, entries).value;
    forall id: PointOffset
      ensures ItemAt(result, id) == if StoredItem(store, id).IsEmpty() then ItemAt(items, id) else StoredItem(store, id)
    {
      if EncodeKey(id) !in KeysOf(entries) {
        UnlistedEmpty(store, entries, id);
      }
    }
    if items == [] {
      forall id: PointOffset ensures ItemAt(result, id) == StoredItem(store, id) {
      }
    }
  }

  /** Two trimmed contents that agree with the same column are equal. */
  lemma MirrorsDetermine(a: seq<BinaryItem>, b: seq<BinaryItem>, store: map<Key, Value>)
    requires |a| <= 0x1_0000_0000 && |b| <= 0x1_0000_0000
    requires Trimmed(a) && Trimmed(b) && Mirrors(a, store) && Mirrors(b, store)
    ensures a == b
  {
    if |a| > 0 {
      var last: PointOffset := |a| - 1;
      assert ItemAt(b, last) == ItemAt(a, last);
      assert !ItemAt(b, last).IsEmpty();
    }
    if |b| > 0 {
      var last: PointOffset := |b| - 1;
      assert ItemAt(a, last) == ItemAt(b, last);
      assert !ItemAt(a, last).IsEmpty();
    }
    forall i | 0 <= i < |a| ensures a[i] == b[i] {
      var id: PointOffset := i;
      assert ItemAt(a, id) == ItemAt(b, id);
    }
  }

  /** Putting a point's record after `set_or_insert` keeps the column in
      step with the content. */
  lemma MirrorsAssigned(items: seq<BinaryItem>, store: map<Key, Value>, id: PointOffset, item: BinaryItem)
    requires Mirrors(items, store) && !item.IsEmpty()
    ensures Mirrors(Assigned(items, id, item), store[EncodeKey(id) := EncodeRecord(item)])
  {
    var updated := store[EncodeKey(id) := EncodeRecord(item)];
    KeyRoundTrip(id);
    forall j: PointOffset ensures ItemAt(Assigned(items, id, item), j) == StoredItem(updated, j) {
      EncodeKeyInjective(j, id);
      BitsRoundTrip(item);
    }
  }

  /** Removing a point's record after `remove` keeps the column in step
      with the content. */
  lemma MirrorsRemoved(items: seq<BinaryItem>, store: map<Key, Value>, id: PointOffset)
    requires Mirrors(items, store)
    ensures Mirrors(Removed(items, id), store - {EncodeKey(id)})
  {
    RemovedSpec(items, id);
    forall j: PointOffset ensures ItemAt(Removed(items, id), j) == StoredItem(store - {EncodeKey(id)}, j) {
      EncodeKeyInjective(j, id);
    }
  }

  /** The records `add_many` would have written for `items`, in ascending
      key order (the order a column family yields big-endian keys in). */
  function Records(items: seq<BinaryItem>): seq<(Key, Value)>
    requires |items| <= 0x1_0000_0000
  {
    if |items| == 0 then []
    else
      Records(items[..|items| - 1]) +
      (if items[|items| - 1].IsEmpty() then [] else [(EncodeKey(|items| - 1), EncodeRecord(items[|items| - 1]))])
  }

  /** Loading what was persisted gives back the content, trimmed. */
  lemma {:induction false} LoadRecordsRoundTrip(items: seq<BinaryItem>)
    requires |items| <= 0x1_0000_0000
    ensures LoadInto([], Records(items)) == Ok(Trim(items))
  {
    if |items| > 0 {
      var n := |items| - 1;
      var prefix := items[..n];
      LoadRecordsRoundTrip(prefix);
      TrimSpec(prefix);
      if !items[n].IsEmpty() {
        var entry := (EncodeKey(n), EncodeRecord(items[n]));
        KeyRoundTrip(n);
        RecordRoundTrip(items[n]);
        assert DecodeEntry(entry) == Ok((n, items[n]));
        LoadIntoSnoc([], Records(prefix), entry);
        var loaded := Assigned(Trim(prefix), n, items[n]);
        assert |loaded| == |items|;
        forall id | 0 <= id < |items| ensures loaded[id] == items[id] {
          assert ItemAt(loaded, id) == ItemAt(items, id);
        }
        assert loaded == items;
      } else {
        assert Records(items) == Records(prefix);
      }
    }
  }

  /** The records come in strictly ascending byte-wise key order, each key
      naming a point inside the content. */
  lemma {:induction false} RecordsAscending(items: seq<BinaryItem>)
    requires |items| <= 0x1_0000_0000
    ensures forall i :: 0 <= i < |Records(items)| ==>
              |Records(items)[i].0| == 4 && DecodeKey(Records(items)[i].0).value < |items|
    ensures forall i, j :: 0 <= i < j < |Records(items)| ==> KeyLess(Records(items)[i].0, Records(items)[j].0)
  {
    if |items| > 0 {
      var n := |items| - 1;
      var prefix := Records(items[..n]);
      RecordsAscending(items[..n]);
      if !items[n].IsEmpty() {
        var records := Records(items);
        assert records == prefix + [(EncodeKey(n), EncodeRecord(items[n]))];
        KeyRoundTrip(n);
        forall i, j | 0 <= i < j < |records| ensures KeyLess(records[i].0, records[j].0) {
          if j == |prefix| {
            var id := DecodeKey(prefix[i].0).value;
            DecodeKeyIsInverse(prefix[i].0);
            EncodeKeyOrder(id, n);
          }
        }
      }
    }
  }

  // ---------------------------------------------------------------------
  // Telemetry.

  /** `points_values_count` as written: `count_falses() + count_falses()`. */
  function TelemetryValuesCountAsWritten(items: seq<BinaryItem>): nat {
    |MatchingIds(items, false)| + |MatchingIds(items, false)|
  }

  /** The number of values stored over all points. */
  function TotalValues(items: seq<BinaryItem>): nat {
    if |items| == 0 then 0 else TotalValues(items[..|items| - 1]) + items[|items| - 1].ValuesCount()
  }

  /** `count_trues() + count_falses()`, the evidently intended value. */
  function TelemetryValuesCount(items: seq<BinaryItem>): (n: nat)
    ensures n == TotalValues(items)
  {
    TotalValuesSplit(items);
    |MatchingIds(items, true)| + |MatchingIds(items, false)|
  }

  lemma {:induction false} TotalValuesSplit(items: seq<BinaryItem>)
    ensures TotalValues(items) == |MatchingIds(items, true)| + |MatchingIds(items, false)|
  {
    if |items| > 0 {
      TotalValuesSplit(items[..|items| - 1]);
    }
  }

  /** One point holding only `true`: one value, but the telemetry as written
      reports none. */
  lemma TelemetryAsWrittenMiscounts()
    ensures TelemetryValuesCountAsWritten([FromBools(true, false)]) == 0
    ensures TotalValues([FromBools(true, false)]) == 1
  {
    assert [FromBools(true, false)][..0] == [];
  }
}
