/** The parts of `serde_json::Value` that the core inspects. serde_json is
    not part of this model; its number representation (a non-negative
    64-bit integer, a negative 64-bit integer, or a float) and its
    `as_bool` / `as_i64` / `as_str` accessors are written out from the
    crate's documented behaviour. */
module Json {
  import opened Wrappers

  const I64_MAX: int := 0x7FFF_FFFF_FFFF_FFFF
  const I64_MIN: int := -0x8000_0000_0000_0000

  type u64 = x: int | 0 <= x < 0x1_0000_0000_0000_0000
  type NegativeI64 = x: int | I64_MIN <= x < 0 witness -1

  /** An IEEE-754 double: only carried, never computed with. */
  type Float64(==)

  datatype Number = PosInt(u: u64) | NegInt(i: NegativeI64) | Float(f: Float64)

  datatype Value =
    | Null
    | Bool(b: bool)
    | Number(n: Number)
    | String(s: string)
    | Array(items: seq<Value>)
    | Object(fields: map<string, Value>)

  function AsBool(v: Value): (r: Option<bool>)
    ensures r.Some? <==> v.Bool?
    ensures r.Some? ==> r.value == v.b
  {
    match v
    case Bool(b) => Some(b)
    case _ => None
  }

  /** A number that fits in an `i64`; floats and integers above `i64::MAX`
      give None. */
  function AsI64(v: Value): (r: Option<int>)
    ensures r.Some? ==> v.Number? && I64_MIN <= r.value <= I64_MAX
    ensures v.Number? && v.n.NegInt? ==> r == Some(v.n.i)
    ensures v.Number? && v.n.PosInt? ==> r == if v.n.u <= I64_MAX then Some(v.n.u) else None
    ensures v.Number? && v.n.Float? ==> r == None
  {
    match v
    case Number(PosInt(u)) => if u <= I64_MAX then Some(u) else None
    case Number(NegInt(i)) => Some(i)
    case _ => None
  }

  function AsStr(v: Value): (r: Option<string>)
    ensures r.Some? <==> v.String?
    ensures r.Some? ==> r.value == v.s
  {
    match v
    case String(s) => Some(s)
    case _ => None
  }
}

/** The segment-level records the core builds or inspects (they live in
    lib/segment/src/types.rs, which is not part of this model). Constructors
    whose bodies are not part of this model (`Filter::merge`,
    `Filter::new_must`, `Filter::new_must_not`, `Match::new_any`) are kept
    uninterpreted: each is a constructor of a term, so two filters are equal
    exactly when they were built the same way. */
module SegmentTypes {
  import opened Wrappers
  import Json

  type PointOffset = x: int | 0 <= x < 0x1_0000_0000

  datatype PointId = NumId(num: Json.u64) | Uuid(uuid: string)

  datatype ValueVariants = Keyword(keyword: string) | Integer(integer: int) | Bool(boolean: bool)

  datatype AnyVariants = Keywords(keywords: seq<string>) | Integers(integers: seq<int>)

  /** `Match::Value` is used directly; `NewAny` records a call to
      `Match::new_any`. Other kinds of match are represented by `Text`. */
  datatype Match = Value(value: ValueVariants) | NewAny(any: AnyVariants) | Text(text: string)

  /** The key and match parts of a field condition; the range and geo parts
      of the record are never set or read by the core. */
  datatype FieldCondition = FieldCondition(key: string, matching: Option<Match>)

  function NewMatch(key: string, m: Match): (c: FieldCondition)
    ensures c.key == key && c.matching == Some(m)
  {
    FieldCondition(key, Some(m))
  }

  datatype Condition =
    | Field(field: FieldCondition)
    | IsNull(isNullKey: string)
    | HasId(hasId: set<PointId>)

  /** Filters as terms: `Default` is `Filter::default()`, `Merged(a, b)` is
      `a.merge(&b)`. */
  datatype Filter =
    | Default
    | NewMust(must: Condition)
    | NewMustNot(mustNot: Condition)
    | Merged(base: Filter, other: Filter)

  /** A search hit without its (floating-point) score and its payload. */
  datatype ScoredPoint = ScoredPoint(id: PointId, version: nat)

  datatype WithPayloadInterface = PayloadBool(enable: bool) | Fields(fields: seq<string>)

  datatype WithVector = VectorBool(enable: bool) | VectorSelector(names: seq<string>)
}
