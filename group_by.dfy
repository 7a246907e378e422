/** Grouped search and recommendation
    (lib/collection/src/grouping/group_by.rs): the conversions into a
    `GroupRequest`, the shaping of the source request sent to the
    collection, `match_on`, and the two bounded rounds of requests of
    `group_by`. The collection's search and the groups aggregator are
    parameters of the model. */
module GroupBy {
  import opened Wrappers
  import opened SegmentTypes
  import Json

  const MAX_GET_GROUPS_REQUESTS: nat := 5
  const MAX_GROUP_FILLING_REQUESTS: nat := 5

  /** `usize` on a 64-bit target. */
  const USIZE_MODULUS: nat := 0x1_0000_0000_0000_0000
  type usize = x: int | 0 <= x < USIZE_MODULUS
  type u32 = x: int | 0 <= x < 0x1_0000_0000

  /** Parts of the requests that are only carried along. */
  type NamedVector(==)
  type SearchParams(==)
  type ScoreThreshold(==)
  type UsingVector(==)
  type LookupLocation(==)
  type CollectionError(==)

  type CollectionResult<T> = Result<T, CollectionError>

  datatype SearchRequest = SearchRequest(
    vector: NamedVector,
    filter: Option<Filter>,
    params: Option<SearchParams>,
    limit: usize,
    offset: usize,
    withPayload: Option<WithPayloadInterface>,
    withVector: Option<WithVector>,
    scoreThreshold: Option<ScoreThreshold>)

  datatype RecommendRequest = RecommendRequest(
    positive: seq<PointId>,
    negative: seq<PointId>,
    filter: Option<Filter>,
    params: Option<SearchParams>,
    limit: usize,
    offset: usize,
    withPayload: Option<WithPayloadInterface>,
    withVector: Option<WithVector>,
    scoreThreshold: Option<ScoreThreshold>,
    using: Option<UsingVector>,
    lookupFrom: Option<LookupLocation>)

  datatype SourceRequest = Search(search: SearchRequest) | Recommend(recommend: RecommendRequest)
  {
    function Limit(): usize {
      match this
      case Search(r) => r.limit
      case Recommend(r) => r.limit
    }

    function Filter(): Option<Filter> {
      match this
      case Search(r) => r.filter
      case Recommend(r) => r.filter
    }

    /** `with_payload`. */
    function WithPayload(): Option<WithPayloadInterface> {
      match this
      case Search(r) => r.withPayload
      case Recommend(r) => r.withPayload
    }

    /** `with_vector`. */
    function WithVector(): Option<WithVector> {
      match this
      case Search(r) => r.withVector
      case Recommend(r) => r.withVector
    }

    /** The request with the four fields the grouping rewrites blanked out:
        two requests with the same `Rest()` agree on everything else. */
    function Rest(): SourceRequest {
      match this
      case Search(r) => Search(r.(limit := 0, filter := None, withPayload := None, withVector := None))
      case Recommend(r) => Recommend(r.(limit := 0, filter := None, withPayload := None, withVector := None))
    }
  }

  datatype BaseGroupRequest = BaseGroupRequest(groupBy: string, perGroup: u32, limit: u32)

  datatype SearchGroupsRequest = SearchGroupsRequest(
    vector: NamedVector,
    filter: Option<Filter>,
    params: Option<SearchParams>,
    withPayload: Option<WithPayloadInterface>,
    withVector: Option<WithVector>,
    scoreThreshold: Option<ScoreThreshold>,
    groupRequest: BaseGroupRequest)

  datatype RecommendGroupsRequest = RecommendGroupsRequest(
    positive: seq<PointId>,
    negative: seq<PointId>,
    filter: Option<Filter>,
    params: Option<SearchParams>,
    withPayload: Option<WithPayloadInterface>,
    withVector: Option<WithVector>,
    scoreThreshold: Option<ScoreThreshold>,
    using: Option<UsingVector>,
    lookupFrom: Option<LookupLocation>,
    groupRequest: BaseGroupRequest)

  datatype GroupRequest = GroupRequest(request: SourceRequest, groupBy: string, perGroup: usize, limit: usize)

  /** `GroupRequest::new`: the group limit is the source request's limit. */
  function New(request: SourceRequest, groupBy: string, perGroup: usize): (g: GroupRequest)
    ensures g.request == request && g.groupBy == groupBy && g.perGroup == perGroup
    ensures g.limit == request.Limit()
  {
    GroupRequest(request, groupBy, perGroup, request.Limit())
  }

  /** `From<SearchGroupsRequest>`: the inner search gets `limit` and
      `offset` 0 and every other field of the request. */
  function FromSearchGroups(request: SearchGroupsRequest): (g: GroupRequest)
    ensures g.request.Search? && g.request.search.limit == 0 && g.request.search.offset == 0
    ensures g.groupBy == request.groupRequest.groupBy
    ensures g.perGroup == request.groupRequest.perGroup && g.limit == request.groupRequest.limit
    ensures g.request.search.vector == request.vector && g.request.search.filter == request.filter
    ensures g.request.search.params == request.params && g.request.search.scoreThreshold == request.scoreThreshold
    ensures g.request.search.withPayload == request.withPayload && g.request.search.withVector == request.withVector
  {
    var search := SearchRequest(
      request.vector, request.filter, request.params, 0, 0,
      request.withPayload, request.withVector, request.scoreThreshold);
    GroupRequest(Search(search), request.groupRequest.groupBy,
      request.groupRequest.perGroup, request.groupRequest.limit)
  }

  /** Nothing of a search-groups request is lost in the conversion. */
  lemma FromSearchGroupsInjective(a: SearchGroupsRequest, b: SearchGroupsRequest)
    requires FromSearchGroups(a) == FromSearchGroups(b)
    ensures a == b
  {
  }

  /** `From<RecommendGroupsRequest>`, likewise for the inner recommend
      request. */
  function FromRecommendGroups(request: RecommendGroupsRequest): (g: GroupRequest)
    ensures g.request.Recommend? && g.request.recommend.limit == 0 && g.request.recommend.offset == 0
    ensures g.groupBy == request.groupRequest.groupBy
    ensures g.perGroup == request.groupRequest.perGroup && g.limit == request.groupRequest.limit
    ensures g.request.recommend.positive == request.positive && g.request.recommend.negative == request.negative
    ensures g.request.recommend.filter == request.filter && g.request.recommend.params == request.params
    ensures g.request.recommend.withPayload == request.withPayload && g.request.recommend.withVector == request.withVector
    ensures g.request.recommend.scoreThreshold == request.scoreThreshold
    ensures g.request.recommend.using == request.using && g.request.recommend.lookupFrom == request.lookupFrom
  {
    var recommend := RecommendRequest(
      request.positive, request.negative, request.filter, request.params, 0, 0,
      request.withPayload, request.withVector, request.scoreThreshold, request.using, request.lookupFrom);
    GroupRequest(Recommend(recommend), request.groupRequest.groupBy,
      request.groupRequest.perGroup, request.groupRequest.limit)
  }

  lemma FromRecommendGroupsInjective(a: RecommendGroupsRequest, b: RecommendGroupsRequest)
    requires FromRecommendGroups(a) == FromRecommendGroups(b)
    ensures a == b
  {
  }

  /** `merge_filter`: the request's filter, or the default one, merged with
      `filter`; nothing else changes. */
  function MergeFilter(request: SourceRequest, filter: Filter): (r: SourceRequest)
    ensures r.Filter() == Some(Merged(request.Filter().GetOr(Default), filter))
    ensures r.Limit() == request.Limit() && r.WithPayload() == request.WithPayload()
    ensures r.WithVector() == request.WithVector() && r.Rest() == request.Rest()
  {
    match request
    case Search(s) => Search(s.(filter := Some(Merged(s.filter.GetOr(Default), filter))))
    case Recommend(s) => Recommend(s.(filter := Some(Merged(s.filter.GetOr(Default), filter))))
  }

  /** The filter `r#do` adds: the group key is not null. */
  function KeyNotNull(key: string): Filter {
    NewMustNot(IsNull(key))
  }

  /** The request `r#do` sends: `limit * per_group` hits (`usize`
      arithmetic, wrapping), only points whose key is not null, only the
      key in the payload and no vector. */
  function Shape(request: SourceRequest, key: string, limit: usize, perGroup: usize): (r: SourceRequest)
    ensures r.Search? <==> request.Search?
    ensures r.Limit() == (limit * perGroup) % USIZE_MODULUS
    ensures r.Filter() == Some(Merged(request.Filter().GetOr(Default), KeyNotNull(key)))
    ensures r.WithPayload() == Some(Fields([key])) && r.WithVector() == None
    ensures r.Rest() == request.Rest()
  {
    var total := (limit * perGroup) % USIZE_MODULUS;
    var filter := Some(Merged(request.Filter().GetOr(Default), KeyNotNull(key)));
    match request
    case Search(s) =>
      Search(s.(limit := total, filter := filter, withPayload := Some(Fields([key])), withVector := None))
    case Recommend(s) =>
      Recommend(s.(limit := total, filter := filter, withPayload := Some(Fields([key])), withVector := None))
  }

  /** Limits that come from the `u32` fields of a groups request never make
      the product wrap. */
  lemma ShapeLimitExact(request: SourceRequest, key: string, limit: u32, perGroup: u32)
    ensures Shape(request, key, limit, perGroup).Limit() == limit * perGroup
  {
    assert limit * perGroup <= 0xFFFF_FFFF * 0xFFFF_FFFF < USIZE_MODULUS by {
      MulMonotone(limit, perGroup, 0xFFFF_FFFF);
    }
  }

  lemma MulMonotone(a: nat, b: nat, bound: nat)
    requires a <= bound && b <= bound
    ensures a * b <= bound * bound
  {
    assert a * b <= bound * b;
    assert bound * b <= bound * bound;
  }

  /** `filter_map` over a sequence, in order. */
  function FilterMap<T, U>(s: seq<T>, f: T -> Option<U>): (r: seq<U>)
    ensures |r| <= |s|
  {
    if |s| == 0 then []
    else FilterMap(s[..|s| - 1], f) + (match f(s[|s| - 1]) case Some(u) => [u] case None => [])
  }

  /** `filter_map` keeps exactly the values the function maps to Some. */
  lemma {:induction false} FilterMapMembership<T, U>(s: seq<T>, f: T -> Option<U>, u: U)
    ensures u in FilterMap(s, f) <==> exists i :: 0 <= i < |s| && f(s[i]) == Some(u)
  {
    if |s| > 0 {
      var init := s[..|s| - 1];
      FilterMapMembership(init, f, u);
      if u in FilterMap(s, f) && u !in FilterMap(init, f) {
        assert f(s[|s| - 1]) == Some(u);
      }
      if exists i :: 0 <= i < |s| && f(s[i]) == Some(u) {
        var i :| 0 <= i < |s| && f(s[i]) == Some(u);
        if i < |s| - 1 {
          assert init[i] == s[i];
        }
      }
    }
  }

  /** ... keeping their order: it distributes over concatenation ... */
  lemma {:induction false} FilterMapConcat<T, U>(a: seq<T>, b: seq<T>, f: T -> Option<U>)
    ensures FilterMap(a + b, f) == FilterMap(a, f) + FilterMap(b, f)
  {
    if |b| > 0 {
      assert (a + b)[..|a + b| - 1] == a + b[..|b| - 1];
      FilterMapConcat(a, b[..|b| - 1], f);
    } else {
      assert a + b == a;
    }
  }

  /** ... and drops nothing when every value maps to Some. */
  lemma {:induction false} FilterMapAllSome<T, U>(s: seq<T>, f: T -> Option<U>)
    requires forall i :: 0 <= i < |s| ==> f(s[i]).Some?
    ensures |FilterMap(s, f)| == |s|
    ensures forall i :: 0 <= i < |s| ==> FilterMap(s, f)[i] == f(s[i]).value
  {
    if |s| > 0 {
      FilterMapAllSome(s[..|s| - 1], f);
    }
  }

  /** `match_on`: the kind of the first value picks an integer or keyword
      `Match::Any` on `path`; no condition for an empty list or any other
      first value. */
  function MatchOn(path: string, values: seq<Json.Value>): (c: Option<Condition>)
    ensures c.Some? <==> values != [] && (values[0].Number? || values[0].String?)
    ensures c.Some? ==> c.value.Field? && c.value.field.key == path && c.value.field.matching.Some?
    ensures c.Some? && values[0].Number? ==>
      c.value.field.matching.value == NewAny(Integers(FilterMap(values, Json.AsI64)))
    ensures c.Some? && values[0].String? ==>
      c.value.field.matching.value == NewAny(Keywords(FilterMap(values, Json.AsStr)))
  {
    if values == [] then None
    else
      var m :=
        match values[0]
        case Number(_) => Some(NewAny(Integers(FilterMap(values, Json.AsI64))))
        case String(_) => Some(NewAny(Keywords(FilterMap(values, Json.AsStr))))
        case _ => None;
      if m.Some? then Some(Field(NewMatch(path, m.value))) else None
  }

  /** The keywords of a `match_on` on string keys are exactly the string
      keys, and all of them when every key is a string. */
  lemma MatchOnKeywords(path: string, values: seq<Json.Value>, s: string)
    requires values != [] && values[0].String?
    ensures MatchOn(path, values).value.field.matching.value.any.Keywords?
    ensures s in MatchOn(path, values).value.field.matching.value.any.keywords
        <==> Json.String(s) in values
    ensures (forall i :: 0 <= i < |values| ==> values[i].String?) ==>
      MatchOn(path, values).value.field.matching.value.any.keywords == seq(|values|, i requires 0 <= i < |values| => values[i].s)
  {
    FilterMapMembership(values, Json.AsStr, s);
    if Json.String(s) in values {
      var i :| 0 <= i < |values| && values[i] == Json.String(s);
      assert Json.AsStr(values[i]) == Some(s);
    }
    if forall i :: 0 <= i < |values| ==> values[i].String? {
      FilterMapAllSome(values, Json.AsStr);
    }
  }

  /** The integers of a `match_on` on numeric keys are exactly the keys
      that fit in an `i64`. */
  lemma MatchOnIntegers(path: string, values: seq<Json.Value>, n: int)
    requires values != [] && values[0].Number?
    ensures MatchOn(path, values).value.field.matching.value.any.Integers?
    ensures n in MatchOn(path, values).value.field.matching.value.any.integers
        <==> exists i :: 0 <= i < |values| && Json.AsI64(values[i]) == Some(n)
  {
    FilterMapMembership(values, Json.AsI64, n);
  }

  /** The groups aggregator, kept abstract: `init` is
      `GroupsAggregator::new(limit, per_group, group_by)`, `addPoints` is
      `add_points`, the others are its queries. */
  datatype Aggregator<!A> = Aggregator(
    init: (usize, usize, string) -> A,
    lenOfFilledBestGroups: A -> nat,
    keysOfFilledGroups: A -> seq<Json.Value>,
    keysOfUnfilledBestGroups: A -> seq<Json.Value>,
    ids: A -> set<PointId>,
    addPoints: (A, seq<ScoredPoint>) -> A)

  /** The first loop looks for new groups, the second fills the best ones. */
  datatype Round = GetGroups | FillGroups

  /** The source request of one round, before `r#do` shapes it: the first
      loop excludes the keys of full groups, the second keeps only the keys
      of unfilled best groups; both exclude points already aggregated. */
  function RoundRequest<A>(request: GroupRequest, agg: Aggregator<A>, round: Round, state: A): (r: SourceRequest)
  {
    var groups := match round
      case GetGroups =>
        var full := agg.keysOfFilledGroups(state);
        var matchAny := if full != [] then MatchOn(request.groupBy, full) else None;
        if matchAny.Some? then MergeFilter(request.request, NewMustNot(matchAny.value)) else request.request
      case FillGroups =>
        var matchAny := MatchOn(request.groupBy, agg.keysOfUnfilledBestGroups(state));
        if matchAny.Some? then MergeFilter(request.request, NewMust(matchAny.value)) else request.request;
    var ids := agg.ids(state);
    if ids != {} then MergeFilter(groups, NewMustNot(HasId(ids))) else groups
  }

  /** The round's request keeps the source request's other fields and
      limit; when points were already aggregated its last merged filter
      excludes exactly their ids; a filling round with no aggregated points
      keeps only the unfilled best groups. */
  lemma RoundRequestSpec<A>(request: GroupRequest, agg: Aggregator<A>, round: Round, state: A)
    ensures RoundRequest(request, agg, round, state).Rest() == request.request.Rest() && RoundRequest(request, agg, round, state).Limit() == request.request.Limit()
    ensures agg.ids(state) != {} ==>
      exists base :: RoundRequest(request, agg, round, state).Filter() == Some(Merged(base, NewMustNot(HasId(agg.ids(state)))))
    ensures round == FillGroups && agg.ids(state) == {} && MatchOn(request.groupBy, agg.keysOfUnfilledBestGroups(state)).Some? ==>
      exists base :: RoundRequest(request, agg, round, state).Filter() == Some(Merged(base, NewMust(MatchOn(request.groupBy, agg.keysOfUnfilledBestGroups(state)).value)))
  {
  }

  /** How a loop ended. */
  datatype Exit = LimitReached | NoPoints | Exhausted

  /** The requests a loop sends, the aggregator state it leaves and how it
      ended. */
  datatype Run<A> = Run(state: A, calls: seq<SourceRequest>, outcome: CollectionResult<Exit>)

  /** What a loop does with `rounds` iterations left, starting from
      `state`; `search` answers each shaped request. */
  function Rounds<A>(request: GroupRequest, agg: Aggregator<A>, search: SourceRequest -> CollectionResult<seq<ScoredPoint>>,
                     round: Round, state: A, rounds: nat): Run<A>
    decreases rounds
  {
    if rounds == 0 then Run(state, [], Ok(Exhausted))
    else if agg.lenOfFilledBestGroups(state) >= request.limit then Run(state, [], Ok(LimitReached))
    else
      var call := Shape(RoundRequest(request, agg, round, state), request.groupBy, request.limit, request.perGroup);
      match search(call)
      case Err(e) => Run(state, [call], Err(e))
      case Ok(points) =>
        if points == [] then Run(state, [call], Ok(NoPoints))
        else
          var rest := Rounds(request, agg, search, round, agg.addPoints(state, points), rounds - 1);
          Run(rest.state, [call] + rest.calls, rest.outcome)
  }

  /** Both loops; the second starts from the state the first leaves, unless
      the first failed. */
  function GroupRuns<A>(request: GroupRequest, agg: Aggregator<A>, search: SourceRequest -> CollectionResult<seq<ScoredPoint>>): Run<A>
  {
    var first := Rounds(request, agg, search, GetGroups,
                        agg.init(request.limit, request.perGroup, request.groupBy), MAX_GET_GROUPS_REQUESTS);
    if first.outcome.Err? then first
    else
      var second := Rounds(request, agg, search, FillGroups, first.state, MAX_GROUP_FILLING_REQUESTS);
      Run(second.state, first.calls + second.calls, second.outcome)
  }

  /** A loop sends at most one request per iteration, and uses up every
      iteration only when it neither reached the limit nor ran dry. */
  lemma {:induction false} RoundsBound<A>(request: GroupRequest, agg: Aggregator<A>, search: SourceRequest -> CollectionResult<seq<ScoredPoint>>,
                                          round: Round, state: A, rounds: nat)
    ensures |Rounds(request, agg, search, round, state, rounds).calls| <= rounds
    ensures Rounds(request, agg, search, round, state, rounds).outcome == Ok(Exhausted) ==>
      |Rounds(request, agg, search, round, state, rounds).calls| == rounds
    decreases rounds
  {
    if rounds > 0 && agg.lenOfFilledBestGroups(state) < request.limit {
      var call := Shape(RoundRequest(request, agg, round, state), request.groupBy, request.limit, request.perGroup);
      if search(call).Ok? && search(call).value != [] {
        RoundsBound(request, agg, search, round, agg.addPoints(state, search(call).value), rounds - 1);
      }
    }
  }

  /** The early exits: a loop stops at the limit without a request, stops
      after a request that returned no points, and stops at the first
      error; every request before the last one returned points. */
  lemma {:induction false} RoundsExits<A>(request: GroupRequest, agg: Aggregator<A>, search: SourceRequest -> CollectionResult<seq<ScoredPoint>>,
                                          round: Round, state: A, rounds: nat)
    ensures var run := Rounds(request, agg, search, round, state, rounds);
      (run.outcome == Ok(LimitReached) ==> agg.lenOfFilledBestGroups(run.state) >= request.limit) &&
      (run.outcome == Ok(NoPoints) ==> run.calls != [] && search(run.calls[|run.calls| - 1]) == Ok([])) &&
      (run.outcome.Err? ==> run.calls != [] && search(run.calls[|run.calls| - 1]) == Err(run.outcome.error)) &&
      (forall i :: 0 <= i < |run.calls| - 1 ==> search(run.calls[i]).Ok? && search(run.calls[i]).value != [])
    ensures rounds > 0 && agg.lenOfFilledBestGroups(state) >= request.limit ==>
      Rounds(request, agg, search, round, state, rounds) == Run(state, [], Ok(LimitReached))
    decreases rounds
  {
    if rounds > 0 && agg.lenOfFilledBestGroups(state) < request.limit {
      var call := Shape(RoundRequest(request, agg, round, state), request.groupBy, request.limit, request.perGroup);
      if search(call).Ok? && search(call).value != [] {
        RoundsExits(request, agg, search, round, agg.addPoints(state, search(call).value), rounds - 1);
      }
    }
  }

  /** Every request a loop sends is shaped by `r#do`. */
  lemma {:induction false} RoundsShaped<A>(request: GroupRequest, agg: Aggregator<A>, search: SourceRequest -> CollectionResult<seq<ScoredPoint>>,
                                           round: Round, state: A, rounds: nat)
    ensures forall c :: c in Rounds(request, agg, search, round, state, rounds).calls ==>
      c.Limit() == (request.limit * request.perGroup) % USIZE_MODULUS &&
      c.WithPayload() == Some(Fields([request.groupBy])) && c.WithVector() == None &&
      c.Rest() == request.request.Rest() &&
      exists base :: c.Filter() == Some(Merged(base, KeyNotNull(request.groupBy)))
    decreases rounds
  {
    if rounds > 0 && agg.lenOfFilledBestGroups(state) < request.limit {
      var call := Shape(RoundRequest(request, agg, round, state), request.groupBy, request.limit, request.perGroup);
      if search(call).Ok? && search(call).value != [] {
        RoundsShaped(request, agg, search, round, agg.addPoints(state, search(call).value), rounds - 1);
      }
      RoundRequestSpec(request, agg, round, state);
    }
  }

  /** `group_by` sends at most `MAX_GET_GROUPS_REQUESTS +
      MAX_GROUP_FILLING_REQUESTS` requests. */
  lemma GroupRunsBound<A>(request: GroupRequest, agg: Aggregator<A>, search: SourceRequest -> CollectionResult<seq<ScoredPoint>>)
    ensures |GroupRuns(request, agg, search).calls| <= MAX_GET_GROUPS_REQUESTS + MAX_GROUP_FILLING_REQUESTS
  {
    var init := agg.init(request.limit, request.perGroup, request.groupBy);
    RoundsBound(request, agg, search, GetGroups, init, MAX_GET_GROUPS_REQUESTS);
    var first := Rounds(request, agg, search, GetGroups, init, MAX_GET_GROUPS_REQUESTS);
    RoundsBound(request, agg, search, FillGroups, first.state, MAX_GROUP_FILLING_REQUESTS);
  }

  /** The body of a round up to `r#do`: clones the source request and
      merges the round's group filter and the aggregated-ids filter into
      it. */
  method BuildRoundRequest<A>(request: GroupRequest, agg: Aggregator<A>, round: Round, state: A)
    returns (req: SourceRequest)
    ensures req == RoundRequest(request, agg, round, state)
  {
    req := request.request;
    match round {
      case GetGroups =>
        var fullGroups := agg.keysOfFilledGroups(state);
        if fullGroups != [] {
          var matchAny := MatchOn(request.groupBy, fullGroups);
          if matchAny.Some? {
            req := MergeFilter(req, NewMustNot(matchAny.value));
          }
        }
      case FillGroups =>
        var unsatisfiedGroups := agg.keysOfUnfilledBestGroups(state);
        var matchAny := MatchOn(request.groupBy, unsatisfiedGroups);
        if matchAny.Some? {
          req := MergeFilter(req, NewMust(matchAny.value));
        }
    }
    var ids := agg.ids(state);
    if ids != {} {
      req := MergeFilter(req, NewMustNot(HasId(ids)));
    }
  }

  /** `r#do`: clones the source request, rewrites its limit, filter,
      payload and vector selectors, and sends it to the search (or the
      recommendation) the request is for, here the parameter `search`. */
  method Do(req: SourceRequest, key: string, limit: usize, perGroup: usize,
            search: SourceRequest -> CollectionResult<seq<ScoredPoint>>)
    returns (call: SourceRequest, points: CollectionResult<seq<ScoredPoint>>)
    ensures call == Shape(req, key, limit, perGroup) && points == search(call)
  {
    var onlyGroupByKey := Some(Fields([key]));
    var keyNotNull := NewMustNot(IsNull(key));
    match req {
      case Search(s) =>
        var r := s;
        r := r.(limit := (limit * perGroup) % USIZE_MODULUS);
        r := r.(filter := Some(Merged(r.filter.GetOr(Default), keyNotNull)));
        r := r.(withPayload := onlyGroupByKey, withVector := None);
        call := Search(r);
      case Recommend(s) =>
        var r := s;
        r := r.(limit := (limit * perGroup) % USIZE_MODULUS);
        r := r.(filter := Some(Merged(r.filter.GetOr(Default), keyNotNull)));
        r := r.(withPayload := onlyGroupByKey, withVector := None);
        call := Recommend(r);
    }
    points := search(call);
  }

  /** One iteration of a loop that neither is out of iterations nor has
      reached the limit: it sends the round's shaped request and either
      stops on its answer or goes on with the points added. */
  lemma RoundsStep<A>(request: GroupRequest, agg: Aggregator<A>, search: SourceRequest -> CollectionResult<seq<ScoredPoint>>,
                      round: Round, state: A, rounds: nat)
    requires rounds > 0 && agg.lenOfFilledBestGroups(state) < request.limit
    ensures var call := Shape(RoundRequest(request, agg, round, state), request.groupBy, request.limit, request.perGroup);
      var run := Rounds(request, agg, search, round, state, rounds);
      (search(call).Err? ==> run == Run(state, [call], Err(search(call).error))) &&
      (search(call) == Ok([]) ==> run == Run(state, [call], Ok(NoPoints))) &&
      (search(call).Ok? && search(call).value != [] ==>
        var next := Rounds(request, agg, search, round, agg.addPoints(state, search(call).value), rounds - 1);
        run == Run(next.state, [call] + next.calls, next.outcome))
  {
  }

  /** `run` with `calls` sent before it. */
  function Prepend<A>(calls: seq<SourceRequest>, run: Run<A>): (r: Run<A>)
    ensures r.state == run.state && r.outcome == run.outcome
    ensures |r.calls| == |calls| + |run.calls|
    ensures r.calls[..|calls|] == calls && r.calls[|calls|..] == run.calls
  {
    Run(run.state, calls + run.calls, run.outcome)
  }

  /** An iteration whose request returned points moves the unsent rest of
      the loop one iteration on. */
  lemma RoundsContinue<A>(request: GroupRequest, agg: Aggregator<A>, search: SourceRequest -> CollectionResult<seq<ScoredPoint>>,
                          round: Round, state: A, rounds: nat, calls: seq<SourceRequest>, call: SourceRequest)
    requires rounds > 0 && agg.lenOfFilledBestGroups(state) < request.limit
    requires call == Shape(RoundRequest(request, agg, round, state), request.groupBy, request.limit, request.perGroup)
    requires search(call).Ok? && search(call).value != []
    ensures Prepend(calls, Rounds(request, agg, search, round, state, rounds))
         == Prepend(calls + [call], Rounds(request, agg, search, round, agg.addPoints(state, search(call).value), rounds - 1))
  {
    var next := Rounds(request, agg, search, round, agg.addPoints(state, search(call).value), rounds - 1);
    assert calls + ([call] + next.calls) == (calls + [call]) + next.calls;
  }

  /** One loop of `group_by`: up to `rounds` iterations, each building the
      round's request, sending it through `r#do` and adding the points it
      returns to the aggregator. */
  method RunRounds<A>(request: GroupRequest, agg: Aggregator<A>, search: SourceRequest -> CollectionResult<seq<ScoredPoint>>,
                      round: Round, state0: A, rounds: nat)
    returns (state: A, calls: seq<SourceRequest>, outcome: CollectionResult<Exit>)
    ensures Run(state, calls, outcome) == Rounds(request, agg, search, round, state0, rounds)
  {
    state := state0;
    calls := [];
    ghost var total := Rounds(request, agg, search, round, state0, rounds);
    assert total == Prepend(calls, total);
    for i := 0 to rounds
      invariant total == Prepend(calls, Rounds(request, agg, search, round, state, rounds - i))
    {
      if agg.lenOfFilledBestGroups(state) >= request.limit {
        assert calls + [] == calls;
        return state, calls, Ok(LimitReached);
      }
      var req := BuildRoundRequest(request, agg, round, state);
      var call, points := Do(req, request.groupBy, request.limit, request.perGroup, search);
      if points.Err? {
        RoundsStep(request, agg, search, round, state, rounds - i);
        return state, calls + [call], Err(points.error);
      }
      if points.value == [] {
        RoundsStep(request, agg, search, round, state, rounds - i);
        return state, calls + [call], Ok(NoPoints);
      }
      RoundsContinue(request, agg, search, round, state, rounds - i, calls, call);
      calls := calls + [call];
      state := agg.addPoints(state, points.value);
    }
    assert calls + [] == calls;
    outcome := Ok(Exhausted);
  }

  /** `group_by` up to `distill`: both loops, returning the aggregator
      state, or the first error, and the requests sent. */
  method GroupByRounds<A>(request: GroupRequest, agg: Aggregator<A>, search: SourceRequest -> CollectionResult<seq<ScoredPoint>>)
    returns (result: CollectionResult<A>, calls: seq<SourceRequest>)
    ensures calls == GroupRuns(request, agg, search).calls
    ensures GroupRuns(request, agg, search).outcome.Err? ==> result == Err(GroupRuns(request, agg, search).outcome.error)
    ensures GroupRuns(request, agg, search).outcome.Ok? ==> result == Ok(GroupRuns(request, agg, search).state)
    ensures |calls| <= MAX_GET_GROUPS_REQUESTS + MAX_GROUP_FILLING_REQUESTS
  {
    var init := agg.init(request.limit, request.perGroup, request.groupBy);
    var state, firstCalls, firstOutcome := RunRounds(request, agg, search, GetGroups, init, MAX_GET_GROUPS_REQUESTS);
    if firstOutcome.Err? {
      GroupRunsBound(request, agg, search);
      return Err(firstOutcome.error), firstCalls;
    }
    var finalState, secondCalls, secondOutcome := RunRounds(request, agg, search, FillGroups, state, MAX_GROUP_FILLING_REQUESTS);
    calls := firstCalls + secondCalls;
    GroupRunsBound(request, agg, search);
    if secondOutcome.Err? {
      return Err(secondOutcome.error), calls;
    }
    result := Ok(finalState);
  }
}
