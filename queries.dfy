/**
 * Query compilation of `buildQuery`: the options become an ordered list of
 * clauses (where, orderBy, limit, startAt, endAt) appended to the resolved
 * reference chain. Nothing is executed here.
 */
module Queries {
  import opened Util
  import opened Documents
  import opened Paths

  /** Firestore's `WhereFilterOp`. */
  datatype WhereOp =
    | Less | LessOrEqual | Equal | NotEqual | GreaterOrEqual | Greater
    | ArrayContains | In | NotIn | ArrayContainsAny

  /** Firestore's `OrderByDirection`. */
  datatype Direction = Asc | Desc

  /** A `[fieldPath, opStr, value]` triple of `where`. */
  datatype Filter = Filter(field: string, op: WhereOp, value: Value)

  /** A `[fieldPath, direction]` pair of `orderBy`. */
  datatype Ordering = Ordering(field: string, direction: Direction)

  /** `QueryOptions`; every member is optional. Cursors are document snapshots. */
  datatype QueryOptions = QueryOptions(
    where: Option<seq<Filter>>,
    orderBy: Option<seq<Ordering>>,
    limit: Option<int>,
    startAt: Option<Snapshot>,
    endAt: Option<Snapshot>)

  /** `{}`: the default options. */
  const NoOptions := QueryOptions(None, None, None, None, None)

  /** One call appended to the query after the chain. */
  datatype Clause =
    | Where(filter: Filter)
    | OrderBy(ordering: Ordering)
    | Limit(n: int)
    | StartAt(cursor: Snapshot)
    | EndAt(cursor: Snapshot)

  /** A compiled query: the reference chain, then the clauses in the order applied. */
  datatype Query = Query(chain: seq<Step>, clauses: seq<Clause>)

  /** `if (options.limit)`: a number is truthy unless it is 0. */
  predicate TruthyLimit(limit: Option<int>) {
    limit.Some? && limit.value != 0
  }

  /** The options' filter list; an absent list contributes nothing. */
  function GivenFilters(options: QueryOptions): seq<Filter> {
    if options.where.Some? then options.where.value else []
  }

  /** The options' ordering list; an absent list contributes nothing. */
  function GivenOrderings(options: QueryOptions): seq<Ordering> {
    if options.orderBy.Some? then options.orderBy.value else []
  }

  /** One `where` clause per filter, in the given order. */
  function WhereClauses(filters: seq<Filter>): (cs: seq<Clause>)
    ensures |cs| == |filters|
    decreases |filters|
  {
    if filters == [] then []
    else WhereClauses(filters[..|filters| - 1]) + [Where(filters[|filters| - 1])]
  }

  /** One `orderBy` clause per ordering, in the given order. */
  function OrderByClauses(orderings: seq<Ordering>): (cs: seq<Clause>)
    ensures |cs| == |orderings|
    decreases |orderings|
  {
    if orderings == [] then []
    else OrderByClauses(orderings[..|orderings| - 1]) + [OrderBy(orderings[|orderings| - 1])]
  }

  /** The clause list the options compile to: wheres, orderBys, then limit, startAt, endAt. */
  function Clauses(options: QueryOptions): seq<Clause> {
    (WhereClauses(GivenFilters(options)) + OrderByClauses(GivenOrderings(options))) + TrailingClauses(options)
  }

  /** The limit, startAt and endAt clauses, each only when set (the limit only when truthy). */
  function TrailingClauses(options: QueryOptions): seq<Clause> {
    LimitClauses(options.limit) + StartAtClauses(options.startAt) + EndAtClauses(options.endAt)
  }

  function LimitClauses(limit: Option<int>): seq<Clause> {
    if TruthyLimit(limit) then [Limit(limit.value)] else []
  }

  function StartAtClauses(cursor: Option<Snapshot>): seq<Clause> {
    if cursor.Some? then [StartAt(cursor.value)] else []
  }

  function EndAtClauses(cursor: Option<Snapshot>): seq<Clause> {
    if cursor.Some? then [EndAt(cursor.value)] else []
  }

  /** The query `buildQuery(path, options)` returns. */
  function QueryOf(path: string, options: QueryOptions): Query {
    Query(Chain(Segments(Split(path))), Clauses(options))
  }

  /**
   * The clause part of `buildQuery`: each `for` loop and `if` reassigns
   * `query`, modelled as appending to the clause list.
   */
  method CompileClauses(options: QueryOptions) returns (clauses: seq<Clause>)
    ensures clauses == Clauses(options)
  {
    clauses := [];
    if options.where.Some? {
      clauses := AddWhere(clauses, options.where.value);
    }
    if options.orderBy.Some? {
      clauses := AddOrderBy(clauses, options.orderBy.value);
    }
    clauses := AddTrailing(clauses, options);
  }

  /** One `query.where(...)` per filter, in the order given. */
  method AddWhere(prefix: seq<Clause>, where: seq<Filter>) returns (clauses: seq<Clause>)
    ensures clauses == prefix + WhereClauses(where)
  {
    clauses := prefix;
    for i := 0 to |where|
      invariant clauses == prefix + WhereClauses(where[..i])
    {
      assert where[..i + 1][..i] == where[..i];
      clauses := clauses + [Where(where[i])];
    }
    assert where[..|where|] == where;
  }

  /** One `query.orderBy(...)` per ordering, in the order given. */
  method AddOrderBy(prefix: seq<Clause>, orderBy: seq<Ordering>) returns (clauses: seq<Clause>)
    ensures clauses == prefix + OrderByClauses(orderBy)
  {
    clauses := prefix;
    for i := 0 to |orderBy|
      invariant clauses == prefix + OrderByClauses(orderBy[..i])
    {
      assert orderBy[..i + 1][..i] == orderBy[..i];
      clauses := clauses + [OrderBy(orderBy[i])];
    }
    assert orderBy[..|orderBy|] == orderBy;
  }

  /** `limit` when truthy, then `startAt` and `endAt` when present. */
  method AddTrailing(prefix: seq<Clause>, options: QueryOptions) returns (clauses: seq<Clause>)
    ensures clauses == prefix + TrailingClauses(options)
  {
    clauses := prefix;
    if TruthyLimit(options.limit) {
      clauses := clauses + [Limit(options.limit.value)];
    }
    assert clauses == prefix + LimitClauses(options.limit);
    if options.startAt.Some? {
      clauses := clauses + [StartAt(options.startAt.value)];
    }
    assert clauses == prefix + (LimitClauses(options.limit) + StartAtClauses(options.startAt));
    if options.endAt.Some? {
      clauses := clauses + [EndAt(options.endAt.value)];
    }
  }

  /**
   * `buildQuery(path, options)`: split the path, reduce the tokens to
   * segments, `shift()` the root off and walk the rest, then apply the
   * options. `shift()!` cannot fail: Split yields at least one token.
   */
  method BuildQuery(path: string, options: QueryOptions) returns (query: Query)
    ensures query == QueryOf(path, options)
  {
    var tokens := Split(path);
    var segments := ParseSegments(tokens);
    SegmentsShape(tokens);
    var chain := ResolveChain(segments);
    var clauses := CompileClauses(options);
    query := Query(chain, clauses);
  }

  /** Every compiled query starts at `collection(token[0])` and ends on a collection. */
  lemma QueryEnds(path: string, options: QueryOptions)
    ensures var chain := QueryOf(path, options).chain;
      |chain| >= 1 && chain[0] == Collection(Split(path)[0]) && chain[|chain| - 1].Collection?
  {
    var segments := Segments(Split(path));
    SegmentsShape(Split(path));
    ChainEnds(segments);
  }

  /** Where a clause kind sits in the compiled order. */
  function Rank(c: Clause): nat {
    match c
    case Where(_) => 0
    case OrderBy(_) => 1
    case Limit(_) => 2
    case StartAt(_) => 3
    case EndAt(_) => 4
  }

  /** The filters among the clauses, in order. */
  function Filters(cs: seq<Clause>): seq<Filter>
    decreases |cs|
  {
    if cs == [] then []
    else (if cs[0].Where? then [cs[0].filter] else []) + Filters(cs[1..])
  }

  /** The orderings among the clauses, in order. */
  function Orderings(cs: seq<Clause>): seq<Ordering>
    decreases |cs|
  {
    if cs == [] then []
    else (if cs[0].OrderBy? then [cs[0].ordering] else []) + Orderings(cs[1..])
  }

  lemma {:induction false} WhereClausesAt(filters: seq<Filter>, i: nat)
    requires i < |filters|
    ensures WhereClauses(filters)[i] == Where(filters[i])
    decreases |filters|
  {
    if i < |filters| - 1 {
      WhereClausesAt(filters[..|filters| - 1], i);
    }
  }

  lemma {:induction false} OrderByClausesAt(orderings: seq<Ordering>, i: nat)
    requires i < |orderings|
    ensures OrderByClauses(orderings)[i] == OrderBy(orderings[i])
    decreases |orderings|
  {
    if i < |orderings| - 1 {
      OrderByClausesAt(orderings[..|orderings| - 1], i);
    }
  }

  lemma {:induction false} FiltersAppend(a: seq<Clause>, b: seq<Clause>)
    ensures Filters(a + b) == Filters(a) + Filters(b)
    decreases |a|
  {
    if a == [] {
      assert a + b == b;
    } else {
      var head := if a[0].Where? then [a[0].filter] else [];
      assert (a + b)[0] == a[0] && (a + b)[1..] == a[1..] + b;
      calc {
        Filters(a + b);
        head + Filters(a[1..] + b);
        { FiltersAppend(a[1..], b); }
        head + (Filters(a[1..]) + Filters(b));
        (head + Filters(a[1..])) + Filters(b);
        Filters(a) + Filters(b);
      }
    }
  }

  lemma {:induction false} OrderingsAppend(a: seq<Clause>, b: seq<Clause>)
    ensures Orderings(a + b) == Orderings(a) + Orderings(b)
    decreases |a|
  {
    if a == [] {
      assert a + b == b;
    } else {
      var head := if a[0].OrderBy? then [a[0].ordering] else [];
      assert (a + b)[0] == a[0] && (a + b)[1..] == a[1..] + b;
      calc {
        Orderings(a + b);
        head + Orderings(a[1..] + b);
        { OrderingsAppend(a[1..], b); }
        head + (Orderings(a[1..]) + Orderings(b));
        (head + Orderings(a[1..])) + Orderings(b);
        Orderings(a) + Orderings(b);
      }
    }
  }

  lemma {:induction false} WhereProjections(ws: seq<Filter>)
    ensures Filters(WhereClauses(ws)) == ws
    ensures Orderings(WhereClauses(ws)) == []
    decreases |ws|
  {
    if ws != [] {
      var init := ws[..|ws| - 1];
      var last := [Where(ws[|ws| - 1])];
      WhereProjections(init);
      FiltersAppend(WhereClauses(init), last);
      OrderingsAppend(WhereClauses(init), last);
      assert last[1..] == [];
      assert init + [ws[|ws| - 1]] == ws;
    }
  }

  lemma {:induction false} OrderByProjections(os: seq<Ordering>)
    ensures Filters(OrderByClauses(os)) == []
    ensures Orderings(OrderByClauses(os)) == os
    decreases |os|
  {
    if os != [] {
      var init := os[..|os| - 1];
      var last := [OrderBy(os[|os| - 1])];
      OrderByProjections(init);
      FiltersAppend(OrderByClauses(init), last);
      OrderingsAppend(OrderByClauses(init), last);
      assert last[1..] == [];
      assert init + [os[|os| - 1]] == os;
    }
  }

  /** The where triples appear exactly as given, in the given order, and so do the orderBy pairs. */
  lemma ClauseProjections(options: QueryOptions)
    ensures Filters(Clauses(options)) == GivenFilters(options)
    ensures Orderings(Clauses(options)) == GivenOrderings(options)
  {
    var ws := WhereClauses(GivenFilters(options));
    var os := OrderByClauses(GivenOrderings(options));
    var tail := TrailingClauses(options);
    WhereProjections(GivenFilters(options));
    OrderByProjections(GivenOrderings(options));
    TailProjections(tail);
    FiltersAppend(ws, os);
    FiltersAppend(ws + os, tail);
    OrderingsAppend(ws, os);
    OrderingsAppend(ws + os, tail);
  }

  lemma TailProjections(tail: seq<Clause>)
    requires |tail| <= 3
    requires forall i :: 0 <= i < |tail| ==> !tail[i].Where? && !tail[i].OrderBy?
    ensures Filters(tail) == [] && Orderings(tail) == []
  {
    if tail != [] {
      TailProjections(tail[1..]);
    }
  }

  /** Clause kinds never go backwards: where, orderBy, limit, startAt, endAt. */
  lemma ClausesRanked(options: QueryOptions)
    ensures Ranked(Clauses(options))
  {
    var ws := WhereClauses(GivenFilters(options));
    var os := OrderByClauses(GivenOrderings(options));
    forall k | 0 <= k < |ws| ensures Rank(ws[k]) == 0 {
      WhereClausesAt(GivenFilters(options), k);
    }
    forall k | 0 <= k < |os| ensures Rank(os[k]) == 1 {
      OrderByClausesAt(GivenOrderings(options), k);
    }
    RankedConcat(ws, os, 1);
    var front := ws + os;
    assert forall k :: 0 <= k < |front| ==> Rank(front[k]) <= 1;
    TrailingRanked(options);
    RankedConcat(front, TrailingClauses(options), 2);
  }

  /** Clause kinds never go backwards along the list. */
  predicate Ranked(cs: seq<Clause>) {
    forall i, j :: 0 <= i < j < |cs| ==> Rank(cs[i]) <= Rank(cs[j])
  }

  lemma RankedConcat(a: seq<Clause>, b: seq<Clause>, mid: nat)
    requires Ranked(a) && Ranked(b)
    requires forall i :: 0 <= i < |a| ==> Rank(a[i]) <= mid
    requires forall j :: 0 <= j < |b| ==> mid <= Rank(b[j])
    ensures Ranked(a + b)
  {
    var c := a + b;
    forall i, j | 0 <= i < j < |c| ensures Rank(c[i]) <= Rank(c[j]) {
      if j < |a| {
        assert c[i] == a[i] && c[j] == a[j];
      } else if i >= |a| {
        assert c[i] == b[i - |a|] && c[j] == b[j - |a|];
      } else {
        assert c[i] == a[i] && c[j] == b[j - |a|];
      }
    }
  }

  lemma TrailingRanked(options: QueryOptions)
    ensures Ranked(TrailingClauses(options))
    ensures forall k :: 0 <= k < |TrailingClauses(options)| ==> 2 <= Rank(TrailingClauses(options)[k])
  {
  }

  /**
   * Nothing is added: besides the given triples and pairs there is a limit
   * clause exactly when the limit is truthy (`limit: 0` adds none), and a
   * cursor clause exactly when that cursor is present.
   */
  lemma ClausesExtras(options: QueryOptions)
    ensures |Clauses(options)| == |GivenFilters(options)| + |GivenOrderings(options)|
              + (if TruthyLimit(options.limit) then 1 else 0)
              + (if options.startAt.Some? then 1 else 0)
              + (if options.endAt.Some? then 1 else 0)
    ensures (exists i :: 0 <= i < |Clauses(options)| && Clauses(options)[i].Limit?) <==> TruthyLimit(options.limit)
    ensures TruthyLimit(options.limit) ==> Limit(options.limit.value) in Clauses(options)
    ensures (exists i :: 0 <= i < |Clauses(options)| && Clauses(options)[i].StartAt?) <==> options.startAt.Some?
    ensures options.startAt.Some? ==> StartAt(options.startAt.value) in Clauses(options)
    ensures (exists i :: 0 <= i < |Clauses(options)| && Clauses(options)[i].EndAt?) <==> options.endAt.Some?
    ensures options.endAt.Some? ==> EndAt(options.endAt.value) in Clauses(options)
  {
    var pre := WhereClauses(GivenFilters(options)) + OrderByClauses(GivenOrderings(options));
    var tail := TrailingClauses(options);
    LeadingKinds(GivenFilters(options), GivenOrderings(options));
    TrailingKinds(options);
    KindAfterPrefix(pre, tail, (c: Clause) => c.Limit?);
    KindAfterPrefix(pre, tail, (c: Clause) => c.StartAt?);
    KindAfterPrefix(pre, tail, (c: Clause) => c.EndAt?);
    if TruthyLimit(options.limit) {
      var j :| 0 <= j < |tail| && tail[j] == Limit(options.limit.value);
      assert (pre + tail)[|pre| + j] == tail[j];
    }
  }

  /** The where and orderBy part holds nothing but where and orderBy clauses. */
  lemma LeadingKinds(filters: seq<Filter>, orderings: seq<Ordering>)
    ensures forall k :: 0 <= k < |WhereClauses(filters) + OrderByClauses(orderings)| ==>
      (WhereClauses(filters) + OrderByClauses(orderings))[k].Where?
      || (WhereClauses(filters) + OrderByClauses(orderings))[k].OrderBy?
  {
    var ws: seq<Clause> := WhereClauses(filters);
    var os: seq<Clause> := OrderByClauses(orderings);
    forall k | 0 <= k < |ws| + |os| ensures (ws + os)[k].Where? || (ws + os)[k].OrderBy? {
      if k < |ws| {
        WhereClausesAt(filters, k);
        assert (ws + os)[k] == ws[k];
      } else {
        OrderByClausesAt(orderings, k - |ws|);
        assert (ws + os)[k] == os[k - |ws|];
      }
    }
  }

  /** The trailing part: a limit clause exactly when the limit is truthy, a cursor clause exactly when that cursor is present. */
  lemma TrailingKinds(options: QueryOptions)
    ensures |TrailingClauses(options)| == (if TruthyLimit(options.limit) then 1 else 0)
              + (if options.startAt.Some? then 1 else 0)
              + (if options.endAt.Some? then 1 else 0)
    ensures (exists i :: 0 <= i < |TrailingClauses(options)| && TrailingClauses(options)[i].Limit?) <==> TruthyLimit(options.limit)
    ensures TruthyLimit(options.limit) ==> Limit(options.limit.value) in TrailingClauses(options)
    ensures (exists i :: 0 <= i < |TrailingClauses(options)| && TrailingClauses(options)[i].StartAt?) <==> options.startAt.Some?
    ensures options.startAt.Some? ==> StartAt(options.startAt.value) in TrailingClauses(options)
    ensures (exists i :: 0 <= i < |TrailingClauses(options)| && TrailingClauses(options)[i].EndAt?) <==> options.endAt.Some?
    ensures options.endAt.Some? ==> EndAt(options.endAt.value) in TrailingClauses(options)
  {
    var lim := LimitClauses(options.limit);
    var sa := StartAtClauses(options.startAt);
    var ea := EndAtClauses(options.endAt);
    var tail := TrailingClauses(options);
    assert tail == lim + sa + ea;
    if TruthyLimit(options.limit) { assert tail[0] == Limit(options.limit.value); }
    if options.startAt.Some? { assert tail[|lim|] == StartAt(options.startAt.value); }
    if options.endAt.Some? { assert tail[|tail| - 1] == EndAt(options.endAt.value); }
  }

  /** A kind of clause the prefix never holds occurs in `pre + tail` exactly when it occurs in `tail`. */
  lemma KindAfterPrefix(pre: seq<Clause>, tail: seq<Clause>, isKind: Clause -> bool)
    requires forall k :: 0 <= k < |pre| ==> pre[k].Where? || pre[k].OrderBy?
    requires forall c: Clause :: (c.Where? || c.OrderBy?) ==> !isKind(c)
    ensures (exists i :: 0 <= i < |pre + tail| && isKind((pre + tail)[i]))
        <==> (exists j :: 0 <= j < |tail| && isKind(tail[j]))
  {
    var all := pre + tail;
    if i :| 0 <= i < |all| && isKind(all[i]) {
      assert i >= |pre|;
      assert all[i] == tail[i - |pre|];
    }
    if j :| 0 <= j < |tail| && isKind(tail[j]) {
      assert all[|pre| + j] == tail[j];
    }
  }


  /** `users/42` resolves to the whole `users` collection: the first segment's doc id is dropped. */
  lemma DocIdOfFirstSegmentDropped()
    ensures QueryOf("users/42", NoOptions).chain == [Collection("users")]
  {
    assert Join(["users", "42"]) == "users/42";
    JoinSplit(["users", "42"]);
    assert Segments(["users", "42"]) == [PathSegment("users", Some("42"))];
  }

  /** The first segment's doc id is discarded; later doc ids come before their own collection. */
  lemma LaterDocIdPrecedesItsCollection()
    ensures QueryOf("a/b/c/d", NoOptions).chain == [Collection("a"), Doc("d"), Collection("c")]
  {
    var tokens := ["a", "b", "c", "d"];
    assert Join(tokens) == "a/b/c/d";
    JoinSplit(tokens);
    var segs := Segments(tokens);
    assert segs == [PathSegment("a", Some("b")), PathSegment("c", Some("d"))];
    assert segs[1..] == [PathSegment("c", Some("d"))];
    assert segs[1..][..0] == [];
  }

  /**
   * A trailing slash gives a later segment an empty doc id, which is falsy:
   * `a/b/c/` resolves to `collection(a).collection(c)`, the `.collection` on a
   * collection of line 36, although the token count is even.
   */
  lemma EmptyDocIdSkipsDoc()
    ensures QueryOf("a/b/c/", NoOptions).chain == [Collection("a"), Collection("c")]
  {
    var tokens := ["a", "b", "c", ""];
    assert Join(tokens) == "a/b/c/";
    JoinSplit(tokens);
    var segs := Segments(tokens);
    assert segs == [PathSegment("a", Some("b")), PathSegment("c", Some(""))];
    assert segs[1..] == [PathSegment("c", Some(""))];
    assert segs[1..][..0] == [];
  }
}
