/** ComplexEventLoader: the paged event search. The query it builds pages
    the events that pass the event predicate (OFFSET and LIMIT inside the
    event subquery), left-joins each page event with its event type, the
    type's application and the attribute rows the attribute predicate
    admits, orders the flat rows by save timestamp descending and event id
    ascending, and pivots them into events. */
module ComplexLoader {
  import opened AuditTypes
  import opened Predicates
  import opened MultipleMapper
  import opened RowMapper

  /** The paged event subquery of `buildFromClause`. The last two fields
      are the corrections the loader never sets: ordering the events before
      OFFSET and LIMIT apply, and keeping only the events none of whose
      attribute rows fails one of the given filters. */
  datatype EventSubquery = EventSubquery(
    pred: EventPred, offset: nat, limit: nat,
    sorted: bool,
    qualifiers: Option<seq<DataFilter>>)

  /** The query as the build steps leave it. */
  datatype SqlQuery = SqlQuery(
    from: Option<EventSubquery>,  // buildFromClause
    joinsTypeAndApp: bool,        // joinAppAndEventType
    dataJoin: Option<DataPred>,   // buildEventDataSubquery
    ordered: bool)                // addOrderBy

  /** `new SQLQuery(connection, configuration)`. */
  const EmptyQuery := SqlQuery(None, false, None, false)

  /** The search parameters the loader is constructed with. */
  datatype Search = Search(
    appIds: seq<int>,
    eventTypeIds: Option<seq<int>>,
    dataFields: Option<seq<string>>,
    dataFilters: Option<seq<DataFilter>>,
    eventsFrom: Option<int>,
    eventsTo: Option<int>,
    offset: nat,
    limit: nat)

  function EventPredicateOf(s: Search): EventPred
  {
    BuildEventSubqueryPredicate(s.appIds, s.eventTypeIds, s.eventsFrom, s.eventsTo)
  }

  /** The query `buildQuery` builds, given the attribute predicate. */
  function FullQuery(s: Search, dataPred: DataPred): SqlQuery
  {
    SqlQuery(Some(EventSubquery(EventPredicateOf(s), s.offset, s.limit, false, None)), true, Some(dataPred), true)
  }

  /** The corrected event subquery: it keeps only the events that qualify
      under the filters and orders them before OFFSET and LIMIT apply. */
  function CorrectedSubquery(s: Search): EventSubquery
  {
    EventSubquery(EventPredicateOf(s), s.offset, s.limit, true, Some(FiltersOf(s.dataFilters)))
  }

  function CorrectedQuery(s: Search, dataPred: DataPred): SqlQuery
  {
    SqlQuery(Some(CorrectedSubquery(s)), true, Some(dataPred), true)
  }

  // ---------------------------------------------------------------------
  // What the store returns for a query.

  function TypesOf(t: Tables, eventTypeId: int): seq<EventTypeRow>
  {
    Filter(t.eventTypes, (et: EventTypeRow) => et.eventTypeId == eventTypeId)
  }

  /** The copies of event `e` the event subquery yields: one per
      left-joined event type, when the event predicate holds of it. */
  function EventCopies(t: Tables, p: EventPred, e: EventRow): seq<EventRow>
  {
    FlatMap(LeftOptions(TypesOf(t, e.eventTypeId)),
      (ot: Option<EventTypeRow>) => if EvalEvent(p, e, ot) then [e] else [])
  }

  /** The event rows of the event subquery before paging, in storage order. */
  function Candidates(t: Tables, p: EventPred): seq<EventRow>
  {
    FlatMap(t.events, (e: EventRow) => EventCopies(t, p, e))
  }

  /** OFFSET `offset` LIMIT `limit`: skip the first `offset` rows and keep
      at most `limit` of the rest. */
  function Page<T>(s: seq<T>, offset: nat, limit: nat): (r: seq<T>)
    ensures |r| <= limit
    ensures |r| == if offset >= |s| then 0 else if |s| - offset < limit then |s| - offset else limit
    ensures forall i :: 0 <= i < |r| ==> r[i] == s[offset + i]
  {
    if offset >= |s| then []
    else if |s| - offset < limit then s[offset..]
    else s[offset..offset + limit]
  }

  /** The event types a page row is joined with: the left join when the
      query joins them, a NULL otherwise. */
  function TypeRows(t: Tables, joined: bool, eventTypeId: int): seq<Option<EventTypeRow>>
  {
    if joined then LeftOptions(TypesOf(t, eventTypeId)) else [None]
  }

  function AppsOf(t: Tables, applicationId: int): seq<ApplicationRow>
  {
    Filter(t.applications, (a: ApplicationRow) => a.applicationId == applicationId)
  }

  /** The applications joined with a (possibly NULL) event type; a NULL
      type's NULL application id matches nothing. */
  function AppRows(t: Tables, joined: bool, ot: Option<EventTypeRow>): seq<Option<ApplicationRow>>
  {
    if joined && ot.Some? then LeftOptions(AppsOf(t, ot.value.applicationId)) else [None]
  }

  /** The attribute rows joined with a page row: the rows of the attribute
      subquery (those the predicate admits) that carry the event's id. */
  function DataRows(t: Tables, j: Option<DataPred>, eventId: int): seq<Option<EventDataRow>>
  {
    match j
    case None => [None]
    case Some(p) =>
      LeftOptions(Filter(Filter(t.eventData, (d: EventDataRow) => EvalData(p, d)),
                         (d: EventDataRow) => d.eventId == eventId))
  }

  function MakeRow(oa: Option<ApplicationRow>, ot: Option<EventTypeRow>, e: EventRow, od: Option<EventDataRow>)
    : ResultRow
  {
    ResultRow(if oa.Some? then Some(oa.value.name) else None,
              if ot.Some? then Some(ot.value.name) else None,
              e.eventId, e.saveTimestamp, od)
  }

  /** The flat rows of one page row. */
  function RowsOf(t: Tables, q: SqlQuery, e: EventRow): seq<ResultRow>
  {
    FlatMap(TypeRows(t, q.joinsTypeAndApp, e.eventTypeId), (ot: Option<EventTypeRow>) =>
      FlatMap(AppRows(t, q.joinsTypeAndApp, ot), (oa: Option<ApplicationRow>) =>
        FlatMap(DataRows(t, q.dataJoin, e.eventId), (od: Option<EventDataRow>) =>
          [MakeRow(oa, ot, e, od)])))
  }

  /** An event qualifies under the filters when none of its attribute
      rows fails one of them: a row of a filtered name holds a value that
      satisfies the filter, and an event without such a row qualifies. */
  predicate Qualifies(t: Tables, filters: seq<DataFilter>, e: EventRow)
  {
    forall d :: d in t.eventData && d.eventId == e.eventId ==> AllFiltersHold(filters, d)
  }

  /** The events that qualify under the filters, in their order. */
  function Qualifying(t: Tables, filters: seq<DataFilter>, events: seq<EventRow>): seq<EventRow>
  {
    Filter(events, (e: EventRow) => Qualifies(t, filters, e))
  }

  /** The events of the event subquery before OFFSET and LIMIT. */
  function SubqueryEvents(t: Tables, sub: EventSubquery): seq<EventRow>
  {
    var c := Candidates(t, sub.pred);
    var q := match sub.qualifiers
      case None => c
      case Some(fs) => Qualifying(t, fs, c);
    if sub.sorted then SortBy(q, EventKey) else q
  }

  /** The page of the event subquery. */
  function PageOf(t: Tables, sub: EventSubquery): seq<EventRow>
  {
    Page(SubqueryEvents(t, sub), sub.offset, sub.limit)
  }

  /** The rows the query returns. */
  function Execute(t: Tables, q: SqlQuery): seq<ResultRow>
    requires q.from.Some?
  {
    var rows := FlatMap(PageOf(t, q.from.value), (e: EventRow) => RowsOf(t, q, e));
    if q.ordered then SortRows(rows) else rows
  }

  // ---------------------------------------------------------------------
  // ORDER BY saveTimestamp DESC, eventId ASC.

  /** The ORDER BY key of a flat row and of an event row. */
  function RowKey(r: ResultRow): (int, int)
  {
    (r.saveTimestamp, r.eventId)
  }

  function EventKey(e: EventRow): (int, int)
  {
    (e.saveTimestamp, e.eventId)
  }

  /** Key `a` may come before key `b`: a later timestamp, or the same
      timestamp and a smaller or equal id. */
  predicate Precedes(a: (int, int), b: (int, int))
  {
    a.0 > b.0 || (a.0 == b.0 && a.1 <= b.1)
  }

  predicate SortedBy<T>(s: seq<T>, key: T -> (int, int))
  {
    forall i, j :: 0 <= i < j < |s| ==> Precedes(key(s[i]), key(s[j]))
  }

  /** `x` inserted into sorted elements in order. */
  function InsertBy<T>(x: T, s: seq<T>, key: T -> (int, int)): (r: seq<T>)
    requires SortedBy(s, key)
    ensures SortedBy(r, key)
    ensures multiset(r) == multiset(s) + multiset{x}
  {
    if s == [] then [x]
    else if Precedes(key(x), key(s[0])) then [x] + s
    else
      var rest := InsertBy(x, s[1..], key);
      InsertBelowHead(x, s, rest, key);
      assert s == [s[0]] + s[1..];
      [s[0]] + rest
  }

  /** The head of sorted elements goes before `x` inserted into its tail. */
  lemma InsertBelowHead<T>(x: T, s: seq<T>, rest: seq<T>, key: T -> (int, int))
    requires SortedBy(s, key) && s != [] && !Precedes(key(x), key(s[0]))
    requires SortedBy(rest, key) && multiset(rest) == multiset(s[1..]) + multiset{x}
    ensures SortedBy([s[0]] + rest, key)
  {
    forall y | y in rest ensures Precedes(key(s[0]), key(y)) {
      assert y in multiset(rest);
      if y != x {
        assert y in multiset(s[1..]);
        var k :| 0 <= k < |s[1..]| && s[1..][k] == y;
        assert s[k + 1] == y;
      }
    }
    var r := [s[0]] + rest;
    forall i, j | 0 <= i < j < |r| ensures Precedes(key(r[i]), key(r[j])) {
      if i == 0 {
        assert r[j] == rest[j - 1];
        assert rest[j - 1] in rest;
      } else {
        assert r[i] == rest[i - 1] && r[j] == rest[j - 1];
      }
    }
  }

  /** The elements in ORDER BY order: an insertion sort on the key. */
  function SortBy<T>(s: seq<T>, key: T -> (int, int)): (r: seq<T>)
    ensures SortedBy(r, key)
    ensures multiset(r) == multiset(s)
  {
    if s == [] then []
    else
      assert s == [s[0]] + s[1..];
      InsertBy(s[0], SortBy(s[1..], key), key)
  }

  predicate SortedRows(s: seq<ResultRow>)
  {
    SortedBy(s, RowKey)
  }

  /** The rows in the order the ORDER BY clause demands. */
  function SortRows(s: seq<ResultRow>): (r: seq<ResultRow>)
    ensures SortedRows(r)
    ensures multiset(r) == multiset(s)
  {
    SortBy(s, RowKey)
  }

  /** Sorted rows in which an event id determines the save timestamp keep
      the rows of each event adjacent. */
  lemma SortedContiguous(rows: seq<ResultRow>)
    requires SortedRows(rows)
    requires forall i, j :: 0 <= i < |rows| && 0 <= j < |rows| && rows[i].eventId == rows[j].eventId ==>
      rows[i].saveTimestamp == rows[j].saveTimestamp
    ensures Contiguous(rows)
  {
    forall i, j, k | 0 <= i < j < k < |rows| && rows[i].eventId == rows[k].eventId
      ensures rows[j].eventId == rows[i].eventId
    {
      assert Precedes(RowKey(rows[i]), RowKey(rows[j])) && Precedes(RowKey(rows[j]), RowKey(rows[k]));
    }
  }

  // ---------------------------------------------------------------------
  // Properties of the query.

  /** The event subquery keeps exactly the events whose event type exists
      and passes the application, event type and time window restrictions. */
  lemma CandidatesSemantics(t: Tables, s: Search, e: EventRow)
    ensures e in Candidates(t, EventPredicateOf(s)) <==>
      e in t.events &&
      exists et :: et in t.eventTypes && et.eventTypeId == e.eventTypeId && EvalEvent(EventPredicateOf(s), e, Some(et))
  {
    var p := EventPredicateOf(s);
    if e in Candidates(t, p) {
      assert forall e0 :: !EvalEvent(p, e0, None);
      CandidateHasType(t, p, e);
    }
    if e in t.events && exists et :: et in t.eventTypes && et.eventTypeId == e.eventTypeId && EvalEvent(p, e, Some(et)) {
      var et :| et in t.eventTypes && et.eventTypeId == e.eventTypeId && EvalEvent(p, e, Some(et));
      TypedEventIsCandidate(t, p, e, et);
    }
  }

  lemma CandidateHasType(t: Tables, p: EventPred, e: EventRow)
    requires e in Candidates(t, p) && forall e0 :: !EvalEvent(p, e0, None)
    ensures e in t.events
    ensures exists et :: et in t.eventTypes && et.eventTypeId == e.eventTypeId && EvalEvent(p, e, Some(et))
  {
    var e0 :| e0 in t.events && e in EventCopies(t, p, e0);
    var ot :| ot in LeftOptions(TypesOf(t, e0.eventTypeId)) && e in (if EvalEvent(p, e0, ot) then [e0] else []);
    assert e == e0 && ot.Some?;
    assert ot.value in TypesOf(t, e.eventTypeId);
  }

  lemma TypedEventIsCandidate(t: Tables, p: EventPred, e: EventRow, et: EventTypeRow)
    requires e in t.events && et in t.eventTypes && et.eventTypeId == e.eventTypeId && EvalEvent(p, e, Some(et))
    ensures e in Candidates(t, p)
  {
    var f := (ot: Option<EventTypeRow>) => if EvalEvent(p, e, ot) then [e] else [];
    assert Some(et) in LeftOptions(TypesOf(t, e.eventTypeId));
    assert e in f(Some(et));
    assert e in EventCopies(t, p, e);
  }

  /** A flat row stems from page row `e`: it carries the event's id and
      timestamp, and its attribute, if any, is an attribute row of that
      event the attribute predicate admits. */
  predicate RowFrom(t: Tables, q: SqlQuery, e: EventRow, r: ResultRow)
  {
    && r.eventId == e.eventId && r.saveTimestamp == e.saveTimestamp
    && (r.data.Some? ==>
          && q.dataJoin.Some? && r.data.value in t.eventData
          && r.data.value.eventId == e.eventId && EvalData(q.dataJoin.value, r.data.value))
  }

  lemma RowsOfFrom(t: Tables, q: SqlQuery, e: EventRow, r: ResultRow)
    requires r in RowsOf(t, q, e)
    ensures RowFrom(t, q, e, r)
  {
    var ot :| ot in TypeRows(t, q.joinsTypeAndApp, e.eventTypeId) &&
      r in FlatMap(AppRows(t, q.joinsTypeAndApp, ot), (oa: Option<ApplicationRow>) =>
        FlatMap(DataRows(t, q.dataJoin, e.eventId), (od: Option<EventDataRow>) => [MakeRow(oa, ot, e, od)]));
    var oa :| oa in AppRows(t, q.joinsTypeAndApp, ot) &&
      r in FlatMap(DataRows(t, q.dataJoin, e.eventId), (od: Option<EventDataRow>) => [MakeRow(oa, ot, e, od)]);
    var od :| od in DataRows(t, q.dataJoin, e.eventId) && r in [MakeRow(oa, ot, e, od)];
    assert r == MakeRow(oa, ot, e, od);
  }

  /** Every page row yields at least one flat row, and one for each
      attribute row of its event that the attribute predicate admits. */
  lemma RowsOfCover(t: Tables, q: SqlQuery, e: EventRow, od: Option<EventDataRow>)
    requires od.None? ==> (q.dataJoin.None? ||
      forall d :: d in t.eventData && d.eventId == e.eventId ==> !EvalData(q.dataJoin.value, d))
    requires od.Some? ==> (q.dataJoin.Some? && od.value in t.eventData
      && od.value.eventId == e.eventId && EvalData(q.dataJoin.value, od.value))
    ensures exists r :: r in RowsOf(t, q, e) && r.eventId == e.eventId && r.data == od
  {
    var ot := TypeRows(t, q.joinsTypeAndApp, e.eventTypeId)[0];
    var oa := AppRows(t, q.joinsTypeAndApp, ot)[0];
    var ds := DataRows(t, q.dataJoin, e.eventId);
    if q.dataJoin.Some? {
      var p := q.dataJoin.value;
      var joined := Filter(Filter(t.eventData, (d: EventDataRow) => EvalData(p, d)),
                           (d: EventDataRow) => d.eventId == e.eventId);
      if od.None? {
        FilterNone(Filter(t.eventData, (d: EventDataRow) => EvalData(p, d)),
                   (d: EventDataRow) => d.eventId == e.eventId);
      }
      assert od in ds;
    } else {
      assert od in ds;
    }
    var r := MakeRow(oa, ot, e, od);
    var fd := (od': Option<EventDataRow>) => [MakeRow(oa, ot, e, od')];
    assert r in fd(od);
    assert r in FlatMap(ds, fd);
    var fa := (oa': Option<ApplicationRow>) =>
      FlatMap(ds, (od': Option<EventDataRow>) => [MakeRow(oa', ot, e, od')]);
    assert r in fa(oa);
    assert r in FlatMap(AppRows(t, q.joinsTypeAndApp, ot), fa);
  }

  /** Every row the query returns stems from a row of the page. */
  lemma ExecuteFromPage(t: Tables, q: SqlQuery, r: ResultRow)
    requires q.from.Some? && r in Execute(t, q)
    ensures exists e :: e in PageOf(t, q.from.value) && RowFrom(t, q, e, r)
  {
    var rows := FlatMap(PageOf(t, q.from.value), (e: EventRow) => RowsOf(t, q, e));
    if q.ordered {
      assert r in multiset(SortRows(rows));
    }
    assert r in rows;
    var e :| e in PageOf(t, q.from.value) && r in RowsOf(t, q, e);
    RowsOfFrom(t, q, e, r);
  }

  /** Every page event is in the result, with each attribute row of it the
      predicate admits, or with a NULL attribute when it admits none. */
  lemma PageInExecute(t: Tables, q: SqlQuery, e: EventRow, od: Option<EventDataRow>)
    requires q.from.Some? && e in PageOf(t, q.from.value)
    requires od.None? ==> (q.dataJoin.None? ||
      forall d :: d in t.eventData && d.eventId == e.eventId ==> !EvalData(q.dataJoin.value, d))
    requires od.Some? ==> (q.dataJoin.Some? && od.value in t.eventData
      && od.value.eventId == e.eventId && EvalData(q.dataJoin.value, od.value))
    ensures exists r :: r in Execute(t, q) && r.eventId == e.eventId && r.data == od
  {
    RowsOfCover(t, q, e, od);
    var r :| r in RowsOf(t, q, e) && r.eventId == e.eventId && r.data == od;
    var rows := FlatMap(PageOf(t, q.from.value), (e: EventRow) => RowsOf(t, q, e));
    assert r in rows;
    if q.ordered {
      assert r in multiset(rows);
      assert r in SortRows(rows);
    }
  }

  /** An attribute in the search result is an attribute row of its event
      that is in the field projection and passes every filter. */
  lemma SearchRowAttribute(t: Tables, s: Search, dp: DataPred, r: ResultRow)
    requires BuildEventDataSubqueryPredicate(s.dataFields, s.dataFilters) == Success(dp)
    requires r in Execute(t, FullQuery(s, dp)) && r.data.Some?
    ensures r.data.value in t.eventData && r.data.value.eventId == r.eventId
    ensures Selected(s.dataFields, r.data.value.name) && AllFiltersHold(FiltersOf(s.dataFilters), r.data.value)
  {
    ExecuteFromPage(t, FullQuery(s, dp), r);
    DataSubqueryPredicateSemantics(s.dataFields, s.dataFilters, r.data.value);
  }

  /** Conversely, every attribute row of a page event that is in the field
      projection and passes every filter is in the search result; and a
      page event none of whose attribute rows pass is still in the result,
      with no attribute. */
  lemma SearchKeepsAttribute(t: Tables, s: Search, dp: DataPred, e: EventRow, od: Option<EventDataRow>)
    requires BuildEventDataSubqueryPredicate(s.dataFields, s.dataFilters) == Success(dp)
    requires e in Page(Candidates(t, EventPredicateOf(s)), s.offset, s.limit)
    requires od.Some? ==> (od.value in t.eventData && od.value.eventId == e.eventId
      && Selected(s.dataFields, od.value.name) && AllFiltersHold(FiltersOf(s.dataFilters), od.value))
    requires od.None? ==> forall d :: d in t.eventData && d.eventId == e.eventId ==>
      !(Selected(s.dataFields, d.name) && AllFiltersHold(FiltersOf(s.dataFilters), d))
    ensures exists r :: r in Execute(t, FullQuery(s, dp)) && r.eventId == e.eventId && r.data == od
  {
    forall d ensures EvalData(dp, d) <==> Selected(s.dataFields, d.name) && AllFiltersHold(FiltersOf(s.dataFilters), d) {
      DataSubqueryPredicateSemantics(s.dataFields, s.dataFilters, d);
    }
    PageInExecute(t, FullQuery(s, dp), e, od);
  }

  /** At most as many distinct ids as rows. */
  lemma {:induction false} IdsBound(s: seq<EventRow>)
    ensures |set e | e in s :: e.eventId| <= |s|
  {
    if s != [] {
      IdsBound(s[1..]);
      var rest := set e | e in s[1..] :: e.eventId;
      assert (set e | e in s :: e.eventId) == {s[0].eventId} + rest by {
        assert forall e :: e in s ==> e == s[0] || e in s[1..];
      }
    }
  }

  /** Paging happens before the attribute join: whatever the number of
      attributes, the rows carry at most `limit` distinct event ids, all of
      them ids of page events. */
  lemma AtMostLimitEvents(t: Tables, q: SqlQuery)
    requires q.from.Some?
    ensures (set r | r in Execute(t, q) :: r.eventId) <= set e | e in PageOf(t, q.from.value) :: e.eventId
    ensures |set r | r in Execute(t, q) :: r.eventId| <= q.from.value.limit
  {
    var page := PageOf(t, q.from.value);
    var ids := set r | r in Execute(t, q) :: r.eventId;
    var pageIds := set e | e in page :: e.eventId;
    ResultIdsInPage(t, q);
    IdsBound(page);
    assert pageIds == ids + (pageIds - ids);
  }

  lemma ResultIdsInPage(t: Tables, q: SqlQuery)
    requires q.from.Some?
    ensures (set r | r in Execute(t, q) :: r.eventId) <= set e | e in PageOf(t, q.from.value) :: e.eventId
  {
    var pageIds := set e | e in PageOf(t, q.from.value) :: e.eventId;
    forall r | r in Execute(t, q) ensures r.eventId in pageIds {
      ExecuteFromPage(t, q, r);
    }
  }

  /** With unique event keys, the ordered result keeps each event's rows
      adjacent. */
  lemma ExecuteContiguous(t: Tables, q: SqlQuery)
    requires q.from.Some? && q.ordered && KeysUnique(t)
    ensures SortedRows(Execute(t, q))
    ensures Contiguous(Execute(t, q))
  {
    var rows := Execute(t, q);
    forall i, j | 0 <= i < |rows| && 0 <= j < |rows| && rows[i].eventId == rows[j].eventId
      ensures rows[i].saveTimestamp == rows[j].saveTimestamp
    {
      ExecuteFromPage(t, q, rows[i]);
      ExecuteFromPage(t, q, rows[j]);
      var ei :| ei in PageOf(t, q.from.value) && RowFrom(t, q, ei, rows[i]);
      var ej :| ej in PageOf(t, q.from.value) && RowFrom(t, q, ej, rows[j]);
      PageRowIsEvent(t, q.from.value, ei);
      PageRowIsEvent(t, q.from.value, ej);
      SameKeySameEvent(t, ei, ej);
    }
    SortedContiguous(rows);
  }

  lemma PageRowIsEvent(t: Tables, sub: EventSubquery, e: EventRow)
    requires e in PageOf(t, sub)
    ensures e in Candidates(t, sub.pred)
    ensures sub.qualifiers.Some? ==> Qualifies(t, sub.qualifiers.value, e)
    ensures e in t.events
  {
    var i :| 0 <= i < |PageOf(t, sub)| && PageOf(t, sub)[i] == e;
    assert e in SubqueryEvents(t, sub);
    var c := Candidates(t, sub.pred);
    if sub.sorted {
      var q := match sub.qualifiers
        case None => c
        case Some(fs) => Qualifying(t, fs, c);
      assert e in multiset(SortBy(q, EventKey));
    }
    assert e in c;
    var e0 :| e0 in t.events && e in EventCopies(t, sub.pred, e0);
  }

  lemma SameKeySameEvent(t: Tables, e1: EventRow, e2: EventRow)
    requires KeysUnique(t) && e1 in t.events && e2 in t.events && e1.eventId == e2.eventId
    ensures e1 == e2
  {
    var i :| 0 <= i < |t.events| && t.events[i] == e1;
    var j :| 0 <= j < |t.events| && t.events[j] == e2;
    assert !(i < j) && !(j < i);
  }

  // ---------------------------------------------------------------------
  // The loader.

  /** `loadEvents` for the search: the attribute predicate's error, or the
      events the pivot makes of the query's rows. */
  function LoadEventsSpec(t: Tables, s: Search): Result<seq<EventUi>>
  {
    match BuildEventDataSubqueryPredicate(s.dataFields, s.dataFilters)
    case Failure(e) => Failure(e)
    case Success(dp) => Events(Execute(t, FullQuery(s, dp)))
  }

  class ComplexEventLoader {
    const selectedAppIds: seq<int>
    const selectedEventTypeIds: Option<seq<int>>
    const dataFields: Option<seq<string>>
    const dataFilters: Option<seq<DataFilter>>
    const eventsFrom: Option<int>
    const eventsTo: Option<int>
    const offset: nat
    const limit: nat
    var query: SqlQuery

    /** The parameters of this loader. */
    function Params(): Search
    {
      Search(selectedAppIds, selectedEventTypeIds, dataFields, dataFilters, eventsFrom, eventsTo, offset, limit)
    }

    constructor (s: Search)
      ensures Params() == s && query == EmptyQuery
    {
      selectedAppIds := s.appIds;
      selectedEventTypeIds := s.eventTypeIds;
      dataFields := s.dataFields;
      dataFilters := s.dataFilters;
      eventsFrom := s.eventsFrom;
      eventsTo := s.eventsTo;
      offset := s.offset;
      limit := s.limit;
      query := EmptyQuery;
    }

    /** `buildFromClause`: the paged event subquery. */
    method BuildFromClause()
      modifies this
      ensures query == old(query).(from := Some(EventSubquery(EventPredicateOf(Params()), offset, limit, false, None)))
    {
      var pred := BuildEventSubqueryPredicate(selectedAppIds, selectedEventTypeIds, eventsFrom, eventsTo);
      query := query.(from := Some(EventSubquery(pred, offset, limit, false, None)));
    }

    /** `joinAppAndEventType`. */
    method JoinAppAndEventType()
      modifies this
      ensures query == old(query).(joinsTypeAndApp := true)
    {
      query := query.(joinsTypeAndApp := true);
    }

    /** `buildEventDataSubquery`: the left join with the attribute rows the
        attribute predicate admits; a BINARY filter operand is refused and
        the query is left as it was. */
    method BuildEventDataSubquery() returns (o: Outcome)
      modifies this
      ensures o.Fail? <==> !NoBinaryFilter(FiltersOf(dataFilters))
      ensures o.Fail? ==> o.error == IllegalArgument && query == old(query)
      ensures o.Pass? ==> (BuildEventDataSubqueryPredicate(dataFields, dataFilters).Success? &&
        query == old(query).(dataJoin := Some(BuildEventDataSubqueryPredicate(dataFields, dataFilters).value)))
    {
      var pred := BuildEventDataSubqueryPredicate(dataFields, dataFilters);
      DataSubqueryPredicateSemantics(dataFields, dataFilters, EventDataRow(0, [], [], None, None, None, None, None));
      if pred.Failure? {
        return Fail(pred.error);
      }
      query := query.(dataJoin := Some(pred.value));
      o := Pass;
    }

    /** `addOrderBy`: timestamp descending, then event id ascending. */
    method AddOrderBy()
      modifies this
      ensures query == old(query).(ordered := true)
    {
      query := query.(ordered := true);
    }

    /** `buildQuery`: the four steps on a fresh query. */
    method BuildQuery() returns (o: Outcome)
      modifies this
      ensures o.Fail? <==> !NoBinaryFilter(FiltersOf(dataFilters))
      ensures o.Fail? ==> o.error == IllegalArgument
      ensures o.Pass? ==> (BuildEventDataSubqueryPredicate(dataFields, dataFilters).Success? &&
        query == FullQuery(Params(), BuildEventDataSubqueryPredicate(dataFields, dataFilters).value))
    {
      query := EmptyQuery;
      BuildFromClause();
      JoinAppAndEventType();
      o := BuildEventDataSubquery();
      if o.Fail? {
        return;
      }
      AddOrderBy();
    }

    /** `loadEvents`: build the query, run it and pivot its rows. */
    method LoadEvents(t: Tables) returns (r: Result<seq<EventUi>>)
      modifies this
      ensures r == LoadEventsSpec(t, Params())
      ensures r.Success? && KeysUnique(t) ==> EventsOrdered(r.value)
      ensures r.Success? && KeysUnique(t) ==>
        PagedEvents(r.value, Page(Candidates(t, EventPredicateOf(Params())), offset, limit), limit)
      ensures r.Success? && KeysUnique(t) ==> forall j :: 0 <= j < |r.value| ==>
        PresentsEventOf(t, Params(), Page(Candidates(t, EventPredicateOf(Params())), offset, limit), r.value[j])
    {
      var o := BuildQuery();
      DataSubqueryPredicateSemantics(dataFields, dataFilters, EventDataRow(0, [], [], None, None, None, None, None));
      if o.Fail? {
        return Failure(o.error);
      }
      var rows := Execute(t, query);
      r := MapToEvents(rows);
      if r.Success? && KeysUnique(t) {
        LoadEventsOrdered(t, Params());
        LoadEventsDistinct(t, Params());
        LoadEventsContents(t, Params());
      }
    }
  }

  /** `new ComplexEventLoader(...)`: a NULL application id array is refused
      with a NullPointerException. */
  method NewComplexEventLoader(
    selectedAppIds: Option<seq<int>>, selectedEventTypeIds: Option<seq<int>>,
    dataFields: Option<seq<string>>, dataFilters: Option<seq<DataFilter>>,
    eventsFrom: Option<int>, eventsTo: Option<int>, offset: nat, limit: nat)
    returns (r: Result<ComplexEventLoader>)
    ensures r.Failure? <==> selectedAppIds.None?
    ensures r.Failure? ==> r.error == NullPointer
    ensures r.Success? ==> (fresh(r.value) && r.value.query == EmptyQuery
      && r.value.Params() == Search(selectedAppIds.value, selectedEventTypeIds, dataFields, dataFilters,
                                    eventsFrom, eventsTo, offset, limit))
  {
    if selectedAppIds.None? {
      return Failure(NullPointer);
    }
    var loader := new ComplexEventLoader(Search(selectedAppIds.value, selectedEventTypeIds, dataFields,
                                                dataFilters, eventsFrom, eventsTo, offset, limit));
    r := Success(loader);
  }

  /** `loadEvents` for the search with the evidently intended pass, which
      skips NULL type tags and emits the last event. */
  function LoadEventsIntendedSpec(t: Tables, s: Search): Result<seq<EventUi>>
  {
    match BuildEventDataSubqueryPredicate(s.dataFields, s.dataFilters)
    case Failure(e) => Failure(e)
    case Success(dp) => EventsIntended(Execute(t, FullQuery(s, dp)))
  }

  /** As written, a page event none of whose attribute rows is in the field
      projection and passes every filter makes the whole search fail: the
      NULL attribute row the left join gives it reaches the decoder. */
  lemma SearchFailsOnBareEvent(t: Tables, s: Search, dp: DataPred, e: EventRow)
    requires BuildEventDataSubqueryPredicate(s.dataFields, s.dataFilters) == Success(dp)
    requires e in Page(Candidates(t, EventPredicateOf(s)), s.offset, s.limit)
    requires forall d :: d in t.eventData && d.eventId == e.eventId ==>
      !(Selected(s.dataFields, d.name) && AllFiltersHold(FiltersOf(s.dataFilters), d))
    ensures LoadEventsSpec(t, s).Failure?
  {
    SearchKeepsAttribute(t, s, dp, e, None);
    var rows := Execute(t, FullQuery(s, dp));
    var r :| r in rows && r.eventId == e.eventId && r.data == None;
    NullRowFails(rows, r);
  }

  lemma NullRowFails(rows: seq<ResultRow>, r: ResultRow)
    requires r in rows && r.data.None?
    ensures Events(rows).Failure?
  {
    var i :| 0 <= i < |rows| && rows[i] == r;
    NullTagFails(rows, i);
  }

  /** Events with pairwise distinct ids, each the id of an event of the
      page, and at most `limit` of them. */
  predicate PagedEvents(evs: seq<EventUi>, page: seq<EventRow>, limit: nat)
  {
    && (forall j, k :: 0 <= j < k < |evs| ==> evs[j].eventId != evs[k].eventId)
    && (forall j :: 0 <= j < |evs| ==> exists e :: e in page && e.eventId == evs[j].eventId)
    && |evs| <= limit
  }

  /** With unique event keys, the events `loadEvents` returns have pairwise
      distinct ids, each the id of an event of the page, and there are at
      most `limit` of them. */
  lemma LoadEventsDistinct(t: Tables, s: Search)
    requires KeysUnique(t) && LoadEventsSpec(t, s).Success?
    ensures PagedEvents(LoadEventsSpec(t, s).value, Page(Candidates(t, EventPredicateOf(s)), s.offset, s.limit), s.limit)
  {
    var dp := BuildEventDataSubqueryPredicate(s.dataFields, s.dataFilters).value;
    EventsOfQuery(t, FullQuery(s, dp));
  }

  /** The same, for the rows of an ordered query. */
  lemma EventsOfQuery(t: Tables, q: SqlQuery)
    requires KeysUnique(t) && q.from.Some? && q.ordered && Events(Execute(t, q)).Success?
    ensures PagedEvents(Events(Execute(t, q)).value, PageOf(t, q.from.value), q.from.value.limit)
  {
    ExecuteContiguous(t, q);
    AtMostLimitEvents(t, q);
    PagedEventsOfRows(Execute(t, q), PageOf(t, q.from.value), q.from.value.limit);
  }

  /** The pivot of contiguous rows whose ids are ids of the page, at most
      `limit` of them, gives paged events. */
  lemma PagedEventsOfRows(rows: seq<ResultRow>, page: seq<EventRow>, limit: nat)
    requires Contiguous(rows) && Events(rows).Success?
    requires (set r | r in rows :: r.eventId) <= set e | e in page :: e.eventId
    requires |set r | r in rows :: r.eventId| <= limit
    ensures PagedEvents(Events(rows).value, page, limit)
  {
    var evs := Events(rows).value;
    EventsOfRowsIds(rows);
    var ids := set r | r in rows :: r.eventId;
    var pageIds := set e | e in page :: e.eventId;
    assert forall j :: 0 <= j < |evs| ==> evs[j].eventId in pageIds;
    DistinctIdsBound(evs, ids);
  }

  /** On contiguous rows the events the pivot emits have distinct ids, each
      the id of some row. */
  lemma EventsOfRowsIds(rows: seq<ResultRow>)
    requires Contiguous(rows) && Events(rows).Success?
    ensures var evs := Events(rows).value;
      && (forall j, k :: 0 <= j < k < |evs| ==> evs[j].eventId != evs[k].eventId)
      && (forall j :: 0 <= j < |evs| ==> evs[j].eventId in set r | r in rows :: r.eventId)
  {
    ContiguousGroupsDistinct(rows);
    EventsDropLastGroup(rows);
    var evs := Events(rows).value;
    var gs := GroupStarts(rows);
    forall j | 0 <= j < |evs|
      ensures evs[j].eventId == rows[gs[j]].eventId
      ensures evs[j].eventId in set r | r in rows :: r.eventId
    {
      assert evs[j] == GroupEvent(rows, gs[j], gs[j + 1]);
      assert rows[gs[j]] in rows;
    }
  }

  /** Distinct ids drawn from a set are at most as many as the set. */
  lemma {:induction false} DistinctIdsBound(evs: seq<EventUi>, ids: set<int>)
    requires forall j, k :: 0 <= j < k < |evs| ==> evs[j].eventId != evs[k].eventId
    requires forall j :: 0 <= j < |evs| ==> evs[j].eventId in ids
    ensures |evs| <= |ids|
  {
    if evs != [] {
      var x := evs[0].eventId;
      forall j | 0 <= j < |evs[1..]| ensures evs[1..][j].eventId in ids - {x} {
        assert evs[1..][j] == evs[j + 1];
      }
      DistinctIdsBound(evs[1..], ids - {x});
    }
  }

  /** As intended, when every stored attribute row decodes, the search
      succeeds and returns exactly one event per page event: the ids are
      distinct, each is the id of a page event, every page event is among
      them, and there are at most `limit` events. */
  lemma LoadEventsIntendedPaged(t: Tables, s: Search)
    requires KeysUnique(t)
    requires BuildEventDataSubqueryPredicate(s.dataFields, s.dataFilters).Success?
    requires forall d :: d in t.eventData ==> Decode(d).Success?
    ensures LoadEventsIntendedSpec(t, s).Success?
    ensures var evs := LoadEventsIntendedSpec(t, s).value;
      var page := Page(Candidates(t, EventPredicateOf(s)), s.offset, s.limit);
      && PagedEvents(evs, page, s.limit)
      && (forall e :: e in page ==> exists j :: 0 <= j < |evs| && evs[j].eventId == e.eventId)
  {
    var dp := BuildEventDataSubqueryPredicate(s.dataFields, s.dataFilters).value;
    QueryEventsIntended(t, FullQuery(s, dp));
  }

  /** The intended pass over the rows of an ordered query, when every
      stored attribute row decodes: one event per page event, in the order
      the ORDER BY clause gives. */
  lemma QueryEventsIntended(t: Tables, q: SqlQuery)
    requires KeysUnique(t) && q.from.Some? && q.ordered
    requires forall d :: d in t.eventData ==> Decode(d).Success?
    ensures EventsIntended(Execute(t, q)).Success?
    ensures var evs := EventsIntended(Execute(t, q)).value;
      var page := PageOf(t, q.from.value);
      && PagedEvents(evs, page, q.from.value.limit)
      && (forall e :: e in page ==> exists j :: 0 <= j < |evs| && evs[j].eventId == e.eventId)
      && EventsOrdered(evs)
  {
    var rows := Execute(t, q);
    ExecuteDecodes(t, q);
    ExecuteContiguous(t, q);
    AtMostLimitEvents(t, q);
    PagedEventsIntended(rows, PageOf(t, q.from.value), q.from.value.limit);
    EventsIntendedCoverRows(rows);
    var evs := EventsIntended(rows).value;
    forall e | e in PageOf(t, q.from.value)
      ensures exists j :: 0 <= j < |evs| && evs[j].eventId == e.eventId
    {
      PageEventHasRow(t, q, e);
      var i :| 0 <= i < |rows| && rows[i].eventId == e.eventId;
    }
    EventsIntendedGroupIds(rows);
    GroupEventsOrdered(rows, evs);
  }

  /** The intended pass over contiguous, decodable rows whose ids are ids
      of the page, at most `limit` of them, gives paged events. */
  lemma PagedEventsIntended(rows: seq<ResultRow>, page: seq<EventRow>, limit: nat)
    requires Contiguous(rows)
    requires forall i :: 0 <= i < |rows| && rows[i].data.Some? ==> DecodeRow(rows[i]).Success?
    requires (set r | r in rows :: r.eventId) <= set e | e in page :: e.eventId
    requires |set r | r in rows :: r.eventId| <= limit
    ensures EventsIntended(rows).Success?
    ensures PagedEvents(EventsIntended(rows).value, page, limit)
  {
    EventsIntendedIds(rows);
    var evs := EventsIntended(rows).value;
    var ids := set r | r in rows :: r.eventId;
    var pageIds := set e | e in page :: e.eventId;
    assert forall j :: 0 <= j < |evs| ==> evs[j].eventId in pageIds;
    DistinctIdsBound(evs, ids);
  }

  /** When every stored attribute row decodes, so does every attribute the
      query returns. */
  lemma ExecuteDecodes(t: Tables, q: SqlQuery)
    requires q.from.Some?
    requires forall d :: d in t.eventData ==> Decode(d).Success?
    ensures forall i :: 0 <= i < |Execute(t, q)| && Execute(t, q)[i].data.Some? ==>
      DecodeRow(Execute(t, q)[i]).Success?
  {
    var rows := Execute(t, q);
    forall i | 0 <= i < |rows| && rows[i].data.Some? ensures DecodeRow(rows[i]).Success? {
      ExecuteFromPage(t, q, rows[i]);
    }
  }

  /** Every page event has at least one row in the result. */
  lemma PageEventHasRow(t: Tables, q: SqlQuery, e: EventRow)
    requires q.from.Some? && e in PageOf(t, q.from.value)
    ensures exists r :: r in Execute(t, q) && r.eventId == e.eventId
  {
    if q.dataJoin.Some? && exists d :: d in t.eventData && d.eventId == e.eventId && EvalData(q.dataJoin.value, d) {
      var d :| d in t.eventData && d.eventId == e.eventId && EvalData(q.dataJoin.value, d);
      PageInExecute(t, q, e, Some(d));
    } else {
      PageInExecute(t, q, e, None);
    }
  }

  /** On contiguous rows whose attributes all decode, the intended pass
      emits events with distinct ids, each the id of some row. */
  lemma EventsIntendedIds(rows: seq<ResultRow>)
    requires Contiguous(rows)
    requires forall i :: 0 <= i < |rows| && rows[i].data.Some? ==> DecodeRow(rows[i]).Success?
    ensures EventsIntended(rows).Success?
    ensures var evs := EventsIntended(rows).value;
      && (forall j, k :: 0 <= j < k < |evs| ==> evs[j].eventId != evs[k].eventId)
      && (forall j :: 0 <= j < |evs| ==> evs[j].eventId in set r | r in rows :: r.eventId)
  {
    ContiguousGroupsDistinct(rows);
    EventsIntendedGroupIds(rows);
    var evs := EventsIntended(rows).value;
    var gs := GroupStarts(rows);
    forall j | 0 <= j < |evs|
      ensures evs[j].eventId in set r | r in rows :: r.eventId
    {
      assert rows[gs[j]] in rows;
    }
  }

  // ---------------------------------------------------------------------
  // The order of the events.

  /** Events in the order the ORDER BY clause gives: later saves first and,
      among equal timestamps, smaller ids first. */
  predicate EventsOrdered(evs: seq<EventUi>)
  {
    forall j, k :: 0 <= j < k < |evs| ==>
      evs[j].saveTimestamp > evs[k].saveTimestamp
      || (evs[j].saveTimestamp == evs[k].saveTimestamp && evs[j].eventId < evs[k].eventId)
  }

  /** Events that carry the ids and timestamps of the successive group
      starts of sorted, contiguous rows are ordered. */
  lemma GroupEventsOrdered(rows: seq<ResultRow>, evs: seq<EventUi>)
    requires SortedRows(rows) && Contiguous(rows)
    requires |evs| <= |GroupStarts(rows)|
    requires forall j :: 0 <= j < |evs| ==>
      evs[j].eventId == rows[GroupStarts(rows)[j]].eventId
      && evs[j].saveTimestamp == rows[GroupStarts(rows)[j]].saveTimestamp
    ensures EventsOrdered(evs)
  {
    var gs := GroupStarts(rows);
    ContiguousGroupsDistinct(rows);
    forall j, k | 0 <= j < k < |evs|
      ensures evs[j].saveTimestamp > evs[k].saveTimestamp
        || (evs[j].saveTimestamp == evs[k].saveTimestamp && evs[j].eventId < evs[k].eventId)
    {
      assert gs[j] < gs[k];
      assert Precedes(RowKey(rows[gs[j]]), RowKey(rows[gs[k]]));
    }
  }

  /** With unique event keys, the events `loadEvents` returns are ordered
      by save timestamp descending, then event id ascending. */
  lemma LoadEventsOrdered(t: Tables, s: Search)
    requires KeysUnique(t) && LoadEventsSpec(t, s).Success?
    ensures EventsOrdered(LoadEventsSpec(t, s).value)
  {
    var dp := BuildEventDataSubqueryPredicate(s.dataFields, s.dataFilters).value;
    var rows := Execute(t, FullQuery(s, dp));
    ExecuteContiguous(t, FullQuery(s, dp));
    EventsDropLastGroup(rows);
    var evs := Events(rows).value;
    var gs := GroupStarts(rows);
    forall j | 0 <= j < |evs|
      ensures evs[j].eventId == rows[gs[j]].eventId && evs[j].saveTimestamp == rows[gs[j]].saveTimestamp
    {
      assert evs[j] == GroupEvent(rows, gs[j], gs[j + 1]);
    }
    GroupEventsOrdered(rows, evs);
  }

  /** The same for the evidently intended pass. */
  lemma LoadEventsIntendedOrdered(t: Tables, s: Search)
    requires KeysUnique(t) && LoadEventsIntendedSpec(t, s).Success?
    ensures EventsOrdered(LoadEventsIntendedSpec(t, s).value)
  {
    var dp := BuildEventDataSubqueryPredicate(s.dataFields, s.dataFilters).value;
    var rows := Execute(t, FullQuery(s, dp));
    ExecuteContiguous(t, FullQuery(s, dp));
    PivotIntendedSucceedsIff(rows);
    EventsIntendedGroupIds(rows);
    GroupEventsOrdered(rows, EventsIntended(rows).value);
  }

  // ---------------------------------------------------------------------
  // What the events hold.

  /** The type row of an event: the first row with its type id (with
      unique keys, the only one), or NULL. */
  function TypeOf(t: Tables, e: EventRow): Option<EventTypeRow>
  {
    var ts := TypesOf(t, e.eventTypeId);
    if ts == [] then None else Some(ts[0])
  }

  /** The application row of an event type, likewise. */
  function ApplicationOf(t: Tables, et: EventTypeRow): Option<ApplicationRow>
  {
    var apps := AppsOf(t, et.applicationId);
    if apps == [] then None else Some(apps[0])
  }

  /** The type and application names shown for stored event `e`: those of
      its type and of that type's application, NULL where the left join
      finds none. */
  predicate NamesOf(t: Tables, e: EventRow, typeName: Option<string>, applicationName: Option<string>)
  {
    match TypeOf(t, e)
    case None => typeName.None? && applicationName.None?
    case Some(et) =>
      && typeName == Some(et.name)
      && applicationName == (match ApplicationOf(t, et) case None => None case Some(a) => Some(a.name))
  }

  /** Attribute row `d` belongs to stored event `e`, is in the search's
      field projection and passes every filter of the search. */
  predicate Admitted(t: Tables, s: Search, e: EventRow, d: EventDataRow)
  {
    && d in t.eventData && d.eventId == e.eventId
    && Selected(s.dataFields, d.name) && AllFiltersHold(FiltersOf(s.dataFilters), d)
  }

  function AdmittedNames(t: Tables, s: Search, e: EventRow): set<string>
  {
    set d | d in t.eventData && Admitted(t, s, e, d) :: d.name
  }

  /** Event `ev` is stored event `e` as the search presents it: the event's
      id and save timestamp, the names of its type and application, and
      one attribute per name of its admitted attribute rows, each the
      decoding of an admitted row of that name. */
  predicate PresentedAs(t: Tables, s: Search, e: EventRow, ev: EventUi)
  {
    && ev.eventId == e.eventId && ev.saveTimestamp == e.saveTimestamp
    && NamesOf(t, e, ev.typeName, ev.applicationName)
    && ev.eventData.Keys == AdmittedNames(t, s, e)
    && forall n :: n in ev.eventData ==> DecodedFrom(t, s, e, n, ev.eventData[n])
  }

  /** Value `v` of attribute `n` is the decoding of an admitted attribute
      row of `e` with that name. */
  predicate DecodedFrom(t: Tables, s: Search, e: EventRow, n: string, v: EventData)
  {
    exists d :: d in t.eventData && Admitted(t, s, e, d) && d.name == n && Decode(d) == Success(v)
  }

  /** Event `ev` presents a typed event of `page`. */
  predicate PresentsEventOf(t: Tables, s: Search, page: seq<EventRow>, ev: EventUi)
  {
    exists e :: e in page && TypeOf(t, e).Some? && PresentedAs(t, s, e, ev)
  }

  /** With unique keys, the left join with the event types yields the
      event's type row alone, or a single NULL. */
  lemma TypeRowsUnique(t: Tables, e: EventRow)
    requires KeysUnique(t)
    ensures TypeRows(t, true, e.eventTypeId) == [TypeOf(t, e)]
  {
    FilterAtMostOne(t.eventTypes, (et: EventTypeRow) => et.eventTypeId == e.eventTypeId);
    LeftOptionsOfAtMostOne(TypesOf(t, e.eventTypeId));
  }

  /** With unique keys, the left join of a type with the applications
      yields the type's application row alone, or a single NULL. */
  lemma AppRowsUnique(t: Tables, et: EventTypeRow)
    requires KeysUnique(t)
    ensures AppRows(t, true, Some(et)) == [ApplicationOf(t, et)]
  {
    FilterAtMostOne(t.applications, (a: ApplicationRow) => a.applicationId == et.applicationId);
    LeftOptionsOfAtMostOne(AppsOf(t, et.applicationId));
  }

  /** With unique keys, every flat row of a page row carries the names of
      the event's type and application. */
  lemma RowNames(t: Tables, q: SqlQuery, e: EventRow, r: ResultRow)
    requires KeysUnique(t) && q.joinsTypeAndApp && r in RowsOf(t, q, e)
    ensures NamesOf(t, e, r.typeName, r.applicationName)
  {
    TypeRowsUnique(t, e);
    var ot :| ot in TypeRows(t, q.joinsTypeAndApp, e.eventTypeId) &&
      r in FlatMap(AppRows(t, q.joinsTypeAndApp, ot), (oa: Option<ApplicationRow>) =>
        FlatMap(DataRows(t, q.dataJoin, e.eventId), (od: Option<EventDataRow>) => [MakeRow(oa, ot, e, od)]));
    var oa :| oa in AppRows(t, q.joinsTypeAndApp, ot) &&
      r in FlatMap(DataRows(t, q.dataJoin, e.eventId), (od: Option<EventDataRow>) => [MakeRow(oa, ot, e, od)]);
    var od :| od in DataRows(t, q.dataJoin, e.eventId) && r in [MakeRow(oa, ot, e, od)];
    assert ot == TypeOf(t, e);
    if ot.Some? {
      AppRowsUnique(t, ot.value);
    }
  }

  /** Every row the query returns is a flat row of a page row. */
  lemma ExecuteRowsOf(t: Tables, q: SqlQuery, r: ResultRow)
    requires q.from.Some? && r in Execute(t, q)
    ensures exists e :: e in PageOf(t, q.from.value) && r in RowsOf(t, q, e)
  {
    var rows := FlatMap(PageOf(t, q.from.value), (e: EventRow) => RowsOf(t, q, e));
    if q.ordered {
      assert r in multiset(SortRows(rows));
    }
    assert r in rows;
  }

  /** The first row of a group is a row of a page event: it carries that
      event's id, save timestamp and names. */
  lemma GroupHeader(t: Tables, q: SqlQuery, rows: seq<ResultRow>, j: int)
    requires KeysUnique(t) && q.from.Some? && q.joinsTypeAndApp && rows == Execute(t, q)
    requires 0 <= j < |GroupStarts(rows)|
    ensures exists e ::
      && e in PageOf(t, q.from.value) && e.eventId == rows[GroupStarts(rows)[j]].eventId
      && e.saveTimestamp == rows[GroupStarts(rows)[j]].saveTimestamp
      && NamesOf(t, e, rows[GroupStarts(rows)[j]].typeName, rows[GroupStarts(rows)[j]].applicationName)
  {
    var r := rows[GroupStarts(rows)[j]];
    ExecuteRowsOf(t, q, r);
    var e :| e in PageOf(t, q.from.value) && r in RowsOf(t, q, e);
    RowsOfFrom(t, q, e, r);
    RowNames(t, q, e, r);
  }

  /** A row of the group of page event `e` that has an attribute holds an
      admitted attribute row of `e`. */
  lemma GroupRowAdmitted(t: Tables, s: Search, dp: DataPred, q: SqlQuery, rows: seq<ResultRow>, e: EventRow, i: int)
    requires q.from.Some? && q.dataJoin == Some(dp) && rows == Execute(t, q)
    requires BuildEventDataSubqueryPredicate(s.dataFields, s.dataFilters) == Success(dp)
    requires 0 <= i < |rows| && rows[i].eventId == e.eventId && rows[i].data.Some?
    ensures Admitted(t, s, e, rows[i].data.value)
  {
    ExecuteFromPage(t, q, rows[i]);
    DataSubqueryPredicateSemantics(s.dataFields, s.dataFilters, rows[i].data.value);
  }

  /** Some row of `rows` with id `id` carries attribute row `d`. */
  predicate HasRowOf(rows: seq<ResultRow>, id: int, d: EventDataRow)
  {
    exists i :: 0 <= i < |rows| && rows[i].eventId == id && rows[i].data == Some(d)
  }

  /** For page event `e`, every attribute row the search query returns
      with its id is admitted. */
  lemma {:induction false} ExecuteRowsAdmitted(t: Tables, s: Search, dp: DataPred, q: SqlQuery, e: EventRow)
    requires q.from.Some? && q.dataJoin == Some(dp)
    requires BuildEventDataSubqueryPredicate(s.dataFields, s.dataFilters) == Success(dp)
    ensures var rows := Execute(t, q);
      forall i :: 0 <= i < |rows| && rows[i].eventId == e.eventId && rows[i].data.Some? ==>
        Admitted(t, s, e, rows[i].data.value)
  {
    var rows := Execute(t, q);
    forall i | 0 <= i < |rows| && rows[i].eventId == e.eventId && rows[i].data.Some?
      ensures Admitted(t, s, e, rows[i].data.value)
    {
      GroupRowAdmitted(t, s, dp, q, rows, e, i);
    }
  }

  /** For page event `e`, the search query returns every admitted
      attribute row of `e` with its id. */
  lemma {:induction false} ExecuteHoldsAdmitted(t: Tables, s: Search, dp: DataPred, q: SqlQuery, e: EventRow)
    requires q.from.Some? && q.dataJoin == Some(dp) && e in PageOf(t, q.from.value)
    requires BuildEventDataSubqueryPredicate(s.dataFields, s.dataFilters) == Success(dp)
    ensures forall d :: d in t.eventData && Admitted(t, s, e, d) ==> HasRowOf(Execute(t, q), e.eventId, d)
  {
    forall d | d in t.eventData && Admitted(t, s, e, d) ensures HasRowOf(Execute(t, q), e.eventId, d) {
      DataHasRow(t, s, dp, q, Execute(t, q), e, d);
    }
  }

  /** One admitted attribute row of page event `e` comes back with its id. */
  lemma {:induction false} DataHasRow(t: Tables, s: Search, dp: DataPred, q: SqlQuery, rows: seq<ResultRow>,
                                      e: EventRow, d: EventDataRow)
    requires q.from.Some? && q.dataJoin == Some(dp) && e in PageOf(t, q.from.value) && rows == Execute(t, q)
    requires BuildEventDataSubqueryPredicate(s.dataFields, s.dataFilters) == Success(dp)
    requires Admitted(t, s, e, d)
    ensures HasRowOf(rows, e.eventId, d)
  {
    DataSubqueryPredicateSemantics(s.dataFields, s.dataFilters, d);
    PageInExecute(t, q, e, Some(d));
    var r :| r in rows && r.eventId == e.eventId && r.data == Some(d);
    RowHasRowOf(rows, r, d);
  }

  lemma RowHasRowOf(rows: seq<ResultRow>, r: ResultRow, d: EventDataRow)
    requires r in rows && r.data == Some(d)
    ensures HasRowOf(rows, r.eventId, d)
  {
    var i :| 0 <= i < |rows| && rows[i] == r;
  }

  /** Some row of `g` carries attribute row `d`. */
  predicate HasDataRow(g: seq<ResultRow>, d: EventDataRow)
  {
    exists i :: 0 <= i < |g| && g[i].data == Some(d)
  }

  /** Rows whose attributes decode and are exactly the admitted attribute
      rows of `e` pivot into attributes keyed by the admitted names, each
      the decoding of such a row. */
  lemma {:induction false} AttributesOfAdmitted(t: Tables, s: Search, e: EventRow, g: seq<ResultRow>)
    requires forall i :: 0 <= i < |g| && g[i].data.Some? ==> DecodeRow(g[i]).Success? && Admitted(t, s, e, g[i].data.value)
    requires forall d :: d in t.eventData && Admitted(t, s, e, d) ==> HasDataRow(g, d)
    ensures Attributes(g).Keys == AdmittedNames(t, s, e)
    ensures forall n :: n in Attributes(g) ==> DecodedFrom(t, s, e, n, Attributes(g)[n])
  {
    AttributesOfRows(g);
    forall n | n in AdmittedNames(t, s, e) ensures n in Attributes(g) {
      var d :| d in t.eventData && Admitted(t, s, e, d) && d.name == n;
      var i :| 0 <= i < |g| && g[i].data == Some(d);
    }
  }

  /** Rows whose attribute rows of `e`'s id are exactly its admitted ones:
      the j-th group, when it is `e`'s, pivots into attributes keyed by
      the admitted names, each the decoding of an admitted row. */
  lemma {:induction false} GroupAttributes(t: Tables, s: Search, e: EventRow, rows: seq<ResultRow>, j: int)
    requires Contiguous(rows) && 0 <= j < |GroupStarts(rows)|
    requires forall i :: 0 <= i < |rows| && rows[i].data.Some? ==> DecodeRow(rows[i]).Success?
    requires e.eventId == rows[GroupStarts(rows)[j]].eventId
    requires forall i :: 0 <= i < |rows| && rows[i].eventId == e.eventId && rows[i].data.Some? ==>
      Admitted(t, s, e, rows[i].data.value)
    requires forall d :: d in t.eventData && Admitted(t, s, e, d) ==> HasRowOf(rows, e.eventId, d)
    ensures var attrs := Attributes(rows[GroupStarts(rows)[j]..GroupEnd(rows, j)]);
      && attrs.Keys == AdmittedNames(t, s, e)
      && forall n :: n in attrs ==> DecodedFrom(t, s, e, n, attrs[n])
  {
    GroupRowsAdmitted(t, s, e, rows, j);
    GroupHoldsAdmitted(t, s, e, rows, j);
    AttributesOfAdmitted(t, s, e, rows[GroupStarts(rows)[j]..GroupEnd(rows, j)]);
  }

  /** The rows of `e`'s group decode and carry only admitted attribute rows. */
  lemma {:induction false} GroupRowsAdmitted(t: Tables, s: Search, e: EventRow, rows: seq<ResultRow>, j: int)
    requires Contiguous(rows) && 0 <= j < |GroupStarts(rows)|
    requires forall i :: 0 <= i < |rows| && rows[i].data.Some? ==> DecodeRow(rows[i]).Success?
    requires e.eventId == rows[GroupStarts(rows)[j]].eventId
    requires forall i :: 0 <= i < |rows| && rows[i].eventId == e.eventId && rows[i].data.Some? ==>
      Admitted(t, s, e, rows[i].data.value)
    ensures var g := rows[GroupStarts(rows)[j]..GroupEnd(rows, j)];
      forall i :: 0 <= i < |g| && g[i].data.Some? ==> DecodeRow(g[i]).Success? && Admitted(t, s, e, g[i].data.value)
  {
    var a, b := GroupStarts(rows)[j], GroupEnd(rows, j);
    var g := rows[a..b];
    GroupRun(rows, j);
    forall i | 0 <= i < |g| && g[i].data.Some?
      ensures DecodeRow(g[i]).Success? && Admitted(t, s, e, g[i].data.value)
    {
      assert g[i] == rows[a + i];
    }
  }

  /** Every admitted attribute row of `e` is carried by a row of its group. */
  lemma {:induction false} GroupHoldsAdmitted(t: Tables, s: Search, e: EventRow, rows: seq<ResultRow>, j: int)
    requires Contiguous(rows) && 0 <= j < |GroupStarts(rows)|
    requires e.eventId == rows[GroupStarts(rows)[j]].eventId
    requires forall d :: d in t.eventData && Admitted(t, s, e, d) ==> HasRowOf(rows, e.eventId, d)
    ensures forall d :: d in t.eventData && Admitted(t, s, e, d) ==>
      HasDataRow(rows[GroupStarts(rows)[j]..GroupEnd(rows, j)], d)
  {
    var a, b := GroupStarts(rows)[j], GroupEnd(rows, j);
    var g := rows[a..b];
    GroupRun(rows, j);
    forall d | d in t.eventData && Admitted(t, s, e, d) ensures HasDataRow(g, d) {
      var i :| 0 <= i < |rows| && rows[i].eventId == e.eventId && rows[i].data == Some(d);
      assert g[i - a] == rows[i];
    }
  }

  /** On the ordered rows of a search query whose attributes decode, the
      event of every group presents a typed page event. */
  lemma GroupPresentsPageEvent(t: Tables, s: Search, dp: DataPred, q: SqlQuery, rows: seq<ResultRow>, j: int)
    requires KeysUnique(t) && q.from.Some? && q.ordered && q.joinsTypeAndApp && q.dataJoin == Some(dp)
    requires q.from.value.pred == EventPredicateOf(s) && rows == Execute(t, q)
    requires BuildEventDataSubqueryPredicate(s.dataFields, s.dataFilters) == Success(dp)
    requires forall i :: 0 <= i < |rows| && rows[i].data.Some? ==> DecodeRow(rows[i]).Success?
    requires 0 <= j < |GroupStarts(rows)|
    ensures PresentsEventOf(t, s, PageOf(t, q.from.value), GroupEvent(rows, GroupStarts(rows)[j], GroupEnd(rows, j)))
  {
    ExecuteContiguous(t, q);
    GroupHeader(t, q, rows, j);
    var r := rows[GroupStarts(rows)[j]];
    var e :| e in PageOf(t, q.from.value) && e.eventId == r.eventId && e.saveTimestamp == r.saveTimestamp
      && NamesOf(t, e, r.typeName, r.applicationName);
    ExecuteRowsAdmitted(t, s, dp, q, e);
    ExecuteHoldsAdmitted(t, s, dp, q, e);
    GroupAttributes(t, s, e, rows, j);
    PageRowIsEvent(t, q.from.value, e);
    CandidateTyped(t, s, e);
    assert PresentedAs(t, s, e, GroupEvent(rows, GroupStarts(rows)[j], GroupEnd(rows, j)));
  }

  /** A candidate of the search has a type row. */
  lemma CandidateTyped(t: Tables, s: Search, e: EventRow)
    requires e in Candidates(t, EventPredicateOf(s))
    ensures TypeOf(t, e).Some?
  {
    CandidatesSemantics(t, s, e);
    var et :| et in t.eventTypes && et.eventTypeId == e.eventTypeId && EvalEvent(EventPredicateOf(s), e, Some(et));
    assert et in TypesOf(t, e.eventTypeId);
  }

  /** With unique keys, every event `loadEvents` returns presents an event
      of the page: its id, save timestamp, type and application names,
      and exactly the attributes of its rows that are in the projection
      and pass every filter, each decoded from such a row. */
  lemma LoadEventsContents(t: Tables, s: Search)
    requires KeysUnique(t) && LoadEventsSpec(t, s).Success?
    ensures var evs := LoadEventsSpec(t, s).value;
      forall j :: 0 <= j < |evs| ==>
        PresentsEventOf(t, s, Page(Candidates(t, EventPredicateOf(s)), s.offset, s.limit), evs[j])
  {
    var dp := BuildEventDataSubqueryPredicate(s.dataFields, s.dataFilters).value;
    var q := FullQuery(s, dp);
    var rows := Execute(t, q);
    PivotSucceedsIff(rows);
    EventsDropLastGroup(rows);
    var evs := Events(rows).value;
    var gs := GroupStarts(rows);
    forall j | 0 <= j < |evs| ensures PresentsEventOf(t, s, PageOf(t, q.from.value), evs[j]) {
      assert evs[j] == GroupEvent(rows, gs[j], GroupEnd(rows, j));
      GroupPresentsPageEvent(t, s, dp, q, rows, j);
    }
  }

  /** The intended pass over the rows of a search query, when every stored
      attribute row decodes: every event presents a typed page event. */
  lemma QueryContentsIntended(t: Tables, s: Search, dp: DataPred, q: SqlQuery)
    requires KeysUnique(t) && q.from.Some? && q.ordered && q.joinsTypeAndApp && q.dataJoin == Some(dp)
    requires q.from.value.pred == EventPredicateOf(s)
    requires BuildEventDataSubqueryPredicate(s.dataFields, s.dataFilters) == Success(dp)
    requires forall d :: d in t.eventData ==> Decode(d).Success?
    ensures EventsIntended(Execute(t, q)).Success?
    ensures var evs := EventsIntended(Execute(t, q)).value;
      forall j :: 0 <= j < |evs| ==> PresentsEventOf(t, s, PageOf(t, q.from.value), evs[j])
  {
    var rows := Execute(t, q);
    ExecuteDecodes(t, q);
    EventsIntendedPerGroup(rows);
    var evs := EventsIntended(rows).value;
    var gs := GroupStarts(rows);
    forall j | 0 <= j < |evs| ensures PresentsEventOf(t, s, PageOf(t, q.from.value), evs[j]) {
      assert evs[j] == GroupEvent(rows, gs[j], GroupEnd(rows, j));
      GroupPresentsPageEvent(t, s, dp, q, rows, j);
    }
  }

  /** As intended, every event the search returns presents an event of the
      page; a page event none of whose attribute rows is admitted appears
      with no attributes. */
  lemma LoadEventsIntendedContents(t: Tables, s: Search)
    requires KeysUnique(t)
    requires BuildEventDataSubqueryPredicate(s.dataFields, s.dataFilters).Success?
    requires forall d :: d in t.eventData ==> Decode(d).Success?
    ensures LoadEventsIntendedSpec(t, s).Success?
    ensures var evs := LoadEventsIntendedSpec(t, s).value;
      forall j :: 0 <= j < |evs| ==>
        PresentsEventOf(t, s, Page(Candidates(t, EventPredicateOf(s)), s.offset, s.limit), evs[j])
  {
    var dp := BuildEventDataSubqueryPredicate(s.dataFields, s.dataFilters).value;
    QueryContentsIntended(t, s, dp, FullQuery(s, dp));
  }

  /** The same for the corrected search. */
  lemma LoadEventsCorrectedContents(t: Tables, s: Search)
    requires KeysUnique(t)
    requires BuildEventDataSubqueryPredicate(s.dataFields, s.dataFilters).Success?
    requires forall d :: d in t.eventData ==> Decode(d).Success?
    ensures LoadEventsCorrectedSpec(t, s).Success?
    ensures var evs := LoadEventsCorrectedSpec(t, s).value;
      forall j :: 0 <= j < |evs| ==> PresentsEventOf(t, s, PageOf(t, CorrectedSubquery(s)), evs[j])
  {
    var dp := BuildEventDataSubqueryPredicate(s.dataFields, s.dataFilters).value;
    QueryContentsIntended(t, s, dp, CorrectedQuery(s, dp));
  }

  // ---------------------------------------------------------------------
  // Events a filter rejects.

  /** As written, a page event is returned whenever another page event
      comes strictly after it in ORDER BY order, whatever its other
      attribute rows hold: the filters only trim the attributes. */
  lemma LoadEventsReturnsPageEvent(t: Tables, s: Search, e: EventRow, later: EventRow)
    requires KeysUnique(t) && LoadEventsSpec(t, s).Success?
    requires e in Page(Candidates(t, EventPredicateOf(s)), s.offset, s.limit)
    requires later in Page(Candidates(t, EventPredicateOf(s)), s.offset, s.limit)
    requires !Precedes(EventKey(later), EventKey(e))
    ensures exists j :: 0 <= j < |LoadEventsSpec(t, s).value| && LoadEventsSpec(t, s).value[j].eventId == e.eventId
  {
    var dp := BuildEventDataSubqueryPredicate(s.dataFields, s.dataFilters).value;
    var q := FullQuery(s, dp);
    var rows := Execute(t, q);
    PageEventHasRow(t, q, e);
    var i :| 0 <= i < |rows| && rows[i].eventId == e.eventId;
    LastRowNotOf(t, q, rows, e, later);
    EventsCoverEarlierRows(rows, i);
  }

  /** In the ordered result, the last row is not a row of a page event
      that some other page event comes strictly after. */
  lemma LastRowNotOf(t: Tables, q: SqlQuery, rows: seq<ResultRow>, e: EventRow, later: EventRow)
    requires KeysUnique(t) && q.from.Some? && q.ordered && rows == Execute(t, q)
    requires e in PageOf(t, q.from.value) && later in PageOf(t, q.from.value)
    requires !Precedes(EventKey(later), EventKey(e))
    ensures rows != [] && rows[|rows| - 1].eventId != e.eventId
  {
    PageEventHasRow(t, q, later);
    var rl :| rl in rows && rl.eventId == later.eventId;
    RowKeyOfPageEvent(t, q, rl, later);
    forall r | r in rows && r.eventId == e.eventId ensures RowKey(r) == EventKey(e) {
      RowKeyOfPageEvent(t, q, r, e);
    }
    SortedLastNotOf(rows, rl, EventKey(e), e.eventId);
  }

  /** When the rows of one id all carry a key that some row's key does not
      precede, the last of the sorted rows is not one of them. */
  lemma SortedLastNotOf(rows: seq<ResultRow>, rl: ResultRow, k: (int, int), id: int)
    requires SortedRows(rows) && rl in rows && !Precedes(RowKey(rl), k)
    requires forall r :: r in rows && r.eventId == id ==> RowKey(r) == k
    ensures rows != [] && rows[|rows| - 1].eventId != id
  {
    var i :| 0 <= i < |rows| && rows[i] == rl;
    assert i == |rows| - 1 || Precedes(RowKey(rows[i]), RowKey(rows[|rows| - 1]));
    assert rows[|rows| - 1] in rows;
  }

  /** With unique event keys, a result row carries the key of the page
      event with its id. */
  lemma RowKeyOfPageEvent(t: Tables, q: SqlQuery, r: ResultRow, e: EventRow)
    requires KeysUnique(t) && q.from.Some?
    requires r in Execute(t, q) && e in PageOf(t, q.from.value) && r.eventId == e.eventId
    ensures RowKey(r) == EventKey(e)
  {
    ExecuteFromPage(t, q, r);
    var en :| en in PageOf(t, q.from.value) && RowFrom(t, q, en, r);
    PageRowIsEvent(t, q.from.value, en);
    PageRowIsEvent(t, q.from.value, e);
    SameKeySameEvent(t, en, e);
  }

  /** The search as written returns a page event one of whose attribute
      rows fails a filter, and so does the intended pass. */
  lemma FilteredOutEventReturned(t: Tables, s: Search, e: EventRow, later: EventRow, d: EventDataRow)
    requires KeysUnique(t) && LoadEventsSpec(t, s).Success?
    requires forall x :: x in t.eventData ==> Decode(x).Success?
    requires e in Page(Candidates(t, EventPredicateOf(s)), s.offset, s.limit)
    requires later in Page(Candidates(t, EventPredicateOf(s)), s.offset, s.limit)
    requires !Precedes(EventKey(later), EventKey(e))
    requires d in t.eventData && d.eventId == e.eventId && !AllFiltersHold(FiltersOf(s.dataFilters), d)
    ensures exists j :: 0 <= j < |LoadEventsSpec(t, s).value| && LoadEventsSpec(t, s).value[j].eventId == e.eventId
    ensures LoadEventsIntendedSpec(t, s).Success?
    ensures exists j :: 0 <= j < |LoadEventsIntendedSpec(t, s).value| && LoadEventsIntendedSpec(t, s).value[j].eventId == e.eventId
  {
    LoadEventsReturnsPageEvent(t, s, e, later);
    LoadEventsIntendedPaged(t, s);
  }

  // ---------------------------------------------------------------------
  // The corrected search.

  /** `loadEvents` with the corrected event subquery and the intended pass. */
  function LoadEventsCorrectedSpec(t: Tables, s: Search): Result<seq<EventUi>>
  {
    match BuildEventDataSubqueryPredicate(s.dataFields, s.dataFilters)
    case Failure(e) => Failure(e)
    case Success(dp) => EventsIntended(Execute(t, CorrectedQuery(s, dp)))
  }

  /** The corrected search returns exactly the events of its page, in
      ORDER BY order, and every page event is a candidate that qualifies
      under the filters. */
  lemma LoadEventsCorrected(t: Tables, s: Search)
    requires KeysUnique(t)
    requires BuildEventDataSubqueryPredicate(s.dataFields, s.dataFilters).Success?
    requires forall d :: d in t.eventData ==> Decode(d).Success?
    ensures LoadEventsCorrectedSpec(t, s).Success?
    ensures var evs := LoadEventsCorrectedSpec(t, s).value;
      var page := PageOf(t, CorrectedSubquery(s));
      && PagedEvents(evs, page, s.limit)
      && (forall e :: e in page ==> exists j :: 0 <= j < |evs| && evs[j].eventId == e.eventId)
      && (forall e :: e in page ==>
            e in Candidates(t, EventPredicateOf(s)) && Qualifies(t, FiltersOf(s.dataFilters), e))
      && EventsOrdered(evs)
  {
    var dp := BuildEventDataSubqueryPredicate(s.dataFields, s.dataFilters).value;
    QueryEventsIntended(t, CorrectedQuery(s, dp));
    forall e | e in PageOf(t, CorrectedSubquery(s))
      ensures e in Candidates(t, EventPredicateOf(s)) && Qualifies(t, FiltersOf(s.dataFilters), e)
    {
      PageRowIsEvent(t, CorrectedSubquery(s), e);
    }
  }

  /** The corrected search never returns an event one of whose attribute
      rows fails a filter. */
  lemma CorrectedExcludesFailing(t: Tables, s: Search, d: EventDataRow)
    requires KeysUnique(t)
    requires BuildEventDataSubqueryPredicate(s.dataFields, s.dataFilters).Success?
    requires forall x :: x in t.eventData ==> Decode(x).Success?
    requires d in t.eventData && !AllFiltersHold(FiltersOf(s.dataFilters), d)
    ensures LoadEventsCorrectedSpec(t, s).Success?
    ensures forall j :: 0 <= j < |LoadEventsCorrectedSpec(t, s).value| ==>
      LoadEventsCorrectedSpec(t, s).value[j].eventId != d.eventId
  {
    LoadEventsCorrected(t, s);
    var evs := LoadEventsCorrectedSpec(t, s).value;
    forall j | 0 <= j < |evs| ensures evs[j].eventId != d.eventId {
      if evs[j].eventId == d.eventId {
        assert false;
      }
    }
  }

  // ---------------------------------------------------------------------
  // Which events a page holds.

  /** A page of sorted elements holds, in order, the elements that come
      after the first `offset` and before the rest. */
  lemma SortedPage<T>(srt: seq<T>, key: T -> (int, int), offset: nat, limit: nat)
    requires SortedBy(srt, key)
    ensures var page := Page(srt, offset, limit);
      && SortedBy(page, key)
      && (forall i, k :: 0 <= i < |page| && 0 <= k < offset ==> Precedes(key(srt[k]), key(page[i])))
      && (forall i, k :: 0 <= i < |page| && offset + |page| <= k < |srt| ==> Precedes(key(page[i]), key(srt[k])))
  {
    var page := Page(srt, offset, limit);
    forall i, k | 0 <= i < |page| && 0 <= k < offset
      ensures Precedes(key(srt[k]), key(page[i]))
    {
      assert page[i] == srt[offset + i];
    }
    forall i, k | 0 <= i < |page| && offset + |page| <= k < |srt|
      ensures Precedes(key(page[i]), key(srt[k]))
    {
      assert page[i] == srt[offset + i];
    }
  }

  /** The corrected page holds the qualifying candidates in ORDER BY
      order, after the first `offset` of them and before the rest. */
  lemma CorrectedPageNewest(t: Tables, s: Search)
    ensures var srt := SubqueryEvents(t, CorrectedSubquery(s));
      var page := PageOf(t, CorrectedSubquery(s));
      && multiset(srt) == multiset(Qualifying(t, FiltersOf(s.dataFilters), Candidates(t, EventPredicateOf(s))))
      && page == Page(srt, s.offset, s.limit)
      && SortedBy(page, EventKey)
      && (forall i, k :: 0 <= i < |page| && 0 <= k < s.offset ==> Precedes(EventKey(srt[k]), EventKey(page[i])))
      && (forall i, k :: 0 <= i < |page| && s.offset + |page| <= k < |srt| ==>
            Precedes(EventKey(page[i]), EventKey(srt[k])))
  {
    var q := Qualifying(t, FiltersOf(s.dataFilters), Candidates(t, EventPredicateOf(s)));
    assert SubqueryEvents(t, CorrectedSubquery(s)) == SortBy(q, EventKey);
    SortedPage(SortBy(q, EventKey), EventKey, s.offset, s.limit);
  }

  /** Two events of one application, stored older first. */
  const TwoEvents := Tables([ApplicationRow(1, "app", 1)], [EventTypeRow(2, "type", 1, 2)],
                            [EventRow(3, 2, 10), EventRow(4, 2, 20)], [])

  /** A search of that application for one event. */
  const NewestOne := Search([1], None, None, None, None, None, 0, 1)

  /** As written, when the store lists an older candidate before a newer
      one, the page for OFFSET 0 LIMIT 1 is the older event; the corrected
      page is the newer one, as the ORDER BY clause intends. */
  lemma StorageOrderPage(t: Tables, s: Search, older: EventRow, newer: EventRow)
    requires Candidates(t, EventPredicateOf(s)) == [older, newer]
    requires older.saveTimestamp < newer.saveTimestamp
    requires s.offset == 0 && s.limit == 1 && s.dataFilters.None?
    ensures Page(Candidates(t, EventPredicateOf(s)), s.offset, s.limit) == [older]
    ensures PageOf(t, CorrectedSubquery(s)) == [newer]
  {
    CorrectedEventsOfTwo(t, s, older, newer);
  }

  lemma CorrectedEventsOfTwo(t: Tables, s: Search, older: EventRow, newer: EventRow)
    requires Candidates(t, EventPredicateOf(s)) == [older, newer]
    requires older.saveTimestamp < newer.saveTimestamp && s.dataFilters.None?
    ensures SubqueryEvents(t, CorrectedSubquery(s)) == [newer, older]
  {
    var sub := CorrectedSubquery(s);
    assert sub.sorted && sub.qualifiers == Some([]) && sub.pred == EventPredicateOf(s);
    SortedQualifiedEvents(t, sub);
    NoFiltersQualifyAll(t, [older, newer]);
    SortTwo(older, newer, EventKey);
  }

  lemma SortedQualifiedEvents(t: Tables, sub: EventSubquery)
    requires sub.sorted && sub.qualifiers.Some?
    ensures SubqueryEvents(t, sub) == SortBy(Qualifying(t, sub.qualifiers.value, Candidates(t, sub.pred)), EventKey)
  {
  }

  /** With no filters every event qualifies. */
  lemma {:induction false} NoFiltersQualifyAll(t: Tables, events: seq<EventRow>)
    ensures Qualifying(t, [], events) == events
  {
    if events != [] {
      NoFiltersQualifyAll(t, events[1..]);
      assert Qualifies(t, [], events[0]);
      assert events == [events[0]] + events[1..];
    }
  }

  /** Two elements whose first does not go before the second are swapped. */
  lemma SortTwo<T>(a: T, b: T, key: T -> (int, int))
    requires !Precedes(key(a), key(b))
    ensures SortBy([a, b], key) == [b, a]
  {
    assert [a, b][1..] == [b] && [b][1..] == [];
    assert SortBy([b], key) == [b];
  }

  /** The two stored events: as written the search for the newest event
      pages the older one. */
  lemma TwoEventsStorageOrder()
    ensures Page(Candidates(TwoEvents, EventPredicateOf(NewestOne)), 0, 1) == [EventRow(3, 2, 10)]
    ensures PageOf(TwoEvents, CorrectedSubquery(NewestOne)) == [EventRow(4, 2, 20)]
  {
    TwoEventsCandidates();
    StorageOrderPage(TwoEvents, NewestOne, EventRow(3, 2, 10), EventRow(4, 2, 20));
  }

  /** The two events stored older first are the candidates of the search,
      in that order. */
  lemma TwoEventsCandidates()
    ensures Candidates(TwoEvents, EventPredicateOf(NewestOne)) == [EventRow(3, 2, 10), EventRow(4, 2, 20)]
  {
    var t := TwoEvents;
    var p := EventPredicateOf(NewestOne);
    assert p == AppIdIn([1]);
    var et := EventTypeRow(2, "type", 1, 2);
    assert TypesOf(t, 2) == [et] by {
      assert t.eventTypes[1..] == [];
    }
    assert LeftOptions([et]) == [Some(et)];
    var e3, e4 := EventRow(3, 2, 10), EventRow(4, 2, 20);
    assert [Some(et)][1..] == [];
    assert EventCopies(t, p, e3) == [e3];
    assert EventCopies(t, p, e4) == [e4];
    assert t.events[1..] == [e4] && [e4][1..] == [];
  }
}
