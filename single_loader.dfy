/** SingleEventLoader: one event by id, with all of its attributes or only
    those an attribute predicate admits. */
module SingleLoader {
  import opened AuditTypes
  import opened Predicates
  import opened RowMapper

  /** How the attribute table is joined: the table itself, or the subquery
      of the attribute rows a predicate admits. */
  datatype DataJoin = PlainJoin | FilteredJoin(pred: DataPred)

  /** The query `singleEventQuery` builds: event, event type and
      application joined, the attribute rows left-joined, restricted to one
      event id. */
  datatype SingleQuery = SingleQuery(eventId: int, join: DataJoin)

  /** `joinEventData`: a NULL predicate joins the whole attribute table. */
  function JoinFor(pred: Option<DataPred>): DataJoin
  {
    match pred
    case None => PlainJoin
    case Some(p) => FilteredJoin(p)
  }

  predicate Admits(j: DataJoin, d: EventDataRow)
  {
    match j
    case PlainJoin => true
    case FilteredJoin(p) => EvalData(p, d)
  }

  /** The attribute rows of event `id` the join admits, in storage order. */
  function JoinedData(t: Tables, id: int, j: DataJoin): seq<EventDataRow>
  {
    Filter(t.eventData, (d: EventDataRow) => d.eventId == id && Admits(j, d))
  }

  /** The result rows of one event, its type and its application, one per
      left-joined attribute row. */
  function RowsFor(a: ApplicationRow, et: EventTypeRow, e: EventRow, ds: seq<Option<EventDataRow>>)
    : seq<ResultRow>
  {
    seq(|ds|, i requires 0 <= i < |ds| =>
      ResultRow(Some(a.name), Some(et.name), e.eventId, e.saveTimestamp, ds[i]))
  }

  /** The rows of an event with its type (inner join) and the type's
      application (inner join). */
  function ApplicationRowsOfType(t: Tables, e: EventRow, et: EventTypeRow, j: DataJoin): seq<ResultRow>
  {
    FlatMap(Filter(t.applications, (a: ApplicationRow) => a.applicationId == et.applicationId),
      (a: ApplicationRow) => RowsFor(a, et, e, LeftOptions(JoinedData(t, e.eventId, j))))
  }

  function EventRows(t: Tables, e: EventRow, j: DataJoin): seq<ResultRow>
  {
    FlatMap(Filter(t.eventTypes, (et: EventTypeRow) => et.eventTypeId == e.eventTypeId),
      (et: EventTypeRow) => ApplicationRowsOfType(t, e, et, j))
  }

  /** The rows the query returns. */
  function RunQuery(t: Tables, q: SingleQuery): seq<ResultRow>
  {
    FlatMap(Filter(t.events, (e: EventRow) => e.eventId == q.eventId),
      (e: EventRow) => EventRows(t, e, q.join))
  }

  /** The event seeded by `e` with the attributes of `rows` added in order,
      or the first row's decoding error. */
  function AddRows(e: EventUi, rows: seq<ResultRow>): Result<EventUi>
    decreases |rows|
  {
    if rows == [] then Success(e)
    else
      match AddRows(e, rows[..|rows| - 1])
      case Failure(err) => Failure(err)
      case Success(e') =>
        match DecodeRow(rows[|rows| - 1])
        case Failure(err) => Failure(err)
        case Success(d) => Success(AddData(e', d))
  }

  /** What `mapToEvent` makes of the rows: nothing for no rows, the bare
      header when the first row has no attribute, otherwise the header of
      the first row with every row's attribute. */
  function EventOfRows(rows: seq<ResultRow>): Result<Option<EventUi>>
  {
    if rows == [] then Success(None)
    else if rows[0].TypeTag().None? then Success(Some(StartEvent(rows[0])))
    else
      match AddRows(StartEvent(rows[0]), rows)
      case Failure(err) => Failure(err)
      case Success(ev) => Success(Some(ev))
  }

  /** Adding rows succeeds exactly when every row decodes, and then adds
      the decoded attributes. */
  lemma {:induction false} AddRowsAttributes(e: EventUi, rows: seq<ResultRow>)
    requires e.eventData == map[]
    ensures AddRows(e, rows).Success? <==> forall i :: 0 <= i < |rows| ==> DecodeRow(rows[i]).Success?
    ensures AddRows(e, rows).Success? ==> AddRows(e, rows).value == e.(eventData := Attributes(rows))
    decreases |rows|
  {
    if rows != [] {
      var n := |rows| - 1;
      assert forall i :: 0 <= i < n ==> rows[..n][i] == rows[i];
      AddRowsAttributes(e, rows[..n]);
    }
  }

  /** Once a prefix fails, adding the remaining rows fails the same way. */
  lemma {:induction false} AddRowsFailureSticks(e: EventUi, rows: seq<ResultRow>, k: int)
    requires 0 <= k <= |rows| && AddRows(e, rows[..k]).Failure?
    ensures AddRows(e, rows) == AddRows(e, rows[..k])
    decreases |rows| - k
  {
    if k < |rows| {
      assert rows[..k + 1][..k] == rows[..k];
      AddRowsFailureSticks(e, rows, k + 1);
    } else {
      assert rows[..k] == rows;
    }
  }

  /** `mapToEvent`. */
  method MapToEvent(rows: seq<ResultRow>) returns (r: Result<Option<EventUi>>)
    ensures r == EventOfRows(rows)
  {
    if |rows| == 0 {
      return Success(None);
    }
    var firstRow := rows[0];
    var builder := new EventBuilder(firstRow);
    if firstRow.TypeTag().None? {
      var e := builder.Build();
      return Success(Some(e));
    }
    assert rows[..1] == [firstRow] && [firstRow][..0] == [];
    var o := AddEventDataForRow(builder, firstRow);
    if o.Fail? {
      AddRowsFailureSticks(StartEvent(firstRow), rows, 1);
      return Failure(o.error);
    }
    var i := 1;
    while i < |rows|
      invariant 1 <= i <= |rows|
      invariant fresh(builder)
      invariant AddRows(StartEvent(firstRow), rows[..i]) == Success(builder.Value())
    {
      var row := rows[i];
      assert rows[..i + 1][..i] == rows[..i];
      o := AddEventDataForRow(builder, row);
      if o.Fail? {
        AddRowsFailureSticks(StartEvent(firstRow), rows, i + 1);
        return Failure(o.error);
      }
      i := i + 1;
    }
    assert rows[..i] == rows;
    var e := builder.Build();
    r := Success(Some(e));
  }

  /** `SingleEventLoader`: the query it last built is its only state. */
  class SingleEventLoader {
    var query: Option<SingleQuery>

    constructor ()
      ensures query == None
    {
      query := None;
    }

    /** `singleEventQuery`: build the query for one event id and run it. */
    method SingleEventQuery(t: Tables, eventId: int, pred: Option<DataPred>) returns (rows: seq<ResultRow>)
      modifies this
      ensures query == Some(SingleQuery(eventId, JoinFor(pred)))
      ensures rows == RunQuery(t, query.value)
    {
      var join := JoinFor(pred);
      query := Some(SingleQuery(eventId, join));
      rows := RunQuery(t, query.value);
    }

    /** `loadEvent`, with or without an attribute predicate. */
    method LoadEvent(t: Tables, eventId: int, pred: Option<DataPred>) returns (r: Result<Option<EventUi>>)
      modifies this
      ensures r == LoadEventSpec(t, eventId, pred)
    {
      var rows := SingleEventQuery(t, eventId, pred);
      r := MapToEvent(rows);
    }
  }

  /** What `loadEvent` returns for the tables. */
  function LoadEventSpec(t: Tables, eventId: int, pred: Option<DataPred>): Result<Option<EventUi>>
  {
    EventOfRows(RunQuery(t, SingleQuery(eventId, JoinFor(pred))))
  }

  /** No event with the id: no rows, and `loadEvent` returns null. */
  lemma LoadEventNotFound(t: Tables, eventId: int, pred: Option<DataPred>)
    requires forall e :: e in t.events ==> e.eventId != eventId
    ensures RunQuery(t, SingleQuery(eventId, JoinFor(pred))) == []
    ensures LoadEventSpec(t, eventId, pred) == Success(None)
  {
    FilterNone(t.events, (e: EventRow) => e.eventId == eventId);
  }

  /** With unique keys, the query for an existing event returns the rows of
      that event, its type and its application, one per admitted attribute
      row (or one without an attribute when none is admitted). */
  lemma QueryRowsOfEvent(t: Tables, j: DataJoin, e: EventRow, et: EventTypeRow, a: ApplicationRow)
    requires KeysUnique(t)
    requires e in t.events && et in t.eventTypes && a in t.applications
    requires et.eventTypeId == e.eventTypeId && a.applicationId == et.applicationId
    ensures RunQuery(t, SingleQuery(e.eventId, j)) == RowsFor(a, et, e, LeftOptions(JoinedData(t, e.eventId, j)))
  {
    var ie :| 0 <= ie < |t.events| && t.events[ie] == e;
    FilterSingle(t.events, (x: EventRow) => x.eventId == e.eventId, ie);
    FlatMapSingle(e, (x: EventRow) => EventRows(t, x, j));
    var it :| 0 <= it < |t.eventTypes| && t.eventTypes[it] == et;
    FilterSingle(t.eventTypes, (x: EventTypeRow) => x.eventTypeId == e.eventTypeId, it);
    FlatMapSingle(et, (x: EventTypeRow) => ApplicationRowsOfType(t, e, x, j));
    var ia :| 0 <= ia < |t.applications| && t.applications[ia] == a;
    FilterSingle(t.applications, (x: ApplicationRow) => x.applicationId == et.applicationId, ia);
    FlatMapSingle(a, (x: ApplicationRow) => RowsFor(x, et, e, LeftOptions(JoinedData(t, e.eventId, j))));
  }

  /** No later attribute row of `ds` has the name of row `i`: its value is
      the one the event keeps under that name. */
  predicate LastRowNamed(ds: seq<EventDataRow>, i: int)
    requires 0 <= i < |ds|
  {
    forall k :: i < k < |ds| ==> ds[k].name != ds[i].name
  }

  /** With unique keys, loading an existing event whose admitted attribute
      rows all decode returns that event: its id, type name, application
      name and save timestamp, exactly the admitted attributes' names as
      keys, and under each name the decoding of the last admitted row of
      that name. */
  lemma LoadEventFound(t: Tables, pred: Option<DataPred>, e: EventRow, et: EventTypeRow, a: ApplicationRow)
    requires KeysUnique(t)
    requires e in t.events && et in t.eventTypes && a in t.applications
    requires et.eventTypeId == e.eventTypeId && a.applicationId == et.applicationId
    requires forall d :: d in JoinedData(t, e.eventId, JoinFor(pred)) ==> Decode(d).Success?
    ensures LoadEventSpec(t, e.eventId, pred).Success?
    ensures LoadEventSpec(t, e.eventId, pred).value.Some?
    ensures var ev := LoadEventSpec(t, e.eventId, pred).value.value;
      var ds := JoinedData(t, e.eventId, JoinFor(pred));
      && ev.eventId == e.eventId && ev.typeName == Some(et.name)
      && ev.applicationName == Some(a.name) && ev.saveTimestamp == e.saveTimestamp
      && ev.eventData.Keys == (set d | d in ds :: d.name)
      && (forall i :: 0 <= i < |ds| && LastRowNamed(ds, i) ==>
            ds[i].name in ev.eventData && ev.eventData[ds[i].name] == Decode(ds[i]).value)
  {
    QueryRowsOfEvent(t, JoinFor(pred), e, et, a);
    EventOfJoinedRows(a, et, e, JoinedData(t, e.eventId, JoinFor(pred)));
  }

  /** The event `mapToEvent` makes of one event's joined rows when every
      attribute row decodes: the header, the attributes the rows decode to,
      keyed by exactly the rows' names, each holding the decoding of the
      last row of its name. */
  lemma EventOfJoinedRows(a: ApplicationRow, et: EventTypeRow, e: EventRow, ds: seq<EventDataRow>)
    requires forall d :: d in ds ==> Decode(d).Success?
    ensures EventOfRows(RowsFor(a, et, e, LeftOptions(ds))).Success?
    ensures EventOfRows(RowsFor(a, et, e, LeftOptions(ds))).value.Some?
    ensures var ev := EventOfRows(RowsFor(a, et, e, LeftOptions(ds))).value.value;
      && ev.eventId == e.eventId && ev.typeName == Some(et.name)
      && ev.applicationName == Some(a.name) && ev.saveTimestamp == e.saveTimestamp
      && ev.eventData == Attributes(RowsFor(a, et, e, LeftOptions(ds)))
      && ev.eventData.Keys == (set d | d in ds :: d.name)
      && (forall i :: 0 <= i < |ds| && LastRowNamed(ds, i) ==>
            ds[i].name in ev.eventData && ev.eventData[ds[i].name] == Decode(ds[i]).value)
  {
    var rows := RowsFor(a, et, e, LeftOptions(ds));
    if ds == [] {
      assert LeftOptions(ds) == [None];
      assert rows[0].TypeTag().None?;
      assert rows[..0] == [];
    } else {
      AttributeRowsDecode(a, et, e, ds);
      AddRowsAttributes(StartEvent(rows[0]), rows);
      AttributesKeys(rows);
      forall i | 0 <= i < |ds| && LastRowNamed(ds, i)
        ensures ds[i].name in Attributes(rows) && Attributes(rows)[ds[i].name] == Decode(ds[i]).value
      {
        assert forall k :: 0 <= k < |rows| ==> rows[k].data == Some(ds[k]);
        assert LastOfName(rows, i);
        AttributesLastWins(rows, i);
      }
    }
  }

  /** Every joined row of a non-empty attribute list carries its attribute,
      decodes, and keeps the attribute's name. */
  lemma AttributeRowsDecode(a: ApplicationRow, et: EventTypeRow, e: EventRow, ds: seq<EventDataRow>)
    requires ds != [] && forall d :: d in ds ==> Decode(d).Success?
    ensures var rows := RowsFor(a, et, e, LeftOptions(ds));
      && rows[0].TypeTag().Some?
      && (forall i :: 0 <= i < |rows| ==> DecodeRow(rows[i]).Success?)
      && (forall i :: 0 <= i < |rows| ==> DecodeRow(rows[i]) == Decode(ds[i]))
      && (forall i :: 0 <= i < |rows| ==> DecodeRow(rows[i]).value.name == ds[i].name)
      && (set i | 0 <= i < |rows| :: DecodeRow(rows[i]).value.name) == set d | d in ds :: d.name
  {
    var rows := RowsFor(a, et, e, LeftOptions(ds));
    assert |rows| == |ds|;
    assert forall i :: 0 <= i < |rows| ==> rows[i].data == Some(ds[i]);
    forall i | 0 <= i < |rows| ensures DecodeRow(rows[i]).Success? && DecodeRow(rows[i]).value.name == ds[i].name {
      DecodeRowKeepsName(rows[i]);
    }
    var lhs := set i | 0 <= i < |rows| :: DecodeRow(rows[i]).value.name;
    var rhs := set d | d in ds :: d.name;
    forall x | x in rhs ensures x in lhs {
      var d :| d in ds && d.name == x;
      var i :| 0 <= i < |ds| && ds[i] == d;
      assert DecodeRow(rows[i]).value.name == x;
    }
  }

  /** With unique keys, an admitted attribute row that does not decode (a
      TIMESTAMP attribute, say) makes loading its event fail. */
  lemma LoadEventUndecodable(t: Tables, pred: Option<DataPred>, e: EventRow, et: EventTypeRow,
                             a: ApplicationRow, d: EventDataRow)
    requires KeysUnique(t)
    requires e in t.events && et in t.eventTypes && a in t.applications
    requires et.eventTypeId == e.eventTypeId && a.applicationId == et.applicationId
    requires d in JoinedData(t, e.eventId, JoinFor(pred)) && Decode(d).Failure?
    ensures LoadEventSpec(t, e.eventId, pred).Failure?
  {
    var j := JoinFor(pred);
    var ds := JoinedData(t, e.eventId, j);
    QueryRowsOfEvent(t, j, e, et, a);
    var rows := RowsFor(a, et, e, LeftOptions(ds));
    var k :| 0 <= k < |ds| && ds[k] == d;
    assert rows[k].data == Some(d);
    AddRowsAttributes(StartEvent(rows[0]), rows);
  }

  /** A NULL predicate and the always-true predicate join the same
      attribute rows. */
  lemma NullPredicateAdmitsAll(t: Tables, id: int)
    ensures JoinedData(t, id, JoinFor(None)) == JoinedData(t, id, JoinFor(Some(TruePred)))
    ensures JoinedData(t, id, JoinFor(None)) == Filter(t.eventData, (d: EventDataRow) => d.eventId == id)
  {
    FilterAgree(t.eventData, (d: EventDataRow) => d.eventId == id && Admits(PlainJoin, d),
                (d: EventDataRow) => d.eventId == id && Admits(FilteredJoin(TruePred), d));
    FilterAgree(t.eventData, (d: EventDataRow) => d.eventId == id && Admits(PlainJoin, d),
                (d: EventDataRow) => d.eventId == id);
  }
}
