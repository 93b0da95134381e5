/** EventPersister: logging one event writes its event row and then one
    attribute row per datum, in order, with the one value column its
    declared type selects. */
module Persister {
  import opened AuditTypes
  import opened Store
  import opened RowMapper
  import opened SingleLoader

  /** `addEventDataValue`: set the value column the datum's type selects. */
  function AddEventDataValue(row: EventDataRow, v: Value): EventDataRow
  {
    match v
    case NumberValue(n) => row.(numberValue := Some(n))
    case StringValue(s) => row.(stringValue := Some(s))
    case TextValue(s) => row.(textValue := Some(s))
    case BinaryValue(b) => row.(binaryValue := Some(b))
    case TimestampValue(ts) => row.(timestampValue := Some(ts))
  }

  /** The attribute row inserted for one datum of the event `eventId`. */
  function EncodeEventData(eventId: int, d: EventData): EventDataRow
  {
    AddEventDataValue(EventDataRow(eventId, d.name, TypeName(d.value.DataType()), None, None, None, None, None), d.value)
  }

  /** The attribute rows inserted for the data array, in array order. */
  function EncodeAll(eventId: int, ds: seq<EventData>): seq<EventDataRow>
  {
    seq(|ds|, i requires 0 <= i < |ds| => EncodeEventData(eventId, ds[i]))
  }

  /** How many value columns of an attribute row are set. */
  function SetColumns(row: EventDataRow): nat
  {
    (if row.numberValue.Some? then 1 else 0) + (if row.stringValue.Some? then 1 else 0)
    + (if row.textValue.Some? then 1 else 0) + (if row.timestampValue.Some? then 1 else 0)
    + (if row.binaryValue.Some? then 1 else 0)
  }

  /** The inserted row carries the event id, the datum's name and its
      type's tag, and exactly one value column: the one its type selects,
      holding the datum's value. */
  lemma EncodeSetsOneColumn(eventId: int, d: EventData)
    ensures var row := EncodeEventData(eventId, d);
      && row.eventId == eventId && row.name == d.name && row.dataType == TypeName(d.value.DataType())
      && SetColumns(row) == 1
      && StoredValue(row, d.value.DataType()) == Some(d.value)
  {
  }

  /** Decoding an inserted row gives the datum back for NUMBER, STRING,
      TEXT and BINARY; as written, a TIMESTAMP row is refused, while the
      intended decoding gives every type back. */
  lemma EncodeDecodeRoundTrip(eventId: int, d: EventData)
    ensures d.value.DataType() != TIMESTAMP ==> Decode(EncodeEventData(eventId, d)) == Success(d)
    ensures d.value.DataType() == TIMESTAMP ==> Decode(EncodeEventData(eventId, d)) == Failure(IllegalState)
    ensures DecodeIntended(EncodeEventData(eventId, d)) == Success(d)
  {
    var row := EncodeEventData(eventId, d);
    var r := ResultRow(None, None, eventId, 0, Some(row));
    DecodeRowCases(r);
    DecodeRowIntendedCases(r);
    assert r.TypeTag() == Some(TypeName(d.value.DataType()));
  }

  /** `EventPersister`: the event to log and the id of its event type. */
  class EventPersister {
    const db: Database
    const eventTypeId: int
    const event: AuditEvent

    constructor (db: Database, eventTypeId: int, event: AuditEvent)
      ensures this.db == db && this.eventTypeId == eventTypeId && this.event == event
    {
      this.db := db;
      this.eventTypeId := eventTypeId;
      this.event := event;
    }

    /** `get`: one event row with a generated key, then the attribute rows
        carrying that key; nothing else changes. */
    method Get()
      requires db.Valid() && HasEventType(db.tables, eventTypeId)
      modifies db
      ensures db.Valid() && db.nextKey == old(db.nextKey) + 1 && db.nextResource == old(db.nextResource)
      ensures db.tables == old(db.tables).(
        events := old(db.tables.events) + [EventRow(old(db.nextKey), eventTypeId, event.saveTimestamp)],
        eventData := old(db.tables.eventData) + EncodeAll(old(db.nextKey), event.eventData))
    {
      var eventId := db.InsertEvent(eventTypeId, event.saveTimestamp);
      assert EventRow(eventId, eventTypeId, event.saveTimestamp) in db.tables.events;
      InsertAll(db, eventId, event.eventData);
    }
  }

  /** The attribute rows of the event `eventId`, inserted one by one in
      array order; only the attribute table grows. */
  method InsertAll(db: Database, eventId: int, ds: seq<EventData>)
    requires db.Valid() && HasEvent(db.tables, eventId)
    modifies db
    ensures db.Valid() && db.nextKey == old(db.nextKey) && db.nextResource == old(db.nextResource)
    ensures db.tables == old(db.tables).(eventData := old(db.tables.eventData) + EncodeAll(eventId, ds))
  {
    ghost var t1 := db.tables;
    var i := 0;
    while i < |ds|
      invariant 0 <= i <= |ds|
      invariant db.Valid() && db.nextKey == old(db.nextKey) && db.nextResource == old(db.nextResource)
      invariant db.tables == t1.(eventData := t1.eventData + EncodeAll(eventId, ds[..i]))
    {
      assert db.tables.events == t1.events;
      var enc := EncodeEventData(eventId, ds[i]);
      ghost var prefix := EncodeAll(eventId, ds[..i]);
      db.InsertEventData(enc);
      EncodeAllSnoc(eventId, ds, i);
      AppendAssoc(t1.eventData, prefix, [enc]);
      i := i + 1;
    }
    assert ds[..i] == ds;
  }

  lemma AppendAssoc<T>(a: seq<T>, b: seq<T>, c: seq<T>)
    ensures (a + b) + c == a + (b + c)
  {
  }

  lemma EncodeAllSnoc(eventId: int, ds: seq<EventData>, i: int)
    requires 0 <= i < |ds|
    ensures EncodeAll(eventId, ds[..i + 1]) == EncodeAll(eventId, ds[..i]) + [EncodeEventData(eventId, ds[i])]
  {
  }

  /** The encoded rows carry exactly the data's names. */
  lemma EncodedNames(k: int, ds: seq<EventData>)
    ensures (set d | d in EncodeAll(k, ds) :: d.name) == set d | d in ds :: d.name
  {
    var rows := EncodeAll(k, ds);
    var lhs := set d | d in rows :: d.name;
    var rhs := set d | d in ds :: d.name;
    forall x | x in rhs ensures x in lhs {
      var d :| d in ds && d.name == x;
      var i :| 0 <= i < |ds| && ds[i] == d;
      assert rows[i].name == x;
    }
  }

  /** Encoded rows of non-TIMESTAMP data all decode. */
  lemma EncodedRowsDecode(k: int, ds: seq<EventData>)
    requires forall i :: 0 <= i < |ds| ==> ds[i].value.DataType() != TIMESTAMP
    ensures forall d :: d in EncodeAll(k, ds) ==> Decode(d).Success?
  {
    var rows := EncodeAll(k, ds);
    forall d | d in rows ensures Decode(d).Success? {
      var i :| 0 <= i < |ds| && rows[i] == d;
      EncodeDecodeRoundTrip(k, ds[i]);
    }
  }

  /** The attribute rows of a freshly logged event are exactly the encoded
      data: no earlier attribute row carries the new key. */
  lemma LoggedRows(t: Tables, k: int, e: EventRow, ds: seq<EventData>)
    requires Consistent(t, k) && e.eventId == k
    ensures var t' := t.(events := t.events + [e], eventData := t.eventData + EncodeAll(k, ds));
      JoinedData(t', k, JoinFor(None)) == EncodeAll(k, ds)
  {
    var t' := t.(events := t.events + [e], eventData := t.eventData + EncodeAll(k, ds));
    var p := (d: EventDataRow) => d.eventId == k;
    NullPredicateAdmitsAll(t', k);
    FilterAppend(t.eventData, EncodeAll(k, ds), p);
    forall d | d in t.eventData ensures !p(d) {
      var e0 :| e0 in t.events && e0.eventId == d.eventId;
    }
    FilterNone(t.eventData, p);
    FilterAll(EncodeAll(k, ds), p);
  }

  /** No later datum of `ds` has the name of datum `i`: its value is the
      one the stored event keeps under that name. */
  predicate LastNamed(ds: seq<EventData>, i: int)
    requires 0 <= i < |ds|
  {
    forall k :: i < k < |ds| ==> ds[k].name != ds[i].name
  }

  /** Logging an event into consistent tables and loading it back with no
      attribute predicate gives the event with its type and application
      names, its timestamp, one attribute per datum name, and under each
      name the last datum of that name, value and type included (none of
      the data being a TIMESTAMP, which the decoder refuses as written). */
  lemma LoggedEventReadBack(t: Tables, k: int, et: EventTypeRow, a: ApplicationRow, ts: int, ds: seq<EventData>)
    requires Consistent(t, k)
    requires et in t.eventTypes && a in t.applications && a.applicationId == et.applicationId
    requires forall i :: 0 <= i < |ds| ==> ds[i].value.DataType() != TIMESTAMP
    ensures var t' := t.(events := t.events + [EventRow(k, et.eventTypeId, ts)],
                         eventData := t.eventData + EncodeAll(k, ds));
      && LoadEventSpec(t', k, None).Success?
      && LoadEventSpec(t', k, None).value.Some?
      && var ev := LoadEventSpec(t', k, None).value.value;
      && ev.eventId == k && ev.typeName == Some(et.name) && ev.applicationName == Some(a.name)
      && ev.saveTimestamp == ts
      && ev.eventData.Keys == (set d | d in ds :: d.name)
      && (forall i :: 0 <= i < |ds| && LastNamed(ds, i) ==> ds[i].name in ev.eventData && ev.eventData[ds[i].name] == ds[i])
  {
    var e := EventRow(k, et.eventTypeId, ts);
    var t' := t.(events := t.events + [e], eventData := t.eventData + EncodeAll(k, ds));
    AppendEventConsistent(t, k, e);
    assert KeysUnique(t');
    LoggedRows(t, k, e, ds);
    EncodedRowsDecode(k, ds);
    assert e in t'.events && et in t'.eventTypes && a in t'.applications;
    LoadEventFound(t', None, e, et, a);
    EncodedNames(k, ds);
    EncodedValues(k, ds, LoadEventSpec(t', k, None).value.value.eventData);
  }

  /** An attribute map holding, under each name, the decoding of the last
      encoded row of that name holds the last datum of that name. */
  lemma EncodedValues(k: int, ds: seq<EventData>, m: map<string, EventData>)
    requires forall i :: 0 <= i < |ds| ==> ds[i].value.DataType() != TIMESTAMP
    requires var rows := EncodeAll(k, ds);
      forall i :: 0 <= i < |rows| && LastRowNamed(rows, i) ==>
        rows[i].name in m && m[rows[i].name] == Decode(rows[i]).value
    ensures forall i :: 0 <= i < |ds| && LastNamed(ds, i) ==> ds[i].name in m && m[ds[i].name] == ds[i]
  {
    var rows := EncodeAll(k, ds);
    assert forall j :: 0 <= j < |rows| ==> rows[j] == EncodeEventData(k, ds[j]) && rows[j].name == ds[j].name;
    forall i | 0 <= i < |ds| && LastNamed(ds, i)
      ensures ds[i].name in m && m[ds[i].name] == ds[i]
    {
      assert LastRowNamed(rows, i);
      EncodedValueAt(k, ds[i], m);
    }
  }

  lemma EncodedValueAt(k: int, d: EventData, m: map<string, EventData>)
    requires d.value.DataType() != TIMESTAMP
    requires Decode(EncodeEventData(k, d)).Success? ==>
      EncodeEventData(k, d).name in m && m[EncodeEventData(k, d).name] == Decode(EncodeEventData(k, d)).value
    ensures d.name in m && m[d.name] == d
  {
    EncodeDecodeRoundTrip(k, d);
    EncodeSetsOneColumn(k, d);
  }
}
