/** EventDataRowMapper: decoding one flat result row's attribute columns,
    by its string type tag, into the event under construction. */
module RowMapper {
  import opened AuditTypes

  /** The two kinds of Java object the tag string is compared with. */
  datatype JavaObject = JString(s: string) | JEnum(constant: EventDataType)

  /** `String.equals(Object)`: true only for a String of the same text. */
  predicate StringEquals(s: string, o: JavaObject)
  {
    o.JString? && o.s == s
  }

  /** `EventDataType.X.toString()` as a Java object. */
  function TagObject(t: EventDataType): JavaObject
  {
    JString(TypeName(t))
  }

  /** The freshly seeded event of a row's header columns. */
  function StartEvent(row: ResultRow): EventUi
  {
    EventUi(row.eventId, row.typeName, row.applicationName, row.saveTimestamp, map[])
  }

  /** The event with one more attribute, replacing one of the same name. */
  function AddData(e: EventUi, d: EventData): EventUi
  {
    e.(eventData := e.eventData[d.name := d])
  }

  /** The typed value stored in the column that type `t` selects. */
  function StoredValue(d: EventDataRow, t: EventDataType): Option<Value>
  {
    match t
    case NUMBER => (match d.numberValue case None => None case Some(n) => Some(NumberValue(n)))
    case STRING => (match d.stringValue case None => None case Some(s) => Some(StringValue(s)))
    case TEXT => (match d.textValue case None => None case Some(s) => Some(TextValue(s)))
    case TIMESTAMP => (match d.timestampValue case None => None case Some(ts) => Some(TimestampValue(ts)))
    case BINARY => (match d.binaryValue case None => None case Some(b) => Some(BinaryValue(b)))
  }

  /** The attribute `addEventDataForRow` decodes from an attribute row, as
      the code is written: the TIMESTAMP test compares the tag string with
      the enum constant itself rather than with its name, so it never
      succeeds. A NULL blob is dereferenced (NullPointer); a NULL string,
      text or number column is handed on to the builder, which is not part
      of this model, and is reported as NullColumn. */
  function Decode(d: EventDataRow): Result<EventData>
  {
    var tag := d.dataType;
    if StringEquals(tag, TagObject(BINARY)) then
      (match d.binaryValue case None => Failure(NullPointer) case Some(b) => Success(EventData(d.name, BinaryValue(b))))
    else if StringEquals(tag, TagObject(STRING)) then
      (match d.stringValue case None => Failure(NullColumn) case Some(s) => Success(EventData(d.name, StringValue(s))))
    else if StringEquals(tag, TagObject(TEXT)) then
      (match d.textValue case None => Failure(NullColumn) case Some(s) => Success(EventData(d.name, TextValue(s))))
    else if StringEquals(tag, TagObject(NUMBER)) then
      (match d.numberValue case None => Failure(NullColumn) case Some(n) => Success(EventData(d.name, NumberValue(n))))
    else if StringEquals(tag, JEnum(TIMESTAMP)) then
      (match d.timestampValue case None => Failure(NullPointer) case Some(ts) => Success(EventData(d.name, TimestampValue(ts))))
    else Failure(IllegalState)
  }

  /** The failure of a row whose tag selects type `t` and whose value
      column is NULL, as written: the blob is dereferenced, the other
      values go to the builder. */
  function NullColumnError(t: EventDataType): Error
  {
    if t == BINARY then NullPointer else NullColumn
  }

  /** The same for the intended decoding, where the timestamp is
      dereferenced as well. */
  function NullColumnErrorIntended(t: EventDataType): Error
  {
    if t == BINARY || t == TIMESTAMP then NullPointer else NullColumn
  }

  /** A result row's attribute; a row the left join left NULL has no tag. */
  function DecodeRow(row: ResultRow): Result<EventData>
  {
    match row.data
    case None => Failure(IllegalArgument)
    case Some(d) => Decode(d)
  }

  /** The decoding the TIMESTAMP branch evidently intends: dispatch on the
      tag's declared type, TIMESTAMP included. A NULL timestamp is
      dereferenced like a NULL blob. */
  function DecodeIntended(d: EventDataRow): Result<EventData>
  {
    var tag := d.dataType;
    if StringEquals(tag, TagObject(BINARY)) then
      (match d.binaryValue case None => Failure(NullPointer) case Some(b) => Success(EventData(d.name, BinaryValue(b))))
    else if StringEquals(tag, TagObject(STRING)) then
      (match d.stringValue case None => Failure(NullColumn) case Some(s) => Success(EventData(d.name, StringValue(s))))
    else if StringEquals(tag, TagObject(TEXT)) then
      (match d.textValue case None => Failure(NullColumn) case Some(s) => Success(EventData(d.name, TextValue(s))))
    else if StringEquals(tag, TagObject(NUMBER)) then
      (match d.numberValue case None => Failure(NullColumn) case Some(n) => Success(EventData(d.name, NumberValue(n))))
    else if StringEquals(tag, TagObject(TIMESTAMP)) then
      (match d.timestampValue case None => Failure(NullPointer) case Some(ts) => Success(EventData(d.name, TimestampValue(ts))))
    else Failure(IllegalState)
  }

  function DecodeRowIntended(row: ResultRow): Result<EventData>
  {
    match row.data
    case None => Failure(IllegalArgument)
    case Some(d) => DecodeIntended(d)
  }

  /** A row's outcome, case by case: a NULL tag is an IllegalArgument; the
      tag of a type other than TIMESTAMP yields that type's column under the
      row's name (a NullPointer for a NULL blob, NullColumn for another NULL
      column); the TIMESTAMP tag and every unknown tag are an
      IllegalState. */
  lemma {:induction false} DecodeRowCases(row: ResultRow)
    ensures row.TypeTag().None? ==> DecodeRow(row) == Failure(IllegalArgument)
    ensures forall t :: row.TypeTag() == Some(TypeName(t)) ==>
      DecodeRow(row) ==
        if t == TIMESTAMP then Failure(IllegalState)
        else match StoredValue(row.data.value, t)
             case None => Failure(NullColumnError(t))
             case Some(v) => Success(EventData(row.data.value.name, v))
    ensures row.TypeTag().Some? && (forall t :: row.TypeTag() != Some(TypeName(t))) ==>
      DecodeRow(row) == Failure(IllegalState)
  {
    forall t | row.TypeTag() == Some(TypeName(t))
      ensures DecodeRow(row) ==
        if t == TIMESTAMP then Failure(IllegalState)
        else match StoredValue(row.data.value, t)
             case None => Failure(NullColumnError(t))
             case Some(v) => Success(EventData(row.data.value.name, v))
    {
      forall t' ensures TypeName(t) == TypeName(t') <==> t == t' {
        TypeNameInjective(t, t');
      }
    }
  }

  /** The intended decoding handles every declared type alike; a NULL
      timestamp, like a NULL blob, is a NullPointer. */
  lemma {:induction false} DecodeRowIntendedCases(row: ResultRow)
    ensures row.TypeTag().None? ==> DecodeRowIntended(row) == Failure(IllegalArgument)
    ensures forall t :: row.TypeTag() == Some(TypeName(t)) ==>
      DecodeRowIntended(row) ==
        match StoredValue(row.data.value, t)
        case None => Failure(NullColumnErrorIntended(t))
        case Some(v) => Success(EventData(row.data.value.name, v))
    ensures row.TypeTag().Some? && (forall t :: row.TypeTag() != Some(TypeName(t))) ==>
      DecodeRowIntended(row) == Failure(IllegalState)
  {
    forall t | row.TypeTag() == Some(TypeName(t))
      ensures DecodeRowIntended(row) ==
        match StoredValue(row.data.value, t)
        case None => Failure(NullColumnErrorIntended(t))
        case Some(v) => Success(EventData(row.data.value.name, v))
    {
      forall t' ensures TypeName(t) == TypeName(t') <==> t == t' {
        TypeNameInjective(t, t');
      }
    }
  }

  /** A row with the TIMESTAMP tag and a timestamp value: the code as
      written refuses it, the intended decoding returns the timestamp. */
  lemma TimestampRowRefused(row: ResultRow, ts: int)
    requires row.data.Some? && row.data.value.dataType == "TIMESTAMP"
    requires row.data.value.timestampValue == Some(ts)
    ensures DecodeRow(row) == Failure(IllegalState)
    ensures DecodeRowIntended(row) == Success(EventData(row.data.value.name, TimestampValue(ts)))
  {
    DecodeRowCases(row);
    DecodeRowIntendedCases(row);
    assert row.TypeTag() == Some(TypeName(TIMESTAMP));
  }

  /** The attributes decoded from a run of rows, later names replacing
      earlier ones. */
  function Attributes(rs: seq<ResultRow>): map<string, EventData>
    decreases |rs|
  {
    if rs == [] then map[]
    else
      var m := Attributes(rs[..|rs| - 1]);
      match DecodeRow(rs[|rs| - 1])
      case Success(d) => m[d.name := d]
      case Failure(_) => m
  }

  /** A decoded attribute keeps the row's attribute name. */
  lemma DecodeRowKeepsName(row: ResultRow)
    ensures DecodeRow(row).Success? ==> row.data.Some? && DecodeRow(row).value.name == row.data.value.name
  {
  }

  /** When every row decodes, the attributes are keyed by exactly the
      decoded names. */
  lemma {:induction false} AttributesKeys(rs: seq<ResultRow>)
    requires forall i :: 0 <= i < |rs| ==> DecodeRow(rs[i]).Success?
    ensures Attributes(rs).Keys == set i | 0 <= i < |rs| :: DecodeRow(rs[i]).value.name
    decreases |rs|
  {
    if rs != [] {
      var n := |rs| - 1;
      var init := rs[..n];
      var d := DecodeRow(rs[n]).value;
      assert forall i :: 0 <= i < n ==> init[i] == rs[i];
      AttributesKeys(init);
      assert Attributes(rs) == Attributes(init)[d.name := d];
      assert (set i | 0 <= i < |rs| :: DecodeRow(rs[i]).value.name)
          == (set i | 0 <= i < n :: DecodeRow(init[i]).value.name) + {d.name};
    }
  }

  /** When every row with an attribute decodes, the attributes are keyed
      by exactly the names of those rows, and each holds the decoding of
      one of them; rows with a NULL attribute add nothing. */
  lemma {:induction false} AttributesOfRows(rs: seq<ResultRow>)
    requires forall i :: 0 <= i < |rs| && rs[i].data.Some? ==> DecodeRow(rs[i]).Success?
    ensures Attributes(rs).Keys == set i | 0 <= i < |rs| && rs[i].data.Some? :: rs[i].data.value.name
    ensures forall n :: n in Attributes(rs) ==>
      exists i :: 0 <= i < |rs| && rs[i].data.Some? && rs[i].data.value.name == n
                  && DecodeRow(rs[i]) == Success(Attributes(rs)[n])
    decreases |rs|
  {
    if rs != [] {
      var k := |rs| - 1;
      var init := rs[..k];
      assert forall i :: 0 <= i < k ==> init[i] == rs[i];
      AttributesOfRows(init);
      DecodeRowKeepsName(rs[k]);
      if rs[k].data.Some? {
        var d := DecodeRow(rs[k]).value;
        assert Attributes(rs) == Attributes(init)[d.name := d];
        assert (set i | 0 <= i < |rs| && rs[i].data.Some? :: rs[i].data.value.name)
            == (set i | 0 <= i < k && init[i].data.Some? :: init[i].data.value.name) + {d.name};
        forall n | n in Attributes(rs)
          ensures exists i :: 0 <= i < |rs| && rs[i].data.Some? && rs[i].data.value.name == n
                              && DecodeRow(rs[i]) == Success(Attributes(rs)[n])
        {
          if n != d.name {
            var i :| 0 <= i < k && init[i].data.Some? && init[i].data.value.name == n
                     && DecodeRow(init[i]) == Success(Attributes(init)[n]);
            assert rs[i] == init[i];
          }
        }
      } else {
        assert Attributes(rs) == Attributes(init);
        assert (set i | 0 <= i < |rs| && rs[i].data.Some? :: rs[i].data.value.name)
            == (set i | 0 <= i < k && init[i].data.Some? :: init[i].data.value.name);
        forall n | n in Attributes(rs)
          ensures exists i :: 0 <= i < |rs| && rs[i].data.Some? && rs[i].data.value.name == n
                              && DecodeRow(rs[i]) == Success(Attributes(rs)[n])
        {
          var i :| 0 <= i < k && init[i].data.Some? && init[i].data.value.name == n
                   && DecodeRow(init[i]) == Success(Attributes(init)[n]);
          assert rs[i] == init[i];
        }
      }
    }
  }

  /** When every row decodes, each attribute holds the decoding of the last
      row of its name. */
  lemma {:induction false} AttributesLastWins(rs: seq<ResultRow>, i: int)
    requires forall k :: 0 <= k < |rs| ==> DecodeRow(rs[k]).Success?
    requires 0 <= i < |rs| && LastOfName(rs, i)
    ensures DecodeRow(rs[i]).value.name in Attributes(rs)
    ensures Attributes(rs)[DecodeRow(rs[i]).value.name] == DecodeRow(rs[i]).value
    decreases |rs|
  {
    var n := |rs| - 1;
    var init := rs[..n];
    var d := DecodeRow(rs[n]).value;
    assert Attributes(rs) == Attributes(init)[d.name := d];
    if i < n {
      assert forall k :: 0 <= k < n ==> init[k] == rs[k];
      AttributesLastWins(init, i);
    }
  }

  /** No later row of `rs` decodes to the same name as row `i`. */
  predicate LastOfName(rs: seq<ResultRow>, i: int)
    requires 0 <= i < |rs|
    requires forall k :: 0 <= k < |rs| ==> DecodeRow(rs[k]).Success?
  {
    forall k :: i < k < |rs| ==> DecodeRow(rs[k]).value.name != DecodeRow(rs[i]).value.name
  }

  /** `EventUi.Builder`: the event under construction. */
  class EventBuilder {
    var eventId: int
    var typeName: Option<string>
    var applicationName: Option<string>
    var saveTimestamp: int
    var eventData: map<string, EventData>

    /** The event `build()` returns in the current state. */
    function Value(): EventUi
      reads this
    {
      EventUi(eventId, typeName, applicationName, saveTimestamp, eventData)
    }

    /** A builder seeded with a row's id, type name, application name and
        save timestamp, and no attributes. */
    constructor (row: ResultRow)
      ensures Value() == StartEvent(row)
    {
      eventId := row.eventId;
      typeName := row.typeName;
      applicationName := row.applicationName;
      saveTimestamp := row.saveTimestamp;
      eventData := map[];
    }

    method Build() returns (e: EventUi)
      ensures e == Value()
    {
      e := EventUi(eventId, typeName, applicationName, saveTimestamp, eventData);
    }

    /** `stringData`, `textData`, `numberData`, `binaryData`,
        `timestampData`: put one attribute under its name. */
    method Put(d: EventData)
      modifies this
      ensures Value() == AddData(old(Value()), d)
    {
      eventData := eventData[d.name := d];
    }
  }

  /** `addBlobData`: copy the blob's bytes into the builder; a NULL blob is
      dereferenced, and the builder is left as it was. */
  method AddBlobData(builder: EventBuilder, dataName: string, d: EventDataRow) returns (o: Outcome)
    modifies builder
    ensures d.binaryValue.Some? ==>
      o == Pass && builder.Value() == AddData(old(builder.Value()), EventData(dataName, BinaryValue(d.binaryValue.value)))
    ensures d.binaryValue.None? ==> o == Fail(NullPointer) && builder.Value() == old(builder.Value())
  {
    match d.binaryValue {
      case None =>
        o := Fail(NullPointer);
      case Some(bytes) =>
        builder.Put(EventData(dataName, BinaryValue(bytes)));
        o := Pass;
    }
  }

  /** `addEventDataForRow`: on success exactly one attribute, keyed by the
      row's attribute name, is put into the builder and nothing else
      changes; on failure the builder is left as it was. */
  method AddEventDataForRow(builder: EventBuilder, row: ResultRow) returns (o: Outcome)
    modifies builder
    ensures DecodeRow(row).Success? ==>
      o == Pass && builder.Value() == AddData(old(builder.Value()), DecodeRow(row).value)
    ensures DecodeRow(row).Failure? ==>
      o == Fail(DecodeRow(row).error) && builder.Value() == old(builder.Value())
  {
    if row.data.None? {
      return Fail(IllegalArgument);
    }
    var d := row.data.value;
    var tag := d.dataType;
    var dataName := d.name;
    if StringEquals(tag, TagObject(BINARY)) {
      o := AddBlobData(builder, dataName, d);
    } else if StringEquals(tag, TagObject(STRING)) {
      match d.stringValue {
        case None => o := Fail(NullColumn);
        case Some(s) => builder.Put(EventData(dataName, StringValue(s))); o := Pass;
      }
    } else if StringEquals(tag, TagObject(TEXT)) {
      match d.textValue {
        case None => o := Fail(NullColumn);
        case Some(s) => builder.Put(EventData(dataName, TextValue(s))); o := Pass;
      }
    } else if StringEquals(tag, TagObject(NUMBER)) {
      match d.numberValue {
        case None => o := Fail(NullColumn);
        case Some(n) => builder.Put(EventData(dataName, NumberValue(n))); o := Pass;
      }
    } else if StringEquals(tag, JEnum(TIMESTAMP)) {
      // A String never equals an enum constant: the body of this branch,
      // which would put the row's timestamp, cannot run.
      assert false;
    } else {
      o := Fail(IllegalState);
    }
  }
}
