/** Shared vocabulary of the audit store: the typed attribute values, the
    rows of the four tables, the flat rows a query returns and the pivoted
    event the caller sees. */
module AuditTypes {

  datatype Option<+T> = None | Some(value: T)

  /** The exceptions the core raises, and the store's constraint errors. */
  datatype Error =
    | NullPointer          // Objects.requireNonNull on a null argument, or a NULL blob dereferenced
    | IllegalArgument      // missing application, BINARY filter, null type tag
    | IllegalState         // a type tag the decoder does not recognise
    | ConstraintViolation  // the store refused an insert (unique or foreign key)
    | NullColumn           // a NULL string, text or number column reached the event builder

  datatype Result<+T> = Success(value: T) | Failure(error: Error)

  /** The result of a call that returns nothing (Java `void`). */
  datatype Outcome = Pass | Fail(error: Error)

  /** The declared type of an attribute. */
  datatype EventDataType = NUMBER | STRING | TEXT | TIMESTAMP | BINARY

  /** `EventDataType.toString()`: the tag stored in the type column. */
  function TypeName(t: EventDataType): (s: string)
    ensures |s| > 0
  {
    match t
    case NUMBER => "NUMBER"
    case STRING => "STRING"
    case TEXT => "TEXT"
    case TIMESTAMP => "TIMESTAMP"
    case BINARY => "BINARY"
  }

  /** Distinct types are stored under distinct tags, so a tag names its type. */
  lemma TypeNameInjective(t1: EventDataType, t2: EventDataType)
    ensures TypeName(t1) == TypeName(t2) <==> t1 == t2
  {
    if t1 != t2 {
      assert TypeName(t1)[0] != TypeName(t2)[0] || TypeName(t1)[1] != TypeName(t2)[1];
    }
  }

  /** A typed attribute value. Numbers are integers and timestamps are
      integer instants in this model. */
  datatype Value =
    | NumberValue(n: int)
    | StringValue(s: string)
    | TextValue(s: string)
    | TimestampValue(t: int)
    | BinaryValue(bytes: seq<bv8>)
  {
    function DataType(): EventDataType
    {
      match this
      case NumberValue(_) => NUMBER
      case StringValue(_) => STRING
      case TextValue(_) => TEXT
      case TimestampValue(_) => TIMESTAMP
      case BinaryValue(_) => BINARY
    }
  }

  /** One named, typed attribute of an event. */
  datatype EventData = EventData(name: string, value: Value)

  /** An event handed to the store for logging; either name may be null. */
  datatype AuditEvent = AuditEvent(
    name: Option<string>,     // the event type name
    applicationName: Option<string>,
    saveTimestamp: int,
    eventData: seq<EventData>)

  /** The pivoted event the queries return. The type and application names
      come from left joins, so they may be absent. */
  datatype EventUi = EventUi(
    eventId: int,
    typeName: Option<string>,
    applicationName: Option<string>,
    saveTimestamp: int,
    eventData: map<string, EventData>)

  // Rows of the four tables.

  datatype ApplicationRow = ApplicationRow(applicationId: int, name: string, resourceId: int)

  datatype EventTypeRow = EventTypeRow(eventTypeId: int, name: string, applicationId: int, resourceId: int)

  datatype EventRow = EventRow(eventId: int, eventTypeId: int, saveTimestamp: int)

  /** An attribute row: the type tag and the one value column it selects;
      the other value columns are NULL. */
  datatype EventDataRow = EventDataRow(
    eventId: int,
    name: string,
    dataType: string,
    numberValue: Option<int>,
    stringValue: Option<string>,
    textValue: Option<string>,
    timestampValue: Option<int>,
    binaryValue: Option<seq<bv8>>)

  datatype Tables = Tables(
    applications: seq<ApplicationRow>,
    eventTypes: seq<EventTypeRow>,
    events: seq<EventRow>,
    eventData: seq<EventDataRow>)

  /** The primary keys of the three keyed tables are unique. */
  predicate KeysUnique(t: Tables)
  {
    && (forall i, j :: 0 <= i < j < |t.applications| ==>
          t.applications[i].applicationId != t.applications[j].applicationId)
    && (forall i, j :: 0 <= i < j < |t.eventTypes| ==>
          t.eventTypes[i].eventTypeId != t.eventTypes[j].eventTypeId)
    && (forall i, j :: 0 <= i < j < |t.events| ==> t.events[i].eventId != t.events[j].eventId)
  }

  /** Every foreign key names an existing row. */
  predicate ReferencesResolve(t: Tables)
  {
    && (forall et :: et in t.eventTypes ==>
          exists a :: a in t.applications && a.applicationId == et.applicationId)
    && (forall e :: e in t.events ==>
          exists et :: et in t.eventTypes && et.eventTypeId == e.eventTypeId)
    && (forall d :: d in t.eventData ==> exists e :: e in t.events && e.eventId == d.eventId)
  }

  /** A flat row of a query result: the event's header columns and, from
      the left join with the attribute table, one attribute row or NULL in
      every attribute column. */
  datatype ResultRow = ResultRow(
    applicationName: Option<string>,
    typeName: Option<string>,
    eventId: int,
    saveTimestamp: int,
    data: Option<EventDataRow>)
  {
    /** The type tag column of the row, NULL when no attribute joined. */
    function TypeTag(): Option<string>
    {
      match data
      case None => None
      case Some(d) => Some(d.dataType)
    }
  }

  // Sequence helpers used by the query models.

  /** The elements of `s` that satisfy `p`, in order. */
  function Filter<T(!new)>(s: seq<T>, p: T -> bool): (r: seq<T>)
    ensures |r| <= |s|
    ensures forall x :: x in r <==> x in s && p(x)
  {
    if s == [] then [] else (if p(s[0]) then [s[0]] else []) + Filter(s[1..], p)
  }

  /** `f` applied to every element of `s`, results concatenated in order. */
  function FlatMap<A(!new), B(!new)>(s: seq<A>, f: A -> seq<B>): (r: seq<B>)
    ensures forall y :: y in r <==> exists x :: x in s && y in f(x)
  {
    if s == [] then []
    else
      var rest := FlatMap(s[1..], f);
      assert forall x :: x in s[1..] ==> x in s;
      assert forall x :: x in s ==> x == s[0] || x in s[1..];
      f(s[0]) + rest
  }

  /** The rows a SQL left join contributes: one per match, or a single NULL
      when nothing matches. */
  function LeftOptions<T(!new)>(s: seq<T>): (r: seq<Option<T>>)
    ensures |r| >= 1
    ensures forall x :: Some(x) in r <==> x in s
    ensures None in r <==> s == []
  {
    if s == [] then [None]
    else
      var r := seq(|s|, i requires 0 <= i < |s| => Some(s[i]));
      assert forall x :: x in s ==> Some(x) in r by {
        forall x | x in s ensures Some(x) in r {
          var i :| 0 <= i < |s| && s[i] == x;
          assert r[i] == Some(x);
        }
      }
      r
  }

  /** Filtering a sequence in which exactly one element passes yields that
      element alone. */
  lemma {:induction false} FilterSingle<T(!new)>(s: seq<T>, p: T -> bool, i: int)
    requires 0 <= i < |s| && p(s[i])
    requires forall j :: 0 <= j < |s| && p(s[j]) ==> j == i
    ensures Filter(s, p) == [s[i]]
  {
    if i == 0 {
      assert forall x :: x in s[1..] ==> !p(x);
      FilterNone(s[1..], p);
    } else {
      assert !p(s[0]);
      assert forall j :: 0 <= j < |s[1..]| && p(s[1..][j]) ==> j == i - 1 by {
        forall j | 0 <= j < |s[1..]| && p(s[1..][j]) ensures j == i - 1 {
          assert s[1..][j] == s[j + 1];
        }
      }
      FilterSingle(s[1..], p, i - 1);
    }
  }

  /** Filtering a sequence in which nothing passes yields nothing. */
  lemma FilterNone<T(!new)>(s: seq<T>, p: T -> bool)
    requires forall x :: x in s ==> !p(x)
    ensures Filter(s, p) == []
  {
    if Filter(s, p) != [] {
      assert Filter(s, p)[0] in Filter(s, p);
    }
  }

  /** Filters that agree on every element select the same elements. */
  lemma {:induction false} FilterAgree<T(!new)>(s: seq<T>, p: T -> bool, q: T -> bool)
    requires forall x :: x in s ==> p(x) == q(x)
    ensures Filter(s, p) == Filter(s, q)
  {
    if s != [] {
      assert forall x :: x in s[1..] ==> x in s;
      FilterAgree(s[1..], p, q);
    }
  }

  /** A flat map over one element is that element's image. */
  lemma FlatMapSingle<A(!new), B(!new)>(x: A, f: A -> seq<B>)
    ensures FlatMap([x], f) == f(x)
  {
    assert [x][1..] == [];
    assert f(x) + [] == f(x);
  }

  lemma {:induction false} FilterAppend<T(!new)>(s: seq<T>, u: seq<T>, p: T -> bool)
    ensures Filter(s + u, p) == Filter(s, p) + Filter(u, p)
  {
    if s == [] {
      assert s + u == u;
    } else {
      assert (s + u)[1..] == s[1..] + u;
      FilterAppend(s[1..], u, p);
    }
  }

  /** Filtering a sequence in which no two elements pass yields at most
      one element. */
  lemma {:induction false} FilterAtMostOne<T(!new)>(s: seq<T>, p: T -> bool)
    requires forall i, j :: 0 <= i < j < |s| && p(s[i]) ==> !p(s[j])
    ensures |Filter(s, p)| <= 1
  {
    if s != [] {
      var tail := s[1..];
      assert forall i :: 0 <= i < |tail| ==> tail[i] == s[i + 1];
      FilterAtMostOne(tail, p);
      if p(s[0]) {
        forall x | x in tail ensures !p(x) {
          var i :| 0 <= i < |tail| && tail[i] == x;
        }
        FilterNone(tail, p);
      }
    }
  }

  /** The left join of at most one match is that match or a single NULL. */
  lemma LeftOptionsOfAtMostOne<T(!new)>(s: seq<T>)
    requires |s| <= 1
    ensures LeftOptions(s) == if s == [] then [None] else [Some(s[0])]
  {
    if s != [] {
      assert LeftOptions(s)[0] == Some(s[0]);
    }
  }

  /** Filtering a sequence in which everything passes changes nothing. */
  lemma {:induction false} FilterAll<T(!new)>(s: seq<T>, p: T -> bool)
    requires forall x :: x in s ==> p(x)
    ensures Filter(s, p) == s
  {
    if s != [] {
      assert forall x :: x in s[1..] ==> x in s;
      FilterAll(s[1..], p);
    }
  }
}
