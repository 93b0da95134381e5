/** The relational store the audit component writes to: the four tables,
    the generated-key sequence, the resource-id allocator, and the schema's
    constraints (primary keys, foreign keys, the unique application name
    and the unique event type name within an application). */
module Store {
  import opened AuditTypes

  /** `application.name` is UNIQUE; `event_type` is UNIQUE on
      (application_id, name). */
  predicate NamesUnique(t: Tables)
  {
    && (forall i, j :: 0 <= i < j < |t.applications| ==>
          t.applications[i].name != t.applications[j].name)
    && (forall i, j :: 0 <= i < j < |t.eventTypes| ==>
          t.eventTypes[i].applicationId != t.eventTypes[j].applicationId
          || t.eventTypes[i].name != t.eventTypes[j].name)
  }

  /** Every generated key in use is below the next one to be handed out. */
  predicate KeysBelow(t: Tables, bound: int)
  {
    && (forall a :: a in t.applications ==> a.applicationId < bound)
    && (forall et :: et in t.eventTypes ==> et.eventTypeId < bound)
    && (forall e :: e in t.events ==> e.eventId < bound)
  }

  /** The tables satisfy the schema, and `nextKey` is fresh for them. */
  predicate Consistent(t: Tables, nextKey: int)
  {
    KeysUnique(t) && ReferencesResolve(t) && NamesUnique(t) && KeysBelow(t, nextKey)
  }

  predicate HasApplication(t: Tables, applicationId: int)
  {
    exists a :: a in t.applications && a.applicationId == applicationId
  }

  predicate HasEventType(t: Tables, eventTypeId: int)
  {
    exists et :: et in t.eventTypes && et.eventTypeId == eventTypeId
  }

  predicate HasEvent(t: Tables, eventId: int)
  {
    exists e :: e in t.events && e.eventId == eventId
  }

  /** The first application row of the given name. */
  function FindApp(s: seq<ApplicationRow>, name: string): (r: Option<ApplicationRow>)
    ensures r.Some? ==> r.value in s && r.value.name == name
    ensures r.None? <==> forall a :: a in s ==> a.name != name
  {
    if s == [] then None
    else if s[0].name == name then Some(s[0])
    else
      var r := FindApp(s[1..], name);
      assert forall a :: a in s ==> a == s[0] || a in s[1..];
      r
  }

  /** The first event type row of an application with the given name. */
  function FindType(s: seq<EventTypeRow>, applicationId: int, name: string): (r: Option<EventTypeRow>)
    ensures r.Some? ==> r.value in s && r.value.applicationId == applicationId && r.value.name == name
    ensures r.None? <==> forall et :: et in s ==> et.applicationId != applicationId || et.name != name
  {
    if s == [] then None
    else if s[0].applicationId == applicationId && s[0].name == name then Some(s[0])
    else
      var r := FindType(s[1..], applicationId, name);
      assert forall et :: et in s ==> et == s[0] || et in s[1..];
      r
  }

  /** The query "application where name = ?" (a unique result). */
  function FindApplication(t: Tables, name: string): Option<ApplicationRow>
  {
    FindApp(t.applications, name)
  }

  /** The query "event type where application_id = ? and name = ?". */
  function FindEventType(t: Tables, applicationId: int, name: string): Option<EventTypeRow>
  {
    FindType(t.eventTypes, applicationId, name)
  }

  /** Appending a row never changes a name that was already found, and
      makes the new row's name found. */
  lemma {:induction false} FindAppAppend(s: seq<ApplicationRow>, row: ApplicationRow, name: string)
    ensures FindApp(s + [row], name) ==
      if FindApp(s, name).Some? then FindApp(s, name)
      else if row.name == name then Some(row) else None
  {
    if s != [] {
      assert (s + [row])[1..] == s[1..] + [row];
      FindAppAppend(s[1..], row, name);
    }
  }

  lemma {:induction false} FindTypeAppend(s: seq<EventTypeRow>, row: EventTypeRow, applicationId: int, name: string)
    ensures FindType(s + [row], applicationId, name) ==
      if FindType(s, applicationId, name).Some? then FindType(s, applicationId, name)
      else if row.applicationId == applicationId && row.name == name then Some(row) else None
  {
    if s != [] {
      assert (s + [row])[1..] == s[1..] + [row];
      FindTypeAppend(s[1..], row, applicationId, name);
    }
  }

  /** With unique names, the row of a name is the one the lookup finds. */
  lemma {:induction false} FindAppUnique(s: seq<ApplicationRow>, i: int)
    requires forall j, k :: 0 <= j < k < |s| ==> s[j].name != s[k].name
    requires 0 <= i < |s|
    ensures FindApp(s, s[i].name) == Some(s[i])
  {
    if i > 0 {
      assert forall j, k :: 0 <= j < k < |s[1..]| ==> s[1..][j].name != s[1..][k].name by {
        forall j, k | 0 <= j < k < |s[1..]| ensures s[1..][j].name != s[1..][k].name {
          assert s[1..][j] == s[j + 1] && s[1..][k] == s[k + 1];
        }
      }
      FindAppUnique(s[1..], i - 1);
    }
  }

  /** Appending rows to a catalog table never changes a name that was
      already found. */
  lemma {:induction false} FindAppKept(s: seq<ApplicationRow>, u: seq<ApplicationRow>, name: string)
    requires FindApp(s, name).Some?
    ensures FindApp(s + u, name) == FindApp(s, name)
  {
    if s[0].name != name {
      assert (s + u)[1..] == s[1..] + u;
      FindAppKept(s[1..], u, name);
    }
  }

  lemma {:induction false} FindTypeKept(s: seq<EventTypeRow>, u: seq<EventTypeRow>, applicationId: int, name: string)
    requires FindType(s, applicationId, name).Some?
    ensures FindType(s + u, applicationId, name) == FindType(s, applicationId, name)
  {
    if s[0].applicationId != applicationId || s[0].name != name {
      assert (s + u)[1..] == s[1..] + u;
      FindTypeKept(s[1..], u, applicationId, name);
    }
  }

  /** The store's state: its tables and its two generators. */
  datatype DbState = DbState(tables: Tables, nextKey: int, nextResource: int)

  /** The store. */
  class Database {
    var tables: Tables
    var nextKey: int
    var nextResource: int

    ghost predicate Valid()
      reads this
    {
      Consistent(tables, nextKey)
    }

    function State(): DbState
      reads this
    {
      DbState(tables, nextKey, nextResource)
    }

    constructor ()
      ensures Valid() && tables == Tables([], [], [], [])
    {
      tables := Tables([], [], [], []);
      nextKey := 0;
      nextResource := 0;
    }

    /** `ResourceService.createResource`: a fresh resource id. */
    method CreateResource() returns (id: int)
      modifies this
      ensures id == old(nextResource) && nextResource == old(nextResource) + 1
      ensures tables == old(tables) && nextKey == old(nextKey)
    {
      id := nextResource;
      nextResource := nextResource + 1;
    }

    /** Insert an application row with a generated key; a duplicate name
        violates the unique constraint. */
    method InsertApplication(name: string, resourceId: int) returns (r: Result<int>)
      requires Valid()
      modifies this
      ensures Valid() && nextResource == old(nextResource)
      ensures r.Success? <==> FindApplication(old(tables), name).None?
      ensures r.Failure? ==> r.error == ConstraintViolation && tables == old(tables) && nextKey == old(nextKey)
      ensures r.Success? ==>
        && r.value == old(nextKey) && nextKey == old(nextKey) + 1
        && tables == old(tables).(applications := old(tables).applications
                                   + [ApplicationRow(r.value, name, resourceId)])
    {
      if FindApplication(tables, name).Some? {
        return Failure(ConstraintViolation);
      }
      var id := nextKey;
      var row := ApplicationRow(id, name, resourceId);
      AppendApplicationConsistent(tables, nextKey, row);
      tables := tables.(applications := tables.applications + [row]);
      nextKey := nextKey + 1;
      r := Success(id);
    }

    /** Insert an event type row with a generated key; the application
        must exist and the name must be new within it. */
    method InsertEventType(name: string, applicationId: int, resourceId: int) returns (r: Result<int>)
      requires Valid()
      modifies this
      ensures Valid() && nextResource == old(nextResource)
      ensures r.Success? <==>
        HasApplication(old(tables), applicationId) && FindEventType(old(tables), applicationId, name).None?
      ensures r.Failure? ==> r.error == ConstraintViolation && tables == old(tables) && nextKey == old(nextKey)
      ensures r.Success? ==>
        && r.value == old(nextKey) && nextKey == old(nextKey) + 1
        && tables == old(tables).(eventTypes := old(tables).eventTypes
                                   + [EventTypeRow(r.value, name, applicationId, resourceId)])
    {
      if !HasApplication(tables, applicationId) || FindEventType(tables, applicationId, name).Some? {
        return Failure(ConstraintViolation);
      }
      var id := nextKey;
      var row := EventTypeRow(id, name, applicationId, resourceId);
      AppendEventTypeConsistent(tables, nextKey, row);
      tables := tables.(eventTypes := tables.eventTypes + [row]);
      nextKey := nextKey + 1;
      r := Success(id);
    }

    /** Insert an event row with a generated key; its event type exists. */
    method InsertEvent(eventTypeId: int, saveTimestamp: int) returns (id: int)
      requires Valid() && HasEventType(tables, eventTypeId)
      modifies this
      ensures Valid() && nextResource == old(nextResource)
      ensures id == old(nextKey) && nextKey == old(nextKey) + 1
      ensures tables == old(tables).(events := old(tables).events + [EventRow(id, eventTypeId, saveTimestamp)])
    {
      id := nextKey;
      var row := EventRow(id, eventTypeId, saveTimestamp);
      AppendEventConsistent(tables, nextKey, row);
      tables := tables.(events := tables.events + [row]);
      nextKey := nextKey + 1;
    }

    /** Insert an attribute row; its event exists. */
    method InsertEventData(row: EventDataRow)
      requires Valid() && HasEvent(tables, row.eventId)
      modifies this
      ensures Valid() && nextResource == old(nextResource) && nextKey == old(nextKey)
      ensures tables == old(tables).(eventData := old(tables).eventData + [row])
    {
      var t0 := tables;
      tables := tables.(eventData := tables.eventData + [row]);
      assert forall d :: d in tables.eventData ==> d in t0.eventData || d == row;
    }

    /** Roll the tables back to a state saved at the start of a
        transaction; the key sequence is not rolled back. */
    method Restore(saved: Tables)
      requires Consistent(saved, nextKey)
      modifies this
      ensures Valid() && tables == saved
      ensures nextKey == old(nextKey) && nextResource == old(nextResource)
    {
      tables := saved;
    }
  }

  /** Appending an application row with the next key and a new name keeps
      the tables consistent. */
  lemma AppendApplicationConsistent(t: Tables, k: int, row: ApplicationRow)
    requires Consistent(t, k) && row.applicationId == k && FindApplication(t, row.name).None?
    ensures Consistent(t.(applications := t.applications + [row]), k + 1)
  {
    var t' := t.(applications := t.applications + [row]);
    assert forall a :: a in t.applications ==> a in t'.applications;
    assert t'.applications[|t.applications|] == row;
    assert KeysUnique(t');
    assert NamesUnique(t');
  }

  /** Appending an event row with the next key and an existing event type
      keeps the tables consistent. */
  lemma AppendEventConsistent(t: Tables, k: int, row: EventRow)
    requires Consistent(t, k) && row.eventId == k && HasEventType(t, row.eventTypeId)
    ensures Consistent(t.(events := t.events + [row]), k + 1)
  {
    var t' := t.(events := t.events + [row]);
    assert forall e :: e in t.events ==> e in t'.events;
    assert t'.events[|t.events|] == row;
    assert KeysUnique(t');
  }

  /** Appending an event type row with the next key, an existing
      application and a name new within it keeps the tables consistent. */
  lemma AppendEventTypeConsistent(t: Tables, k: int, row: EventTypeRow)
    requires Consistent(t, k) && row.eventTypeId == k && HasApplication(t, row.applicationId)
    requires FindEventType(t, row.applicationId, row.name).None?
    ensures Consistent(t.(eventTypes := t.eventTypes + [row]), k + 1)
  {
    var t' := t.(eventTypes := t.eventTypes + [row]);
    assert forall et :: et in t.eventTypes ==> et in t'.eventTypes;
    assert t'.eventTypes[|t.eventTypes|] == row;
    assert KeysUnique(t');
    assert NamesUnique(t');
  }

  /** A state saved before generated keys advanced stays consistent with
      the later key. */
  lemma ConsistentLater(t: Tables, k: int, k': int)
    requires Consistent(t, k) && k <= k'
    ensures Consistent(t, k')
  {
  }
}
