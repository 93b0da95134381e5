/** AuditComponent: the catalog of applications and event types with its
    get-or-create operations and read-through caches, event logging, and
    the two event queries. Each catalog operation is specified by a
    function from the store's state to the call's result and the state
    after it; the component's methods are proved to compute exactly that. */
module Audit {
  import opened AuditTypes
  import opened Predicates
  import opened Store
  import opened RowMapper
  import opened SingleLoader
  import opened ComplexLoader
  import opened Persister

  /** `EventType`: an event type's id, name and application. */
  datatype EventType = EventType(id: int, name: string, applicationId: int)

  /** `AuditEventType`: an event type's id, name and resource. */
  datatype AuditEventType = AuditEventType(id: int, name: string, resourceId: int)

  function AsEventType(row: EventTypeRow): EventType
  {
    EventType(row.eventTypeId, row.name, row.applicationId)
  }

  /** The event type of the given name within the application of the given
      name. */
  function TypeRowOf(t: Tables, appName: string, typeName: string): (r: Option<EventTypeRow>)
    ensures r.Some? ==> (r.value in t.eventTypes && r.value.name == typeName
      && FindApplication(t, appName).Some? && r.value.applicationId == FindApplication(t, appName).value.applicationId)
  {
    match FindApplication(t, appName)
    case None => None
    case Some(a) => FindEventType(t, a.applicationId, typeName)
  }

  /** `selectAuditEventType`: the event type of an application, by names. */
  function SelectAuditEventType(t: Tables, appName: string, typeName: string): Option<AuditEventType>
  {
    match TypeRowOf(t, appName, typeName)
    case None => None
    case Some(et) => Some(AuditEventType(et.eventTypeId, et.name, et.resourceId))
  }

  /** Every cached entry is what the store lookup returns. */
  predicate CachesAgree(t: Tables, ac: map<string, ApplicationRow>, tc: map<(string, string), AuditEventType>)
  {
    && (forall n :: n in ac ==> FindApplication(t, n) == Some(ac[n]))
    && (forall k :: k in tc ==> SelectAuditEventType(t, k.0, k.1) == Some(tc[k]))
  }

  /** The catalog tables only grew at their ends. */
  predicate CatalogGrows(t: Tables, t': Tables)
  {
    t.applications <= t'.applications && t.eventTypes <= t'.eventTypes
  }

  /** A lookup by names that found an event type finds the same one in a
      grown catalog. */
  lemma TypeRowKept(t: Tables, t': Tables, appName: string, typeName: string)
    requires CatalogGrows(t, t') && TypeRowOf(t, appName, typeName).Some?
    ensures TypeRowOf(t', appName, typeName) == TypeRowOf(t, appName, typeName)
  {
    assert t'.applications == t.applications + t'.applications[|t.applications|..];
    FindAppKept(t.applications, t'.applications[|t.applications|..], appName);
    var a := FindApplication(t, appName).value;
    assert t'.eventTypes == t.eventTypes + t'.eventTypes[|t.eventTypes|..];
    FindTypeKept(t.eventTypes, t'.eventTypes[|t.eventTypes|..], a.applicationId, typeName);
  }

  /** Since rows are only ever added, the caches stay in agreement with the
      store as the catalog grows. */
  lemma CachesAgreeKept(t: Tables, t': Tables, ac: map<string, ApplicationRow>, tc: map<(string, string), AuditEventType>)
    requires CatalogGrows(t, t') && CachesAgree(t, ac, tc)
    ensures CachesAgree(t', ac, tc)
  {
    assert t'.applications == t.applications + t'.applications[|t.applications|..];
    forall n | n in ac ensures FindApplication(t', n) == Some(ac[n]) {
      FindAppKept(t.applications, t'.applications[|t.applications|..], n);
    }
    forall k | k in tc ensures SelectAuditEventType(t', k.0, k.1) == Some(tc[k]) {
      TypeRowKept(t, t', k.0, k.1);
    }
  }

  /** Caching what the store lookup returns keeps the caches in agreement. */
  lemma CacheApplication(t: Tables, ac: map<string, ApplicationRow>, tc: map<(string, string), AuditEventType>,
                         name: string)
    requires CachesAgree(t, ac, tc) && FindApplication(t, name).Some?
    ensures CachesAgree(t, ac[name := FindApplication(t, name).value], tc)
  {
  }

  /** A cached application is what the store lookup returns, so serving it
      from the cache changes nothing. */
  lemma CacheHitApplication(t: Tables, ac: map<string, ApplicationRow>, tc: map<(string, string), AuditEventType>,
                            name: string)
    requires CachesAgree(t, ac, tc) && name in ac
    ensures FindApplication(t, name) == Some(ac[name]) && ac[name := ac[name]] == ac
  {
  }

  lemma CacheHitEventType(t: Tables, ac: map<string, ApplicationRow>, tc: map<(string, string), AuditEventType>,
                          key: (string, string))
    requires CachesAgree(t, ac, tc) && key in tc
    ensures SelectAuditEventType(t, key.0, key.1) == Some(tc[key]) && tc[key := tc[key]] == tc
  {
  }

  lemma CacheEventType(t: Tables, ac: map<string, ApplicationRow>, tc: map<(string, string), AuditEventType>,
                       appName: string, typeName: string)
    requires CachesAgree(t, ac, tc) && SelectAuditEventType(t, appName, typeName).Some?
    ensures CachesAgree(t, ac, tc[(appName, typeName) := SelectAuditEventType(t, appName, typeName).value])
  {
  }

  // ---------------------------------------------------------------------
  // The catalog operations: result and state after, for a state before.

  /** `createApplication`: a NULL name is refused before the store is
      touched; the given resource id is used, or a fresh one allocated;
      an existing name violates the unique constraint. */
  function CreateApplicationSpec(s: DbState, appName: Option<string>, resourceId: Option<int>)
    : (Result<ApplicationRow>, DbState)
  {
    if appName.None? then (Failure(NullPointer), s)
    else
      var rid := if resourceId.Some? then resourceId.value else s.nextResource;
      var res := if resourceId.Some? then s.nextResource else s.nextResource + 1;
      if FindApplication(s.tables, appName.value).Some? then (Failure(ConstraintViolation), s.(nextResource := res))
      else
        var row := ApplicationRow(s.nextKey, appName.value, rid);
        (Success(row), DbState(s.tables.(applications := s.tables.applications + [row]), s.nextKey + 1, res))
  }

  /** `getOrCreateApplication`: the application of the name, created with
      a fresh resource when missing. */
  function GetOrCreateApplicationSpec(s: DbState, appName: Option<string>): (Result<ApplicationRow>, DbState)
  {
    if appName.None? then (Failure(NullPointer), s)
    else
      match FindApplication(s.tables, appName.value)
      case Some(a) => (Success(a), s)
      case None => CreateApplicationSpec(s, appName, None)
  }

  /** `createEventType`: a fresh resource, then the event type row; the
      store refuses a missing application or a taken name. */
  function CreateEventTypeSpec(s: DbState, app: ApplicationRow, name: string): (Result<EventType>, DbState)
  {
    if !HasApplication(s.tables, app.applicationId) || FindEventType(s.tables, app.applicationId, name).Some? then
      (Failure(ConstraintViolation), s.(nextResource := s.nextResource + 1))
    else
      var row := EventTypeRow(s.nextKey, name, app.applicationId, s.nextResource);
      (Success(AsEventType(row)),
       DbState(s.tables.(eventTypes := s.tables.eventTypes + [row]), s.nextKey + 1, s.nextResource + 1))
  }

  /** `getOrCreateEventType`: NULL names are refused, a missing application
      is an IllegalArgumentException, otherwise the event type of the name,
      created when missing. */
  function GetOrCreateEventTypeSpec(s: DbState, appName: Option<string>, typeName: Option<string>)
    : (Result<EventType>, DbState)
  {
    if appName.None? || typeName.None? then (Failure(NullPointer), s)
    else
      match FindApplication(s.tables, appName.value)
      case None => (Failure(IllegalArgument), s)
      case Some(app) =>
        match FindEventType(s.tables, app.applicationId, typeName.value)
        case Some(et) => (Success(AsEventType(et)), s)
        case None => CreateEventTypeSpec(s, app, typeName.value)
  }

  /** The loop of `getOrCreateEventTypesForApplication` over the names, up
      to the first failure. */
  function EventTypesSpec(s: DbState, appName: string, names: seq<Option<string>>): (Result<seq<EventType>>, DbState)
    decreases |names|
  {
    if names == [] then (Success([]), s)
    else
      var prev := EventTypesSpec(s, appName, names[..|names| - 1]);
      if prev.0.Failure? then prev
      else
        var last := GetOrCreateEventTypeSpec(prev.1, Some(appName), names[|names| - 1]);
        match last.0
        case Failure(e) => (Failure(e), last.1)
        case Success(et) => (Success(prev.0.value + [et]), last.1)
  }

  /** `getOrCreateEventTypesForApplication`: one transaction, so a failure
      leaves the tables as they were (the generators are not rolled back). */
  function GetOrCreateEventTypesSpec(s: DbState, appName: Option<string>, names: Option<seq<Option<string>>>)
    : (Result<seq<EventType>>, DbState)
  {
    if appName.None? || names.None? then (Failure(NullPointer), s)
    else if FindApplication(s.tables, appName.value).None? then (Failure(IllegalArgument), s)
    else
      var batch := EventTypesSpec(s, appName.value, names.value);
      if batch.0.Failure? then (batch.0, batch.1.(tables := s.tables)) else batch
  }

  /** `logEvent`: the event type of the event's names (created when
      missing), then the event row and its attribute rows. */
  function LogEventSpec(s: DbState, event: AuditEvent): (Outcome, DbState)
  {
    var typed := GetOrCreateEventTypeSpec(s, event.applicationName, event.name);
    match typed.0
    case Failure(e) => (Fail(e), typed.1)
    case Success(et) =>
      var s1 := typed.1;
      (Pass, DbState(s1.tables.(events := s1.tables.events + [EventRow(s1.nextKey, et.id, event.saveTimestamp)],
                                eventData := s1.tables.eventData + EncodeAll(s1.nextKey, event.eventData)),
                     s1.nextKey + 1, s1.nextResource))
  }

  /** `getEventById`'s attribute predicate: every attribute for a NULL or
      empty field list, otherwise the attributes of the listed names. */
  function ProjectionFor(dataFields: Option<seq<string>>): DataPred
  {
    if dataFields.None? || dataFields.value == [] then TruePred else NameIn(dataFields.value)
  }

  /** `getEventTypesByApplication`: the event types of an application, in
      storage order. */
  function TypesOfApplication(ets: seq<EventTypeRow>, applicationId: int): (r: seq<EventType>)
    ensures forall x :: x in r <==> exists et :: et in ets && et.applicationId == applicationId && x == AsEventType(et)
  {
    if ets == [] then []
    else
      var rest := TypesOfApplication(ets[1..], applicationId);
      assert forall et :: et in ets ==> et == ets[0] || et in ets[1..];
      assert forall et :: et in ets[1..] ==> et in ets;
      (if ets[0].applicationId == applicationId then [AsEventType(ets[0])] else []) + rest
  }

  // ---------------------------------------------------------------------
  // Properties of the catalog operations.

  /** A created application is the one its name finds; creation fails,
      changing no table, exactly when the name is taken. */
  lemma CreateApplicationFinds(s: DbState, name: string, resourceId: Option<int>)
    ensures var c := CreateApplicationSpec(s, Some(name), resourceId);
      && (c.0.Success? <==> FindApplication(s.tables, name).None?)
      && (c.0.Failure? ==> c.0.error == ConstraintViolation && c.1.tables == s.tables)
      && (c.0.Success? ==> (FindApplication(c.1.tables, name) == Some(c.0.value) && c.0.value.name == name
            && c.0.value.resourceId == (if resourceId.Some? then resourceId.value else s.nextResource)))
  {
    var c := CreateApplicationSpec(s, Some(name), resourceId);
    if c.0.Success? {
      FindAppAppend(s.tables.applications, c.0.value, name);
    }
  }

  /** `getOrCreateApplication` is idempotent: it returns the application
      its name finds, and a second call returns the same one and changes
      nothing. */
  lemma GetOrCreateApplicationIdempotent(s: DbState, name: string)
    ensures var first := GetOrCreateApplicationSpec(s, Some(name));
      && first.0.Success? && first.0.value.name == name
      && FindApplication(first.1.tables, name) == Some(first.0.value)
      && GetOrCreateApplicationSpec(first.1, Some(name)) == (first.0, first.1)
  {
    if FindApplication(s.tables, name).None? {
      CreateApplicationFinds(s, name, None);
    }
  }

  /** `getOrCreateEventType` on an existing application returns the event
      type the names find, creating it when missing; the applications do
      not change, the catalog only grows, consistency is kept, and a
      second call returns the same event type and changes nothing. */
  lemma GetOrCreateEventTypeIdempotent(s: DbState, appName: string, typeName: string)
    requires FindApplication(s.tables, appName).Some?
    ensures var first := GetOrCreateEventTypeSpec(s, Some(appName), Some(typeName));
      && first.0.Success? && first.0.value.name == typeName
      && first.0.value.applicationId == FindApplication(s.tables, appName).value.applicationId
      && TypeRowOf(first.1.tables, appName, typeName).Some?
      && first.0.value == AsEventType(TypeRowOf(first.1.tables, appName, typeName).value)
      && first.1.tables.applications == s.tables.applications
      && CatalogGrows(s.tables, first.1.tables) && first.1.nextKey >= s.nextKey
      && GetOrCreateEventTypeSpec(first.1, Some(appName), Some(typeName)) == (first.0, first.1)
  {
    var app := FindApplication(s.tables, appName).value;
    if FindEventType(s.tables, app.applicationId, typeName).None? {
      var row := EventTypeRow(s.nextKey, typeName, app.applicationId, s.nextResource);
      assert HasApplication(s.tables, app.applicationId);
      FindTypeAppend(s.tables.eventTypes, row, app.applicationId, typeName);
    }
  }

  /** `getOrCreateEventType` keeps the store consistent. */
  lemma GetOrCreateEventTypeConsistent(s: DbState, appName: Option<string>, typeName: Option<string>)
    requires Consistent(s.tables, s.nextKey)
    ensures var r := GetOrCreateEventTypeSpec(s, appName, typeName);
      Consistent(r.1.tables, r.1.nextKey)
  {
    if appName.Some? && typeName.Some? && FindApplication(s.tables, appName.value).Some? {
      var app := FindApplication(s.tables, appName.value).value;
      if FindEventType(s.tables, app.applicationId, typeName.value).None? {
        assert HasApplication(s.tables, app.applicationId);
        AppendEventTypeConsistent(s.tables, s.nextKey, EventTypeRow(s.nextKey, typeName.value, app.applicationId, s.nextResource));
      }
    }
  }

  /** Once `getOrCreateEventType` has returned an event type, which is in
      the store, logging appends the event row under the next key and the
      encoded attribute rows, and succeeds. */
  lemma LogEventAfterType(s: DbState, event: AuditEvent, et: EventType, s1: DbState)
    requires GetOrCreateEventTypeSpec(s, event.applicationName, event.name) == (Success(et), s1)
    ensures HasEventType(s1.tables, et.id)
    ensures LogEventSpec(s, event) ==
      (Pass, DbState(s1.tables.(events := s1.tables.events + [EventRow(s1.nextKey, et.id, event.saveTimestamp)],
                                eventData := s1.tables.eventData + EncodeAll(s1.nextKey, event.eventData)),
                     s1.nextKey + 1, s1.nextResource))
  {
    GetOrCreateEventTypeIdempotent(s, event.applicationName.value, event.name.value);
    var row := TypeRowOf(s1.tables, event.applicationName.value, event.name.value).value;
    assert row in s1.tables.eventTypes && row.eventTypeId == et.id;
  }

  /** `getOrCreateEventType` fails, and creates nothing, exactly when a
      name is NULL or the application does not exist. */
  lemma GetOrCreateEventTypeFails(s: DbState, appName: Option<string>, typeName: Option<string>)
    ensures var r := GetOrCreateEventTypeSpec(s, appName, typeName);
      && (r.0.Failure? <==> appName.None? || typeName.None? || FindApplication(s.tables, appName.value).None?)
      && (r.0.Failure? ==> r.1 == s)
      && (r.0.Failure? && appName.Some? && typeName.Some? ==> r.0.error == IllegalArgument)
  {
    if appName.Some? && typeName.Some? && FindApplication(s.tables, appName.value).Some? {
      GetOrCreateEventTypeIdempotent(s, appName.value, typeName.value);
    }
  }

  /** Once a prefix of the names fails, the whole loop fails the same way. */
  lemma {:induction false} EventTypesFailureSticks(s: DbState, appName: string, names: seq<Option<string>>, k: int)
    requires 0 <= k <= |names| && EventTypesSpec(s, appName, names[..k]).0.Failure?
    ensures EventTypesSpec(s, appName, names) == EventTypesSpec(s, appName, names[..k])
    decreases |names| - k
  {
    if k < |names| {
      assert names[..k + 1][..k] == names[..k];
      EventTypesFailureSticks(s, appName, names, k + 1);
    } else {
      assert names[..k] == names;
    }
  }

  /** Element i of `vals` is the event type that name i finds in `t`. */
  predicate BatchResult(t: Tables, appName: string, names: seq<Option<string>>, vals: seq<EventType>)
  {
    && |vals| == |names|
    && forall i :: 0 <= i < |names| ==>
         && names[i].Some? && TypeRowOf(t, appName, names[i].value).Some?
         && vals[i] == AsEventType(TypeRowOf(t, appName, names[i].value).value)
         && vals[i].name == names[i].value
  }

  /** The event types found stay found as the catalog grows. */
  lemma BatchResultKept(t: Tables, t': Tables, appName: string, names: seq<Option<string>>, vals: seq<EventType>)
    requires CatalogGrows(t, t') && BatchResult(t, appName, names, vals)
    ensures BatchResult(t', appName, names, vals)
  {
    forall i | 0 <= i < |names|
      ensures TypeRowOf(t', appName, names[i].value) == TypeRowOf(t, appName, names[i].value)
    {
      TypeRowKept(t, t', appName, names[i].value);
    }
  }

  lemma BatchResultSnoc(t: Tables, appName: string, names: seq<Option<string>>, done: seq<EventType>, et: EventType)
    requires names != [] && BatchResult(t, appName, names[..|names| - 1], done)
    requires names[|names| - 1].Some? && TypeRowOf(t, appName, names[|names| - 1].value).Some?
    requires et == AsEventType(TypeRowOf(t, appName, names[|names| - 1].value).value)
    requires et.name == names[|names| - 1].value
    ensures BatchResult(t, appName, names, done + [et])
  {
    assert forall i :: 0 <= i < |names| - 1 ==> names[..|names| - 1][i] == names[i];
  }

  /** One more name after a successful prefix of the loop. */
  lemma EventTypesSnoc(s: DbState, appName: string, names: seq<Option<string>>, k: int)
    requires 0 <= k < |names| && EventTypesSpec(s, appName, names[..k]).0.Success?
    ensures var prev := EventTypesSpec(s, appName, names[..k]);
      var last := GetOrCreateEventTypeSpec(prev.1, Some(appName), names[k]);
      EventTypesSpec(s, appName, names[..k + 1]) ==
        if last.0.Failure? then (Failure(last.0.error), last.1) else (Success(prev.0.value + [last.0.value]), last.1)
  {
    assert names[..k + 1][..k] == names[..k];
  }

  /** One iteration of the loop: a success extends the prefix's result, a
      failure is the whole loop's result. */
  lemma EventTypesIteration(s: DbState, appName: string, names: seq<Option<string>>, k: int,
                            done: seq<EventType>, st: DbState, et: Result<EventType>, st': DbState)
    requires 0 <= k < |names| && EventTypesSpec(s, appName, names[..k]) == (Success(done), st)
    requires GetOrCreateEventTypeSpec(st, Some(appName), names[k]) == (et, st')
    ensures et.Success? ==> EventTypesSpec(s, appName, names[..k + 1]) == (Success(done + [et.value]), st')
    ensures et.Failure? ==> EventTypesSpec(s, appName, names) == (Failure(et.error), st')
  {
    EventTypesSnoc(s, appName, names, k);
    if et.Failure? {
      EventTypesFailureSticks(s, appName, names, k + 1);
    }
  }

  /** The loop over the names succeeds exactly when no name is NULL, and
      then returns, in input order, the event type each name finds. */
  lemma {:induction false} EventTypesInOrder(s: DbState, appName: string, names: seq<Option<string>>)
    requires FindApplication(s.tables, appName).Some?
    ensures var b := EventTypesSpec(s, appName, names);
      && (b.0.Success? <==> forall i :: 0 <= i < |names| ==> names[i].Some?)
      && CatalogGrows(s.tables, b.1.tables) && b.1.nextKey >= s.nextKey
      && FindApplication(b.1.tables, appName) == FindApplication(s.tables, appName)
      && (b.0.Success? ==> BatchResult(b.1.tables, appName, names, b.0.value))
    decreases |names|
  {
    if names != [] {
      var n := |names| - 1;
      EventTypesInOrder(s, appName, names[..n]);
      assert forall i :: 0 <= i < n ==> names[..n][i] == names[i];
      var prev := EventTypesSpec(s, appName, names[..n]);
      if prev.0.Success? {
        EventTypesStep(s, appName, names, prev.0.value, prev.1);
      } else {
        EventTypesFailureSticks(s, appName, names, n);
      }
    }
  }

  lemma EventTypesStep(s: DbState, appName: string, names: seq<Option<string>>, done: seq<EventType>, s0: DbState)
    requires names != [] && EventTypesSpec(s, appName, names[..|names| - 1]) == (Success(done), s0)
    requires FindApplication(s0.tables, appName) == FindApplication(s.tables, appName)
    requires FindApplication(s.tables, appName).Some?
    requires CatalogGrows(s.tables, s0.tables) && s0.nextKey >= s.nextKey
    requires BatchResult(s0.tables, appName, names[..|names| - 1], done)
    ensures var b := EventTypesSpec(s, appName, names);
      && (b.0.Success? <==> names[|names| - 1].Some?)
      && CatalogGrows(s.tables, b.1.tables) && b.1.nextKey >= s.nextKey
      && FindApplication(b.1.tables, appName) == FindApplication(s.tables, appName)
      && (b.0.Success? ==> BatchResult(b.1.tables, appName, names, b.0.value))
  {
    var n := |names| - 1;
    EventTypesSnoc(s, appName, names, n);
    assert names[..n + 1] == names;
    if names[n].Some? {
      GetOrCreateEventTypeIdempotent(s0, appName, names[n].value);
      var last := GetOrCreateEventTypeSpec(s0, Some(appName), names[n]);
      BatchResultKept(s0.tables, last.1.tables, appName, names[..n], done);
      BatchResultSnoc(last.1.tables, appName, names, done, last.0.value);
    }
  }

  /** `getOrCreateEventTypesForApplication`: it fails exactly when a name
      is NULL or the application does not exist, and then leaves the
      tables unchanged; otherwise it returns one event type per name, in
      input order, each the one its name finds in the store. */
  lemma GetOrCreateEventTypesOutcome(s: DbState, appName: Option<string>, names: Option<seq<Option<string>>>)
    ensures var r := GetOrCreateEventTypesSpec(s, appName, names);
      && (r.0.Success? <==> appName.Some? && names.Some? && FindApplication(s.tables, appName.value).Some?
                            && forall i :: 0 <= i < |names.value| ==> names.value[i].Some?)
      && (r.0.Failure? ==> r.1.tables == s.tables)
      && (r.0.Success? ==> |r.0.value| == |names.value| && forall i :: 0 <= i < |names.value| ==>
            && r.0.value[i].name == names.value[i].value
            && TypeRowOf(r.1.tables, appName.value, names.value[i].value).Some?
            && r.0.value[i] == AsEventType(TypeRowOf(r.1.tables, appName.value, names.value[i].value).value))
  {
    if appName.Some? && names.Some? && FindApplication(s.tables, appName.value).Some? {
      EventTypesInOrder(s, appName.value, names.value);
    }
  }

  /** Loading the newest event back by its id, with every attribute, gives
      the event's type and application names, timestamp and attribute
      names, and under each name the last datum of that name. */
  ghost predicate ReadsBack(s: DbState, event: AuditEvent)
  {
    var r := LoadEventSpec(s.tables, s.nextKey - 1, None);
    var ds := event.eventData;
    && r.Success? && r.value.Some?
    && r.value.value.eventId == s.nextKey - 1
    && r.value.value.typeName == event.name && r.value.value.applicationName == event.applicationName
    && r.value.value.saveTimestamp == event.saveTimestamp
    && r.value.value.eventData.Keys == (set d | d in ds :: d.name)
    && (forall i :: 0 <= i < |ds| && LastNamed(ds, i) ==>
          ds[i].name in r.value.value.eventData && r.value.value.eventData[ds[i].name] == ds[i])
  }

  /** Logging with both names into an existing application succeeds and
      stores the event so that it reads back (none of the data being a
      TIMESTAMP, which the decoder refuses as written). */
  lemma LogEventReadBack(s: DbState, event: AuditEvent)
    requires Consistent(s.tables, s.nextKey)
    requires event.applicationName.Some? && event.name.Some?
    requires FindApplication(s.tables, event.applicationName.value).Some?
    requires forall i :: 0 <= i < |event.eventData| ==> event.eventData[i].value.DataType() != TIMESTAMP
    ensures LogEventSpec(s, event).0 == Pass && LogEventSpec(s, event).1.nextKey > s.nextKey
    ensures ReadsBack(LogEventSpec(s, event).1, event)
  {
    var typed := GetOrCreateEventTypeSpec(s, event.applicationName, event.name);
    GetOrCreateEventTypeIdempotent(s, event.applicationName.value, event.name.value);
    GetOrCreateEventTypeConsistent(s, event.applicationName, event.name);
    var s1 := typed.1;
    LogEventAfterType(s, event, typed.0.value, s1);
    var et := TypeRowOf(s1.tables, event.applicationName.value, event.name.value).value;
    var a := FindApplication(s1.tables, event.applicationName.value).value;
    assert et.name == event.name.value && a.name == event.applicationName.value;
    var t' := s1.tables.(events := s1.tables.events + [EventRow(s1.nextKey, et.eventTypeId, event.saveTimestamp)],
                         eventData := s1.tables.eventData + EncodeAll(s1.nextKey, event.eventData));
    var s' := DbState(t', s1.nextKey + 1, s1.nextResource);
    assert LogEventSpec(s, event).1 == s' && s'.nextKey - 1 == s1.nextKey;
    LoggedEventReadBack(s1.tables, s1.nextKey, et, a, event.saveTimestamp, event.eventData);
    assert ReadsBack(s', event);
  }

  /** Logging an event whose type or application name is null fails with a
      NullPointer and changes nothing. */
  lemma LogEventNullName(s: DbState, event: AuditEvent)
    requires event.applicationName.None? || event.name.None?
    ensures LogEventSpec(s, event) == (Fail(NullPointer), s)
  {
    GetOrCreateEventTypeFails(s, event.applicationName, event.name);
  }

  /** Logging for an application that does not exist fails and changes
      nothing. */
  lemma LogEventMissingApplication(s: DbState, event: AuditEvent)
    requires event.applicationName.Some? && event.name.Some?
    requires FindApplication(s.tables, event.applicationName.value).None?
    ensures LogEventSpec(s, event) == (Fail(IllegalArgument), s)
  {
    GetOrCreateEventTypeFails(s, event.applicationName, event.name);
  }

  /** The attribute keys of an event loaded by `getEventById`: the names of
      its attribute rows that the field list selects (all of them for a
      NULL or empty list), when those rows all decode. */
  lemma GetEventByIdKeys(t: Tables, dataFields: Option<seq<string>>, e: EventRow, et: EventTypeRow, a: ApplicationRow)
    requires KeysUnique(t)
    requires e in t.events && et in t.eventTypes && a in t.applications
    requires et.eventTypeId == e.eventTypeId && a.applicationId == et.applicationId
    requires forall d :: d in t.eventData && d.eventId == e.eventId ==> Decode(d).Success?
    ensures LoadEventSpec(t, e.eventId, Some(ProjectionFor(dataFields))).Success?
    ensures LoadEventSpec(t, e.eventId, Some(ProjectionFor(dataFields))).value.Some?
    ensures LoadEventSpec(t, e.eventId, Some(ProjectionFor(dataFields))).value.value.eventData.Keys ==
      set d | d in t.eventData && d.eventId == e.eventId
                && (dataFields.None? || dataFields.value == [] || d.name in dataFields.value) :: d.name
  {
    var pred := Some(ProjectionFor(dataFields));
    LoadEventFound(t, pred, e, et, a);
    var lhs := set d | d in JoinedData(t, e.eventId, JoinFor(pred)) :: d.name;
    var rhs := set d | d in t.eventData && d.eventId == e.eventId
                && (dataFields.None? || dataFields.value == [] || d.name in dataFields.value) :: d.name;
    assert lhs == rhs;
  }

  /** Projecting an event on one attribute name it has gives exactly that
      attribute, however many others it has. */
  lemma ProjectOnOneName(t: Tables, name: string, e: EventRow, et: EventTypeRow, a: ApplicationRow, d: EventDataRow)
    requires KeysUnique(t)
    requires e in t.events && et in t.eventTypes && a in t.applications
    requires et.eventTypeId == e.eventTypeId && a.applicationId == et.applicationId
    requires forall d :: d in t.eventData && d.eventId == e.eventId ==> Decode(d).Success?
    requires d in t.eventData && d.eventId == e.eventId && d.name == name
    ensures LoadEventSpec(t, e.eventId, Some(ProjectionFor(Some([name])))).Success?
    ensures LoadEventSpec(t, e.eventId, Some(ProjectionFor(Some([name])))).value.Some?
    ensures LoadEventSpec(t, e.eventId, Some(ProjectionFor(Some([name])))).value.value.eventData.Keys == {name}
  {
    GetEventByIdKeys(t, Some([name]), e, et, a);
  }

  // ---------------------------------------------------------------------
  // The component.

  class AuditComponent {
    const db: Database
    var applicationCache: map<string, ApplicationRow>
    var eventTypeCache: map<(string, string), AuditEventType>

    ghost predicate Valid()
      reads this, db
    {
      db.Valid() && CachesAgree(db.tables, applicationCache, eventTypeCache)
    }

    constructor (db: Database)
      requires db.Valid()
      ensures this.db == db && Valid()
      ensures applicationCache == map[] && eventTypeCache == map[]
    {
      this.db := db;
      applicationCache := map[];
      eventTypeCache := map[];
    }

    /** `createApplication(appName, resourceId)`; the one-argument form
        passes a NULL resource id. */
    method CreateApplication(appName: Option<string>, resourceId: Option<int>) returns (r: Result<ApplicationRow>)
      requires Valid()
      modifies db
      ensures Valid()
      ensures (r, db.State()) == CreateApplicationSpec(old(db.State()), appName, resourceId)
    {
      if appName.None? {
        return Failure(NullPointer);
      }
      var rid: int;
      if resourceId.Some? {
        rid := resourceId.value;
      } else {
        rid := db.CreateResource();
      }
      ghost var t0 := db.tables;
      var id := db.InsertApplication(appName.value, rid);
      if id.Failure? {
        return Failure(id.error);
      }
      CachesAgreeKept(t0, db.tables, applicationCache, eventTypeCache);
      r := Success(ApplicationRow(id.value, appName.value, rid));
    }

    /** `findApplicationByName`: NULL when no application has the name. */
    method FindApplicationByName(applicationName: Option<string>) returns (r: Result<Option<ApplicationRow>>)
      ensures applicationName.None? ==> r == Failure(NullPointer)
      ensures applicationName.Some? ==> r == Success(FindApplication(db.tables, applicationName.value))
    {
      if applicationName.None? {
        return Failure(NullPointer);
      }
      r := Success(FindApplication(db.tables, applicationName.value));
    }

    method GetOrCreateApplication(applicationName: Option<string>) returns (r: Result<ApplicationRow>)
      requires Valid()
      modifies db
      ensures Valid()
      ensures (r, db.State()) == GetOrCreateApplicationSpec(old(db.State()), applicationName)
    {
      var found := FindApplicationByName(applicationName);
      if found.Failure? {
        return Failure(found.error);
      }
      if found.value.Some? {
        return Success(found.value.value);
      }
      r := CreateApplication(applicationName, None);
    }

    /** `requireAppByName`: a missing application is an
        IllegalArgumentException. */
    method RequireAppByName(applicationName: string) returns (r: Result<ApplicationRow>)
      ensures FindApplication(db.tables, applicationName).None? ==> r == Failure(IllegalArgument)
      ensures FindApplication(db.tables, applicationName).Some? ==>
        r == Success(FindApplication(db.tables, applicationName).value)
    {
      var found := FindApplication(db.tables, applicationName);
      if found.None? {
        return Failure(IllegalArgument);
      }
      r := Success(found.value);
    }

    /** `findEventType`: NULL when the application has no such type. */
    method FindEventTypeOf(applicationId: int, eventTypeName: string) returns (r: Option<EventType>)
      ensures r.Some? <==> FindEventType(db.tables, applicationId, eventTypeName).Some?
      ensures r.Some? ==> (r.value == AsEventType(FindEventType(db.tables, applicationId, eventTypeName).value)
        && r.value.name == eventTypeName && r.value.applicationId == applicationId)
    {
      var found := FindEventType(db.tables, applicationId, eventTypeName);
      if found.None? {
        return None;
      }
      r := Some(AsEventType(found.value));
    }

    method CreateEventType(app: ApplicationRow, eventTypeName: string) returns (r: Result<EventType>)
      requires Valid()
      modifies db
      ensures Valid()
      ensures (r, db.State()) == CreateEventTypeSpec(old(db.State()), app, eventTypeName)
    {
      var resourceId := db.CreateResource();
      ghost var t0 := db.tables;
      var id := db.InsertEventType(eventTypeName, app.applicationId, resourceId);
      if id.Failure? {
        return Failure(id.error);
      }
      CachesAgreeKept(t0, db.tables, applicationCache, eventTypeCache);
      r := Success(EventType(id.value, eventTypeName, app.applicationId));
    }

    method GetOrCreateEventType(applicationName: Option<string>, eventTypeName: Option<string>) returns (r: Result<EventType>)
      requires Valid()
      modifies db
      ensures Valid()
      ensures (r, db.State()) == GetOrCreateEventTypeSpec(old(db.State()), applicationName, eventTypeName)
    {
      if applicationName.None? || eventTypeName.None? {
        return Failure(NullPointer);
      }
      var app := RequireAppByName(applicationName.value);
      if app.Failure? {
        return Failure(app.error);
      }
      var found := FindEventTypeOf(app.value.applicationId, eventTypeName.value);
      if found.Some? {
        return Success(found.value);
      }
      r := CreateEventType(app.value, eventTypeName.value);
    }

    /** `getOrCreateEventTypesForApplication`: the array of the event types
        of the names, filled in order; on a failure the tables are rolled
        back. */
    method GetOrCreateEventTypesForApplication(applicationName: Option<string>, eventTypeNames: Option<seq<Option<string>>>)
      returns (r: Result<array<EventType>>)
      requires Valid()
      modifies db
      ensures Valid()
      ensures var spec := GetOrCreateEventTypesSpec(old(db.State()), applicationName, eventTypeNames);
        && db.State() == spec.1
        && (r.Success? <==> spec.0.Success?)
        && (r.Failure? ==> r.error == spec.0.error)
        && (r.Success? ==> fresh(r.value) && r.value[..] == spec.0.value)
    {
      if applicationName.None? || eventTypeNames.None? {
        return Failure(NullPointer);
      }
      var app := RequireAppByName(applicationName.value);
      if app.Failure? {
        return Failure(app.error);
      }
      var saved := db.tables;
      ghost var k := db.nextKey;
      r := FillEventTypes(applicationName.value, eventTypeNames.value);
      if r.Failure? {
        ConsistentLater(saved, k, db.nextKey);
        db.Restore(saved);
      }
    }

    /** The loop of `getOrCreateEventTypesForApplication`, stopping at the
        first failure. */
    method FillEventTypes(applicationName: string, names: seq<Option<string>>) returns (r: Result<array<EventType>>)
      requires Valid()
      modifies db
      ensures Valid() && db.nextKey >= old(db.nextKey)
      ensures var spec := EventTypesSpec(old(db.State()), applicationName, names);
        && db.State() == spec.1
        && (r.Success? <==> spec.0.Success?)
        && (r.Failure? ==> r.error == spec.0.error)
        && (r.Success? ==> fresh(r.value) && r.value[..] == spec.0.value)
    {
      ghost var s0 := db.State();
      var rval := new EventType[|names|];
      var idx := 0;
      while idx < |names|
        invariant 0 <= idx <= |names|
        invariant Valid() && db.nextKey >= s0.nextKey
        invariant EventTypesSpec(s0, applicationName, names[..idx]) == (Success(rval[..idx]), db.State())
      {
        ghost var st := db.State();
        var et := GetOrCreateEventType(Some(applicationName), names[idx]);
        EventTypesIteration(s0, applicationName, names, idx, rval[..idx], st, et, db.State());
        if et.Failure? {
          return Failure(et.error);
        }
        rval[idx] := et.value;
        assert rval[..idx + 1] == rval[..idx] + [et.value];
        idx := idx + 1;
      }
      assert names[..idx] == names;
      r := Success(rval);
    }

    /** `getApplication`: the cached application, or the store's, which is
        cached when there is one. */
    method GetApplication(applicationName: Option<string>) returns (r: Result<Option<ApplicationRow>>)
      requires Valid()
      modifies this
      ensures Valid() && eventTypeCache == old(eventTypeCache)
      ensures applicationName.None? ==> r == Failure(NullPointer) && applicationCache == old(applicationCache)
      ensures applicationName.Some? ==> r == Success(FindApplication(db.tables, applicationName.value))
      ensures applicationName.Some? ==> (applicationCache ==
        match FindApplication(db.tables, applicationName.value)
        case None => old(applicationCache)
        case Some(a) => old(applicationCache)[applicationName.value := a])
    {
      if applicationName.None? {
        return Failure(NullPointer);
      }
      var name := applicationName.value;
      if name in applicationCache {
        CacheHitApplication(db.tables, applicationCache, eventTypeCache, name);
        return Success(Some(applicationCache[name]));
      }
      var app := FindApplication(db.tables, name);
      if app.Some? {
        CacheApplication(db.tables, applicationCache, eventTypeCache, name);
        applicationCache := applicationCache[name := app.value];
      }
      r := Success(app);
    }

    /** `getAuditEventType`: the cached event type, or the store's, which is
        cached when there is one. */
    method GetAuditEventType(applicationName: Option<string>, eventTypeName: Option<string>)
      returns (r: Result<Option<AuditEventType>>)
      requires Valid()
      modifies this
      ensures Valid() && applicationCache == old(applicationCache)
      ensures applicationName.None? || eventTypeName.None? ==>
        r == Failure(NullPointer) && eventTypeCache == old(eventTypeCache)
      ensures applicationName.Some? && eventTypeName.Some? ==>
        r == Success(SelectAuditEventType(db.tables, applicationName.value, eventTypeName.value))
      ensures applicationName.Some? && eventTypeName.Some? ==> (eventTypeCache ==
        match SelectAuditEventType(db.tables, applicationName.value, eventTypeName.value)
        case None => old(eventTypeCache)
        case Some(et) => old(eventTypeCache)[(applicationName.value, eventTypeName.value) := et])
    {
      if applicationName.None? || eventTypeName.None? {
        return Failure(NullPointer);
      }
      var key := (applicationName.value, eventTypeName.value);
      if key in eventTypeCache {
        CacheHitEventType(db.tables, applicationCache, eventTypeCache, key);
        return Success(Some(eventTypeCache[key]));
      }
      var et := SelectAuditEventType(db.tables, key.0, key.1);
      if et.Some? {
        CacheEventType(db.tables, applicationCache, eventTypeCache, key.0, key.1);
        eventTypeCache := eventTypeCache[key := et.value];
      }
      r := Success(et);
    }

    method GetEventTypesByApplication(applicationId: int) returns (r: seq<EventType>)
      ensures r == TypesOfApplication(db.tables.eventTypes, applicationId)
    {
      r := TypesOfApplication(db.tables.eventTypes, applicationId);
    }

    /** `getEventById`: the single-event load with the projection the field
        list selects. */
    method GetEventById(eventId: int, dataFields: Option<seq<string>>) returns (r: Result<Option<EventUi>>)
      ensures r == LoadEventSpec(db.tables, eventId, Some(ProjectionFor(dataFields)))
    {
      var loader := new SingleEventLoader();
      r := loader.LoadEvent(db.tables, eventId, Some(ProjectionFor(dataFields)));
    }

    /** `findEvents`: the paged search; a NULL application id array is a
        NullPointerException. */
    method FindEvents(selectedAppIds: Option<seq<int>>, selectedEventTypeIds: Option<seq<int>>,
                      dataFields: Option<seq<string>>, dataFilters: Option<seq<DataFilter>>,
                      eventsFrom: Option<int>, eventsTo: Option<int>, offset: nat, limit: nat)
      returns (r: Result<seq<EventUi>>)
      ensures selectedAppIds.None? ==> r == Failure(NullPointer)
      ensures selectedAppIds.Some? ==> r == LoadEventsSpec(db.tables,
        Search(selectedAppIds.value, selectedEventTypeIds, dataFields, dataFilters, eventsFrom, eventsTo, offset, limit))
      ensures r.Success? && KeysUnique(db.tables) ==> EventsOrdered(r.value) && |r.value| <= limit
      ensures r.Success? && KeysUnique(db.tables) ==>
        var s := Search(selectedAppIds.value, selectedEventTypeIds, dataFields, dataFilters,
                        eventsFrom, eventsTo, offset, limit);
        forall j :: 0 <= j < |r.value| ==>
          PresentsEventOf(db.tables, s, Page(Candidates(db.tables, EventPredicateOf(s)), offset, limit), r.value[j])
    {
      var loader := NewComplexEventLoader(selectedAppIds, selectedEventTypeIds, dataFields, dataFilters,
                                          eventsFrom, eventsTo, offset, limit);
      if loader.Failure? {
        return Failure(loader.error);
      }
      r := loader.value.LoadEvents(db.tables);
    }

    /** `logEvent`: get or create the event type, then persist the event. */
    method LogEvent(event: AuditEvent) returns (o: Outcome)
      requires Valid()
      modifies db
      ensures Valid()
      ensures (o, db.State()) == LogEventSpec(old(db.State()), event)
    {
      ghost var s := db.State();
      var et := GetOrCreateEventType(event.applicationName, event.name);
      if et.Failure? {
        return Fail(et.error);
      }
      ghost var s1 := db.State();
      LogEventAfterType(s, event, et.value, s1);
      var persister := new EventPersister(db, et.value.id, event);
      persister.Get();
      assert db.tables.applications == s1.tables.applications && db.tables.eventTypes == s1.tables.eventTypes;
      CachesAgreeKept(s1.tables, db.tables, applicationCache, eventTypeCache);
      assert db.State() == LogEventSpec(s, event).1;
      o := Pass;
    }
  }
}
