/** MultipleEventQueryResultMapper: one forward pass over the flat result
    rows that starts a new event whenever the event id changes, and decodes
    every row's attribute into the event under construction. As written,
    the event under construction when the rows run out is never emitted. */
module MultipleMapper {
  import opened AuditTypes
  import opened RowMapper

  /** The loop's state: the events emitted so far and the one under
      construction. */
  datatype PivotState = PivotState(done: seq<EventUi>, current: Option<EventUi>)

  /** The loop's id check on `row`: when the id changes, the event under
      construction (if any) is emitted and a new one is seeded from the
      row's header. */
  function Advance(st: PivotState, row: ResultRow): (st': PivotState)
    ensures st'.current.Some? && st'.current.value.eventId == row.eventId
  {
    if st.current.None? || st.current.value.eventId != row.eventId then
      PivotState(if st.current.Some? then st.done + [st.current.value] else st.done, Some(StartEvent(row)))
    else st
  }

  /** One iteration of the loop body: the id check, then the row's
      attribute decoded into the event under construction. */
  function PivotStep(st: PivotState, row: ResultRow): Result<PivotState>
  {
    var adv := Advance(st, row);
    match DecodeRow(row)
    case Failure(e) => Failure(e)
    case Success(d) => Success(PivotState(adv.done, Some(AddData(adv.current.value, d))))
  }

  /** The loop's state after the given rows, or the first row's error. */
  function Pivot(rows: seq<ResultRow>): Result<PivotState>
    decreases |rows|
  {
    if rows == [] then Success(PivotState([], None))
    else
      match Pivot(rows[..|rows| - 1])
      case Failure(e) => Failure(e)
      case Success(st) => PivotStep(st, rows[|rows| - 1])
  }

  /** What `mapToEvents` returns: the emitted events only. */
  function Events(rows: seq<ResultRow>): Result<seq<EventUi>>
  {
    match Pivot(rows)
    case Failure(e) => Failure(e)
    case Success(st) => Success(st.done)
  }

  /** One iteration of the loop body as evidently intended: a row whose
      type tag is NULL (no attribute joined) still starts or continues its
      event, but adds nothing to it. */
  function PivotStepIntended(st: PivotState, row: ResultRow): Result<PivotState>
  {
    if row.data.None? then Success(Advance(st, row)) else PivotStep(st, row)
  }

  function PivotIntended(rows: seq<ResultRow>): Result<PivotState>
    decreases |rows|
  {
    if rows == [] then Success(PivotState([], None))
    else
      match PivotIntended(rows[..|rows| - 1])
      case Failure(e) => Failure(e)
      case Success(st) => PivotStepIntended(st, rows[|rows| - 1])
  }

  /** What the evidently intended pass returns: NULL type tags add
      nothing, and the event under construction at the end is emitted
      too. */
  function EventsIntended(rows: seq<ResultRow>): Result<seq<EventUi>>
  {
    match PivotIntended(rows)
    case Failure(e) => Failure(e)
    case Success(st) => Success(if st.current.Some? then st.done + [st.current.value] else st.done)
  }

  /** Row `i` starts a group: it is the first row or its id differs from
      the previous row's. */
  predicate IsGroupStart(rows: seq<ResultRow>, i: int)
    requires 0 <= i < |rows|
  {
    i == 0 || rows[i - 1].eventId != rows[i].eventId
  }

  /** The indices of the rows that start a group, in increasing order. */
  function GroupStarts(rows: seq<ResultRow>): (gs: seq<nat>)
    ensures rows == [] <==> gs == []
    ensures rows != [] ==> gs[0] == 0
    ensures forall j :: 0 <= j < |gs| ==> gs[j] < |rows| && IsGroupStart(rows, gs[j])
    ensures forall j, k :: 0 <= j < k < |gs| ==> gs[j] < gs[k]
    ensures forall i :: 0 <= i < |rows| && IsGroupStart(rows, i) ==> i in gs
    decreases |rows|
  {
    if rows == [] then []
    else
      var n := |rows| - 1;
      var init := rows[..n];
      assert forall i :: 0 <= i < n ==> IsGroupStart(rows, i) == IsGroupStart(init, i);
      GroupStarts(init) + (if IsGroupStart(rows, n) then [n] else [])
  }

  /** The event built from the group of rows `a` up to `b`: the header of
      its first row and the attributes of all its rows. */
  function GroupEvent(rows: seq<ResultRow>, a: int, b: int): EventUi
    requires 0 <= a < b <= |rows|
  {
    StartEvent(rows[a]).(eventData := Attributes(rows[a..b]))
  }

  lemma GroupEventOfPrefix(rows: seq<ResultRow>, n: int, a: int, b: int)
    requires 0 <= a < b <= n <= |rows|
    ensures GroupEvent(rows[..n], a, b) == GroupEvent(rows, a, b)
  {
    assert rows[..n][a..b] == rows[a..b];
  }

  /** The pass succeeds exactly when every row decodes; otherwise it fails
      with the error of the first row that does not. */
  lemma {:induction false} PivotSucceedsIff(rows: seq<ResultRow>)
    ensures Pivot(rows).Success? <==> forall i :: 0 <= i < |rows| ==> DecodeRow(rows[i]).Success?
    ensures Pivot(rows).Failure? ==>
      exists i :: 0 <= i < |rows| && DecodeRow(rows[i]) == Failure(Pivot(rows).error)
                  && forall k :: 0 <= k < i ==> DecodeRow(rows[k]).Success?
    decreases |rows|
  {
    if rows != [] {
      var n := |rows| - 1;
      PivotSucceedsIff(rows[..n]);
      assert forall i :: 0 <= i < n ==> rows[..n][i] == rows[i];
      if Pivot(rows[..n]).Failure? {
        var i :| 0 <= i < n && DecodeRow(rows[..n][i]) == Failure(Pivot(rows[..n]).error)
                  && forall k :: 0 <= k < i ==> DecodeRow(rows[..n][k]).Success?;
        assert DecodeRow(rows[i]) == Failure(Pivot(rows).error);
      }
    }
  }

  /** A NULL type tag anywhere in the rows makes the whole pass fail. */
  lemma NullTagFails(rows: seq<ResultRow>, i: int)
    requires 0 <= i < |rows| && rows[i].data.None?
    ensures Pivot(rows).Failure?
  {
    PivotSucceedsIff(rows);
  }

  /** The loop state `st` after `rows` is the one the groups determine: one
      emitted event per group except the last, which is under construction;
      the j-th event has the header of the j-th group's first row and the
      attributes of all of that group's rows. */
  predicate Characterized(rows: seq<ResultRow>, st: PivotState)
  {
    var gs := GroupStarts(rows);
    && (rows == [] <==> st.current.None?)
    && |st.done| == (if rows == [] then 0 else |gs| - 1)
    && (forall j :: 0 <= j < |st.done| ==> st.done[j] == GroupEvent(rows, gs[j], gs[j + 1]))
    && (rows != [] ==> st.current.value == GroupEvent(rows, gs[|gs| - 1], |rows|))
    && (rows != [] ==> st.current.value.eventId == rows[|rows| - 1].eventId)
  }

  lemma SingleRowGroup(rows: seq<ResultRow>, d: EventData)
    requires |rows| > 0 && DecodeRow(rows[|rows| - 1]) == Success(d)
    ensures GroupEvent(rows, |rows| - 1, |rows|) == AddData(StartEvent(rows[|rows| - 1]), d)
  {
    var n := |rows| - 1;
    var x := rows[n];
    assert rows[n..n + 1] == [x];
    assert [x][..0] == [];
    assert Attributes([x]) == Attributes([])[d.name := d];
  }

  /** Closing the last group of a prefix emits its event in its place. */
  lemma NewGroupDone(rows: seq<ResultRow>, done: seq<EventUi>, st0: PivotState)
    requires |rows| > 1 && IsGroupStart(rows, |rows| - 1)
    requires Characterized(rows[..|rows| - 1], st0)
    requires done == st0.done + [st0.current.value]
    ensures |done| == |GroupStarts(rows)| - 1
    ensures forall j :: 0 <= j < |done| ==>
      done[j] == GroupEvent(rows, GroupStarts(rows)[j], GroupStarts(rows)[j + 1])
  {
    var n := |rows| - 1;
    var gs0 := GroupStarts(rows[..n]);
    var gs := GroupStarts(rows);
    assert gs == gs0 + [n];
    forall j | 0 <= j < |done|
      ensures done[j] == GroupEvent(rows, gs[j], gs[j + 1])
    {
      if j < |st0.done| {
        GroupEventOfPrefix(rows, n, gs0[j], gs0[j + 1]);
      } else {
        GroupEventOfPrefix(rows, n, gs0[|gs0| - 1], n);
      }
    }
  }

  /** A step on a row that starts a new group. */
  lemma NewGroupStep(rows: seq<ResultRow>, st0: PivotState, d: EventData)
    requires |rows| > 0 && IsGroupStart(rows, |rows| - 1)
    requires Characterized(rows[..|rows| - 1], st0)
    requires DecodeRow(rows[|rows| - 1]) == Success(d)
    ensures PivotStep(st0, rows[|rows| - 1]).Success?
    ensures Characterized(rows, PivotStep(st0, rows[|rows| - 1]).value)
  {
    var n := |rows| - 1;
    var init := rows[..n];
    var x := rows[n];
    var gs0 := GroupStarts(init);
    var gs := GroupStarts(rows);
    assert gs == gs0 + [n];
    var st := PivotStep(st0, x).value;
    assert st.current == Some(AddData(StartEvent(x), d));
    SingleRowGroup(rows, d);
    if n == 0 {
      assert st.done == [];
    } else {
      assert st.done == st0.done + [st0.current.value];
      NewGroupDone(rows, st0.done + [st0.current.value], st0);
    }
  }

  /** A step on a row that continues the current group. */
  lemma SameGroupStep(rows: seq<ResultRow>, st0: PivotState, d: EventData)
    requires |rows| > 0 && !IsGroupStart(rows, |rows| - 1)
    requires Characterized(rows[..|rows| - 1], st0)
    requires DecodeRow(rows[|rows| - 1]) == Success(d)
    ensures PivotStep(st0, rows[|rows| - 1]).Success?
    ensures Characterized(rows, PivotStep(st0, rows[|rows| - 1]).value)
  {
    var n := |rows| - 1;
    var gs0 := GroupStarts(rows[..n]);
    assert n > 0;
    ContinueStep(st0, rows[n], d);
    GroupEventExtend(rows, gs0[|gs0| - 1], d);
    SameGroupDone(rows, st0);
  }

  /** The step on a row of the event under construction adds the row's
      attribute to it and emits nothing. */
  lemma ContinueStep(st0: PivotState, row: ResultRow, d: EventData)
    requires st0.current.Some? && st0.current.value.eventId == row.eventId
    requires DecodeRow(row) == Success(d)
    ensures PivotStep(st0, row) == Success(PivotState(st0.done, Some(AddData(st0.current.value, d))))
  {
  }

  /** One more decodable row adds its attribute to the group's event. */
  lemma GroupEventExtend(rows: seq<ResultRow>, a: int, d: EventData)
    requires 0 <= a < |rows| - 1 && DecodeRow(rows[|rows| - 1]) == Success(d)
    ensures GroupEvent(rows, a, |rows|) == AddData(GroupEvent(rows[..|rows| - 1], a, |rows| - 1), d)
  {
    var n := |rows| - 1;
    assert rows[a..n + 1][..n - a] == rows[..n][a..n];
  }

  /** Continuing the last group leaves the emitted events in place. */
  lemma SameGroupDone(rows: seq<ResultRow>, st0: PivotState)
    requires |rows| > 0 && !IsGroupStart(rows, |rows| - 1)
    requires Characterized(rows[..|rows| - 1], st0)
    ensures |st0.done| == |GroupStarts(rows)| - 1
    ensures forall j :: 0 <= j < |st0.done| ==>
      st0.done[j] == GroupEvent(rows, GroupStarts(rows)[j], GroupStarts(rows)[j + 1])
  {
    var n := |rows| - 1;
    var gs0 := GroupStarts(rows[..n]);
    assert GroupStarts(rows) == gs0;
    forall j | 0 <= j < |st0.done|
      ensures st0.done[j] == GroupEvent(rows, gs0[j], gs0[j + 1])
    {
      GroupEventOfPrefix(rows, n, gs0[j], gs0[j + 1]);
    }
  }

  /** The pass, when it succeeds, ends in the state the groups determine. */
  lemma {:induction false} PivotCharacterization(rows: seq<ResultRow>)
    requires Pivot(rows).Success?
    ensures Characterized(rows, Pivot(rows).value)
    decreases |rows|
  {
    if rows != [] {
      var n := |rows| - 1;
      assert Pivot(rows[..n]).Success?;
      PivotCharacterization(rows[..n]);
      var d := DecodeRow(rows[n]).value;
      if IsGroupStart(rows, n) {
        NewGroupStep(rows, Pivot(rows[..n]).value, d);
      } else {
        SameGroupStep(rows, Pivot(rows[..n]).value, d);
      }
    }
  }

  /** Once a prefix fails, the whole pass fails with the same error. */
  lemma {:induction false} PivotFailureSticks(rows: seq<ResultRow>, k: int)
    requires 0 <= k <= |rows| && Pivot(rows[..k]).Failure?
    ensures Pivot(rows) == Pivot(rows[..k])
    decreases |rows| - k
  {
    if k < |rows| {
      assert rows[..k + 1][..k] == rows[..k];
      PivotFailureSticks(rows, k + 1);
    } else {
      assert rows[..k] == rows;
    }
  }

  /** `mapToEvents`, as written. */
  method MapToEvents(rows: seq<ResultRow>) returns (r: Result<seq<EventUi>>)
    ensures r == Events(rows)
  {
    var rval: seq<EventUi> := [];
    var prevEventId: Option<int> := None;
    var underConstruction: EventBuilder? := null;
    var i := 0;
    while i < |rows|
      invariant 0 <= i <= |rows|
      invariant Pivot(rows[..i]).Success? && Pivot(rows[..i]).value.done == rval
      invariant prevEventId.None? <==> underConstruction == null
      invariant underConstruction != null ==>
        fresh(underConstruction) && prevEventId == Some(underConstruction.eventId)
      invariant Pivot(rows[..i]).value.current ==
        if underConstruction == null then None else Some(underConstruction.Value())
    {
      var row := rows[i];
      var eventId := row.eventId;
      assert rows[..i + 1][..i] == rows[..i];
      if prevEventId.None? || eventId != prevEventId.value {
        if underConstruction != null {
          var e := underConstruction.Build();
          rval := rval + [e];
        }
        underConstruction := new EventBuilder(row);
        prevEventId := Some(eventId);
      }
      var o := AddEventDataForRow(underConstruction, row);
      if o.Fail? {
        PivotFailureSticks(rows, i + 1);
        return Failure(o.error);
      }
      i := i + 1;
    }
    assert rows[..i] == rows;
    r := Success(rval);
  }

  /** `mapToEvents` as evidently intended: a row with a NULL type tag adds
      no attribute, and the last event is emitted after the loop. */
  method MapToEventsIntended(rows: seq<ResultRow>) returns (r: Result<seq<EventUi>>)
    ensures r == EventsIntended(rows)
  {
    var rval: seq<EventUi> := [];
    var prevEventId: Option<int> := None;
    var underConstruction: EventBuilder? := null;
    var i := 0;
    while i < |rows|
      invariant 0 <= i <= |rows|
      invariant PivotIntended(rows[..i]).Success? && PivotIntended(rows[..i]).value.done == rval
      invariant prevEventId.None? <==> underConstruction == null
      invariant underConstruction != null ==>
        fresh(underConstruction) && prevEventId == Some(underConstruction.eventId)
      invariant PivotIntended(rows[..i]).value.current ==
        if underConstruction == null then None else Some(underConstruction.Value())
    {
      var row := rows[i];
      var eventId := row.eventId;
      assert rows[..i + 1][..i] == rows[..i];
      if prevEventId.None? || eventId != prevEventId.value {
        if underConstruction != null {
          var e := underConstruction.Build();
          rval := rval + [e];
        }
        underConstruction := new EventBuilder(row);
        prevEventId := Some(eventId);
      }
      if row.TypeTag().Some? {
        var o := AddEventDataForRow(underConstruction, row);
        if o.Fail? {
          PivotIntendedFailureSticks(rows, i + 1);
          return Failure(o.error);
        }
      }
      i := i + 1;
    }
    assert rows[..i] == rows;
    var st := PivotIntended(rows).value;
    if underConstruction != null {
      var e := underConstruction.Build();
      assert st.current == Some(e);
      rval := rval + [e];
    } else {
      assert st.current == None;
    }
    r := Success(rval);
  }

  /** As written: for k >= 1 groups the pass emits k - 1 events, the j-th
      built from the j-th group; empty input gives no events. */
  lemma EventsDropLastGroup(rows: seq<ResultRow>)
    requires Events(rows).Success?
    ensures rows == [] ==> Events(rows).value == []
    ensures rows != [] ==> |Events(rows).value| == |GroupStarts(rows)| - 1
    ensures forall j :: 0 <= j < |Events(rows).value| ==>
      Events(rows).value[j] == GroupEvent(rows, GroupStarts(rows)[j], GroupStarts(rows)[j + 1])
  {
    PivotCharacterization(rows);
  }

  /** A single decodable row is a group of its own, yet the pass as
      written returns no event for it. */
  lemma SingleRowLost(row: ResultRow)
    requires DecodeRow(row).Success?
    ensures |GroupStarts([row])| == 1
    ensures Events([row]) == Success([])
    ensures EventsIntended([row]) == Success([AddData(StartEvent(row), DecodeRow(row).value)])
  {
    assert [row][..0] == [];
    SingleRowGroup([row], DecodeRow(row).value);
    var e := AddData(StartEvent(row), DecodeRow(row).value);
    assert Pivot([row]) == Success(PivotState([], Some(e)));
    assert PivotIntended([row]) == Success(PivotState([], Some(e)));
    assert [] + [e] == [e];
  }

  /** A row without an attribute, the left join's NULL row for an event
      none of whose attributes is admitted, makes the pass as written fail
      with an IllegalArgumentException; as intended it is that event with no
      attributes. */
  lemma NullTagRowLost(row: ResultRow)
    requires row.data.None?
    ensures Events([row]) == Failure(IllegalArgument)
    ensures EventsIntended([row]) == Success([StartEvent(row)])
  {
    assert [row][..0] == [];
    assert DecodeRow(row) == Failure(IllegalArgument);
    assert Pivot([row]) == Failure(IllegalArgument);
    assert PivotIntended([row]) == Success(PivotState([], Some(StartEvent(row))));
    assert [] + [StartEvent(row)] == [StartEvent(row)];
  }

  /** As intended, the pass succeeds exactly when every row that has an
      attribute decodes; otherwise it fails with the error of the first
      such row that does not. */
  lemma {:induction false} PivotIntendedSucceedsIff(rows: seq<ResultRow>)
    ensures PivotIntended(rows).Success? <==>
      forall i :: 0 <= i < |rows| && rows[i].data.Some? ==> DecodeRow(rows[i]).Success?
    ensures PivotIntended(rows).Failure? ==>
      exists i :: 0 <= i < |rows| && rows[i].data.Some? && DecodeRow(rows[i]) == Failure(PivotIntended(rows).error)
    decreases |rows|
  {
    if rows != [] {
      var n := |rows| - 1;
      PivotIntendedSucceedsIff(rows[..n]);
      assert forall i :: 0 <= i < n ==> rows[..n][i] == rows[i];
      if PivotIntended(rows[..n]).Failure? {
        var i :| 0 <= i < n && rows[..n][i].data.Some?
                 && DecodeRow(rows[..n][i]) == Failure(PivotIntended(rows[..n]).error);
        assert DecodeRow(rows[i]) == Failure(PivotIntended(rows).error);
      }
    }
  }

  /** Once a prefix fails, the intended pass fails the same way. */
  lemma {:induction false} PivotIntendedFailureSticks(rows: seq<ResultRow>, k: int)
    requires 0 <= k <= |rows| && PivotIntended(rows[..k]).Failure?
    ensures PivotIntended(rows) == PivotIntended(rows[..k])
    decreases |rows| - k
  {
    if k < |rows| {
      assert rows[..k + 1][..k] == rows[..k];
      PivotIntendedFailureSticks(rows, k + 1);
    } else {
      assert rows[..k] == rows;
    }
  }

  /** A step on a row without an attribute keeps the state the groups
      determine: the row's group gains nothing. */
  lemma NullRowStep(rows: seq<ResultRow>, st0: PivotState)
    requires |rows| > 0 && rows[|rows| - 1].data.None?
    requires Characterized(rows[..|rows| - 1], st0)
    ensures PivotStepIntended(st0, rows[|rows| - 1]).Success?
    ensures Characterized(rows, PivotStepIntended(st0, rows[|rows| - 1]).value)
  {
    if IsGroupStart(rows, |rows| - 1) {
      NullRowNewGroup(rows, st0);
    } else {
      NullRowSameGroup(rows, st0);
    }
  }

  lemma NullRowNewGroup(rows: seq<ResultRow>, st0: PivotState)
    requires |rows| > 0 && rows[|rows| - 1].data.None? && IsGroupStart(rows, |rows| - 1)
    requires Characterized(rows[..|rows| - 1], st0)
    ensures PivotStepIntended(st0, rows[|rows| - 1]).Success?
    ensures Characterized(rows, PivotStepIntended(st0, rows[|rows| - 1]).value)
  {
    var n := |rows| - 1;
    var x := rows[n];
    assert GroupStarts(rows) == GroupStarts(rows[..n]) + [n];
    assert GroupEvent(rows, n, n + 1) == StartEvent(x) by {
      assert rows[n..n + 1] == [x] && [x][..0] == [];
      assert Attributes([x]) == map[];
    }
    if n > 0 {
      NewGroupDone(rows, st0.done + [st0.current.value], st0);
    }
  }

  lemma NullRowSameGroup(rows: seq<ResultRow>, st0: PivotState)
    requires |rows| > 0 && rows[|rows| - 1].data.None? && !IsGroupStart(rows, |rows| - 1)
    requires Characterized(rows[..|rows| - 1], st0)
    ensures PivotStepIntended(st0, rows[|rows| - 1]).Success?
    ensures Characterized(rows, PivotStepIntended(st0, rows[|rows| - 1]).value)
  {
    var n := |rows| - 1;
    var gs0 := GroupStarts(rows[..n]);
    var a := gs0[|gs0| - 1];
    assert GroupEvent(rows, a, n + 1) == GroupEvent(rows, a, n) by {
      assert rows[a..n + 1][..n - a] == rows[a..n];
      assert DecodeRow(rows[n]).Failure?;
    }
    GroupEventOfPrefix(rows, n, a, n);
    assert PivotStepIntended(st0, rows[n]) == Success(st0);
    SameGroupDone(rows, st0);
  }

  /** The intended pass, when it succeeds, ends in the state the groups
      determine. */
  lemma {:induction false} PivotIntendedCharacterization(rows: seq<ResultRow>)
    requires PivotIntended(rows).Success?
    ensures Characterized(rows, PivotIntended(rows).value)
    decreases |rows|
  {
    if rows != [] {
      var n := |rows| - 1;
      assert PivotIntended(rows[..n]).Success?;
      PivotIntendedCharacterization(rows[..n]);
      var st0 := PivotIntended(rows[..n]).value;
      if rows[n].data.None? {
        NullRowStep(rows, st0);
      } else if IsGroupStart(rows, n) {
        NewGroupStep(rows, st0, DecodeRow(rows[n]).value);
      } else {
        SameGroupStep(rows, st0, DecodeRow(rows[n]).value);
      }
    }
  }

  /** As intended, when every row that has an attribute decodes, the pass
      emits exactly one event per group, in the order of the groups' first
      rows: the first row's header with the attributes of all the group's
      rows. */
  lemma EventsIntendedPerGroup(rows: seq<ResultRow>)
    requires forall i :: 0 <= i < |rows| && rows[i].data.Some? ==> DecodeRow(rows[i]).Success?
    ensures EventsIntended(rows).Success?
    ensures |EventsIntended(rows).value| == |GroupStarts(rows)|
    ensures forall j :: 0 <= j < |GroupStarts(rows)| ==>
      EventsIntended(rows).value[j] ==
        GroupEvent(rows, GroupStarts(rows)[j],
                   if j + 1 < |GroupStarts(rows)| then GroupStarts(rows)[j + 1] else |rows|)
  {
    PivotIntendedSucceedsIff(rows);
    PivotIntendedCharacterization(rows);
    var st := PivotIntended(rows).value;
    if rows != [] {
      assert EventsIntended(rows).value == st.done + [st.current.value];
    }
  }

  /** As intended, the j-th event carries the id and save timestamp of the
      j-th group's first row. */
  lemma EventsIntendedGroupIds(rows: seq<ResultRow>)
    requires forall i :: 0 <= i < |rows| && rows[i].data.Some? ==> DecodeRow(rows[i]).Success?
    ensures EventsIntended(rows).Success?
    ensures |EventsIntended(rows).value| == |GroupStarts(rows)|
    ensures forall j :: 0 <= j < |GroupStarts(rows)| ==>
      && EventsIntended(rows).value[j].eventId == rows[GroupStarts(rows)[j]].eventId
      && EventsIntended(rows).value[j].saveTimestamp == rows[GroupStarts(rows)[j]].saveTimestamp
  {
    EventsIntendedPerGroup(rows);
    forall j | 0 <= j < |GroupStarts(rows)|
      ensures EventsIntended(rows).value[j].eventId == rows[GroupStarts(rows)[j]].eventId
      ensures EventsIntended(rows).value[j].saveTimestamp == rows[GroupStarts(rows)[j]].saveTimestamp
    {
      EventIntendedAt(rows, j);
    }
  }

  lemma EventIntendedAt(rows: seq<ResultRow>, j: int)
    requires forall i :: 0 <= i < |rows| && rows[i].data.Some? ==> DecodeRow(rows[i]).Success?
    requires 0 <= j < |GroupStarts(rows)|
    ensures EventsIntended(rows).Success? && j < |EventsIntended(rows).value|
    ensures EventsIntended(rows).value[j].eventId == rows[GroupStarts(rows)[j]].eventId
    ensures EventsIntended(rows).value[j].saveTimestamp == rows[GroupStarts(rows)[j]].saveTimestamp
  {
    EventsIntendedPerGroup(rows);
    var gs := GroupStarts(rows);
    var b := if j + 1 < |gs| then gs[j + 1] else |rows|;
    assert gs[j] < b <= |rows|;
    assert EventsIntended(rows).value[j] == GroupEvent(rows, gs[j], b);
  }

  /** As intended, every row's id is carried by some event. */
  lemma EventsIntendedCoverRows(rows: seq<ResultRow>)
    requires forall i :: 0 <= i < |rows| && rows[i].data.Some? ==> DecodeRow(rows[i]).Success?
    ensures EventsIntended(rows).Success?
    ensures forall i :: 0 <= i < |rows| ==>
      exists j :: 0 <= j < |EventsIntended(rows).value| && EventsIntended(rows).value[j].eventId == rows[i].eventId
  {
    EventsIntendedGroupIds(rows);
    var evs := EventsIntended(rows).value;
    forall i | 0 <= i < |rows|
      ensures exists j :: 0 <= j < |evs| && evs[j].eventId == rows[i].eventId
    {
      RowInSomeGroup(rows, i);
    }
  }

  /** Every row lies in a group whose first row carries the row's id. */
  lemma {:induction false} RowInSomeGroup(rows: seq<ResultRow>, i: int)
    requires 0 <= i < |rows|
    ensures exists j :: 0 <= j < |GroupStarts(rows)| && GroupStarts(rows)[j] <= i
                        && rows[GroupStarts(rows)[j]].eventId == rows[i].eventId
    decreases i
  {
    var gs := GroupStarts(rows);
    if IsGroupStart(rows, i) {
      assert i in gs;
      var j :| 0 <= j < |gs| && gs[j] == i;
    } else {
      RowInSomeGroup(rows, i - 1);
    }
  }

  /** The rows from the last group start on all carry the last row's id:
      they form the group the pass as written never emits. */
  lemma {:induction false} LastGroupSameId(rows: seq<ResultRow>, i: int)
    requires 0 <= i < |rows| && GroupStarts(rows)[|GroupStarts(rows)| - 1] <= i
    ensures rows[i].eventId == rows[|rows| - 1].eventId
    decreases |rows| - i
  {
    var gs := GroupStarts(rows);
    if i < |rows| - 1 {
      assert !IsGroupStart(rows, i + 1);
      LastGroupSameId(rows, i + 1);
    }
  }

  /** As written, every row whose id differs from the last row's has its
      id carried by some emitted event. */
  lemma EventsCoverEarlierRows(rows: seq<ResultRow>, i: int)
    requires Events(rows).Success?
    requires 0 <= i < |rows| && rows[i].eventId != rows[|rows| - 1].eventId
    ensures exists j :: 0 <= j < |Events(rows).value| && Events(rows).value[j].eventId == rows[i].eventId
  {
    var gs := GroupStarts(rows);
    RowInSomeGroup(rows, i);
    var j :| 0 <= j < |gs| && gs[j] <= i && rows[gs[j]].eventId == rows[i].eventId;
    if j == |gs| - 1 {
      LastGroupSameId(rows, i);
      assert false;
    }
    EmittedGroupId(rows, j);
  }

  /** As written, the event of every group but the last carries the id of
      the group's first row. */
  lemma EmittedGroupId(rows: seq<ResultRow>, j: int)
    requires Events(rows).Success? && 0 <= j < |GroupStarts(rows)| - 1
    ensures j < |Events(rows).value|
    ensures Events(rows).value[j].eventId == rows[GroupStarts(rows)[j]].eventId
  {
    EventsDropLastGroup(rows);
    assert Events(rows).value[j] == GroupEvent(rows, GroupStarts(rows)[j], GroupStarts(rows)[j + 1]);
  }

  /** All rows with one event id are adjacent. */
  predicate Contiguous(rows: seq<ResultRow>)
  {
    forall i, j, k :: 0 <= i < j < k < |rows| && rows[i].eventId == rows[k].eventId ==>
      rows[j].eventId == rows[i].eventId
  }

  /** The index just past the j-th group: the next group's start, or the
      end of the rows. */
  function GroupEnd(rows: seq<ResultRow>, j: int): (b: int)
    requires 0 <= j < |GroupStarts(rows)|
    ensures GroupStarts(rows)[j] < b <= |rows|
  {
    if j + 1 < |GroupStarts(rows)| then GroupStarts(rows)[j + 1] else |rows|
  }

  /** On contiguous rows the j-th group is exactly the rows that carry its
      first row's id. */
  lemma GroupRun(rows: seq<ResultRow>, j: int)
    requires Contiguous(rows) && 0 <= j < |GroupStarts(rows)|
    ensures forall i :: 0 <= i < |rows| ==>
      (GroupStarts(rows)[j] <= i < GroupEnd(rows, j) <==> rows[i].eventId == rows[GroupStarts(rows)[j]].eventId)
  {
    var gs := GroupStarts(rows);
    var a, b := gs[j], GroupEnd(rows, j);
    forall i | a <= i < b ensures rows[i].eventId == rows[a].eventId {
      WithinGroup(rows, j, i);
    }
    forall i | 0 <= i < a ensures rows[i].eventId != rows[a].eventId {
      LaterStartDiffers(rows, i, a);
    }
    if b < |rows| {
      LaterStartDiffers(rows, a, b);
    }
  }

  /** A row inside the j-th group carries its first row's id. */
  lemma {:induction false} WithinGroup(rows: seq<ResultRow>, j: int, i: int)
    requires 0 <= j < |GroupStarts(rows)| && GroupStarts(rows)[j] <= i < GroupEnd(rows, j)
    ensures rows[i].eventId == rows[GroupStarts(rows)[j]].eventId
    decreases i
  {
    var gs := GroupStarts(rows);
    if i > gs[j] {
      if IsGroupStart(rows, i) {
        var m :| 0 <= m < |gs| && gs[m] == i;
        assert false;
      }
      WithinGroup(rows, j, i - 1);
    }
  }

  /** On contiguous rows no two groups share an event id, so the events
      the pass emits have distinct ids. */
  lemma ContiguousGroupsDistinct(rows: seq<ResultRow>)
    requires Contiguous(rows)
    ensures forall j, k :: 0 <= j < k < |GroupStarts(rows)| ==>
      rows[GroupStarts(rows)[j]].eventId != rows[GroupStarts(rows)[k]].eventId
  {
    var gs := GroupStarts(rows);
    forall j, k | 0 <= j < k < |gs|
      ensures rows[gs[j]].eventId != rows[gs[k]].eventId
    {
      LaterStartDiffers(rows, gs[j], gs[k]);
    }
  }

  /** On contiguous rows a group start differs in id from every earlier row. */
  lemma LaterStartDiffers(rows: seq<ResultRow>, a: int, b: int)
    requires Contiguous(rows)
    requires 0 <= a < b < |rows| && IsGroupStart(rows, b)
    ensures rows[a].eventId != rows[b].eventId
  {
    if a < b - 1 {
      var ia, ib, ip := rows[a].eventId, rows[b].eventId, rows[b - 1].eventId;
      assert ia == ib ==> ip == ia;
    }
  }
}
