/** The predicates ComplexEventLoader builds: the event-level predicate of
    the paged event subquery, and the attribute-level predicate of the
    attribute subquery (the field projection and one "name <> filtered name
    OR typed comparison" per filter). Predicates are a small syntax with an
    evaluation function over table rows. None of them contains a negation,
    so reading SQL's "unknown" (a comparison with NULL) as false gives
    exactly the rows a WHERE clause keeps. */
module Predicates {
  import opened AuditTypes

  /** The operators of the search API. */
  datatype Operator = EQ | LT | GT | STARTS_WITH

  /** The operators of the SQL predicate syntax. */
  datatype SqlOp = OpEq | OpLt | OpGt | OpStartsWith

  /** The static `operatorMapping` table. */
  const OperatorMapping: map<Operator, SqlOp> :=
    map[EQ := OpEq, LT := OpLt, GT := OpGt, STARTS_WITH := OpStartsWith]

  /** Every search operator has an SQL operator, and no two share one. */
  lemma OperatorMappingTotalAndInjective()
    ensures forall o: Operator :: o in OperatorMapping
    ensures forall o1: Operator, o2: Operator ::
      OperatorMapping[o1] == OperatorMapping[o2] ==> o1 == o2
  {
    forall o: Operator ensures o in OperatorMapping {
      match o
      case EQ =>
      case LT =>
      case GT =>
      case STARTS_WITH =>
    }
  }

  /** A comparable column value or constant. */
  datatype Scalar = Num(n: int) | Str(s: string)

  /** The value columns a filter can compare (the binary column cannot). */
  datatype Column = NumberColumn | StringColumn | TextColumn | TimestampColumn

  /** Code-point lexicographic order on strings. */
  predicate StrLess(a: string, b: string)
  {
    if b == [] then false
    else if a == [] then true
    else if a[0] != b[0] then a[0] < b[0]
    else StrLess(a[1..], b[1..])
  }

  predicate Less(a: Scalar, b: Scalar)
  {
    (a.Num? && b.Num? && a.n < b.n) || (a.Str? && b.Str? && StrLess(a.s, b.s))
  }

  /** The SQL comparison `x op c`. */
  predicate Compare(op: SqlOp, x: Scalar, c: Scalar)
  {
    match op
    case OpEq => x == c
    case OpLt => Less(x, c)
    case OpGt => Less(c, x)
    case OpStartsWith => x.Str? && c.Str? && c.s <= x.s
  }

  /** The value of a column of an attribute row, NULL as None. */
  function ColumnValue(row: EventDataRow, c: Column): Option<Scalar>
  {
    match c
    case NumberColumn => (match row.numberValue case None => None case Some(n) => Some(Num(n)))
    case StringColumn => (match row.stringValue case None => None case Some(s) => Some(Str(s)))
    case TextColumn => (match row.textValue case None => None case Some(s) => Some(Str(s)))
    case TimestampColumn => (match row.timestampValue case None => None case Some(t) => Some(Num(t)))
  }

  /** Predicates over attribute rows. */
  datatype DataPred =
    | TruePred                        // `1 = 1`, or BooleanTemplate.TRUE
    | NameIn(names: seq<string>)      // eventDataName IN (names)
    | NameNe(name: string)            // eventDataName <> name
    | Cmp(op: SqlOp, column: Column, constant: Scalar)
    | And(left: DataPred, right: DataPred)
    | Or(left: DataPred, right: DataPred)

  predicate EvalData(p: DataPred, row: EventDataRow)
  {
    match p
    case TruePred => true
    case NameIn(names) => row.name in names
    case NameNe(name) => row.name != name
    case Cmp(op, c, k) =>
      (match ColumnValue(row, c)
       case None => false
       case Some(x) => Compare(op, x, k))
    case And(l, r) => EvalData(l, row) && EvalData(r, row)
    case Or(l, r) => EvalData(l, row) || EvalData(r, row)
  }

  /** A search constraint on one named attribute. */
  datatype DataFilter = DataFilter(operator: Operator, operands: EventData)

  /** The search operator's meaning: the SQL comparison it maps to. */
  predicate Satisfies(op: Operator, x: Scalar, c: Scalar)
  {
    OperatorMappingTotalAndInjective();
    Compare(OperatorMapping[op], x, c)
  }

  /** What a filter demands of one attribute row: rows of other attributes
      are unconstrained; a row of the filtered attribute must hold, in the
      column of the operand's declared type, a value that satisfies the
      operator against the operand. */
  predicate FilterHolds(f: DataFilter, row: EventDataRow)
  {
    row.name != f.operands.name ||
    match f.operands.value
    case NumberValue(n) => row.numberValue.Some? && Satisfies(f.operator, Num(row.numberValue.value), Num(n))
    case StringValue(s) => row.stringValue.Some? && Satisfies(f.operator, Str(row.stringValue.value), Str(s))
    case TextValue(s) => row.textValue.Some? && Satisfies(f.operator, Str(row.textValue.value), Str(s))
    case TimestampValue(t) => row.timestampValue.Some? && Satisfies(f.operator, Num(row.timestampValue.value), Num(t))
    case BinaryValue(_) => false
  }

  /** `buildPredicateForFilter`: the column and constant are chosen by the
      operand's declared type; a BINARY operand is refused. */
  function BuildPredicateForFilter(f: DataFilter): (r: Result<DataPred>)
    ensures r.Failure? <==> f.operands.value.DataType() == BINARY
    ensures r.Failure? ==> r.error == IllegalArgument
    ensures r.Success? ==> forall row :: EvalData(r.value, row) <==> FilterHolds(f, row)
  {
    var name := f.operands.name;
    OperatorMappingTotalAndInjective();
    var op := OperatorMapping[f.operator];
    match f.operands.value
    case NumberValue(n) => Success(Or(NameNe(name), Cmp(op, NumberColumn, Num(n))))
    case StringValue(s) => Success(Or(NameNe(name), Cmp(op, StringColumn, Str(s))))
    case TextValue(s) => Success(Or(NameNe(name), Cmp(op, TextColumn, Str(s))))
    case TimestampValue(t) => Success(Or(NameNe(name), Cmp(op, TimestampColumn, Num(t))))
    case BinaryValue(_) => Failure(IllegalArgument)
  }

  /** A row of an attribute other than the filtered one always passes the
      filter's predicate; a row of the filtered attribute passes exactly
      when the typed comparison holds. */
  lemma FilterPredicateSemantics(f: DataFilter, row: EventDataRow)
    requires BuildPredicateForFilter(f).Success?
    ensures row.name != f.operands.name ==> EvalData(BuildPredicateForFilter(f).value, row)
    ensures row.name == f.operands.name ==>
      (EvalData(BuildPredicateForFilter(f).value, row) <==>
       match f.operands.value
       case NumberValue(n) => row.numberValue.Some? && Satisfies(f.operator, Num(row.numberValue.value), Num(n))
       case StringValue(s) => row.stringValue.Some? && Satisfies(f.operator, Str(row.stringValue.value), Str(s))
       case TextValue(s) => row.textValue.Some? && Satisfies(f.operator, Str(row.textValue.value), Str(s))
       case TimestampValue(t) => row.timestampValue.Some? && Satisfies(f.operator, Num(row.timestampValue.value), Num(t))
       case BinaryValue(_) => false)
  {
  }

  /** The field projection: every attribute when no field list is given. */
  predicate Selected(dataFields: Option<seq<string>>, name: string)
  {
    dataFields.None? || name in dataFields.value
  }

  predicate NoBinaryFilter(filters: seq<DataFilter>)
  {
    forall i :: 0 <= i < |filters| ==> filters[i].operands.value.DataType() != BINARY
  }

  predicate AllFiltersHold(filters: seq<DataFilter>, row: EventDataRow)
  {
    forall i :: 0 <= i < |filters| ==> FilterHolds(filters[i], row)
  }

  /** The stream's `reduce(fieldPredicate, and)` over the mapped filters,
      failing at the first filter that cannot be mapped. */
  function ReduceAnd(acc: DataPred, filters: seq<DataFilter>): Result<DataPred>
    decreases |filters|
  {
    if filters == [] then Success(acc)
    else
      match BuildPredicateForFilter(filters[0])
      case Failure(e) => Failure(e)
      case Success(p) => ReduceAnd(And(acc, p), filters[1..])
  }

  lemma {:induction false} ReduceAndSemantics(acc: DataPred, filters: seq<DataFilter>, row: EventDataRow)
    ensures ReduceAnd(acc, filters).Success? <==> NoBinaryFilter(filters)
    ensures ReduceAnd(acc, filters).Failure? ==> ReduceAnd(acc, filters).error == IllegalArgument
    ensures ReduceAnd(acc, filters).Success? ==>
      (EvalData(ReduceAnd(acc, filters).value, row) <==> EvalData(acc, row) && AllFiltersHold(filters, row))
    decreases |filters|
  {
    if filters != [] {
      var head := BuildPredicateForFilter(filters[0]);
      if head.Success? {
        ReduceAndSemantics(And(acc, head.value), filters[1..], row);
        assert forall i :: 1 <= i < |filters| ==> filters[i] == filters[1..][i - 1];
        if NoBinaryFilter(filters[1..]) {
          assert NoBinaryFilter(filters);
        }
      }
    }
  }

  /** `buildEventDataSubqueryPredicate`. */
  function BuildEventDataSubqueryPredicate(
    dataFields: Option<seq<string>>, dataFilters: Option<seq<DataFilter>>): Result<DataPred>
  {
    var fieldPredicate := match dataFields case None => TruePred case Some(fields) => NameIn(fields);
    ReduceAnd(fieldPredicate, match dataFilters case None => [] case Some(fs) => fs)
  }

  function FiltersOf(dataFilters: Option<seq<DataFilter>>): seq<DataFilter>
  {
    match dataFilters case None => [] case Some(fs) => fs
  }

  /** An attribute row is kept exactly when it is in the projection and
      every filter holds of it; the predicate is refused (IllegalArgument)
      exactly when some filter has a BINARY operand. */
  lemma DataSubqueryPredicateSemantics(
    dataFields: Option<seq<string>>, dataFilters: Option<seq<DataFilter>>, row: EventDataRow)
    ensures BuildEventDataSubqueryPredicate(dataFields, dataFilters).Success?
            <==> NoBinaryFilter(FiltersOf(dataFilters))
    ensures BuildEventDataSubqueryPredicate(dataFields, dataFilters).Failure? ==>
      BuildEventDataSubqueryPredicate(dataFields, dataFilters).error == IllegalArgument
    ensures BuildEventDataSubqueryPredicate(dataFields, dataFilters).Success? ==>
      (EvalData(BuildEventDataSubqueryPredicate(dataFields, dataFilters).value, row)
       <==> Selected(dataFields, row.name) && AllFiltersHold(FiltersOf(dataFilters), row))
  {
    var fieldPredicate := match dataFields case None => TruePred case Some(fields) => NameIn(fields);
    ReduceAndSemantics(fieldPredicate, FiltersOf(dataFilters), row);
  }

  /** Filtering never removes a row of an attribute that no filter names. */
  lemma FiltersKeepOtherAttributes(
    dataFields: Option<seq<string>>, dataFilters: Option<seq<DataFilter>>, row: EventDataRow)
    requires BuildEventDataSubqueryPredicate(dataFields, dataFilters).Success?
    requires Selected(dataFields, row.name)
    requires forall i :: 0 <= i < |FiltersOf(dataFilters)| ==> FiltersOf(dataFilters)[i].operands.name != row.name
    ensures EvalData(BuildEventDataSubqueryPredicate(dataFields, dataFilters).value, row)
  {
    DataSubqueryPredicateSemantics(dataFields, dataFilters, row);
  }

  /** With no filters the attribute predicate is the field projection alone. */
  lemma NoFiltersIsProjection(dataFields: Option<seq<string>>, dataFilters: Option<seq<DataFilter>>, row: EventDataRow)
    requires dataFilters == None || dataFilters == Some([])
    ensures BuildEventDataSubqueryPredicate(dataFields, dataFilters).Success?
    ensures EvalData(BuildEventDataSubqueryPredicate(dataFields, dataFilters).value, row) <==> Selected(dataFields, row.name)
  {
    DataSubqueryPredicateSemantics(dataFields, dataFilters, row);
  }

  /** Predicates over an event row joined with its (left-joined) event type. */
  datatype EventPred =
    | AppIdIn(appIds: seq<int>)       // eventType.applicationId IN (...)
    | TypeIdIn(typeIds: seq<int>)     // event.eventTypeId IN (...)
    | Between(from: int, to: int)     // saveTimestamp BETWEEN from AND to
    | After(from: int)                // saveTimestamp > from
    | Before(to: int)                 // saveTimestamp < to
    | AndE(left: EventPred, right: EventPred)

  predicate EvalEvent(p: EventPred, e: EventRow, t: Option<EventTypeRow>)
  {
    match p
    case AppIdIn(ids) => t.Some? && t.value.applicationId in ids
    case TypeIdIn(ids) => e.eventTypeId in ids
    case Between(lo, hi) => lo <= e.saveTimestamp <= hi
    case After(lo) => e.saveTimestamp > lo
    case Before(hi) => e.saveTimestamp < hi
    case AndE(l, r) => EvalEvent(l, e, t) && EvalEvent(r, e, t)
  }

  /** `buildEventSubqueryPredicate`: the application restriction always,
      the event type restriction when a list is given, and a time window
      that is inclusive with both bounds and strict with one. */
  function BuildEventSubqueryPredicate(
    appIds: seq<int>, eventTypeIds: Option<seq<int>>, eventsFrom: Option<int>, eventsTo: Option<int>): (p: EventPred)
    ensures forall e, t :: EvalEvent(p, e, t) <==>
      && t.Some? && t.value.applicationId in appIds
      && (eventTypeIds.Some? ==> e.eventTypeId in eventTypeIds.value)
      && (eventsFrom.Some? && eventsTo.Some? ==> eventsFrom.value <= e.saveTimestamp <= eventsTo.value)
      && (eventsFrom.Some? && eventsTo.None? ==> e.saveTimestamp > eventsFrom.value)
      && (eventsFrom.None? && eventsTo.Some? ==> e.saveTimestamp < eventsTo.value)
  {
    var rval := AppIdIn(appIds);
    var rval := if eventTypeIds.Some? then AndE(rval, TypeIdIn(eventTypeIds.value)) else rval;
    assert forall e, t :: EvalEvent(rval, e, t) <==>
      t.Some? && t.value.applicationId in appIds && (eventTypeIds.Some? ==> e.eventTypeId in eventTypeIds.value);
    if eventsFrom.Some? && eventsTo.Some? then AndE(rval, Between(eventsFrom.value, eventsTo.value))
    else if eventsFrom.Some? then AndE(rval, After(eventsFrom.value))
    else if eventsTo.Some? then AndE(rval, Before(eventsTo.value))
    else rval
  }
}
