# Audit EAV store: a verified model

This project models the core of an audit service. The service stores events in an
entity-attribute-value layout:
- applications;
- event types, each belonging to an application;
- events, each of one event type and with a save timestamp;
- attribute rows, each holding a name, a type tag and one typed value column.

The model covers the following parts of the service:

- **Predicate construction** (`Predicates`): the event-level and attribute-level predicates of
  the paged search. Each is a small predicate datatype with an evaluation function. The
  operator mapping and the per-filter predicate "name differs OR typed comparison" are part of it.
- **The paged search** (`ComplexLoader`): the loader class builds its query step by step.
  The query is then executed over the tables:
  - the event subquery is restricted and paged first;
  - the event type and application are left-joined;
  - the admitted attribute rows are left-joined;
  - rows are ordered by timestamp descending, then event id ascending.
- **Row pivot and decoding** (`MultipleMapper`, `RowMapper`, `SingleLoader`):
  - the grouping loop over contiguous event ids;
  - the decoding of an attribute row by its type tag;
  - the single-event loader and its left join.
- **Ingestion** (`Persister`): logging one event appends one event row and then one attribute
  row per datum, in order, with exactly one value column set.
- **The catalog** (`Store`, `Audit`):
  - the store keeps the four tables, a key generator and a resource generator, with a uniqueness
    constraint on application names and on event type names within an application;
  - the component offers find-or-null and require-or-throw lookups and the get-or-create
    operations;
  - the batch operation runs in one transaction;
  - the two read-through caches store only non-null results;
  - the component also offers event logging and the two event queries.

Each catalog operation is specified by a function from the store state before the call to the
result and the state after it. The component's methods are proved to compute exactly that.
Lemmas prove the promised properties of these functions: idempotence, rollback, input order,
cache transparency and read-back.

Java `null` is `Option.None`. Exceptions are `Result.Failure` or `Outcome.Fail`, carrying an
`Error` that names the exception class.

## Model

| member | source | states |
|---|---|---|
| Predicates.OperatorMappingTotalAndInjective | core/src/main/java/org/everit/osgi/audit/ri/internal/ComplexEventLoader.java:51-58 | the operator map is defined on EQ, LT, GT and STARTS_WITH and sends different operators to different SQL operators |
| Predicates.BuildPredicateForFilter | core/src/main/java/org/everit/osgi/audit/ri/internal/ComplexEventLoader.java:172-201 | fails with IllegalArgumentException exactly for a BINARY operand; otherwise the predicate holds on a row exactly when the filter does (`FilterHolds`) |
| Predicates.FilterPredicateSemantics | core/src/main/java/org/everit/osgi/audit/ri/internal/ComplexEventLoader.java:178-200 | a row of another attribute name always passes; a row of the filtered name passes exactly when the column the operand's type selects is non-NULL and compares as the operator says |
| Predicates.ReduceAndSemantics | core/src/main/java/org/everit/osgi/audit/ri/internal/ComplexEventLoader.java:137-140 | the reduction over the filters fails exactly when one is BINARY, and otherwise holds exactly when the seed and every filter predicate hold |
| Predicates.DataSubqueryPredicateSemantics | core/src/main/java/org/everit/osgi/audit/ri/internal/ComplexEventLoader.java:132-141 | the attribute-row predicate is built exactly when no filter is BINARY, and holds exactly when the name is among the fields (any name when they are NULL) and every filter holds |
| Predicates.FiltersKeepOtherAttributes | core/src/main/java/org/everit/osgi/audit/ri/internal/ComplexEventLoader.java:199-200 | a selected row whose name no filter mentions is never removed by the filters |
| Predicates.NoFiltersIsProjection | core/src/main/java/org/everit/osgi/audit/ri/internal/ComplexEventLoader.java:134-140 | with NULL or no filters the predicate is the field restriction alone |
| Predicates.BuildEventSubqueryPredicate | core/src/main/java/org/everit/osgi/audit/ri/internal/ComplexEventLoader.java:143-158 | an event passes exactly when its type's application is selected, its type is selected when type ids are given, and its timestamp lies in the closed window, above `from` alone, below `to` alone, or anywhere |
| ComplexLoader.Candidates | core/src/main/java/org/everit/osgi/audit/ri/internal/ComplexEventLoader.java:160-168 | the event subquery before paging: each event once per left-joined event type when the event predicate holds; stated by `CandidatesSemantics` |
| ComplexLoader.Execute | core/src/main/java/org/everit/osgi/audit/ri/internal/ComplexEventLoader.java:109-170 | the rows of the query: the page of candidates, each left-joined with type, application and admitted attribute rows, then ordered; stated by `ExecuteFromPage`, `PageInExecute` and `ExecuteContiguous` |
| ComplexLoader.LoadEventsSpec | core/src/main/java/org/everit/osgi/audit/ri/internal/ComplexEventLoader.java:216-230 | what `loadEvents` returns: the attribute predicate's error, or the pivot of the query's rows; stated by `LoadEventsDistinct`, `LoadEventsOrdered`, `LoadEventsContents`, `LoadEventsReturnsPageEvent` and `SearchFailsOnBareEvent` |
| ComplexLoader.Page | core/src/main/java/org/everit/osgi/audit/ri/internal/ComplexEventLoader.java:163-167 | OFFSET/LIMIT: at most `limit` rows, the exact count left after `offset`, each the row `offset` places further on |
| ComplexLoader.SortBy | core/src/main/java/org/everit/osgi/audit/ri/internal/ComplexEventLoader.java:109-111 | ORDER BY timestamp descending then event id ascending, on any key: the result is sorted that way and is a permutation of its input |
| ComplexLoader.InsertBy | core/src/main/java/org/everit/osgi/audit/ri/internal/ComplexEventLoader.java:109-111 | inserting into a sorted list keeps it sorted and adds exactly that element |
| ComplexLoader.SortRows | core/src/main/java/org/everit/osgi/audit/ri/internal/ComplexEventLoader.java:109-111 | the flat rows in ORDER BY order: sorted by timestamp descending then id ascending, and a permutation of the input |
| ComplexLoader.CandidatesSemantics | core/src/main/java/org/everit/osgi/audit/ri/internal/ComplexEventLoader.java:160-168 | an event is a candidate of the event subquery exactly when it is stored and its event type exists and satisfies the event predicate |
| ComplexLoader.CandidateHasType | core/src/main/java/org/everit/osgi/audit/ri/internal/ComplexEventLoader.java:160-165 | a candidate of the event subquery is a stored event with an existing event type that satisfies the event predicate |
| ComplexLoader.TypedEventIsCandidate | core/src/main/java/org/everit/osgi/audit/ri/internal/ComplexEventLoader.java:160-165 | a stored event whose existing event type satisfies the event predicate is a candidate |
| ComplexLoader.RowsOfCover | core/src/main/java/org/everit/osgi/audit/ri/internal/ComplexEventLoader.java:113-127 | the left join yields a row per admitted attribute of the event, and a row with NULL attribute when none is admitted |
| ComplexLoader.ExecuteFromPage | core/src/main/java/org/everit/osgi/audit/ri/internal/ComplexEventLoader.java:160-169 | every result row comes from an event of the page |
| ComplexLoader.PageInExecute | core/src/main/java/org/everit/osgi/audit/ri/internal/ComplexEventLoader.java:113-127 | every event of the page appears with each admitted attribute, or with a NULL attribute when it has none |
| ComplexLoader.SearchRowAttribute | core/src/main/java/org/everit/osgi/audit/ri/internal/ComplexEventLoader.java:113-141 | every attribute in the result belongs to its row's event, is among the selected fields and passes every filter |
| ComplexLoader.SearchKeepsAttribute | core/src/main/java/org/everit/osgi/audit/ri/internal/ComplexEventLoader.java:113-141 | conversely, every selected attribute passing every filter of a paged event is in the query's rows, and a paged event whose attributes all fail still has a row with a NULL attribute |
| ComplexLoader.AtMostLimitEvents | core/src/main/java/org/everit/osgi/audit/ri/internal/ComplexEventLoader.java:160-169 | the result's event ids come from the page, so there are at most `limit` of them whatever the attribute count |
| ComplexLoader.ResultIdsInPage | core/src/main/java/org/everit/osgi/audit/ri/internal/ComplexEventLoader.java:160-169 | the result's event ids are among the page's |
| ComplexLoader.ExecuteContiguous | core/src/main/java/org/everit/osgi/audit/ri/internal/ComplexEventLoader.java:109-111 | the ordered result is sorted and the rows of each event are contiguous |
| ComplexLoader.SortedContiguous | core/src/main/java/org/everit/osgi/audit/ri/internal/ComplexEventLoader.java:109-111 | rows sorted by timestamp then id, with one timestamp per id, keep each id's rows together |
| ComplexLoader.ComplexEventLoader.BuildFromClause | core/src/main/java/org/everit/osgi/audit/ri/internal/ComplexEventLoader.java:160-170 | the query reads from the event subquery with the event predicate, offset and limit |
| ComplexLoader.ComplexEventLoader.JoinAppAndEventType | core/src/main/java/org/everit/osgi/audit/ri/internal/ComplexEventLoader.java:211-214 | the event type and application are left-joined to the query |
| ComplexLoader.ComplexEventLoader.BuildEventDataSubquery | core/src/main/java/org/everit/osgi/audit/ri/internal/ComplexEventLoader.java:113-130 | fails with IllegalArgumentException exactly when a filter is BINARY, leaving the query; otherwise left-joins the attribute rows the data predicate admits |
| ComplexLoader.ComplexEventLoader.AddOrderBy | core/src/main/java/org/everit/osgi/audit/ri/internal/ComplexEventLoader.java:109-111 | the query is ordered |
| ComplexLoader.ComplexEventLoader.BuildQuery | core/src/main/java/org/everit/osgi/audit/ri/internal/ComplexEventLoader.java:203-209 | fails exactly when a filter is BINARY; otherwise the query is the full paged, joined and ordered query of the search |
| ComplexLoader.ComplexEventLoader.LoadEvents | core/src/main/java/org/everit/osgi/audit/ri/internal/ComplexEventLoader.java:216-230 | the events are the pivot of the rows the built query returns; with unique keys they are ordered by timestamp descending then id ascending, have distinct ids of page events, number at most `limit`, and each shows a typed page event: its id, timestamp, type and application names, and exactly the attributes of its rows that are selected and pass every filter, each decoded from such a row (`PresentsEventOf`) |
| ComplexLoader.ComplexEventLoader.constructor | core/src/main/java/org/everit/osgi/audit/ri/internal/ComplexEventLoader.java:90-107 | the loader holds the search parameters and an empty query |
| ComplexLoader.NewComplexEventLoader | core/src/main/java/org/everit/osgi/audit/ri/internal/ComplexEventLoader.java:99 | a NULL application id array is a NullPointerException; any other input gives a fresh loader with those parameters |
| ComplexLoader.LoadEventsDistinct | core/src/main/java/org/everit/osgi/audit/ri/internal/ComplexEventLoader.java:160-169 | the loaded events have distinct ids, each id of an event of the page, and number at most `limit` |
| ComplexLoader.EventsOfQuery | core/src/main/java/org/everit/osgi/audit/ri/internal/ComplexEventLoader.java:160-169 | the pivot of the ordered query's rows gives distinct events of the page, at most `limit` |
| ComplexLoader.PagedEventsOfRows | core/src/main/java/org/everit/osgi/audit/ri/internal/MultipleEventQueryResultMapper.java:64-85 | pivoting contiguous rows whose ids come from the page gives distinct page events, no more than the ids |
| ComplexLoader.SearchFailsOnBareEvent | core/src/main/java/org/everit/osgi/audit/ri/internal/ComplexEventLoader.java:113-141 | as written, a page event none of whose attributes is selected and passes every filter makes the whole search fail |
| ComplexLoader.LoadEventsIntendedSpec | core/src/main/java/org/everit/osgi/audit/ri/internal/ComplexEventLoader.java:216-230 | the search with the intended pass: NULL type tags add nothing and the last event is emitted |
| ComplexLoader.LoadEventsIntendedPaged | core/src/main/java/org/everit/osgi/audit/ri/internal/ComplexEventLoader.java:160-169 | with unique keys, a buildable predicate and decodable stored attributes, the intended search succeeds with distinct page events, at most `limit`, and every page event is among them, bare or not |
| ComplexLoader.PagedEventsIntended | core/src/main/java/org/everit/osgi/audit/ri/internal/MultipleEventQueryResultMapper.java:64-85 | the intended pass over contiguous rows whose ids come from the page, at most `limit` of them, gives distinct page events, at most `limit` |
| ComplexLoader.ExecuteDecodes | core/src/main/java/org/everit/osgi/audit/ri/internal/ComplexEventLoader.java:113-127 | when every stored attribute decodes, every attribute row of the query's result decodes |
| ComplexLoader.PageEventHasRow | core/src/main/java/org/everit/osgi/audit/ri/internal/ComplexEventLoader.java:113-127 | every page event has a row in the result |
| ComplexLoader.EventsIntendedIds | core/src/main/java/org/everit/osgi/audit/ri/internal/MultipleEventQueryResultMapper.java:70-80 | from contiguous rows the intended pass emits events with distinct ids, each one of the rows' ids |
| ComplexLoader.EventsOfRowsIds | core/src/main/java/org/everit/osgi/audit/ri/internal/MultipleEventQueryResultMapper.java:70-80 | from contiguous rows the pivot emits events with distinct ids, each one of the rows' ids |
| ComplexLoader.QueryEventsIntended | core/src/main/java/org/everit/osgi/audit/ri/internal/ComplexEventLoader.java:109-127 | the intended pass over an ordered query's rows, when stored attributes decode: distinct page events, every page event among them, at most `limit`, in ORDER BY order |
| ComplexLoader.GroupEventsOrdered | core/src/main/java/org/everit/osgi/audit/ri/internal/ComplexEventLoader.java:109-111 | events carrying the ids and timestamps of successive group starts of sorted, contiguous rows are ordered by timestamp descending then id ascending |
| ComplexLoader.LoadEventsOrdered | core/src/main/java/org/everit/osgi/audit/ri/internal/ComplexEventLoader.java:109-111 | with unique keys, the events of a successful search are ordered by timestamp descending, then id ascending, with no two equal |
| ComplexLoader.LoadEventsIntendedOrdered | core/src/main/java/org/everit/osgi/audit/ri/internal/ComplexEventLoader.java:109-111 | the same for the search with the intended pass |
| ComplexLoader.LoadEventsReturnsPageEvent | core/src/main/java/org/everit/osgi/audit/ri/internal/ComplexEventLoader.java:113-127 | as written, a page event is returned whenever another page event comes strictly after it in ORDER BY order, whatever its other attribute rows hold |
| ComplexLoader.LastRowNotOf | core/src/main/java/org/everit/osgi/audit/ri/internal/ComplexEventLoader.java:109-111 | the last row of the ordered result is not a row of a page event that another page event comes strictly after |
| ComplexLoader.RowKeyOfPageEvent | core/src/main/java/org/everit/osgi/audit/ri/internal/ComplexEventLoader.java:160-169 | with unique keys, a result row carries the timestamp and id of the page event with its id |
| ComplexLoader.SortedLastNotOf | core/src/main/java/org/everit/osgi/audit/ri/internal/ComplexEventLoader.java:109-111 | the last of sorted rows does not carry a key that some row's key does not precede |
| ComplexLoader.FilteredOutEventReturned | core/src/main/java/org/everit/osgi/audit/ri/internal/ComplexEventLoader.java:113-127 | as written, a page event one of whose attribute rows fails a filter is returned, both by the search and by the intended pass, unless it is the page's oldest |
| ComplexLoader.LoadEventsCorrectedSpec | core/src/main/java/org/everit/osgi/audit/ri/internal/ComplexEventLoader.java:160-168 | the corrected search: the event subquery keeps only the candidates none of whose attribute rows fails a filter, ordered before OFFSET and LIMIT; stated by `LoadEventsCorrected`, `CorrectedExcludesFailing` and `CorrectedPageNewest` |
| ComplexLoader.LoadEventsCorrected | core/src/main/java/org/everit/osgi/audit/ri/internal/ComplexEventLoader.java:160-168 | the corrected search succeeds, returns exactly one event per event of its page, in ORDER BY order, at most `limit`, and every page event is a candidate that qualifies under the filters; the events' contents are stated by `LoadEventsCorrectedContents` |
| ComplexLoader.CorrectedExcludesFailing | core/src/main/java/org/everit/osgi/audit/ri/internal/ComplexEventLoader.java:113-127 | the corrected search never returns an event one of whose attribute rows fails a filter |
| ComplexLoader.SortedPage | core/src/main/java/org/everit/osgi/audit/ri/internal/ComplexEventLoader.java:109-111 | a page of sorted elements is sorted, comes after the skipped elements and before those past its end |
| ComplexLoader.CorrectedPageNewest | core/src/main/java/org/everit/osgi/audit/ri/internal/ComplexEventLoader.java:160-168 | the corrected page is a permutation-sorted slice of the qualifying candidates: ordered, after the first `offset` of them and before the rest |
| ComplexLoader.StorageOrderPage | core/src/main/java/org/everit/osgi/audit/ri/internal/ComplexEventLoader.java:160-168 | as written, with an older candidate stored before a newer one, OFFSET 0 LIMIT 1 pages the older event; the corrected page is the newer one |
| ComplexLoader.CorrectedEventsOfTwo | core/src/main/java/org/everit/osgi/audit/ri/internal/ComplexEventLoader.java:160-168 | the corrected subquery puts a newer candidate before an older one |
| ComplexLoader.TwoEventsCandidates | core/src/main/java/org/everit/osgi/audit/ri/internal/ComplexEventLoader.java:160-168 | the two stored events of one application are the candidates of the search, in storage order |
| ComplexLoader.TwoEventsStorageOrder | core/src/main/java/org/everit/osgi/audit/ri/internal/ComplexEventLoader.java:160-168 | for those two events the as-written page for LIMIT 1 is the older event and the corrected page the newer one |
| ComplexLoader.NoFiltersQualifyAll | core/src/main/java/org/everit/osgi/audit/ri/internal/ComplexEventLoader.java:134-140 | with no filters every event qualifies |
| ComplexLoader.SortTwo | core/src/main/java/org/everit/osgi/audit/ri/internal/ComplexEventLoader.java:109-111 | two elements out of ORDER BY order are swapped by the sort |
| ComplexLoader.PageRowIsEvent | core/src/main/java/org/everit/osgi/audit/ri/internal/ComplexEventLoader.java:160-168 | a page event is a stored candidate, and qualifies when the subquery has qualifiers |
| RowMapper.Decode | core/src/main/java/org/everit/osgi/audit/ri/internal/EventDataRowMapper.java:69-89 | the as-written dispatch on the type tag string: BINARY, STRING, TEXT and NUMBER read their column, the TIMESTAMP test compares with the enum constant and never matches, any other tag is IllegalStateException; its cases are stated by `DecodeRowCases` |
| RowMapper.DecodeRowCases | core/src/main/java/org/everit/osgi/audit/ri/internal/EventDataRowMapper.java:69-89 | a NULL tag is IllegalArgumentException; BINARY, STRING, TEXT and NUMBER give the datum of the column the tag selects, a NULL blob being a NullPointerException; TIMESTAMP and unknown tags are IllegalStateException |
| RowMapper.TimestampRowRefused | core/src/main/java/org/everit/osgi/audit/ri/internal/EventDataRowMapper.java:83-88 | a TIMESTAMP row with a value is refused as written, while the intended decoder returns its timestamp |
| RowMapper.DecodeRowIntendedCases | core/src/main/java/org/everit/osgi/audit/ri/internal/EventDataRowMapper.java:69-89 | the intended decoder: as written, except that TIMESTAMP gives the timestamp column, a NULL timestamp being a NullPointerException |
| RowMapper.DecodeRowKeepsName | core/src/main/java/org/everit/osgi/audit/ri/internal/EventDataRowMapper.java:74-85 | a decoded datum carries the row's attribute name |
| RowMapper.AttributesKeys | core/src/main/java/org/everit/osgi/audit/ri/internal/EventDataRowMapper.java:74-85 | the attributes added by a sequence of rows are keyed by exactly the rows' names |
| RowMapper.AttributesLastWins | core/src/main/java/org/everit/osgi/audit/ri/internal/EventDataRowMapper.java:74-85 | for a repeated name the last row's value is kept |
| RowMapper.AttributesOfRows | core/src/main/java/org/everit/osgi/audit/ri/internal/EventDataRowMapper.java:74-85 | when every row with an attribute decodes, the attributes are keyed by exactly those rows' names, each the decoding of a row of that name |
| RowMapper.EventBuilder.constructor | core/src/main/java/org/everit/osgi/audit/ri/internal/MultipleEventQueryResultMapper.java:75-79 | a builder is seeded with the row's id, type name, application name and timestamp, and no attributes |
| RowMapper.EventBuilder.Build | core/src/main/java/org/everit/osgi/audit/ri/internal/MultipleEventQueryResultMapper.java:73 | building gives the builder's event |
| RowMapper.EventBuilder.Put | core/src/main/java/org/everit/osgi/audit/ri/internal/EventDataRowMapper.java:74-85 | one attribute entry is set, keyed by the datum's name; nothing else changes |
| RowMapper.AddBlobData | core/src/main/java/org/everit/osgi/audit/ri/internal/EventDataRowMapper.java:56-67 | a blob's bytes are added as a BINARY attribute under the name; a NULL blob is a NullPointerException and leaves the builder |
| RowMapper.AddEventDataForRow | core/src/main/java/org/everit/osgi/audit/ri/internal/EventDataRowMapper.java:69-89 | a decodable row adds exactly its datum to the builder; otherwise the decoder's error is raised and the builder is left as it was |
| MultipleMapper.PivotStep | core/src/main/java/org/everit/osgi/audit/ri/internal/MultipleEventQueryResultMapper.java:70-82 | one loop iteration: on a new id the event under construction is emitted and a new one seeded from the row's header, then the row's attribute is decoded into it or its error ends the loop; properties below |
| ComplexLoader.TypeRowsUnique | core/src/main/java/org/everit/osgi/audit/ri/internal/ComplexEventLoader.java:211-212 | with unique keys, the left join with the event types gives the event's type row alone, or one NULL |
| ComplexLoader.AppRowsUnique | core/src/main/java/org/everit/osgi/audit/ri/internal/ComplexEventLoader.java:213 | with unique keys, the left join of a type with the applications gives its application row alone, or one NULL |
| ComplexLoader.RowNames | core/src/main/java/org/everit/osgi/audit/ri/internal/ComplexEventLoader.java:211-214 | with unique keys, every row of a page event carries the names of the event's type and of that type's application, NULL where the join finds none |
| ComplexLoader.ExecuteRowsOf | core/src/main/java/org/everit/osgi/audit/ri/internal/ComplexEventLoader.java:211-230 | every row of the result is a row of an event of the page |
| ComplexLoader.GroupHeader | core/src/main/java/org/everit/osgi/audit/ri/internal/MultipleEventQueryResultMapper.java:70-79 | the first row of a group carries the id, timestamp and type and application names of a page event |
| ComplexLoader.GroupRowAdmitted | core/src/main/java/org/everit/osgi/audit/ri/internal/ComplexEventLoader.java:113-127 | a result row with an attribute holds an attribute row of its event that is selected and passes every filter |
| ComplexLoader.ExecuteRowsAdmitted | core/src/main/java/org/everit/osgi/audit/ri/internal/ComplexEventLoader.java:113-127 | every attribute row returned with a page event's id is selected and passes every filter |
| ComplexLoader.ExecuteHoldsAdmitted | core/src/main/java/org/everit/osgi/audit/ri/internal/ComplexEventLoader.java:113-127 | every attribute row of a page event that is selected and passes every filter comes back with its id |
| ComplexLoader.DataHasRow | core/src/main/java/org/everit/osgi/audit/ri/internal/ComplexEventLoader.java:113-127 | one selected attribute row of a page event that passes every filter comes back with its id |
| ComplexLoader.RowHasRowOf | core/src/main/java/org/everit/osgi/audit/ri/internal/MultipleEventQueryResultMapper.java:70-82 | a row in the result witnesses that its attribute comes back with its id |
| ComplexLoader.AttributesOfAdmitted | core/src/main/java/org/everit/osgi/audit/ri/internal/EventDataRowMapper.java:74-85 | rows that carry exactly an event's admitted attribute rows give attributes keyed by the admitted names, each decoded from an admitted row |
| ComplexLoader.GroupRowsAdmitted | core/src/main/java/org/everit/osgi/audit/ri/internal/MultipleEventQueryResultMapper.java:70-82 | the attribute rows of an event's group decode and are admitted |
| ComplexLoader.GroupHoldsAdmitted | core/src/main/java/org/everit/osgi/audit/ri/internal/MultipleEventQueryResultMapper.java:70-82 | every admitted attribute row of an event is carried by a row of its group |
| ComplexLoader.GroupAttributes | core/src/main/java/org/everit/osgi/audit/ri/internal/MultipleEventQueryResultMapper.java:70-82 | the attributes of an event's group are keyed by exactly its admitted names, each decoded from an admitted row |
| ComplexLoader.GroupPresentsPageEvent | core/src/main/java/org/everit/osgi/audit/ri/internal/MultipleEventQueryResultMapper.java:64-85 | on the ordered rows of a search, each group's event shows a typed page event with exactly its admitted attributes |
| ComplexLoader.CandidateTyped | core/src/main/java/org/everit/osgi/audit/ri/internal/ComplexEventLoader.java:160-166 | a candidate of the search has a type row |
| ComplexLoader.LoadEventsContents | core/src/main/java/org/everit/osgi/audit/ri/internal/ComplexEventLoader.java:113-127 | with unique keys, every event the search returns shows a typed page event: its id, timestamp, type and application names, and one attribute per name of its attribute rows that are selected and pass every filter, each decoded from such a row |
| ComplexLoader.QueryContentsIntended | core/src/main/java/org/everit/osgi/audit/ri/internal/MultipleEventQueryResultMapper.java:64-85 | the intended pass over a search query's rows, when stored attributes decode, succeeds and every event shows a typed page event with exactly its admitted attributes |
| ComplexLoader.LoadEventsIntendedContents | core/src/main/java/org/everit/osgi/audit/ri/internal/ComplexEventLoader.java:113-127 | the same for the search with the intended pass; a page event with no admitted attribute row shows no attributes |
| ComplexLoader.LoadEventsCorrectedContents | core/src/main/java/org/everit/osgi/audit/ri/internal/ComplexEventLoader.java:113-127 | the same for the corrected search, over its page |
| MultipleMapper.Pivot | core/src/main/java/org/everit/osgi/audit/ri/internal/MultipleEventQueryResultMapper.java:64-83 | the loop state after the rows, or the first failing row's error; characterized by `PivotCharacterization` and `PivotSucceedsIff` |
| MultipleMapper.Events | core/src/main/java/org/everit/osgi/audit/ri/internal/MultipleEventQueryResultMapper.java:64-85 | what `mapToEvents` returns: the events emitted during the loop; the last group is stated lost by `EventsDropLastGroup` |
| MultipleMapper.PivotStepIntended | core/src/main/java/org/everit/osgi/audit/ri/internal/MultipleEventQueryResultMapper.java:70-82 | the intended iteration: a row without attribute still starts or continues its event but adds nothing |
| MultipleMapper.EventsIntended | core/src/main/java/org/everit/osgi/audit/ri/internal/MultipleEventQueryResultMapper.java:64-85 | the intended result: NULL tags add nothing and the last event is emitted too; stated per group by `EventsIntendedPerGroup` |
| MultipleMapper.GroupStarts | core/src/main/java/org/everit/osgi/audit/ri/internal/MultipleEventQueryResultMapper.java:70-71 | the group starts are ascending, the first is 0, each is a row whose id is new or differs from the previous row's, and every such row is one |
| MultipleMapper.PivotSucceedsIff | core/src/main/java/org/everit/osgi/audit/ri/internal/MultipleEventQueryResultMapper.java:82 | the pivot succeeds exactly when every row decodes, and otherwise fails with the first failing row's error |
| MultipleMapper.NullTagFails | core/src/main/java/org/everit/osgi/audit/ri/internal/MultipleEventQueryResultMapper.java:82 | a row with a NULL attribute makes the whole pivot fail |
| MultipleMapper.PivotCharacterization | core/src/main/java/org/everit/osgi/audit/ri/internal/MultipleEventQueryResultMapper.java:64-83 | after the loop, the events emitted are the complete groups before the last, each the group's first-row header plus all its rows' attributes |
| MultipleMapper.PivotFailureSticks | core/src/main/java/org/everit/osgi/audit/ri/internal/MultipleEventQueryResultMapper.java:69-83 | once a prefix fails, the whole input fails the same way |
| MultipleMapper.MapToEvents | core/src/main/java/org/everit/osgi/audit/ri/internal/MultipleEventQueryResultMapper.java:64-85 | the loop returns the pivot specification as written |
| MultipleMapper.MapToEventsIntended | core/src/main/java/org/everit/osgi/audit/ri/internal/MultipleEventQueryResultMapper.java:64-85 | the corrected loop, which skips NULL type tags and also emits the last builder, returns the intended specification |
| MultipleMapper.EventsDropLastGroup | core/src/main/java/org/everit/osgi/audit/ri/internal/MultipleEventQueryResultMapper.java:84 | as written, empty input gives no event, and k groups give k-1 events, the j-th being the j-th group |
| MultipleMapper.SingleRowLost | core/src/main/java/org/everit/osgi/audit/ri/internal/MultipleEventQueryResultMapper.java:84 | a one-row input gives no event as written, and that row's event in the intended pass |
| MultipleMapper.NullTagRowLost | core/src/main/java/org/everit/osgi/audit/ri/internal/MultipleEventQueryResultMapper.java:82 | as written, a single row without attribute makes the pass fail with IllegalArgumentException; the intended pass gives that row's bare event |
| MultipleMapper.PivotIntendedSucceedsIff | core/src/main/java/org/everit/osgi/audit/ri/internal/MultipleEventQueryResultMapper.java:69-83 | the intended pass succeeds exactly when every row that carries an attribute decodes, and otherwise fails with the first such row's error |
| MultipleMapper.PivotIntendedFailureSticks | core/src/main/java/org/everit/osgi/audit/ri/internal/MultipleEventQueryResultMapper.java:69-83 | once a prefix fails in the intended pass, the whole input fails the same way |
| MultipleMapper.PivotIntendedCharacterization | core/src/main/java/org/everit/osgi/audit/ri/internal/MultipleEventQueryResultMapper.java:64-83 | after the intended loop, the emitted events are the complete groups before the last and the event under construction is the last group, each with its rows' attributes |
| MultipleMapper.EventsIntendedPerGroup | core/src/main/java/org/everit/osgi/audit/ri/internal/MultipleEventQueryResultMapper.java:64-85 | in the intended pass, k groups give k events in the order of their first rows, each the group's first-row header plus all its rows' attributes |
| MultipleMapper.EventsIntendedGroupIds | core/src/main/java/org/everit/osgi/audit/ri/internal/MultipleEventQueryResultMapper.java:70-80 | in the intended pass the j-th event carries the id and save timestamp of the j-th group's first row |
| MultipleMapper.EventIntendedAt | core/src/main/java/org/everit/osgi/audit/ri/internal/MultipleEventQueryResultMapper.java:70-80 | the same for one group |
| MultipleMapper.LastGroupSameId | core/src/main/java/org/everit/osgi/audit/ri/internal/MultipleEventQueryResultMapper.java:70-84 | every row from the last group start on carries the last row's id |
| MultipleMapper.EventsCoverEarlierRows | core/src/main/java/org/everit/osgi/audit/ri/internal/MultipleEventQueryResultMapper.java:70-84 | as written, the id of every row whose id differs from the last row's is carried by an emitted event |
| MultipleMapper.EmittedGroupId | core/src/main/java/org/everit/osgi/audit/ri/internal/MultipleEventQueryResultMapper.java:70-84 | as written, the event of every group but the last carries the id of the group's first row |
| MultipleMapper.EventsIntendedCoverRows | core/src/main/java/org/everit/osgi/audit/ri/internal/MultipleEventQueryResultMapper.java:70-80 | in the intended pass every row's id is carried by some event |
| MultipleMapper.ContiguousGroupsDistinct | core/src/main/java/org/everit/osgi/audit/ri/internal/MultipleEventQueryResultMapper.java:70-71 | when each id's rows are contiguous, different groups have different ids |
| MultipleMapper.GroupEnd | core/src/main/java/org/everit/osgi/audit/ri/internal/MultipleEventQueryResultMapper.java:70-71 | the end of a group lies past its start and within the rows |
| MultipleMapper.GroupRun | core/src/main/java/org/everit/osgi/audit/ri/internal/MultipleEventQueryResultMapper.java:70-71 | on contiguous rows a group is exactly the rows that carry its first row's id |
| MultipleMapper.WithinGroup | core/src/main/java/org/everit/osgi/audit/ri/internal/MultipleEventQueryResultMapper.java:70-71 | a row inside a group carries its first row's id |
| MultipleMapper.LaterStartDiffers | core/src/main/java/org/everit/osgi/audit/ri/internal/MultipleEventQueryResultMapper.java:70-71 | with contiguous ids, a group start's id differs from every earlier row's |
| SingleLoader.EventOfRows | core/src/main/java/org/everit/osgi/audit/ri/internal/SingleEventLoader.java:91-112 | what `mapToEvent` returns: NULL for no rows, the bare header when the first row has no attribute, otherwise the header plus every row's attribute or the first decoding error; stated by `EventOfJoinedRows` |
| SingleLoader.LoadEventSpec | core/src/main/java/org/everit/osgi/audit/ri/internal/SingleEventLoader.java:81-89 | what `loadEvent` returns: the mapping of the rows of the id-restricted query; stated by `LoadEventFound` and `LoadEventNotFound` |
| SingleLoader.AddRowsAttributes | core/src/main/java/org/everit/osgi/audit/ri/internal/SingleEventLoader.java:105-110 | adding rows succeeds exactly when each decodes, and then the event's attributes are those of the rows |
| SingleLoader.AddRowsFailureSticks | core/src/main/java/org/everit/osgi/audit/ri/internal/SingleEventLoader.java:107-110 | once a prefix of the rows fails, the whole loop fails the same way |
| SingleLoader.MapToEvent | core/src/main/java/org/everit/osgi/audit/ri/internal/SingleEventLoader.java:91-112 | the loop returns the event specification of the rows |
| SingleLoader.SingleEventLoader.constructor | core/src/main/java/org/everit/osgi/audit/ri/internal/SingleEventLoader.java:52-55 | a loader starts with no query |
| SingleLoader.SingleEventLoader.SingleEventQuery | core/src/main/java/org/everit/osgi/audit/ri/internal/SingleEventLoader.java:114-135 | the query is the id-restricted join for the predicate, and its rows are what it returns |
| SingleLoader.SingleEventLoader.LoadEvent | core/src/main/java/org/everit/osgi/audit/ri/internal/SingleEventLoader.java:81-89 | the loaded event is the mapping of the query's rows |
| SingleLoader.LoadEventNotFound | core/src/main/java/org/everit/osgi/audit/ri/internal/SingleEventLoader.java:93-95 | an id with no event row gives no rows and NULL |
| SingleLoader.QueryRowsOfEvent | core/src/main/java/org/everit/osgi/audit/ri/internal/SingleEventLoader.java:114-122 | the query's rows are the event's header with each joined attribute, or one NULL-attribute row |
| SingleLoader.LoadEventFound | core/src/main/java/org/everit/osgi/audit/ri/internal/SingleEventLoader.java:91-112 | a stored event loads with its id, type name, application name and timestamp; its attributes are keyed by the joined rows' names and each holds the decoded value of the last row of that name |
| SingleLoader.EventOfJoinedRows | core/src/main/java/org/everit/osgi/audit/ri/internal/SingleEventLoader.java:96-111 | header fields come from the first row; with no attribute the event is returned with an empty map; otherwise its attributes are those the rows add, each name holding the decoded value of its last row |
| SingleLoader.AttributeRowsDecode | core/src/main/java/org/everit/osgi/audit/ri/internal/SingleEventLoader.java:102-110 | when attributes are joined the first row's tag is not NULL and every row decodes to its attribute row's datum, under its name |
| SingleLoader.LoadEventUndecodable | core/src/main/java/org/everit/osgi/audit/ri/internal/SingleEventLoader.java:105-110 | an undecodable joined attribute makes the load fail |
| SingleLoader.NullPredicateAdmitsAll | core/src/main/java/org/everit/osgi/audit/ri/internal/SingleEventLoader.java:73-79 | with no predicate all the event's attribute rows are joined, as with the TRUE predicate |
| Store.FindApp | core/src/main/java/org/everit/osgi/audit/ri/internal/AuditComponent.java:117-131 | the application found has the name; none is found exactly when no row has it |
| Store.FindType | core/src/main/java/org/everit/osgi/audit/ri/internal/AuditComponent.java:149-160 | the event type found has the application and name; none exactly when no row has both |
| Store.FindAppAppend | core/src/main/java/org/everit/osgi/audit/ri/internal/AuditComponent.java:86-89 | after appending a row, a name finds what it found before, else the new row if it has the name |
| Store.FindTypeAppend | core/src/main/java/org/everit/osgi/audit/ri/internal/AuditComponent.java:105-109 | the same for event types |
| Store.FindAppUnique | core/src/main/java/org/everit/osgi/audit/ri/internal/AuditComponent.java:124-130 | with unique names, each row is what its name finds |
| Store.FindAppKept | core/src/main/java/org/everit/osgi/audit/ri/internal/AuditComponent.java:124-130 | a name that found a row finds the same one whatever is appended |
| Store.FindTypeKept | core/src/main/java/org/everit/osgi/audit/ri/internal/AuditComponent.java:152-158 | the same for event types |
| Store.Database.constructor | core/src/main/java/org/everit/osgi/audit/ri/internal/AuditComponent.java:59-68 | an empty, consistent store |
| Store.Database.CreateResource | core/src/main/java/org/everit/osgi/audit/ri/internal/AuditComponent.java:83 | a fresh resource id; tables unchanged |
| Store.Database.InsertApplication | core/src/main/java/org/everit/osgi/audit/ri/internal/AuditComponent.java:86-89 | the insert succeeds exactly when the name is not taken, appending the row under the next key; otherwise a constraint violation and no change |
| Store.Database.InsertEventType | core/src/main/java/org/everit/osgi/audit/ri/internal/AuditComponent.java:105-109 | succeeds exactly when the application exists and has no type of that name, appending the row under the next key |
| Store.Database.InsertEvent | core/src/main/java/org/everit/osgi/audit/ri/internal/EventPersister.java:84-87 | the event row is appended under the next key |
| Store.Database.InsertEventData | core/src/main/java/org/everit/osgi/audit/ri/internal/EventPersister.java:91-96 | the attribute row is appended |
| Store.Database.Restore | core/src/main/java/org/everit/osgi/audit/ri/internal/AuditComponent.java:328-336 | a rolled-back transaction restores the tables and keeps the generators |
| Store.AppendApplicationConsistent | core/src/main/java/org/everit/osgi/audit/ri/internal/AuditComponent.java:86-89 | appending an application under a fresh key and name keeps the store consistent |
| Store.AppendEventConsistent | core/src/main/java/org/everit/osgi/audit/ri/internal/EventPersister.java:84-87 | appending an event of an existing type under a fresh key keeps consistency |
| Store.AppendEventTypeConsistent | core/src/main/java/org/everit/osgi/audit/ri/internal/AuditComponent.java:105-109 | appending an event type of an existing application under a fresh key and free name keeps consistency |
| Store.ConsistentLater | core/src/main/java/org/everit/osgi/audit/ri/internal/AuditComponent.java:328-336 | a consistent store stays consistent when the key generator has moved on |
| Persister.EncodeEventData | core/src/main/java/org/everit/osgi/audit/ri/internal/EventPersister.java:52-75 | the attribute row of one datum: the event id, the datum's name, its type's tag and the one value column its type selects; stated by `EncodeSetsOneColumn` |
| Persister.EncodeAll | core/src/main/java/org/everit/osgi/audit/ri/internal/EventPersister.java:89-97 | the attribute rows of the data array, one per datum in array order |
| Persister.EncodeSetsOneColumn | core/src/main/java/org/everit/osgi/audit/ri/internal/EventPersister.java:52-75 | the row carries the event id, the datum's name and its type's tag, and exactly one value column, the one its type selects, holding the value |
| Persister.EncodeDecodeRoundTrip | core/src/main/java/org/everit/osgi/audit/ri/internal/EventPersister.java:52-75 | decoding an inserted row gives the datum back for NUMBER, STRING, TEXT and BINARY; a TIMESTAMP row is refused as written and given back by the intended decoder |
| Persister.EventPersister.constructor | core/src/main/java/org/everit/osgi/audit/ri/internal/EventPersister.java:44-50 | the persister holds the event type id and the event |
| Persister.EventPersister.Get | core/src/main/java/org/everit/osgi/audit/ri/internal/EventPersister.java:77-101 | exactly one event row, carrying the timestamp and type id under the next key, then one attribute row per datum in order, carrying that key |
| Persister.InsertAll | core/src/main/java/org/everit/osgi/audit/ri/internal/EventPersister.java:89-97 | the attribute rows of the data are appended in array order; nothing else changes |
| Persister.EncodedNames | core/src/main/java/org/everit/osgi/audit/ri/internal/EventPersister.java:89-94 | the inserted rows carry exactly the data's names |
| Persister.EncodedRowsDecode | core/src/main/java/org/everit/osgi/audit/ri/internal/EventPersister.java:52-75 | inserted rows of non-TIMESTAMP data all decode |
| Persister.LoggedRows | core/src/main/java/org/everit/osgi/audit/ri/internal/EventPersister.java:84-97 | the attribute rows of the new event are exactly the encoded data |
| Persister.EncodedValues | core/src/main/java/org/everit/osgi/audit/ri/internal/EventPersister.java:89-97 | when the read-back map holds the decoded last row of each name, it holds the logged datum itself for each name |
| Persister.LoggedEventReadBack | core/src/main/java/org/everit/osgi/audit/ri/internal/EventPersister.java:77-101 | a logged event reads back with its type and application names, its timestamp, its attribute names, and for each name the datum logged last under it |
| Audit.SelectAuditEventType | core/src/main/java/org/everit/osgi/audit/ri/internal/AuditComponent.java:229 | the event type of the application and type names, from the store; used by `GetAuditEventType` and stated by `CacheHitEventType` |
| Audit.CreateApplicationSpec | core/src/main/java/org/everit/osgi/audit/ri/internal/AuditComponent.java:70-94 | a NULL name is a NullPointerException with no change; a taken name is a constraint violation; otherwise the application row under the next key with the given or a fresh resource; stated by `CreateApplicationFinds` |
| Audit.GetOrCreateApplicationSpec | core/src/main/java/org/everit/osgi/audit/ri/internal/AuditComponent.java:305-309 | the application of the name, created when missing; stated by `GetOrCreateApplicationIdempotent` |
| Audit.CreateEventTypeSpec | core/src/main/java/org/everit/osgi/audit/ri/internal/AuditComponent.java:96-114 | a fresh resource, then the event type row under the next key, or a constraint violation for a missing application or taken name |
| Audit.GetOrCreateEventTypeSpec | core/src/main/java/org/everit/osgi/audit/ri/internal/AuditComponent.java:311-322 | NULL names are a NullPointerException, a missing application an IllegalArgumentException, otherwise the event type of the name, created when missing; stated by `GetOrCreateEventTypeIdempotent` and `GetOrCreateEventTypeFails` |
| Audit.EventTypesSpec | core/src/main/java/org/everit/osgi/audit/ri/internal/AuditComponent.java:330-335 | the batch loop over the names up to the first failure; stated by `EventTypesInOrder` |
| Audit.GetOrCreateEventTypesSpec | core/src/main/java/org/everit/osgi/audit/ri/internal/AuditComponent.java:324-337 | the batch operation in one transaction: a failure restores the tables; stated by `GetOrCreateEventTypesOutcome` |
| Audit.LogEventSpec | core/src/main/java/org/everit/osgi/audit/ri/internal/AuditComponent.java:365-371 | the event type of the event's names, then the event row and its attribute rows; stated by `LogEventReadBack`, `LogEventNullName` and `LogEventMissingApplication` |
| Audit.ProjectionFor | core/src/main/java/org/everit/osgi/audit/ri/internal/AuditComponent.java:262-270 | every attribute for a NULL or empty field list, otherwise the listed names; stated by `GetEventByIdKeys` |
| Audit.TypeRowOf | core/src/main/java/org/everit/osgi/audit/ri/internal/AuditComponent.java:317-318 | the event type found has the name and belongs to the application the name finds |
| Audit.TypeRowKept | core/src/main/java/org/everit/osgi/audit/ri/internal/AuditComponent.java:312-322 | once found, an event type is found again after the catalog grows |
| Audit.CachesAgreeKept | core/src/main/java/org/everit/osgi/audit/ri/internal/AuditComponent.java:163-236 | cached entries stay equal to the store's lookups as the catalog grows |
| Audit.CacheApplication | core/src/main/java/org/everit/osgi/audit/ri/internal/AuditComponent.java:174-177 | caching the application the store returned keeps the caches in agreement |
| Audit.CacheHitApplication | core/src/main/java/org/everit/osgi/audit/ri/internal/AuditComponent.java:167-170 | a cached application is what the store lookup returns |
| Audit.CacheEventType | core/src/main/java/org/everit/osgi/audit/ri/internal/AuditComponent.java:229-232 | caching the event type the store returned keeps the caches in agreement |
| Audit.CacheHitEventType | core/src/main/java/org/everit/osgi/audit/ri/internal/AuditComponent.java:221-225 | a cached event type is what the store lookup returns |
| Audit.TypesOfApplication | core/src/main/java/org/everit/osgi/audit/ri/internal/AuditComponent.java:291-303 | an event type is listed exactly when a stored event type has that application |
| Audit.CreateApplicationFinds | core/src/main/java/org/everit/osgi/audit/ri/internal/AuditComponent.java:76-91 | creation succeeds exactly when the name is free, using the given resource id or a fresh one, and the name then finds the new application; a taken name is a constraint violation with no table change |
| Audit.GetOrCreateApplicationIdempotent | core/src/main/java/org/everit/osgi/audit/ri/internal/AuditComponent.java:306-309 | returns the application of the name; a second call returns the same one and changes nothing |
| Audit.GetOrCreateEventTypeIdempotent | core/src/main/java/org/everit/osgi/audit/ri/internal/AuditComponent.java:312-322 | on an existing application returns the event type of the name, created when missing; a second call returns the same and changes nothing |
| Audit.GetOrCreateEventTypeConsistent | core/src/main/java/org/everit/osgi/audit/ri/internal/AuditComponent.java:312-322 | the call keeps the store consistent |
| Audit.LogEventAfterType | core/src/main/java/org/everit/osgi/audit/ri/internal/AuditComponent.java:366-371 | after the event type is found, logging appends the event row and its attribute rows and succeeds |
| Audit.GetOrCreateEventTypeFails | core/src/main/java/org/everit/osgi/audit/ri/internal/AuditComponent.java:312-322 | fails, changing nothing, exactly when a name is NULL or the application does not exist (then IllegalArgumentException) |
| Audit.EventTypesFailureSticks | core/src/main/java/org/everit/osgi/audit/ri/internal/AuditComponent.java:332-334 | once a prefix of the names fails, the whole loop fails the same way |
| Audit.BatchResultKept | core/src/main/java/org/everit/osgi/audit/ri/internal/AuditComponent.java:330-335 | the event types the names found stay found as later iterations grow the catalog |
| Audit.BatchResultSnoc | core/src/main/java/org/everit/osgi/audit/ri/internal/AuditComponent.java:333 | the event type of one more name extends the per-name result |
| Audit.EventTypesSnoc | core/src/main/java/org/everit/osgi/audit/ri/internal/AuditComponent.java:332-334 | one more iteration after a successful prefix appends that name's event type or fails with its error |
| Audit.EventTypesIteration | core/src/main/java/org/everit/osgi/audit/ri/internal/AuditComponent.java:332-334 | an iteration's success extends the prefix's result and its failure is the whole loop's result |
| Audit.EventTypesInOrder | core/src/main/java/org/everit/osgi/audit/ri/internal/AuditComponent.java:330-335 | the loop succeeds exactly when no name is NULL, returning per name, in input order, the event type it finds |
| Audit.EventTypesStep | core/src/main/java/org/everit/osgi/audit/ri/internal/AuditComponent.java:333 | one more name after a successful prefix keeps that characterization |
| Audit.GetOrCreateEventTypesOutcome | core/src/main/java/org/everit/osgi/audit/ri/internal/AuditComponent.java:325-337 | fails exactly for a NULL argument or name or a missing application, and then leaves the tables unchanged; otherwise element i is the event type named by name i |
| Audit.LogEventReadBack | core/src/main/java/org/everit/osgi/audit/ri/internal/AuditComponent.java:366-371 | logging into an existing application succeeds, and loading the new event gives its names, timestamp, attribute names and, for each name, the datum logged last under it |
| Audit.LogEventNullName | core/src/main/java/org/everit/osgi/audit/ri/internal/AuditComponent.java:365-371 | an event with a NULL type or application name is a NullPointerException and changes nothing |
| Audit.LogEventMissingApplication | core/src/main/java/org/everit/osgi/audit/ri/internal/AuditComponent.java:366-377 | logging for a missing application is an IllegalArgumentException and changes nothing |
| Audit.GetEventByIdKeys | core/src/main/java/org/everit/osgi/audit/ri/internal/AuditComponent.java:261-272 | the loaded event's attribute names are its rows' names, restricted to the fields unless they are NULL or empty |
| Audit.ProjectOnOneName | tests/src/main/java/org/everit/osgi/audit/ri/tests/AuditComponentTest.java:407-422 | projecting on one name the event has gives exactly that one attribute |
| Audit.AuditComponent.constructor | core/src/main/java/org/everit/osgi/audit/ri/internal/AuditComponent.java:59-68 | the component starts with empty caches |
| Audit.AuditComponent.CreateApplication | core/src/main/java/org/everit/osgi/audit/ri/internal/AuditComponent.java:70-94 | result and store state are those of the creation specification |
| Audit.AuditComponent.FindApplicationByName | core/src/main/java/org/everit/osgi/audit/ri/internal/AuditComponent.java:116-132 | a NULL name is a NullPointerException; otherwise the application of the name, or NULL |
| Audit.AuditComponent.GetOrCreateApplication | core/src/main/java/org/everit/osgi/audit/ri/internal/AuditComponent.java:305-309 | result and state are those of the get-or-create specification |
| Audit.AuditComponent.RequireAppByName | core/src/main/java/org/everit/osgi/audit/ri/internal/AuditComponent.java:373-377 | a missing application is an IllegalArgumentException, otherwise the application |
| Audit.AuditComponent.FindEventTypeOf | core/src/main/java/org/everit/osgi/audit/ri/internal/AuditComponent.java:149-160 | the event type of the application and name, or NULL when none |
| Audit.AuditComponent.CreateEventType | core/src/main/java/org/everit/osgi/audit/ri/internal/AuditComponent.java:96-114 | result and state are those of the event-type creation specification |
| Audit.AuditComponent.GetOrCreateEventType | core/src/main/java/org/everit/osgi/audit/ri/internal/AuditComponent.java:311-322 | result and state are those of the get-or-create specification |
| Audit.AuditComponent.GetOrCreateEventTypesForApplication | core/src/main/java/org/everit/osgi/audit/ri/internal/AuditComponent.java:324-337 | a fresh array holding the batch specification's result, with the rollback state on failure |
| Audit.AuditComponent.FillEventTypes | core/src/main/java/org/everit/osgi/audit/ri/internal/AuditComponent.java:330-335 | the loop fills a fresh array per the batch specification, stopping at the first failure |
| Audit.AuditComponent.GetApplication | core/src/main/java/org/everit/osgi/audit/ri/internal/AuditComponent.java:162-181 | returns what the store lookup returns, cached or not; a found application is cached, a miss leaves the cache |
| Audit.AuditComponent.GetAuditEventType | core/src/main/java/org/everit/osgi/audit/ri/internal/AuditComponent.java:215-236 | the same for event types, keyed by application and type name |
| Audit.AuditComponent.GetEventTypesByApplication | core/src/main/java/org/everit/osgi/audit/ri/internal/AuditComponent.java:291-303 | the application's event types |
| Audit.AuditComponent.GetEventById | core/src/main/java/org/everit/osgi/audit/ri/internal/AuditComponent.java:261-272 | the single-event load with TRUE for NULL or empty fields, else the name restriction |
| Audit.AuditComponent.FindEvents | core/src/main/java/org/everit/osgi/audit/ri/internal/AuditComponent.java:134-147 | a NULL application id array is a NullPointerException; otherwise the search's events, which with unique keys are ordered by timestamp descending then id ascending, number at most `limit`, and each show a typed page event with exactly its selected attributes that pass every filter |
| Audit.AuditComponent.LogEvent | core/src/main/java/org/everit/osgi/audit/ri/internal/AuditComponent.java:365-371 | result and state are those of the logging specification |

## Left out

- SQL rendering, QueryDSL and JDBC: queries are modelled as a small query datatype, executed over in-memory tables. Where SQL leaves the row order unspecified, the model uses storage order: the single-event query and each event's attribute rows. The event subquery has no ORDER BY of its own, so the model takes its OFFSET and LIMIT over the candidates in storage order too; that this pages the wrong events is a finding below, not an SQL detail.
- The ORDER BY is modelled by an insertion sort with a tie on (timestamp, id) only. A database may order rows of the same event differently; the proofs use only the sort order and the permutation.
- OSGi/SCR wiring, the `set*` binders and the configuration constants carry no behaviour.
- Transactions are modelled only where they matter. The batch get-or-create restores the tables on failure (`Store.Database.Restore`). The key and resource generators are not rolled back, as database sequences are not.
- `Store.Database.InsertEvent` and `Store.Database.InsertEventData` take the foreign-key constraint as a precondition instead of modelling a constraint failure. Their only caller inserts rows for an event type just found or created.
- `ResourceService.createResource` is a counter of fresh ids.
- Blob handles and their freeing are not modelled: a blob is its byte sequence, so `RowMapper.AddBlobData` cannot fail on a freed handle.
- NUMBER values are integers, not doubles, and timestamps are integers, so the `Timestamp`/`Instant` conversions are the identity.
- String comparison for LT/GT is lexicographic on characters; database collations are not modelled.
- Offsets and limits are natural numbers, so the negative offset or limit a Java `long` allows is not modelled.
- Cache thread-safety and races between concurrent get-or-create calls are not modelled: one call runs at a time.
- `getResultFieldsWithTypes`, `getApplications` (declared twice with different result types), `getAuditEventTypes` and `getEventTypeByNameForApplication` are plain listings or a duplicate of `findEventType`. They are not modelled.
- The one-argument `getAuditEventType` uses an undeclared `auditApplicationName` and is not modelled.
- `selectApplication` and `selectAuditEventType` are undeclared in the source. They are modelled as the store lookups by name (`Store.FindApplication`, `Audit.SelectAuditEventType`).
- `Audit.LogEventReadBack`: excludes TIMESTAMP data, because the decoder refuses TIMESTAMP rows as written (see Findings).
- `RowMapper.Decode`: a NULL string, text or number column is passed on to the event builder in the source. The builder is not part of this model, so the model reports a distinct `NullColumn` error instead of whatever the builder does. The persister never writes such rows (`Persister.EncodeSetsOneColumn`).
- `RowMapper.DecodeRowCases`: states `NullColumn` for a NULL string, text or number column, for the reason given for `RowMapper.Decode`.
- `RowMapper.DecodeRowIntendedCases`: the same as `RowMapper.DecodeRowCases`.
- `RowMapper.AddEventDataForRow`: the same: a NULL string, text or number column ends in `NullColumn` and leaves the builder as it was.
- `RowMapper.AddBlobData`: the blob is read with `getBytes(0, length)`, but JDBC blob positions start at 1. A driver that enforces this raises an SQLException, wrapped in a RuntimeException. The model instead takes the blob to be its whole byte sequence.
- `Store.Database.CreateResource` does not model failures of the resource service.
- `ComplexLoader.LoadEventsIntendedPaged`: uses the as-written attribute decoder, so it requires that no stored attribute row is a TIMESTAMP row (see Findings); the corrected decoder is proved on its own (`RowMapper.DecodeRowIntendedCases`).
- `ComplexLoader.LoadEventsCorrected`: the same requirement on TIMESTAMP rows, for the same reason.
- `ComplexLoader.QueryEventsIntended`: the same requirement on TIMESTAMP rows, for the same reason.
- `Predicates.BuildPredicateForFilter`: STARTS_WITH with a NUMBER or TIMESTAMP operand is modelled as never holding. The source applies `LIKE '<constant>%'` to the numeric or timestamp column, and what that matches depends on how the database renders the column as text, which is not modelled.
- `Predicates.FilterPredicateSemantics`: the same: a row of the filtered name never passes STARTS_WITH with a NUMBER or TIMESTAMP operand, for the reason given for `Predicates.BuildPredicateForFilter`.
- `ComplexLoader.LoadEventsOrdered`: requires unique keys in every table (`KeysUnique`), which the database's primary keys give and the model's inserts keep; without them two rows could share an id.

## Findings

| source | as written | input that shows it | evidently intended | confidence | as-written member | corrected member |
|---|---|---|---|---|---|---|
| core/src/main/java/org/everit/osgi/audit/ri/internal/MultipleEventQueryResultMapper.java:84 | the builder of the last group is never added to the result, so k groups of rows give k-1 events | one attribute row of one event: the result is empty; the two results AuditComponentTest.java:140-168 expects from three matching events rely on this dropped group | every group, including the last, becomes an event | high (not executed) | MultipleMapper.SingleRowLost | MultipleMapper.EventsIntendedPerGroup |
| core/src/main/java/org/everit/osgi/audit/ri/internal/EventDataRowMapper.java:83 | the type tag (a String) is compared with the enum constant TIMESTAMP, which is never equal, so a TIMESTAMP row ends in IllegalStateException | an attribute row with tag "TIMESTAMP" and a timestamp value | the tag is compared with `EventDataType.TIMESTAMP.toString()` and the timestamp is decoded | high (not executed) | RowMapper.TimestampRowRefused | RowMapper.DecodeRowIntendedCases |
| core/src/main/java/org/everit/osgi/audit/ri/internal/MultipleEventQueryResultMapper.java:82 | every row is decoded, including the row with NULL attribute that the left join gives an event with no admitted attribute; its NULL type tag is an IllegalArgumentException, so the whole search fails | a search whose page holds an event none of whose attributes is selected and passes the filters | such a row starts or continues its event and adds no attribute | medium (not executed) | MultipleMapper.NullTagRowLost | MultipleMapper.EventsIntendedPerGroup |
| core/src/main/java/org/everit/osgi/audit/ri/internal/ComplexEventLoader.java:113-127 | the attribute filters sit only in the LEFT JOIN condition, so they drop attribute rows but never events: an event one of whose attributes fails a filter is still returned | two events of the page, the older of them with an attribute row that fails a filter: both are returned | the event subquery keeps only events none of whose attributes fails a filter (an event without the filtered attribute qualifies, as the search scenario of AuditComponentTest.java:140-168 expects) | medium (not executed) | ComplexLoader.FilteredOutEventReturned | ComplexLoader.CorrectedExcludesFailing |
| core/src/main/java/org/everit/osgi/audit/ri/internal/ComplexEventLoader.java:160-168 | OFFSET and LIMIT are applied in the event subquery, which has no ORDER BY (the ORDER BY of lines 109-111 sorts only the outer rows), so the page is taken in storage order | two events of one application, the older stored first, OFFSET 0 LIMIT 1: the older event is returned | the page is the first `limit` events after `offset` in the order timestamp descending, then id ascending | medium (not executed) | ComplexLoader.TwoEventsStorageOrder | ComplexLoader.CorrectedPageNewest |

The attribute predicate sits in a LEFT JOIN on the paged events, not in the event restriction.
So an event with some attributes that fail the filters and some that pass still appears, with
exactly the attributes that pass: each event the search returns carries the names of its type
and application and one attribute per name of its attribute rows that are selected and pass
every filter (`ComplexLoader.LoadEventsContents`). An event whose attribute fails a filter is
returned unless it is the last group (`ComplexLoader.FilteredOutEventReturned`; fourth Findings
row). The corrected search (`ComplexLoader.LoadEventsCorrected`) qualifies events in the event
subquery instead: an event qualifies when none of its attribute rows fails a filter, so an event
that lacks the filtered attribute qualifies, as the test scenario expects; its events carry the
same contents (`ComplexLoader.LoadEventsCorrectedContents`). An event of the page with no
admitted attribute at all gets one row with a NULL attribute. As written, that row makes the
whole search fail with IllegalArgumentException (`ComplexLoader.SearchFailsOnBareEvent`; third
Findings row). With the intended pass the search succeeds, every page event is returned
(`ComplexLoader.LoadEventsIntendedPaged`), and one with no admitted attribute row appears with
no attributes, since its attributes are keyed by exactly its admitted names
(`ComplexLoader.LoadEventsIntendedContents`).
