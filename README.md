# Ceilometer SQL storage driver: event recording and meter queries

This project models the core of Ceilometer's SQLAlchemy storage driver
(`ceilometer/storage/impl_sqlalchemy.py`) and its table models
(`ceilometer/storage/sqlalchemy/models.py`) in Dafny, and proves properties
of that model.

- `wrappers.dfy`: module `Wrappers`, the `Option` and `Result` types.
- `models.dfy`: module `Models`.
  - The table options chosen from the database scheme.
  - The NULL pass-through of the JSON-encoded column type.
  - Item access shared by every model object (`Record`).
  - The rows of the unique-name, event, trait, meter and resource tables.
  - The single-value invariant of trait rows.
- `events.dfy`: module `EventStore`. The database session is the class
  `Connection`, holding one table per entity and one id counter per table.
  - The unique-name registry (`_get_unique_name`).
  - Building a trait row from a trait model (`_make_trait`).
  - Storing one event with its traits (`_record_event`) and a batch of
    events (`record_events`).
- `queries.dfy`: module `MeterQueries`.
  - Narrowing a meter query by a sample filter (`make_query_from_filter`).
  - Running a query over the meter table, and the filter step of sample
    listing (`get_samples`).
  - The meter listing (`get_meters`): resource selection, then per resource
    one entry per counter name, the first one met.

How the source is modelled:

- **Id generation.** A new row gets the next id of its table when it is
  added to the session. The source assigns ids when the session flushes.
  Rows added in one batch get consecutive ids in the order they were added
  either way.
- **Registry index.** The registry keeps two maps: id to key (the table
  itself) and key to id (the unique index on `key`). `NamesValid` states
  that they are inverse to each other, so a key is stored at most once.
  The ghost field `keys` is the set of keys registered so far. `NamesValid`
  keeps it equal to the keys of the index, and every operation that interns
  names states its new value.
- **Date conversion.** `_dt_to_float` is a parameter `dtToFloat` of the
  operations that store traits. Every property holds for any conversion
  function.
- **Mismatched trait values.** The source does not compare a trait's value
  with its declared type. A datetime trait whose value is not a datetime
  fails inside the conversion, after the name was interned. Other
  mismatches are handed to the database. The model's value columns are
  typed and cannot hold a mismatched value. So `MakeTrait` interns the name
  and then returns `TypeMismatch`. This is where the datetime case fails in
  the source: after the name was interned, before the row is built. The
  source fails by raising `AttributeError` inside `_dt_to_float`
  (`ceilometer/storage/impl_sqlalchemy.py:457`); the model reports that
  failure as the error value `TypeMismatch`.
- **No rollback.** When a trait fails, `_record_event` and `record_events`
  end with the exception, but the rows added before it stay pending in the
  session, and the next flush writes them (`impl_sqlalchemy.py:494-499`,
  `513-517`). So the recording methods return, besides the result, the rows
  they added (`added`, `stored`). On both paths their contracts give the
  tables as exactly the old rows plus those rows.
- **Trait lists.** `_record_event` iterates over the traits only when the
  list is truthy. An absent list (`None` in `EventModel.traits`) and an
  empty list both store no traits, so the model iterates over `TraitsOf`,
  which maps the absent list to the empty one.
- **Truthiness.** In `make_query_from_filter` a string field counts as set
  only when it is present and not empty (`Given`). A datetime field counts
  as set whenever it is present, since datetimes are always truthy. In
  `get_meters` only the resource id is tested for truthiness; the owner,
  project and source are tested against `None`, and the model follows
  that.
- **Query clauses.** A query is a sequence of clauses, and a row meets the
  query when it meets every clause. SQL comparison with a NULL column is
  modelled as no match.

## Model

| member | source | states |
|---|---|---|
| Models.TableArgs | ceilometer/storage/sqlalchemy/models.py:43-48 | options exist exactly for the `mysql` scheme; then they are exactly the configured engine and the `utf8` charset |
| Models.ProcessBindParam | ceilometer/storage/sqlalchemy/models.py:56-59 | NULL is stored for None and only for None; any other value is stored as its JSON text |
| Models.ProcessResultValue | ceilometer/storage/sqlalchemy/models.py:61-64 | NULL reads back as None; any text reads back as whatever the decoder yields, which may itself be None (the JSON text `null`) |
| Models.BindThenResult | ceilometer/storage/sqlalchemy/models.py:56-64 | when the decoder gives back `Some(x)` for the encoding of every `x`, reading a column gives back the value written, None included |
| Models.Record.SetItem | ceilometer/storage/sqlalchemy/models.py:72-73 | item assignment sets that attribute and no other |
| Models.Record.GetItem | ceilometer/storage/sqlalchemy/models.py:75-76 | item access returns the attribute, or fails with `NoSuchAttribute` naming the key when it is missing |
| Models.Record.SetThenGet | ceilometer/storage/sqlalchemy/models.py:72-76 | reading an item right after setting it yields the value set |
| Models.SingleValuedPopulated | ceilometer/storage/sqlalchemy/models.py:189-193 | the column-wise trait invariant holds exactly when the set of non-NULL value columns is the one `t_type` names |
| Models.TraitConstructorDefaults | ceilometer/storage/sqlalchemy/models.py:198-206 | documents the trait constructor: it keeps the name, event and type and leaves every value column NULL unless given |
| EventStore.Connection.GetUniqueName | ceilometer/storage/impl_sqlalchemy.py:436-449 | a known key gives its existing entry and changes nothing; an unknown key gets the next id in both maps; the result always carries the key and is registered; the registered keys become the old ones plus this key; the registry invariant is kept |
| EventStore.Connection.GetUniqueNamePair | ceilometer/storage/impl_sqlalchemy.py:436-449 | two lookups give the same entry, and the same id, exactly when the keys are equal; the registered keys become the old ones plus both keys |
| EventStore.Connection.MakeTrait | ceilometer/storage/impl_sqlalchemy.py:468-484 | interns the trait name, so the registered keys become the old ones plus that name; succeeds exactly when the value has the declared type; the row then has the interned name, the given event, the declared type and exactly one value column set (datetimes through the conversion); otherwise `TypeMismatch` |
| EventStore.Connection.AddEvent | ceilometer/storage/impl_sqlalchemy.py:491-492 | `session.add` of an event stores it under the next event id and nothing else |
| EventStore.Connection.AddTrait | ceilometer/storage/impl_sqlalchemy.py:498 | `session.add` of a trait stores it under the next trait id and nothing else |
| EventStore.Connection.RecordTrait | ceilometer/storage/impl_sqlalchemy.py:497-499 | one loop step: the built trait linked to the event is stored under the next trait id; on a type mismatch the trait table is unchanged; either way the registered keys become the old ones plus the trait name, and earlier registrations keep their ids |
| EventStore.Connection.RecordTraits | ceilometer/storage/impl_sqlalchemy.py:494-499 | succeeds exactly when every trait model is well typed; on both paths the rows added are the traits built from the first models, in order, linked to the event, under consecutive ids, and nothing else is added to the trait table; on success they are one per model and the registered keys become the old ones plus every trait name; on a mismatch they stop just before the first model that does not conform, the error names its type, and the registered keys become the old ones plus the names up to and including that model |
| EventStore.Connection.StoreEvent | ceilometer/storage/impl_sqlalchemy.py:489-492 | interns the event name, so the registered keys become the old ones plus that name, and stores one event row with the interned name and the event's time under the next event id, adding nothing else |
| EventStore.Connection.RecordEvent | ceilometer/storage/impl_sqlalchemy.py:486-503 | succeeds exactly when the event's traits are well typed; on both paths exactly one event row with the interned name and time is added under the next id, and the trait rows added are the traits built before any failure, linked to it, under consecutive ids; earlier rows of every table are kept; on success the pair returned is that row with all its traits and the registered keys become the old ones plus the event name and every trait name; on a mismatch the event row and the traits before the first non-conforming one stay stored, nothing is rolled back, and the registered keys become the old ones plus the event name and the trait names up to the failing one |
| EventStore.Connection.RecordEvents | ceilometer/storage/impl_sqlalchemy.py:505-518 | succeeds exactly when every model is well typed; on both paths the event and trait tables grow by exactly the rows of the pairs stored, event ids consecutive from the next id; on success there is one `(event, traits)` pair per model in input order, each recorded from its model, ids distinct, and the registered keys become the old ones plus every name of every model; on a mismatch the pairs stored are those of the models before the failing one, followed by the failing model's event row with the traits before its failing trait, nothing is rolled back, and the registered keys are exactly the names interned up to that trait |
| EventStore.Connection.RecordInBatch | ceilometer/storage/impl_sqlalchemy.py:514-515 | one turn of the batch loop: the tables keep holding exactly the rows of the pairs stored, now one more; a well-typed model adds its full pair and its names, a failing one its partial pair and the names interned up to its failing trait |
| EventStore.TraitNamesUpToMembers | ceilometer/storage/impl_sqlalchemy.py:496-497 | the trait names the loop interns are exactly the names of the trait models it has visited |
| EventStore.BatchNamesUpToMembers | ceilometer/storage/impl_sqlalchemy.py:514-515 | the names a batch interns are exactly the names some visited event model interns |
| MeterQueries.AddIfMeaning | ceilometer/storage/impl_sqlalchemy.py:107-123 | a query narrowed by a condition matches exactly the rows that match the query and, when the condition is wanted, that condition |
| MeterQueries.NarrowMeaning | ceilometer/storage/impl_sqlalchemy.py:107-123 | applying the filter steps in turn matches exactly the rows that match the query and every wanted step |
| MeterQueries.StepsMeaning | ceilometer/storage/impl_sqlalchemy.py:107-123 | meeting the seven filter steps is the same as passing the filter field by field |
| MeterQueries.MakeQueryFromFilter | ceilometer/storage/impl_sqlalchemy.py:99-129 | fails exactly when a meter is required and not given (`MissingMeter`, checked first) or when a metadata query is given (`MetaqueryNotImplemented`); otherwise the original query is a prefix of the result, with at most seven clauses added |
| MeterQueries.MakeQueryFromFilterMeaning | ceilometer/storage/impl_sqlalchemy.py:107-123 | a row matches the narrowed query exactly when it matches the original query and passes every set field of the filter |
| MeterQueries.Select | ceilometer/storage/impl_sqlalchemy.py:319 | running a query returns every row of the table that matches it, as many times as the table holds it, and no other row |
| MeterQueries.FilterSamples | ceilometer/storage/impl_sqlalchemy.py:313-319 | sample listing needs no meter; it fails exactly when a metadata query is given, and otherwise yields every sample that passes the filter, as many times as the table holds it, and no other sample |
| MeterQueries.DescribeAllIndex | ceilometer/storage/impl_sqlalchemy.py:304-311 | there is one listing entry per meter, in meter order, carrying the meter's name, type and unit and the resource's id, project and user |
| MeterQueries.FirstsUniqueNames | ceilometer/storage/impl_sqlalchemy.py:299-303 | no counter name appears twice among the kept meters |
| MeterQueries.FirstsAreFirstOccurrences | ceilometer/storage/impl_sqlalchemy.py:299-303 | a meter is kept exactly when it is at a position no earlier meter shares its counter name with |
| MeterQueries.FirstsKeepNames | ceilometer/storage/impl_sqlalchemy.py:299-303 | every counter name of the resource's meters is still represented among the kept meters |
| MeterQueries.ResourceMeters | ceilometer/storage/impl_sqlalchemy.py:299-311 | the loop with its set of names seen yields the entries of exactly the kept meters, in order |
| MeterQueries.SelectResources | ceilometer/storage/impl_sqlalchemy.py:284-292 | the resource query selects every resource that matches every given owner, source, resource id and project condition, as many times as the table holds it, and no other resource |
| MeterQueries.GetMeters | ceilometer/storage/impl_sqlalchemy.py:284-311 | fails exactly when a metadata query is given; otherwise the listing is the kept-meter entries of each selected resource in turn |

## Left out

- `_dt_to_float` and `_float_to_dt`: the datetime-to-float conversion is the parameter `dtToFloat`. Calendar arithmetic and floating point are not modelled.
- The URL parsing in `table_args`: `TableArgs` takes the scheme of the connection URL directly. Configuration loading is not modelled either.
- JSON encoding: the encoder and decoder are parameters of the column functions.
- Column widths, indexes and foreign-key declarations: `String(32)`, `index=True` and the like are not modelled.
- The fixed `mysql_engine` options of the unique-name, event and trait tables: they are declarations, not behaviour.
- Flush timing: ids are given at add time rather than at flush. The flush at the end of `record_events` is not modelled separately.
- What happens to the session after a failure: the model keeps the pending rows in its tables; whether the caller later flushes or discards the session is not modelled.
- Concurrency: two sessions racing to insert the same unique name are not modelled.
- Statistics (`get_meter_statistics`), `record_metering_data`, `get_users`, `get_projects`, `get_resources`, `get_events`, the alarm operations and connection setup: these are outside the modelled core.
- `get_samples`: the conversion of each row into an API sample object is left out. `FilterSamples` models the query it runs.
- Meter columns that no modelled operation reads (`resource_metadata`, `message_signature`, `message_id`) and the resource metadata: not part of the model.
- Row order: SQL gives no order without `ORDER BY`. `Select`, `SelectResources` and the meter listing keep table order, which is one of the orders the database may return.
- Integer codes of the trait discriminator: `DType` is an enumeration of the four codes that `_make_trait`'s `value_map` knows (`impl_sqlalchemy.py:474-477`). Any other code is not modelled; see the `MakeTrait` line below.
- MeterQueries.MakeQueryFromFilter: models the query as a list of clauses. The SQL text and its evaluation by the database are left out.
- EventStore.Connection.MakeTrait: returns `TypeMismatch` for every mismatch. In the source, a mismatched non-datetime value reaches the database, whose behaviour is not modelled.
- EventStore.Connection.MakeTrait: two inputs the source accepts cannot be written in the model, because `TraitValue` has no None case and `DType` only the four codes of `value_map`:
  - A trait value of None, with a text, integer or float code. The source builds a row with all four value columns NULL (`impl_sqlalchemy.py:478-484`). That row breaks the single-value invariant the model proves for every stored trait.
  - A trait value of None with a datetime code. The source raises inside `_dt_to_float`.
  - A discriminator code outside `value_map`. The source raises `KeyError` at `impl_sqlalchemy.py:483`, after interning the name at line 473.
