/**
 * Event and trait storage: the unique-name registry, trait construction and
 * batch recording of events, over an in-memory session whose tables are maps
 * from generated ids to rows.
 */
module EventStore {
  import opened Wrappers
  import opened Models

  /** A trait value as the caller supplies it, tagged with its dynamic type. */
  datatype TraitValue =
    | TextValue(text: string)
    | IntValue(integer: int)
    | FloatValue(float: real)
    | DateTimeValue(stamp: DateTime)

  /** The discriminator that matches a value's dynamic type. */
  function KindOf(v: TraitValue): DType
  {
    match v
    case TextValue(_) => TextType
    case IntValue(_) => IntType
    case FloatValue(_) => FloatType
    case DateTimeValue(_) => DateTimeType
  }

  /** A trait of the domain model: a name, a discriminator and a value. */
  datatype TraitModel = TraitModel(name: string, dtype: DType, value: TraitValue)

  /** An event of the domain model; its trait list may be None. */
  datatype EventModel = EventModel(eventName: string, when: DateTime, traits: Option<seq<TraitModel>>)

  /** A stored row together with the id the session gave it. */
  datatype Row<T> = Row(id: nat, value: T)

  /** One `(event, traits)` pair of a recorded batch. */
  datatype RecordedEvent = RecordedEvent(event: Row<Event>, traits: seq<Row<Trait>>)

  /** A trait model whose value has the type its discriminator announces. */
  predicate Conforms(m: TraitModel)
  {
    KindOf(m.value) == m.dtype
  }

  /** The traits of an event model, None read as none at all. */
  function TraitsOf(m: EventModel): seq<TraitModel>
  {
    if m.traits.Some? then m.traits.value else []
  }

  /** Every trait of the event model conforms. */
  predicate WellTyped(m: EventModel)
  {
    forall j | 0 <= j < |TraitsOf(m)| :: Conforms(TraitsOf(m)[j])
  }

  /** The names of the first `k` trait models. */
  function TraitNamesUpTo(ts: seq<TraitModel>, k: nat): set<string>
    requires k <= |ts|
  {
    if k == 0 then {} else TraitNamesUpTo(ts, k - 1) + {ts[k - 1].name}
  }

  /** The trait names of a list of trait models. */
  function TraitNames(ts: seq<TraitModel>): set<string>
  {
    TraitNamesUpTo(ts, |ts|)
  }

  /** The names an event model interns: its event name and its trait names. */
  function ModelNames(m: EventModel): set<string>
  {
    {m.eventName} + TraitNames(TraitsOf(m))
  }

  /** The names the first `i` event models of a batch intern. */
  function BatchNamesUpTo(models: seq<EventModel>, i: nat): set<string>
    requires i <= |models|
  {
    if i == 0 then {} else BatchNamesUpTo(models, i - 1) + ModelNames(models[i - 1])
  }

  /** The names a batch of event models interns. */
  function BatchNames(models: seq<EventModel>): set<string>
  {
    BatchNamesUpTo(models, |models|)
  }

  /** Interning one more event model's names extends the batch's names by one model. */
  lemma BatchNamesStep(before: set<string>, mid: set<string>, after: set<string>, models: seq<EventModel>, i: nat)
    requires i < |models|
    requires mid == before + BatchNamesUpTo(models, i) && after == mid + ModelNames(models[i])
    ensures after == before + BatchNamesUpTo(models, i + 1)
  {
  }

  /** Interning the event name and then the trait names interns the model's names. */
  lemma ModelNamesStep(before: set<string>, mid: set<string>, after: set<string>, m: EventModel)
    requires mid == before + {m.eventName}
    ensures after == mid + TraitNames(TraitsOf(m)) ==> after == before + ModelNames(m)
    ensures after <= mid + TraitNames(TraitsOf(m)) ==> after <= before + ModelNames(m)
  {
  }

  /**
   * The names an event model interns when its trait `k` is the first one
   * that fails: the event name and the names of the traits up to and
   * including that one.
   */
  function FailedNames(m: EventModel, k: nat): set<string>
    requires k < |TraitsOf(m)|
  {
    {m.eventName} + TraitNamesUpTo(TraitsOf(m), k + 1)
  }

  /** Interning the event name and then the traits up to a failing one interns the failed names. */
  lemma FailedNamesStep(before: set<string>, mid: set<string>, after: set<string>, m: EventModel, k: nat)
    requires k < |TraitsOf(m)|
    requires mid == before + {m.eventName} && after == mid + TraitNamesUpTo(TraitsOf(m), k + 1)
    ensures after == before + FailedNames(m, k)
    ensures after <= before + ModelNames(m)
  {
    TraitNamesUpToWithin(TraitsOf(m), k + 1);
  }

  /** Interning at most one more event model's names stays within the batch's names. */
  lemma BatchNamesPartial(before: set<string>, mid: set<string>, after: set<string>, models: seq<EventModel>, i: nat)
    requires i < |models|
    requires mid == before + BatchNamesUpTo(models, i) && after <= mid + ModelNames(models[i])
    ensures after <= before + BatchNames(models)
  {
    BatchNamesUpToWithin(models, i + 1);
  }

  /** The names of the first `k` trait models are exactly the names they carry. */
  lemma {:induction false} TraitNamesUpToMembers(ts: seq<TraitModel>, k: nat)
    requires k <= |ts|
    ensures forall n :: n in TraitNamesUpTo(ts, k) <==> exists j | 0 <= j < k :: ts[j].name == n
  {
    if k > 0 {
      TraitNamesUpToMembers(ts, k - 1);
    }
  }

  /** The names of the first `i` event models are exactly the names any of them interns. */
  lemma {:induction false} BatchNamesUpToMembers(models: seq<EventModel>, i: nat)
    requires i <= |models|
    ensures forall n :: n in BatchNamesUpTo(models, i) <==> exists j | 0 <= j < i :: n in ModelNames(models[j])
  {
    if i > 0 {
      BatchNamesUpToMembers(models, i - 1);
    }
  }

  /** The first names are among all the names. */
  lemma {:induction false} TraitNamesUpToWithin(ts: seq<TraitModel>, k: nat)
    requires k <= |ts|
    ensures TraitNamesUpTo(ts, k) <= TraitNames(ts)
    decreases |ts| - k
  {
    if k < |ts| {
      TraitNamesUpToWithin(ts, k + 1);
    }
  }

  /** The names of the first event models are among all the names. */
  lemma {:induction false} BatchNamesUpToWithin(models: seq<EventModel>, i: nat)
    requires i <= |models|
    ensures BatchNamesUpTo(models, i) <= BatchNames(models)
    decreases |models| - i
  {
    if i < |models| {
      BatchNamesUpToWithin(models, i + 1);
    }
  }

  /** The trait holds `v` in the column for `v`'s type, timestamps as converted by `dtToFloat`. */
  predicate HoldsValue(t: Trait, v: TraitValue, dtToFloat: DateTime -> real)
  {
    match v
    case TextValue(s) => t.tString == Some(s)
    case IntValue(i) => t.tInt == Some(i)
    case FloatValue(f) => t.tFloat == Some(f)
    case DateTimeValue(d) => t.tDatetime == Some(dtToFloat(d))
  }

  /** `t` is the trait built from model `m` for `event`. */
  predicate MadeFrom(t: Trait, m: TraitModel, event: Option<nat>, dtToFloat: DateTime -> real)
  {
    && t.name.key == m.name
    && t.event == event
    && t.tType == m.dtype
    && SingleValued(t)
    && HoldsValue(t, m.value, dtToFloat)
  }

  /** `rec` is the pair recorded for event model `m`. */
  predicate RecordedFrom(rec: RecordedEvent, m: EventModel, dtToFloat: DateTime -> real)
  {
    && rec.event.value.uniqueName.key == m.eventName
    && rec.event.value.when == m.when
    && |rec.traits| == |TraitsOf(m)|
    && TraitsMadeFrom(rec.traits, TraitsOf(m), Some(rec.event.id), dtToFloat)
  }

  /**
   * `rec` is what storing event model `m` leaves in the session when one of its
   * traits does not conform: the event row, and the traits built before the
   * first trait that does not conform.
   */
  predicate PartlyRecordedFrom(rec: RecordedEvent, m: EventModel, dtToFloat: DateTime -> real)
  {
    && rec.event.value.uniqueName.key == m.eventName
    && rec.event.value.when == m.when
    && |rec.traits| < |TraitsOf(m)|
    && TraitsMadeFrom(rec.traits, TraitsOf(m), Some(rec.event.id), dtToFloat)
    && !Conforms(TraitsOf(m)[|rec.traits|])
  }

  /** The first `|rows|` trait models conform and the rows are the traits built from them. */
  predicate TraitsMadeFrom(rows: seq<Row<Trait>>, ts: seq<TraitModel>, event: Option<nat>, dtToFloat: DateTime -> real)
  {
    && |rows| <= |ts|
    && forall j | 0 <= j < |rows| :: Conforms(ts[j]) && MadeFrom(rows[j].value, ts[j], event, dtToFloat)
  }

  lemma TraitsMadeFromSnoc(rows: seq<Row<Trait>>, ts: seq<TraitModel>, event: Option<nat>, dtToFloat: DateTime -> real, row: Row<Trait>)
    requires TraitsMadeFrom(rows, ts, event, dtToFloat)
    requires |rows| < |ts| && Conforms(ts[|rows|]) && MadeFrom(row.value, ts[|rows|], event, dtToFloat)
    ensures TraitsMadeFrom(rows + [row], ts, event, dtToFloat)
  {
    var rows' := rows + [row];
    forall j | 0 <= j < |rows'|
      ensures Conforms(ts[j]) && MadeFrom(rows'[j].value, ts[j], event, dtToFloat)
    {
      if j < |rows| {
        assert rows'[j] == rows[j];
      }
    }
  }

  /** `after` keeps every entry of `before`. */
  ghost predicate Extends<K, V>(before: map<K, V>, after: map<K, V>)
  {
    forall k | k in before :: k in after && after[k] == before[k]
  }

  /**
   * `after` is `before` plus exactly the rows `rows`, whose ids run
   * consecutively from `first`.
   */
  ghost predicate Appended<T>(before: map<nat, T>, after: map<nat, T>, first: nat, rows: seq<Row<T>>)
  {
    && Extends(before, after)
    && (forall k | 0 <= k < |rows| :: rows[k].id == first + k && rows[k].id in after && after[rows[k].id] == rows[k].value)
    && (forall id | id in after :: id in before || first <= id < first + |rows|)
  }

  /** Appending in two steps appends the concatenation. */
  lemma AppendedTrans<T>(a: map<nat, T>, b: map<nat, T>, c: map<nat, T>, first: nat, rows1: seq<Row<T>>, rows2: seq<Row<T>>)
    requires Appended(a, b, first, rows1)
    requires Appended(b, c, first + |rows1|, rows2)
    requires forall id | id in a :: id < first
    ensures Appended(a, c, first, rows1 + rows2)
  {
    var rows := rows1 + rows2;
    forall k | 0 <= k < |rows|
      ensures rows[k].id == first + k && rows[k].id in c && c[rows[k].id] == rows[k].value
    {
      if k < |rows1| {
        assert rows[k] == rows1[k];
      } else {
        assert rows[k] == rows2[k - |rows1|];
      }
    }
  }

  /** Adding the next row under the next id appends it. */
  lemma AppendedSnoc<T>(a: map<nat, T>, b: map<nat, T>, first: nat, rows: seq<Row<T>>, row: Row<T>)
    requires Appended(a, b, first, rows)
    requires forall id | id in b :: id < first + |rows|
    requires row.id == first + |rows|
    ensures Appended(a, b[row.id := row.value], first, rows + [row])
  {
    var rows' := rows + [row];
    forall k | 0 <= k < |rows'|
      ensures rows'[k].id == first + k && rows'[k].id in b[row.id := row.value]
      ensures b[row.id := row.value][rows'[k].id] == rows'[k].value
    {
      if k < |rows| {
        assert rows'[k] == rows[k];
      }
    }
  }

  /** Extension is transitive. */
  lemma ExtendsTrans<K, V>(a: map<K, V>, b: map<K, V>, c: map<K, V>)
    requires Extends(a, b) && Extends(b, c)
    ensures Extends(a, c)
  {
  }

  /** The event rows of a recorded batch, in order. */
  function EventRows(recs: seq<RecordedEvent>): seq<Row<Event>>
  {
    seq(|recs|, k requires 0 <= k < |recs| => recs[k].event)
  }

  /** The trait rows of a recorded batch, event after event. */
  function TraitRows(recs: seq<RecordedEvent>): seq<Row<Trait>>
  {
    if recs == [] then [] else TraitRows(recs[..|recs| - 1]) + recs[|recs| - 1].traits
  }

  /** Appending the event rows of a batch gives its events consecutive ids. */
  lemma EventRowsIds(recs: seq<RecordedEvent>, before: map<nat, Event>, after: map<nat, Event>, first: nat)
    requires Appended(before, after, first, EventRows(recs))
    ensures forall i | 0 <= i < |recs| :: recs[i].event.id == first + i
  {
    forall i | 0 <= i < |recs|
      ensures recs[i].event.id == first + i
    {
      assert EventRows(recs)[i] == recs[i].event;
    }
  }

  /** The first `|recs|` event models are well typed and `recs` are the pairs recorded for them. */
  predicate EventsRecordedFrom(recs: seq<RecordedEvent>, models: seq<EventModel>, dtToFloat: DateTime -> real)
  {
    && |recs| <= |models|
    && forall i | 0 <= i < |recs| :: WellTyped(models[i]) && RecordedFrom(recs[i], models[i], dtToFloat)
  }

  lemma EventsRecordedFromSnoc(recs: seq<RecordedEvent>, models: seq<EventModel>, dtToFloat: DateTime -> real, rec: RecordedEvent)
    requires EventsRecordedFrom(recs, models, dtToFloat)
    requires |recs| < |models| && WellTyped(models[|recs|]) && RecordedFrom(rec, models[|recs|], dtToFloat)
    ensures EventsRecordedFrom(recs + [rec], models, dtToFloat)
  {
    var recs' := recs + [rec];
    forall i | 0 <= i < |recs'|
      ensures WellTyped(models[i]) && RecordedFrom(recs'[i], models[i], dtToFloat)
    {
      if i < |recs| {
        assert recs'[i] == recs[i];
      }
    }
  }

  /**
   * A batch that fails at event model `|prefix|`: the pairs stored are the
   * recorded prefix and the failing model's partial pair, and the names
   * interned are the prefix's names and the failing model's failed names.
   */
  lemma BatchFailed(prefix: seq<RecordedEvent>, rec: RecordedEvent, models: seq<EventModel>, dtToFloat: DateTime -> real,
                    before: set<string>, mid: set<string>, after: set<string>)
    requires |prefix| < |models| && EventsRecordedFrom(prefix, models, dtToFloat)
    requires PartlyRecordedFrom(rec, models[|prefix|], dtToFloat)
    requires mid == before + BatchNamesUpTo(models, |prefix|)
    requires after == mid + FailedNames(models[|prefix|], |rec.traits|)
    ensures var s := prefix + [rec];
      && 0 < |s| <= |models|
      && EventsRecordedFrom(s[..|s| - 1], models, dtToFloat)
      && PartlyRecordedFrom(s[|s| - 1], models[|s| - 1], dtToFloat)
      && after == before + BatchNamesUpTo(models, |s| - 1) + FailedNames(models[|s| - 1], |s[|s| - 1].traits|)
    ensures after <= before + BatchNames(models)
  {
    var s := prefix + [rec];
    assert s[..|s| - 1] == prefix;
    TraitNamesUpToWithin(TraitsOf(models[|prefix|]), |rec.traits| + 1);
    BatchNamesPartial(before, mid, after, models, |prefix|);
  }

  /** The event and trait rows of one more recorded pair extend those of the batch. */
  lemma RowsSnoc(recs: seq<RecordedEvent>, rec: RecordedEvent)
    ensures EventRows(recs + [rec]) == EventRows(recs) + [rec.event]
    ensures TraitRows(recs + [rec]) == TraitRows(recs) + rec.traits
  {
    assert (recs + [rec])[..|recs|] == recs;
  }

  /** The database session: the unique-name, event and trait tables and their id counters. */
  class Connection {
    /** The unique-name table, by id. */
    var nameRows: map<nat, string>
    /** The unique index on the key column: key to id. */
    var uniqueNames: map<string, nat>
    var nextNameId: nat
    /** The keys registered so far: the keys of the index. */
    ghost var keys: set<string>
    /** The event table, by id. */
    var events: map<nat, Event>
    var nextEventId: nat
    /** The trait table, by id. */
    var traits: map<nat, Trait>
    var nextTraitId: nat

    /** `u` is the registry's entry for its key. */
    ghost predicate Registered(u: UniqueName)
      reads `uniqueNames
    {
      u.key in uniqueNames && uniqueNames[u.key] == u.id
    }

    /**
     * The key index and the unique-name table are inverse to each other (one
     * id per key, one key per id) and every id is below the counter.
     */
    ghost predicate NamesValid()
      reads `nameRows, `uniqueNames, `nextNameId, `keys
    {
      && keys == uniqueNames.Keys
      && (forall key | key in uniqueNames :: uniqueNames[key] in nameRows && nameRows[uniqueNames[key]] == key)
      && (forall id | id in nameRows :: id < nextNameId && nameRows[id] in uniqueNames && uniqueNames[nameRows[id]] == id)
    }

    /** Every event id is below the counter and every event name is registered. */
    ghost predicate EventsValid()
      reads `uniqueNames, `events, `nextEventId
    {
      forall id | id in events :: id < nextEventId && Registered(events[id].uniqueName)
    }

    /**
     * Every trait id is below the counter, every trait name is registered,
     * every trait is single-valued and linked to a stored event when linked.
     */
    ghost predicate TraitsValid()
      reads `uniqueNames, `events, `traits, `nextTraitId
    {
      forall id | id in traits ::
        && id < nextTraitId
        && Registered(traits[id].name)
        && SingleValued(traits[id])
        && (traits[id].event.Some? ==> traits[id].event.value in events)
    }

    /** The session invariant. */
    ghost predicate Valid()
      reads this
    {
      NamesValid() && EventsValid() && TraitsValid()
    }

    /** An empty database. */
    constructor ()
      ensures Valid()
      ensures nameRows == map[] && uniqueNames == map[] && events == map[] && traits == map[]
      ensures keys == {}
    {
      nameRows, uniqueNames, nextNameId := map[], map[], 0;
      keys := {};
      events, nextEventId := map[], 0;
      traits, nextTraitId := map[], 0;
    }

    /**
     * The registry entry for `key`: the existing one if the key is known,
     * otherwise a new entry with a fresh id.
     */
    method GetUniqueName(key: string) returns (u: UniqueName)
      requires Valid()
      modifies `nameRows, `uniqueNames, `nextNameId, `keys
      ensures Valid()
      ensures u.key == key && Registered(u)
      ensures Extends(old(uniqueNames), uniqueNames)
      ensures keys == old(keys) + {key}
      ensures key in old(uniqueNames) ==>
        && u.id == old(uniqueNames)[key]
        && nameRows == old(nameRows) && uniqueNames == old(uniqueNames) && nextNameId == old(nextNameId)
      ensures key !in old(uniqueNames) ==>
        && u.id == old(nextNameId) && nextNameId == old(nextNameId) + 1
        && nameRows == old(nameRows)[u.id := key] && uniqueNames == old(uniqueNames)[key := u.id]
    {
      if key in uniqueNames {
        u := UniqueName(uniqueNames[key], key);
      } else {
        u := UniqueName(nextNameId, key);
        nameRows := nameRows[nextNameId := key];
        uniqueNames := uniqueNames[key := nextNameId];
        keys := keys + {key};
        nextNameId := nextNameId + 1;
      }
    }

    /**
     * Two lookups: the same key gives the same entry and the second lookup
     * adds nothing; different keys give different entries.
     */
    method GetUniqueNamePair(key1: string, key2: string) returns (u1: UniqueName, u2: UniqueName)
      requires Valid()
      modifies `nameRows, `uniqueNames, `nextNameId, `keys
      ensures Valid()
      ensures u1.key == key1 && u2.key == key2
      ensures u1 == u2 <==> key1 == key2
      ensures u1.id == u2.id <==> key1 == key2
      ensures Extends(old(uniqueNames), uniqueNames)
      ensures keys == old(keys) + {key1, key2}
    {
      u1 := GetUniqueName(key1);
      u2 := GetUniqueName(key2);
    }

    /**
     * A trait built from `model` for `event`, its name interned first. It is
     * not added to the trait table.
     */
    method MakeTrait(model: TraitModel, event: Option<nat>, dtToFloat: DateTime -> real) returns (r: Result<Trait, Error>)
      requires Valid()
      modifies `nameRows, `uniqueNames, `nextNameId, `keys
      ensures Valid()
      ensures Extends(old(uniqueNames), uniqueNames)
      ensures keys == old(keys) + {model.name}
      ensures r.Ok? <==> Conforms(model)
      ensures r.Err? ==> r.error == TypeMismatch(model.dtype)
      ensures r.Ok? ==> MadeFrom(r.value, model, event, dtToFloat) && Registered(r.value.name)
    {
      var name := GetUniqueName(model.name);
      if !Conforms(model) {
        return Err(TypeMismatch(model.dtype));
      }
      var tString: Option<string>, tFloat: Option<real>, tInt: Option<int>, tDatetime: Option<real>
        := None, None, None, None;
      match model.dtype {
        case TextType => tString := Some(model.value.text);
        case FloatType => tFloat := Some(model.value.float);
        case IntType => tInt := Some(model.value.integer);
        case DateTimeType => tDatetime := Some(dtToFloat(model.value.stamp));
      }
      r := Ok(Trait(name, event, model.dtype, tString, tFloat, tInt, tDatetime));
    }

    /** `session.add` of an event: the row is stored under the next event id. */
    method AddEvent(e: Event) returns (id: nat)
      requires Valid() && Registered(e.uniqueName)
      modifies `events, `nextEventId
      ensures Valid()
      ensures id == old(nextEventId) && nextEventId == id + 1
      ensures events == old(events)[id := e]
    {
      id := nextEventId;
      events := events[id := e];
      nextEventId := nextEventId + 1;
    }

    /** `session.add` of a trait: the row is stored under the next trait id. */
    method AddTrait(t: Trait) returns (id: nat)
      requires Valid() && Registered(t.name) && SingleValued(t)
      requires t.event.Some? ==> t.event.value in events
      modifies `traits, `nextTraitId
      ensures Valid()
      ensures id == old(nextTraitId) && nextTraitId == id + 1
      ensures traits == old(traits)[id := t]
    {
      id := nextTraitId;
      traits := traits[id := t];
      nextTraitId := nextTraitId + 1;
    }

    /** Builds the trait for `m`, linked to event `eventId`, and adds it to the trait table. */
    method RecordTrait(m: TraitModel, eventId: nat, dtToFloat: DateTime -> real) returns (r: Result<Row<Trait>, Error>)
      requires Valid() && eventId in events
      modifies `nameRows, `uniqueNames, `nextNameId, `keys, `traits, `nextTraitId
      ensures Valid()
      ensures Extends(old(uniqueNames), uniqueNames) && keys == old(keys) + {m.name}
      ensures r.Ok? <==> Conforms(m)
      ensures r.Err? ==> r.error == TypeMismatch(m.dtype) && traits == old(traits) && nextTraitId == old(nextTraitId)
      ensures r.Ok? ==> MadeFrom(r.value.value, m, Some(eventId), dtToFloat)
      ensures r.Ok? ==> r.value.id == old(nextTraitId) && nextTraitId == old(nextTraitId) + 1
      ensures r.Ok? ==> traits == old(traits)[r.value.id := r.value.value]
    {
      var t := MakeTrait(m, Some(eventId), dtToFloat);
      if t.Err? {
        return Err(t.error);
      }
      var id := AddTrait(t.value);
      r := Ok(Row(id, t.value));
    }

    /**
     * The trait loop of event recording: builds and adds one trait row per
     * trait model, in order, each linked to event `eventId`. `added` holds
     * the rows added, also when a trait fails: nothing is rolled back.
     */
    method RecordTraits(ts: seq<TraitModel>, eventId: nat, dtToFloat: DateTime -> real)
      returns (r: Result<seq<Row<Trait>>, Error>, added: seq<Row<Trait>>)
      requires Valid() && eventId in events
      modifies `nameRows, `uniqueNames, `nextNameId, `keys, `traits, `nextTraitId
      ensures Valid()
      ensures Extends(old(uniqueNames), uniqueNames) && Extends(old(traits), traits)
      ensures r.Ok? <==> forall j | 0 <= j < |ts| :: Conforms(ts[j])
      ensures TraitsMadeFrom(added, ts, Some(eventId), dtToFloat)
      ensures Appended(old(traits), traits, old(nextTraitId), added)
      ensures nextTraitId == old(nextTraitId) + |added|
      ensures r.Ok? ==> r.value == added && |added| == |ts|
      ensures r.Ok? ==> keys == old(keys) + TraitNames(ts)
      ensures r.Err? ==> |added| < |ts| && !Conforms(ts[|added|]) && r.error == TypeMismatch(ts[|added|].dtype)
      ensures r.Err? ==> keys == old(keys) + TraitNamesUpTo(ts, |added| + 1)
      ensures r.Err? ==> keys <= old(keys) + TraitNames(ts)
    {
      added := [];
      for k := 0 to |ts|
        invariant Valid()
        invariant Extends(old(uniqueNames), uniqueNames)
        invariant keys == old(keys) + TraitNamesUpTo(ts, k)
        invariant |added| == k
        invariant TraitsMadeFrom(added, ts, Some(eventId), dtToFloat)
        invariant Appended(old(traits), traits, old(nextTraitId), added)
        invariant nextTraitId == old(nextTraitId) + k
      {
        ghost var names0, traits0 := uniqueNames, traits;
        var t := RecordTrait(ts[k], eventId, dtToFloat);
        ExtendsTrans(old(uniqueNames), names0, uniqueNames);
        if t.Err? {
          TraitNamesUpToWithin(ts, k + 1);
          return Err(t.error), added;
        }
        AppendedSnoc(old(traits), traits0, old(nextTraitId), added, t.value);
        TraitsMadeFromSnoc(added, ts, Some(eventId), dtToFloat, t.value);
        added := added + [t.value];
      }
      r := Ok(added);
    }

    /** The first half of storing an event: interns its name and adds the event row. */
    method StoreEvent(model: EventModel) returns (row: Row<Event>)
      requires Valid()
      modifies `nameRows, `uniqueNames, `nextNameId, `keys, `events, `nextEventId
      ensures Valid()
      ensures Extends(old(uniqueNames), uniqueNames) && keys == old(keys) + {model.eventName}
      ensures row.value.uniqueName.key == model.eventName && row.value.when == model.when
      ensures Registered(row.value.uniqueName)
      ensures row.id == old(nextEventId) && nextEventId == old(nextEventId) + 1
      ensures row.id in events && events[row.id] == row.value
      ensures Appended(old(events), events, old(nextEventId), [row])
    {
      var unique := GetUniqueName(model.eventName);
      var event := Event(unique, model.when);
      var id := AddEvent(event);
      row := Row(id, event);
      AppendedSnoc(old(events), old(events), old(nextEventId), [], row);
      assert [] + [row] == [row];
    }

    /**
     * Stores one event: interns its name, adds the event row, then builds
     * and adds one trait row per trait of the model, linked to the event.
     * `stored` is the event row and the trait rows added, also when a trait
     * fails: nothing is rolled back.
     */
    method RecordEvent(model: EventModel, dtToFloat: DateTime -> real)
      returns (r: Result<RecordedEvent, Error>, stored: RecordedEvent)
      requires Valid()
      modifies this
      ensures Valid()
      ensures Extends(old(uniqueNames), uniqueNames)
      ensures Extends(old(events), events) && Extends(old(traits), traits)
      ensures r.Ok? <==> WellTyped(model)
      ensures stored.event.id == old(nextEventId) && nextEventId == old(nextEventId) + 1
      ensures Appended(old(events), events, old(nextEventId), [stored.event])
      ensures Appended(old(traits), traits, old(nextTraitId), stored.traits)
      ensures nextTraitId == old(nextTraitId) + |stored.traits|
      ensures r.Ok? ==> r.value == stored && RecordedFrom(stored, model, dtToFloat)
      ensures r.Ok? ==> keys == old(keys) + ModelNames(model)
      ensures r.Err? ==> PartlyRecordedFrom(stored, model, dtToFloat)
      ensures r.Err? ==> r.error == TypeMismatch(TraitsOf(model)[|stored.traits|].dtype)
      ensures r.Err? ==> keys == old(keys) + FailedNames(model, |stored.traits|)
      ensures r.Err? ==> keys <= old(keys) + ModelNames(model)
    {
      var row := StoreEvent(model);
      ghost var keys1 := keys;
      // A trait list of None and an empty one both give no traits.
      var made, added := RecordTraits(TraitsOf(model), row.id, dtToFloat);
      stored := RecordedEvent(row, added);
      if made.Err? {
        FailedNamesStep(old(keys), keys1, keys, model, |added|);
        return Err(made.error), stored;
      }
      ModelNamesStep(old(keys), keys1, keys, model);
      r := Ok(stored);
    }

    /**
     * The tables of a batch begun in the given state hold the rows of the
     * pairs `stored`, in order, under consecutive ids; no registry entry was
     * lost.
     */
    ghost predicate BatchTables(stored: seq<RecordedEvent>, names0: map<string, nat>,
                                events0: map<nat, Event>, nextEvent0: nat, traits0: map<nat, Trait>, nextTrait0: nat)
      reads `uniqueNames, `events, `nextEventId, `traits, `nextTraitId
    {
      && Extends(names0, uniqueNames)
      && Appended(events0, events, nextEvent0, EventRows(stored))
      && nextEventId == nextEvent0 + |stored|
      && Appended(traits0, traits, nextTrait0, TraitRows(stored))
      && nextTraitId == nextTrait0 + |TraitRows(stored)|
    }

    /**
     * One turn of the batch loop: stores event model `models[|stored|]` and
     * appends its pair, whole or partial, to `stored`.
     */
    method RecordInBatch(models: seq<EventModel>, dtToFloat: DateTime -> real, stored: seq<RecordedEvent>,
                         ghost names0: map<string, nat>, ghost keys0: set<string>,
                         ghost events0: map<nat, Event>, ghost nextEvent0: nat, ghost traits0: map<nat, Trait>, ghost nextTrait0: nat)
      returns (one: Result<RecordedEvent, Error>, stored': seq<RecordedEvent>)
      requires Valid() && |stored| < |models|
      requires forall id | id in events0 :: id < nextEvent0
      requires forall id | id in traits0 :: id < nextTrait0
      requires BatchTables(stored, names0, events0, nextEvent0, traits0, nextTrait0)
      requires EventsRecordedFrom(stored, models, dtToFloat)
      requires keys == keys0 + BatchNamesUpTo(models, |stored|)
      modifies this
      ensures Valid()
      ensures |stored'| == |stored| + 1
      ensures BatchTables(stored', names0, events0, nextEvent0, traits0, nextTrait0)
      ensures one.Ok? <==> WellTyped(models[|stored|])
      ensures one.Ok? ==> EventsRecordedFrom(stored', models, dtToFloat) && keys == keys0 + BatchNamesUpTo(models, |stored'|)
      ensures one.Err? ==>
        && one.error.TypeMismatch?
        && EventsRecordedFrom(stored'[..|stored'| - 1], models, dtToFloat)
        && PartlyRecordedFrom(stored'[|stored'| - 1], models[|stored'| - 1], dtToFloat)
      ensures one.Err? ==>
        keys == keys0 + BatchNamesUpTo(models, |stored'| - 1) + FailedNames(models[|stored'| - 1], |stored'[|stored'| - 1].traits|)
      ensures one.Err? ==> keys <= keys0 + BatchNames(models)
    {
      ghost var names1, events1, traits1, keys1 := uniqueNames, events, traits, keys;
      var rec;
      one, rec := RecordEvent(models[|stored|], dtToFloat);
      ExtendsTrans(names0, names1, uniqueNames);
      AppendedTrans(events0, events1, events, nextEvent0, EventRows(stored), [rec.event]);
      AppendedTrans(traits0, traits1, traits, nextTrait0, TraitRows(stored), rec.traits);
      RowsSnoc(stored, rec);
      stored' := stored + [rec];
      if one.Err? {
        BatchFailed(stored, rec, models, dtToFloat, keys0, keys1, keys);
        return;
      }
      BatchNamesStep(keys0, keys1, keys, models, |stored|);
      EventsRecordedFromSnoc(stored, models, dtToFloat, rec);
    }

    /**
     * Stores a batch of events in order and returns one `(event, traits)`
     * pair per event model, in input order. `stored` is the pairs stored,
     * also when an event fails: then its last pair is the failing event's
     * partial one, and nothing is rolled back.
     */
    method RecordEvents(models: seq<EventModel>, dtToFloat: DateTime -> real)
      returns (r: Result<seq<RecordedEvent>, Error>, stored: seq<RecordedEvent>)
      requires Valid()
      modifies this
      ensures Valid()
      ensures Extends(old(uniqueNames), uniqueNames)
      ensures Extends(old(events), events) && Extends(old(traits), traits)
      ensures r.Ok? <==> forall i | 0 <= i < |models| :: WellTyped(models[i])
      ensures Appended(old(events), events, old(nextEventId), EventRows(stored))
      ensures Appended(old(traits), traits, old(nextTraitId), TraitRows(stored))
      ensures r.Ok? ==> r.value == stored && |stored| == |models| && EventsRecordedFrom(stored, models, dtToFloat)
      ensures r.Ok? ==> keys == old(keys) + BatchNames(models)
      ensures r.Err? ==>
        && 0 < |stored| <= |models|
        && EventsRecordedFrom(stored[..|stored| - 1], models, dtToFloat)
        && PartlyRecordedFrom(stored[|stored| - 1], models[|stored| - 1], dtToFloat)
      ensures r.Err? ==>
        keys == old(keys) + BatchNamesUpTo(models, |stored| - 1) + FailedNames(models[|stored| - 1], |stored[|stored| - 1].traits|)
      ensures r.Err? ==> r.error.TypeMismatch? && keys <= old(keys) + BatchNames(models)
      ensures forall i | 0 <= i < |stored| :: stored[i].event.id == old(nextEventId) + i
      ensures r.Ok? ==> forall i, j | 0 <= i < j < |models| :: r.value[i].event.id != r.value[j].event.id
    {
      stored := [];
      for i := 0 to |models|
        invariant Valid()
        invariant |stored| == i
        invariant BatchTables(stored, old(uniqueNames), old(events), old(nextEventId), old(traits), old(nextTraitId))
        invariant EventsRecordedFrom(stored, models, dtToFloat)
        invariant keys == old(keys) + BatchNamesUpTo(models, i)
      {
        var one;
        one, stored := RecordInBatch(models, dtToFloat, stored, old(uniqueNames), old(keys),
                                     old(events), old(nextEventId), old(traits), old(nextTraitId));
        if one.Err? {
          EventRowsIds(stored, old(events), events, old(nextEventId));
          return Err(one.error), stored;
        }
      }
      EventRowsIds(stored, old(events), events, old(nextEventId));
      r := Ok(stored);
    }
  }
}
