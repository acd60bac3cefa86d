/**
 * Record shapes of the SQLAlchemy storage backend: the unique-name, event
 * and trait tables, the meter and resource rows the queries read, the
 * engine-specific table options, the JSON column's handling of NULL and the
 * item access every model object supports.
 */
module Models {
  import opened Wrappers

  /** What the storage layer raises. */
  datatype Error =
    | TypeMismatch(dtype: DType)    // a trait value whose kind disagrees with its discriminator
    | MissingMeter                  // a filter without a meter where one is required
    | MetaqueryNotImplemented       // a filter with a metadata query
    | NoSuchAttribute(key: string)  // item access to an attribute the object does not have

  /** The trait discriminator stored in `t_type`. */
  datatype DType = TextType | IntType | FloatType | DateTimeType

  /** A naive UTC datetime; only its order matters to the model. */
  datatype DateTime = DateTime(micros: int)

  // ---------------------------------------------------------------------------
  // Engine-specific table options

  /**
   * Table options chosen from the scheme of the database connection URL:
   * engine and charset for MySQL, nothing for any other engine.
   */
  function TableArgs(scheme: string, mysqlEngine: string): (r: Option<map<string, string>>)
    ensures r.Some? <==> scheme == "mysql"
    ensures r.Some? ==> r.value.Keys == {"mysql_engine", "mysql_charset"}
    ensures r.Some? ==> r.value["mysql_engine"] == mysqlEngine && r.value["mysql_charset"] == "utf8"
  {
    if scheme == "mysql" then
      Some(map["mysql_engine" := mysqlEngine, "mysql_charset" := "utf8"])
    else
      None
  }

  // ---------------------------------------------------------------------------
  // JSON-encoded column

  /** Value written to the column: the JSON text of the value, NULL for None. */
  function ProcessBindParam<T>(value: Option<T>, dumps: T -> string): (r: Option<string>)
    ensures r.None? <==> value.None?
    ensures value.Some? ==> r == Some(dumps(value.value))
  {
    match value
    case None => None
    case Some(v) => Some(dumps(v))
  }

  /**
   * Value read back from the column: None for NULL, otherwise what the
   * decoder makes of the text, which is None again for the text `null`.
   */
  function ProcessResultValue<T>(value: Option<string>, loads: string -> Option<T>): (r: Option<T>)
    ensures value.None? ==> r.None?
    ensures value.Some? ==> r == loads(value.value)
  {
    match value
    case None => None
    case Some(s) => loads(s)
  }

  /** Whenever decoding undoes encoding, the column gives back what was stored, NULL included. */
  lemma BindThenResult<T>(value: Option<T>, dumps: T -> string, loads: string -> Option<T>)
    requires forall x :: loads(dumps(x)) == Some(x)
    ensures ProcessResultValue(ProcessBindParam(value, dumps), loads) == value
  {
  }

  // ---------------------------------------------------------------------------
  // Item access shared by all model objects

  /** A model object whose attributes are also reachable as items. */
  class Record<V> {
    var attributes: map<string, V>

    constructor ()
      ensures attributes == map[]
    {
      attributes := map[];
    }

    /** `obj[key] = value` sets the attribute. */
    method SetItem(key: string, value: V)
      modifies this
      ensures attributes == old(attributes)[key := value]
    {
      attributes := attributes[key := value];
    }

    /** `obj[key]` reads the attribute and fails if there is none. */
    method GetItem(key: string) returns (r: Result<V, Error>)
      ensures key in attributes ==> r == Ok(attributes[key])
      ensures key !in attributes ==> r == Err(NoSuchAttribute(key))
    {
      if key in attributes {
        r := Ok(attributes[key]);
      } else {
        r := Err(NoSuchAttribute(key));
      }
    }

    /** Reading an item right after setting it yields the value set; no other attribute moves. */
    method SetThenGet(key: string, value: V) returns (r: Result<V, Error>)
      modifies this
      ensures r == Ok(value)
      ensures attributes == old(attributes)[key := value]
    {
      SetItem(key, value);
      r := GetItem(key);
    }
  }

  // ---------------------------------------------------------------------------
  // Event and trait tables

  /** A row of the unique-name table: a generated id and its key. */
  datatype UniqueName = UniqueName(id: nat, key: string)

  /** A row of the event table: the interned event name and when it happened. */
  datatype Event = Event(uniqueName: UniqueName, when: DateTime)

  /**
   * A row of the trait table: its interned name, the event it belongs to
   * (`event_id`, possibly NULL), the discriminator and four nullable value
   * columns, each NULL unless given.
   */
  datatype Trait = Trait(
    name: UniqueName,
    event: Option<nat>,
    tType: DType,
    tString: Option<string> := None,
    tFloat: Option<real> := None,
    tInt: Option<int> := None,
    tDatetime: Option<real> := None)

  /** The discriminators whose value column is not NULL. */
  function Populated(t: Trait): set<DType>
  {
    (if t.tString.Some? then {TextType} else {})
    + (if t.tFloat.Some? then {FloatType} else {})
    + (if t.tInt.Some? then {IntType} else {})
    + (if t.tDatetime.Some? then {DateTimeType} else {})
  }

  /**
   * The trait-table invariant: a value column is set exactly when `t_type`
   * names it, so exactly one of the four is set.
   */
  predicate SingleValued(t: Trait)
  {
    && (t.tString.Some? <==> t.tType == TextType)
    && (t.tFloat.Some? <==> t.tType == FloatType)
    && (t.tInt.Some? <==> t.tType == IntType)
    && (t.tDatetime.Some? <==> t.tType == DateTimeType)
  }

  /** A trait is single-valued exactly when the set of its populated columns is the one `t_type` names. */
  lemma SingleValuedPopulated(t: Trait)
    ensures SingleValued(t) <==> Populated(t) == {t.tType}
  {
    if Populated(t) == {t.tType} {
      assert forall d :: d in Populated(t) <==> d == t.tType;
    }
  }

  /** The constructor keeps what it is given and leaves the value columns it is not given NULL. */
  lemma TraitConstructorDefaults(name: UniqueName, event: Option<nat>, tType: DType)
    ensures Trait(name, event, tType).name == name
    ensures Trait(name, event, tType).event == event
    ensures Trait(name, event, tType).tType == tType
    ensures Populated(Trait(name, event, tType)) == {}
  {
  }

  // ---------------------------------------------------------------------------
  // Meter and resource rows

  /** The columns of a meter row that the queries read. */
  datatype Meter = Meter(
    counterName: string,
    counterType: string,
    counterUnit: string,
    counterVolume: real,
    sources: seq<string>,
    userId: Option<string>,
    projectId: Option<string>,
    resourceId: Option<string>,
    timestamp: DateTime)

  /** A resource row with its meters, in the order the relationship yields them. */
  datatype Resource = Resource(
    id: string,
    sources: seq<string>,
    userId: Option<string>,
    projectId: Option<string>,
    meters: seq<Meter>)
}
