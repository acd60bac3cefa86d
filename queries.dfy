/**
 * Queries over the meter table: the sample filter turned into query
 * clauses, running such a query, and the listing of meters per resource
 * with repeated counter names dropped.
 */
module MeterQueries {
  import opened Wrappers
  import opened Models

  // ---------------------------------------------------------------------------
  // Sample filter

  /** The fields of a sample filter; every one may be left unset. */
  datatype SampleFilter = SampleFilter(
    meter: Option<string>,
    source: Option<string>,
    start: Option<DateTime>,
    end: Option<DateTime>,
    user: Option<string>,
    project: Option<string>,
    resource: Option<string>,
    metaquery: map<string, string>)

  /** One condition of a query over the meter table. */
  datatype Clause =
    | CounterNameIs(name: string)
    | HasSource(source: string)
    | NotBefore(start: DateTime)
    | Before(end: DateTime)
    | UserIs(user: string)
    | ProjectIs(project: string)
    | ResourceIs(resource: string)

  /** Whether meter row `m` meets condition `c`; a NULL column matches no value. */
  predicate Holds(c: Clause, m: Meter)
  {
    match c
    case CounterNameIs(name) => m.counterName == name
    case HasSource(source) => source in m.sources
    case NotBefore(start) => start.micros <= m.timestamp.micros
    case Before(end) => m.timestamp.micros < end.micros
    case UserIs(user) => m.userId == Some(user)
    case ProjectIs(project) => m.projectId == Some(project)
    case ResourceIs(resource) => m.resourceId == Some(resource)
  }

  /** Whether meter row `m` meets every condition of query `q`. */
  predicate Satisfies(q: seq<Clause>, m: Meter)
  {
    forall i | 0 <= i < |q| :: Holds(q[i], m)
  }

  /** A string filter field counts as set when it is present and not empty. */
  predicate Given(field: Option<string>)
  {
    field.Some? && field.value != ""
  }

  /**
   * What the filter asks of a sample, field by field: for every field that
   * is set, the sample matches it, and its timestamp lies in the half-open
   * range from `start` to `end`.
   */
  predicate Passes(f: SampleFilter, m: Meter)
  {
    && (Given(f.meter) ==> m.counterName == f.meter.value)
    && (Given(f.source) ==> f.source.value in m.sources)
    && (f.start.Some? ==> f.start.value.micros <= m.timestamp.micros)
    && (f.end.Some? ==> m.timestamp.micros < f.end.value.micros)
    && (Given(f.user) ==> m.userId == f.user)
    && (Given(f.project) ==> m.projectId == f.project)
    && (Given(f.resource) ==> m.resourceId == f.resource)
  }

  /** The value of an optional field, or `default` when it is unset. */
  function ValueOr<T>(field: Option<T>, default: T): T
  {
    if field.Some? then field.value else default
  }

  /** `q` with condition `c` added when `cond` holds. */
  function AddIf(q: seq<Clause>, cond: bool, c: Clause): (r: seq<Clause>)
    ensures q <= r
  {
    if cond then q + [c] else q
  }

  /** A query with a condition added means the old query and that condition. */
  lemma AddIfMeaning(q: seq<Clause>, cond: bool, c: Clause, m: Meter)
    ensures Satisfies(AddIf(q, cond, c), m) <==> Satisfies(q, m) && (cond ==> Holds(c, m))
  {
    if cond {
      assert forall i | 0 <= i < |q| :: (q + [c])[i] == q[i];
      assert (q + [c])[|q|] == c;
    }
  }

  /** One narrowing step: condition `clause`, added when `wanted`. */
  datatype Step = Step(wanted: bool, clause: Clause)

  /**
   * The steps the filter contributes, in the order they are applied: one
   * per field, wanted when that field is set.
   */
  function Steps(f: SampleFilter): seq<Step>
  {
    [ Step(Given(f.meter), CounterNameIs(ValueOr(f.meter, ""))),
      Step(Given(f.source), HasSource(ValueOr(f.source, ""))),
      Step(f.start.Some?, NotBefore(ValueOr(f.start, DateTime(0)))),
      Step(f.end.Some?, Before(ValueOr(f.end, DateTime(0)))),
      Step(Given(f.user), UserIs(ValueOr(f.user, ""))),
      Step(Given(f.project), ProjectIs(ValueOr(f.project, ""))),
      Step(Given(f.resource), ResourceIs(ValueOr(f.resource, ""))) ]
  }

  /** `q` narrowed by each step in turn. */
  function Narrow(q: seq<Clause>, steps: seq<Step>): (r: seq<Clause>)
    ensures q <= r && |r| <= |q| + |steps|
    decreases steps
  {
    if steps == [] then q else Narrow(AddIf(q, steps[0].wanted, steps[0].clause), steps[1..])
  }

  /** Row `m` meets the clause of every wanted step. */
  predicate MeetsSteps(steps: seq<Step>, m: Meter)
  {
    forall k | 0 <= k < |steps| :: steps[k].wanted ==> Holds(steps[k].clause, m)
  }

  /** A narrowed query means the query and the clause of every wanted step. */
  lemma {:induction false} NarrowMeaning(q: seq<Clause>, steps: seq<Step>, m: Meter)
    ensures Satisfies(Narrow(q, steps), m) <==> Satisfies(q, m) && MeetsSteps(steps, m)
    decreases steps
  {
    if steps != [] {
      AddIfMeaning(q, steps[0].wanted, steps[0].clause, m);
      NarrowMeaning(AddIf(q, steps[0].wanted, steps[0].clause), steps[1..], m);
      assert MeetsSteps(steps, m) <==> (steps[0].wanted ==> Holds(steps[0].clause, m)) && MeetsSteps(steps[1..], m) by {
        assert forall k | 1 <= k < |steps| :: steps[k] == steps[1..][k - 1];
      }
    }
  }

  /** Meeting the filter's steps is passing the filter. */
  lemma StepsMeaning(f: SampleFilter, m: Meter)
    ensures MeetsSteps(Steps(f), m) <==> Passes(f, m)
  {
    var s := Steps(f);
    assert MeetsSteps(s, m) <==>
      (s[0].wanted ==> Holds(s[0].clause, m)) && (s[1].wanted ==> Holds(s[1].clause, m)) &&
      (s[2].wanted ==> Holds(s[2].clause, m)) && (s[3].wanted ==> Holds(s[3].clause, m)) &&
      (s[4].wanted ==> Holds(s[4].clause, m)) && (s[5].wanted ==> Holds(s[5].clause, m)) &&
      (s[6].wanted ==> Holds(s[6].clause, m));
  }

  /**
   * The query narrowed by the filter: fails when a meter is required and
   * none is given, and when a metadata query is given; otherwise the
   * query extended with one condition per set field.
   */
  function MakeQueryFromFilter(query: seq<Clause>, f: SampleFilter, requireMeter: bool): (r: Result<seq<Clause>, Error>)
    ensures r.Err? <==> (requireMeter && !Given(f.meter)) || |f.metaquery| > 0
    ensures r.Err? ==> r.error == if requireMeter && !Given(f.meter) then MissingMeter else MetaqueryNotImplemented
    ensures r.Ok? ==> query <= r.value && |r.value| <= |query| + 7
  {
    if !Given(f.meter) && requireMeter then
      Err(MissingMeter)
    else if |f.metaquery| > 0 then
      Err(MetaqueryNotImplemented)
    else
      Ok(Narrow(query, Steps(f)))
  }

  /** A row meets the narrowed query exactly when it meets the query and passes the filter. */
  lemma MakeQueryFromFilterMeaning(query: seq<Clause>, f: SampleFilter, requireMeter: bool, m: Meter)
    requires MakeQueryFromFilter(query, f, requireMeter).Ok?
    ensures Satisfies(MakeQueryFromFilter(query, f, requireMeter).value, m) <==> Satisfies(query, m) && Passes(f, m)
  {
    NarrowMeaning(query, Steps(f), m);
    StepsMeaning(f, m);
  }

  /**
   * The rows of `rows` that meet every condition of `q`, in table order:
   * each matching row as often as the table holds it, no other row.
   */
  function Select(rows: seq<Meter>, q: seq<Clause>): (r: seq<Meter>)
    ensures |r| <= |rows|
    ensures forall m :: multiset(r)[m] == if Satisfies(q, m) then multiset(rows)[m] else 0
    ensures forall m :: m in r <==> m in rows && Satisfies(q, m)
  {
    if rows == [] then
      []
    else
      var last := rows[|rows| - 1];
      assert rows == rows[..|rows| - 1] + [last];
      Select(rows[..|rows| - 1], q) + (if Satisfies(q, last) then [last] else [])
  }

  /**
   * The samples of the meter table a filter selects, as sample listing does
   * it (no meter required): those that pass the filter.
   */
  function FilterSamples(table: seq<Meter>, f: SampleFilter): (r: Result<seq<Meter>, Error>)
    ensures r.Err? <==> |f.metaquery| > 0
    ensures r.Err? ==> r.error == MetaqueryNotImplemented
    ensures r.Ok? ==> |r.value| <= |table|
    ensures r.Ok? ==> forall m :: multiset(r.value)[m] == if Passes(f, m) then multiset(table)[m] else 0
    ensures r.Ok? ==> forall m :: m in r.value <==> m in table && Passes(f, m)
  {
    match MakeQueryFromFilter([], f, false)
    case Err(e) => Err(e)
    case Ok(q) =>
      assert forall m :: Satisfies(q, m) <==> Passes(f, m) by {
        forall m ensures Satisfies(q, m) <==> Passes(f, m) {
          MakeQueryFromFilterMeaning([], f, false, m);
        }
      }
      Ok(Select(table, q))
  }

  // ---------------------------------------------------------------------------
  // Meter listing

  /** One entry of the meter listing. */
  datatype MeterInfo = MeterInfo(
    name: string,
    meterType: string,
    unit: string,
    resourceId: string,
    projectId: Option<string>,
    userId: Option<string>)

  /** The listing entry for meter `m` of resource `res`. */
  function Describe(m: Meter, res: Resource): MeterInfo
  {
    MeterInfo(m.counterName, m.counterType, m.counterUnit, res.id, res.projectId, res.userId)
  }

  /** The counter names of `ms`. */
  function Names(ms: seq<Meter>): set<string>
  {
    set m | m in ms :: m.counterName
  }

  /** No meter before position `i` has the counter name of the meter at `i`. */
  predicate IsFirst(ms: seq<Meter>, i: nat)
    requires i < |ms|
  {
    forall j | 0 <= j < i :: ms[j].counterName != ms[i].counterName
  }

  /** The meters of `ms` that come first with their counter name, in order. */
  function Firsts(ms: seq<Meter>): seq<Meter>
  {
    if ms == [] then
      []
    else
      Firsts(ms[..|ms| - 1]) + (if IsFirst(ms, |ms| - 1) then [ms[|ms| - 1]] else [])
  }

  /** The listing entries of meters `ms` of resource `res`, in order. */
  function DescribeAll(ms: seq<Meter>, res: Resource): seq<MeterInfo>
  {
    if ms == [] then [] else DescribeAll(ms[..|ms| - 1], res) + [Describe(ms[|ms| - 1], res)]
  }

  /** The entries describe the meters one for one, in order. */
  lemma {:induction false} DescribeAllIndex(ms: seq<Meter>, res: Resource)
    ensures |DescribeAll(ms, res)| == |ms|
    ensures forall k | 0 <= k < |ms| :: DescribeAll(ms, res)[k] == Describe(ms[k], res)
  {
    if ms != [] {
      DescribeAllIndex(ms[..|ms| - 1], res);
    }
  }

  /** The meter listing: resource after resource, each resource's first meter per counter name. */
  function Listing(resources: seq<Resource>): seq<MeterInfo>
  {
    if resources == [] then
      []
    else
      var res := resources[|resources| - 1];
      Listing(resources[..|resources| - 1]) + DescribeAll(Firsts(res.meters), res)
  }

  /** At most one meter per counter name survives. */
  lemma {:induction false} FirstsUniqueNames(ms: seq<Meter>)
    ensures forall a, b | 0 <= a < b < |Firsts(ms)| :: Firsts(ms)[a].counterName != Firsts(ms)[b].counterName
  {
    if ms != [] {
      var p := ms[..|ms| - 1];
      FirstsUniqueNames(p);
      FirstsAreFirstOccurrences(p);
      if IsFirst(ms, |ms| - 1) {
        var r := Firsts(ms);
        forall a | 0 <= a < |Firsts(p)|
          ensures Firsts(p)[a].counterName != ms[|ms| - 1].counterName
        {
          var x := Firsts(p)[a];
          assert x in Firsts(p);
          var i :| 0 <= i < |p| && IsFirst(p, i) && p[i] == x;
          assert ms[i] == x;
        }
      }
    }
  }

  /** The survivors are exactly the meters that come first with their counter name. */
  lemma {:induction false} FirstsAreFirstOccurrences(ms: seq<Meter>)
    ensures forall m :: m in Firsts(ms) <==> exists i | 0 <= i < |ms| :: IsFirst(ms, i) && ms[i] == m
  {
    if ms != [] {
      var n := |ms| - 1;
      var p := ms[..n];
      FirstsAreFirstOccurrences(p);
      assert forall i | 0 <= i < n :: IsFirst(ms, i) == IsFirst(p, i) by {
        forall i | 0 <= i < n ensures IsFirst(ms, i) == IsFirst(p, i) {
          assert forall j | 0 <= j < i :: ms[j] == p[j];
        }
      }
      forall m
        ensures m in Firsts(ms) <==> exists i | 0 <= i < |ms| :: IsFirst(ms, i) && ms[i] == m
      {
        if m in Firsts(ms) {
          if m in Firsts(p) {
            var i :| 0 <= i < |p| && IsFirst(p, i) && p[i] == m;
            assert IsFirst(ms, i) && ms[i] == m;
          } else {
            assert IsFirst(ms, n) && ms[n] == m;
          }
        }
        if exists i | 0 <= i < |ms| :: IsFirst(ms, i) && ms[i] == m {
          var i :| 0 <= i < |ms| && IsFirst(ms, i) && ms[i] == m;
          if i < n {
            assert IsFirst(p, i) && p[i] == m;
          }
        }
      }
    }
  }

  /** Every counter name of `ms` is represented among the survivors. */
  lemma {:induction false} FirstsKeepNames(ms: seq<Meter>)
    ensures Names(Firsts(ms)) == Names(ms)
  {
    if ms != [] {
      var n := |ms| - 1;
      var p := ms[..n];
      FirstsKeepNames(p);
      assert ms == p + [ms[n]];
      assert Names(ms) == Names(p) + {ms[n].counterName};
      if !IsFirst(ms, n) {
        var j :| 0 <= j < n && ms[j].counterName == ms[n].counterName;
        assert p[j] in p;
      }
    }
  }

  /** Extending a prefix of `ms` by one meter adds its name, and keeps it when the name is new. */
  lemma FirstsSnoc(ms: seq<Meter>, j: nat)
    requires j < |ms|
    ensures Names(ms[..j + 1]) == Names(ms[..j]) + {ms[j].counterName}
    ensures Firsts(ms[..j + 1]) == Firsts(ms[..j]) + (if ms[j].counterName in Names(ms[..j]) then [] else [ms[j]])
  {
    var p := ms[..j + 1];
    assert p == ms[..j] + [ms[j]];
    assert p[..j] == ms[..j];
    if ms[j].counterName in Names(ms[..j]) {
      var k :| 0 <= k < j && ms[..j][k].counterName == ms[j].counterName;
      assert p[k].counterName == p[j].counterName;
    }
  }

  /** The entries of a sequence of meters extended by one. */
  lemma DescribeAllSnoc(ms: seq<Meter>, extra: seq<Meter>, res: Resource)
    requires |extra| <= 1
    ensures DescribeAll(ms + extra, res) == DescribeAll(ms, res) + (if extra == [] then [] else [Describe(extra[0], res)])
  {
    if extra != [] {
      assert (ms + extra)[..|ms|] == ms;
    } else {
      assert ms + extra == ms;
    }
  }

  /** The listing of a prefix of `resources` extended by one resource. */
  lemma ListingSnoc(resources: seq<Resource>, i: nat)
    requires i < |resources|
    ensures Listing(resources[..i + 1]) == Listing(resources[..i]) + DescribeAll(Firsts(resources[i].meters), resources[i])
  {
    assert resources[..i + 1][..i] == resources[..i];
  }

  /**
   * The entries one resource contributes to the meter listing: one per
   * counter name among its meters, the first in meter order, found with a
   * set of the names seen so far.
   */
  method ResourceMeters(res: Resource) returns (entries: seq<MeterInfo>)
    ensures entries == DescribeAll(Firsts(res.meters), res)
  {
    entries := [];
    var meterNames: set<string> := {};
    for j := 0 to |res.meters|
      invariant meterNames == Names(res.meters[..j])
      invariant entries == DescribeAll(Firsts(res.meters[..j]), res)
    {
      var meter := res.meters[j];
      FirstsSnoc(res.meters, j);
      DescribeAllSnoc(Firsts(res.meters[..j]), if meter.counterName in meterNames then [] else [meter], res);
      if meter.counterName in meterNames {
        continue;
      }
      meterNames := meterNames + {meter.counterName};
      entries := entries + [Describe(meter, res)];
    }
    assert res.meters[..|res.meters|] == res.meters;
  }

  /**
   * What the resource query of the meter listing asks of a resource: the
   * owner, source and project conditions apply whenever they are given (an
   * empty string included), the resource id only when it is not empty.
   */
  predicate ResourcePasses(res: Resource, user: Option<string>, project: Option<string>, resource: Option<string>, source: Option<string>)
  {
    && (user.Some? ==> res.userId == user)
    && (source.Some? ==> source.value in res.sources)
    && (Given(resource) ==> res.id == resource.value)
    && (project.Some? ==> res.projectId == project)
  }

  /**
   * The resources the resource query selects, in table order: each matching
   * resource as often as the table holds it, no other resource.
   */
  function SelectResources(resources: seq<Resource>, user: Option<string>, project: Option<string>, resource: Option<string>, source: Option<string>): (r: seq<Resource>)
    ensures |r| <= |resources|
    ensures forall res :: multiset(r)[res] == if ResourcePasses(res, user, project, resource, source) then multiset(resources)[res] else 0
    ensures forall res :: res in r <==> res in resources && ResourcePasses(res, user, project, resource, source)
  {
    if resources == [] then
      []
    else
      var last := resources[|resources| - 1];
      assert resources == resources[..|resources| - 1] + [last];
      SelectResources(resources[..|resources| - 1], user, project, resource, source)
        + (if ResourcePasses(last, user, project, resource, source) then [last] else [])
  }

  /**
   * The meter listing: fails when a metadata query is given; otherwise the
   * entries of each selected resource in turn.
   */
  method GetMeters(resources: seq<Resource>, user: Option<string>, project: Option<string>, resource: Option<string>,
                   source: Option<string>, metaquery: map<string, string>)
    returns (r: Result<seq<MeterInfo>, Error>)
    ensures r.Err? <==> |metaquery| > 0
    ensures r.Err? ==> r.error == MetaqueryNotImplemented
    ensures r.Ok? ==> r.value == Listing(SelectResources(resources, user, project, resource, source))
  {
    if |metaquery| > 0 {
      return Err(MetaqueryNotImplemented);
    }
    var selected := SelectResources(resources, user, project, resource, source);
    var listing := [];
    for i := 0 to |selected|
      invariant listing == Listing(selected[..i])
    {
      var entries := ResourceMeters(selected[i]);
      ListingSnoc(selected, i);
      listing := listing + entries;
    }
    assert selected[..|selected|] == selected;
    r := Ok(listing);
  }
}
