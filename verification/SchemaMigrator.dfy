/** src/migration/schema_migrator.py and the built-in 1.0.0/1.1.0 step. Documents are JSON
    values; an exception inside a step is the error of its result. */
module Migration {
  import opened Wrappers
  import opened VersionGraph

  datatype Json =
    | Null
    | Bool(b: bool)
    | Num(n: real)
    | Str(s: string)
    | Arr(items: seq<Json>)
    | Obj(fields: map<string, Json>)

  datatype MigrationStep = MigrationStep(
    source: Version,
    target: Version,
    upgrade: Json -> Result<Json, string>,
    downgrade: Json -> Result<Json, string>)

  datatype MigrationError = Unreadable | NoPath | MissingStep | StepRaised(message: string)

  type Steps = map<(Version, Version), MigrationStep>

  /** `data["envelope"]["schema_version"]`, if both lookups succeed. */
  function ReadVersion(d: Json): Option<Json> {
    if d.Obj? && "envelope" in d.fields && d.fields["envelope"].Obj? && "schema_version" in d.fields["envelope"].fields
    then Some(d.fields["envelope"].fields["schema_version"])
    else None
  }

  ghost predicate HasVersion(d: Json, v: Version) {
    ReadVersion(d) == Some(Str(v.text))
  }

  // ---- applying steps ----

  /** One hop: the version numbers alone decide between `upgrade` and `downgrade`. */
  function ApplyHop(steps: Steps, u: Version, v: Version, d: Json): Result<Json, MigrationError> {
    if (u, v) !in steps then Err(MissingStep)
    else
      var step := steps[(u, v)];
      match if Older(u, v) then step.upgrade(d) else step.downgrade(d)
      case Ok(d') => Ok(d')
      case Err(message) => Err(StepRaised(message))
  }

  function ApplyPath(steps: Steps, p: seq<Version>, d: Json): Result<Json, MigrationError> {
    if |p| < 2 then Ok(d)
    else match ApplyHop(steps, p[0], p[1], d)
         case Ok(d') => ApplyPath(steps, p[1..], d')
         case Err(e) => Err(e)
  }

  ghost predicate Joins(step: MigrationStep, u: Version, v: Version) {
    (step.source == u && step.target == v) || (step.source == v && step.target == u)
  }

  /** The step table: each step is stored under both directions. */
  ghost predicate StepsOk(steps: Steps) {
    forall u, v :: (u, v) in steps ==> Joins(steps[(u, v)], u, v) && (v, u) in steps && steps[(v, u)] == steps[(u, v)]
  }

  /** What a migration of `data` has to return. */
  ghost predicate IsMigration(steps: Steps, versions: seq<Version>, data: Json, target: Version,
          r: Result<Json, MigrationError>)
  {
    match ReadVersion(data)
    case None => r == Err(Unreadable)
    case Some(current) =>
      if current == Str(target.text) then r == Ok(data)
      else if current.Str? && Version(current.s) in versions && target in versions
        && Connected(steps.Keys, Version(current.s), target)
      then exists p :: IsShortest(steps.Keys, p, Version(current.s), target) && r == ApplyPath(steps, p, data)
      else r == Err(NoPath)
  }

  // ---- what steps promise ----

  ghost predicate SetsClaimedVersions(step: MigrationStep) {
    && (forall d :: step.upgrade(d).Ok? ==> HasVersion(step.upgrade(d).value, step.target))
    && (forall d :: step.downgrade(d).Ok? ==> HasVersion(step.downgrade(d).value, step.source))
  }

  /** Registered from the older to the newer version. */
  predicate Oriented(step: MigrationStep) {
    Older(step.source, step.target)
  }

  /** A successful hop lands on the version it was taken for exactly when the version numbers
      pick the function written for that direction. */
  lemma HopLandsIff(steps: Steps, u: Version, v: Version, d: Json)
    requires StepsOk(steps) && (u, v) in steps && u != v && SetsClaimedVersions(steps[(u, v)])
    requires ApplyHop(steps, u, v, d).Ok?
    ensures HasVersion(ApplyHop(steps, u, v, d).value, v) <==> (Older(u, v) <==> steps[(u, v)].source == u)
  {
    assert Joins(steps[(u, v)], u, v);
    assert u.text != v.text;
    assert Str(u.text) != Str(v.text);
  }

  /** So with oriented steps every hop does, in either direction. */
  lemma OrientedHopLands(steps: Steps, u: Version, v: Version, d: Json)
    requires StepsOk(steps) && (u, v) in steps
    requires SetsClaimedVersions(steps[(u, v)]) && Oriented(steps[(u, v)])
    requires ApplyHop(steps, u, v, d).Ok?
    ensures HasVersion(ApplyHop(steps, u, v, d).value, v)
  {
    TupleOrder(VersionTuple(u), VersionTuple(v), VersionTuple(u));
    assert Joins(steps[(u, v)], u, v);
    if u != v { HopLandsIff(steps, u, v, d); }
  }

  ghost predicate Lawful(steps: Steps) {
    && StepsOk(steps)
    && forall e :: e in steps ==> SetsClaimedVersions(steps[e]) && Oriented(steps[e])
  }

  ghost predicate AllSetClaimed(steps: Steps) {
    StepsOk(steps) && forall e :: e in steps ==> SetsClaimedVersions(steps[e])
  }

  /** The function that the version numbers pick for this hop is the one written for its direction. */
  predicate PicksRight(steps: Steps, u: Version, v: Version)
    requires (u, v) in steps
  {
    u == v || (Older(u, v) <==> steps[(u, v)].source == u)
  }

  lemma AnyHopLandsIff(steps: Steps, u: Version, v: Version, d: Json)
    requires AllSetClaimed(steps) && ApplyHop(steps, u, v, d).Ok?
    ensures (u, v) in steps && (HasVersion(ApplyHop(steps, u, v, d).value, v) <==> PicksRight(steps, u, v))
  {
    if u == v {
      assert Joins(steps[(u, v)], u, v);
    } else {
      HopLandsIff(steps, u, v, d);
    }
  }

  /** A whole path lands on its last version exactly if its last hop picks the right function, whatever
      happened on the way. */
  lemma {:induction false} PathLandsIff(steps: Steps, p: seq<Version>, d: Json)
    requires AllSetClaimed(steps) && |p| >= 2 && ApplyPath(steps, p, d).Ok?
    ensures (p[|p| - 2], p[|p| - 1]) in steps
    ensures HasVersion(ApplyPath(steps, p, d).value, p[|p| - 1]) <==> PicksRight(steps, p[|p| - 2], p[|p| - 1])
    decreases |p|
  {
    var d1 := ApplyHop(steps, p[0], p[1], d).value;
    if |p| == 2 {
      AnyHopLandsIff(steps, p[0], p[1], d);
      assert ApplyPath(steps, p[1..], d1) == Ok(d1);
    } else {
      PathLandsIff(steps, p[1..], d1);
    }
  }

  /** So with oriented steps every path does. */
  lemma PathLands(steps: Steps, p: seq<Version>, d: Json)
    requires Lawful(steps) && |p| >= 2 && ApplyPath(steps, p, d).Ok?
    ensures HasVersion(ApplyPath(steps, p, d).value, p[|p| - 1])
  {
    PathLandsIff(steps, p, d);
    OrientedPicksRight(steps, p[|p| - 2], p[|p| - 1]);
  }

  lemma OrientedPicksRight(steps: Steps, u: Version, v: Version)
    requires Lawful(steps) && (u, v) in steps
    ensures PicksRight(steps, u, v)
  {
    TupleOrder(VersionTuple(u), VersionTuple(v), VersionTuple(u));
    assert Joins(steps[(u, v)], u, v);
  }

  /** With lawful steps, a migration that succeeds ends at the version asked for. */
  lemma MigrationReachesTarget(steps: Steps, versions: seq<Version>, data: Json, target: Version,
          r: Result<Json, MigrationError>)
    requires Lawful(steps) && IsMigration(steps, versions, data, target, r)
    ensures r.Ok? ==> HasVersion(r.value, target)
    ensures r != Err(MissingStep)
  {
    var current := ReadVersion(data);
    if current.Some? && current.value != Str(target.text) && r != Err(NoPath) {
      var p :| IsShortest(steps.Keys, p, Version(current.value.s), target) && r == ApplyPath(steps, p, data);
      assert |p| >= 2;
      if r.Ok? { PathLands(steps, p, data); }
      NeverMissing(steps, p, p[0], target, data);
    }
  }

  lemma {:induction false} NeverMissing(steps: Steps, p: seq<Version>, source: Version, target: Version, d: Json)
    requires IsRoute(steps.Keys, p, source, target)
    ensures ApplyPath(steps, p, d) != Err(MissingStep)
    decreases |p|
  {
    if |p| >= 2 {
      RouteTail(steps.Keys, p, source, target);
      if ApplyHop(steps, p[0], p[1], d).Ok? {
        NeverMissing(steps, p[1..], p[1], target, ApplyHop(steps, p[0], p[1], d).value);
      }
    }
  }

}

/** The class itself: the step table and version list that `register` grows. */
module Migrator {
  import opened Sorting
  import opened Wrappers
  import opened VersionGraph
  import opened PathSearch
  import opened Migration
  import opened MigrationRoundTrip

  ghost predicate IsEndpoint(steps: Steps, v: Version) {
    exists u :: (u, v) in steps
  }

  /** The version list holds exactly the endpoints of the registered steps. */
  ghost predicate VersionsOk(steps: Steps, versions: seq<Version>) {
    && (forall u, v :: (u, v) in steps ==> v in versions)
    && (forall v {:trigger IsEndpoint(steps, v)} :: v in versions ==> IsEndpoint(steps, v))
  }

  /** What a migration returns, told from the table in the order of its keys: it follows the chosen one
      of the shortest routes. */
  ghost predicate IsTableMigration(steps: Steps, order: seq<(Version, Version)>, versions: seq<Version>, data: Json,
          target: Version, r: Result<Json, MigrationError>)
  {
    match ReadVersion(data)
    case None => r == Err(Unreadable)
    case Some(current) =>
      if current == Str(target.text) then r == Ok(data)
      else if current.Str? && Version(current.s) in versions && target in versions
        && Connected(steps.Keys, Version(current.s), target)
      then exists p :: IsChosen(steps.Keys, order, p, Version(current.s), target) && r == ApplyPath(steps, p, data)
      else r == Err(NoPath)
  }

  /** So all that holds of every shortest route holds of it, and there is but one such result. */
  lemma TableMigrationIsOne(steps: Steps, order: seq<(Version, Version)>, versions: seq<Version>, data: Json,
          target: Version, r: Result<Json, MigrationError>, r': Result<Json, MigrationError>)
    requires IsTableMigration(steps, order, versions, data, target, r)
    requires IsTableMigration(steps, order, versions, data, target, r')
    ensures r == r' && IsMigration(steps, versions, data, target, r)
  {
    var current := ReadVersion(data);
    if current.Some? && current.value != Str(target.text) && current.value.Str? && Version(current.value.s) in versions
      && target in versions && Connected(steps.Keys, Version(current.value.s), target)
    {
      var p :| IsChosen(steps.Keys, order, p, Version(current.value.s), target) && r == ApplyPath(steps, p, data);
      var q :| IsChosen(steps.Keys, order, q, Version(current.value.s), target) && r' == ApplyPath(steps, q, data);
      ChosenIsUnique(steps.Keys, order, p, q, Version(current.value.s), target);
    }
  }

  /** A dictionary keeps the place of a key that it has, and puts a new one last. */
  function Keyed(order: seq<(Version, Version)>, key: (Version, Version)): seq<(Version, Version)> {
    if key in order then order else order + [key]
  }

  /** The table of a new migrator. */
  lemma BuiltinKeys()
    ensures map[][(V100, V110) := BuiltinStep()][(V110, V100) := BuiltinStep()] == BuiltinSteps()
    ensures Keyed(Keyed([], (V100, V110)), (V110, V100)) == [(V100, V110), (V110, V100)]
    ensures BuiltinStep().source == V100 && BuiltinStep().target == V110
  {
    VersionsDiffer();
  }

  class SchemaMigrator {
    /** `_steps`, the order in which the dictionary lists its keys, and `_versions`. */
    var steps: Steps
    var order: seq<(Version, Version)>
    var versions: seq<Version>

    ghost predicate Valid()
      reads this
    {
      && StepsOk(steps)
      && NoDuplicates(order) && (forall e :: e in order <==> e in steps)
      && NoDuplicates(versions) && Sorted(ByAge(), versions)
      && VersionsOk(steps, versions)
    }

    constructor ()
      ensures Valid() && steps == BuiltinSteps() && order == [(V100, V110), (V110, V100)]
      ensures forall v :: v in versions <==> v == V100 || v == V110
    {
      steps, order, versions := map[], [], [];
      new;
      BuiltinKeys();
      hide BuiltinSteps, BuiltinStep, Keyed;
      Register(BuiltinStep());
    }

    /** `register`: the step serves both directions, replacing what served them before. */
    method Register(step: MigrationStep)
      requires Valid()
      modifies this
      ensures Valid()
      ensures steps == old(steps)[(step.source, step.target) := step][(step.target, step.source) := step]
      ensures order == Keyed(Keyed(old(order), (step.source, step.target)), (step.target, step.source))
      ensures forall v :: v in versions <==> v in old(versions) || v == step.source || v == step.target
    {
      PutStep((step.source, step.target), step);
      PutStep((step.target, step.source), step);
      AddVersion(step.source);
      AddVersion(step.target);
      SortVersions(versions);
      versions := StableSort(ByAge(), versions);
      RegisterKeeps(old(steps), old(versions), step, versions);
    }

    /** Dictionary assignment: a key that is there keeps its place. */
    method PutStep(key: (Version, Version), step: MigrationStep)
      requires NoDuplicates(order) && forall e :: e in order <==> e in steps
      modifies `steps, `order
      ensures NoDuplicates(order) && forall e :: e in order <==> e in steps
      ensures steps == old(steps)[key := step] && order == Keyed(old(order), key)
    {
      if key !in steps { order := order + [key]; }
      steps := steps[key := step];
    }

    method AddVersion(v: Version)
      requires NoDuplicates(versions)
      modifies `versions
      ensures NoDuplicates(versions) && forall u :: u in versions <==> u in old(versions) || u == v
    {
      if v !in versions { versions := versions + [v]; }
    }

    method ResolvePath(source: Version, target: Version) returns (path: Option<seq<Version>>)
      requires Valid()
      ensures path.None? <==> source !in versions || target !in versions || !Connected(steps.Keys, source, target)
      ensures path.Some? ==> IsChosen(steps.Keys, order, path.value, source, target)
    {
      KnownVersions(steps, versions);
      path := PathSearch.ResolvePath(versions, order, steps.Keys, source, target);
    }

    /** `migrate`: along a shortest path of registered steps, one step after the other. */
    method Migrate(data: Json, target: Version) returns (r: Result<Json, MigrationError>)
      requires Valid()
      ensures IsTableMigration(steps, order, versions, data, target, r)
      ensures IsMigration(steps, versions, data, target, r) && r != Err(MissingStep)
    {
      var current := ReadVersion(data);
      if current.None? { return Err(Unreadable); }
      if current.value == Str(target.text) { return Ok(data); }
      if !current.value.Str? { return Err(NoPath); }
      var path := ResolvePath(Version(current.value.s), target);
      if path.None? { return Err(NoPath); }
      NeverMissing(steps, path.value, Version(current.value.s), target, data);
      r := FollowPath(path.value, data);
      TableMigrationIsOne(steps, order, versions, data, target, r, r);
    }

    /** The loop of `migrate`, over the pairs of the path. */
    method FollowPath(path: seq<Version>, data: Json) returns (r: Result<Json, MigrationError>)
      requires |path| >= 1
      ensures r == ApplyPath(steps, path, data)
    {
      var result := data;
      assert path[0..] == path;
      for i := 0 to |path| - 1
        invariant ApplyPath(steps, path, data) == ApplyPath(steps, path[i..], result)
      {
        var (u, v) := (path[i], path[i + 1]);
        assert path[i..][0] == u && path[i..][1] == v && path[i..][1..] == path[i + 1..];
        if (u, v) !in steps { return Err(MissingStep); }
        var step := steps[(u, v)];
        var applied := if Older(u, v) then step.upgrade(result) else step.downgrade(result);
        if applied.Err? { return Err(StepRaised(applied.error)); }
        result := applied.value;
      }
      return Ok(result);
    }

    method Rollback(data: Json, target: Version) returns (r: Result<Json, MigrationError>)
      requires Valid()
      ensures IsTableMigration(steps, order, versions, data, target, r)
      ensures IsMigration(steps, versions, data, target, r)
    {
      r := Migrate(data, target);
    }
  }

  lemma SortVersions(versions: seq<Version>)
    requires NoDuplicates(versions)
    ensures var sorted := StableSort(ByAge(), versions);
      NoDuplicates(sorted) && Sorted(ByAge(), sorted) && forall v :: v in sorted <==> v in versions
  {
    AgeIsOrder();
    StableSortCorrect(ByAge(), versions);
    SamePermutation(versions, StableSort(ByAge(), versions));
  }

  lemma KnownVersions(steps: Steps, versions: seq<Version>)
    requires StepsOk(steps) && VersionsOk(steps, versions)
    ensures Symmetric(steps.Keys) && forall u, v :: (u, v) in steps.Keys ==> u in versions && v in versions
  {
    forall u, v | (u, v) in steps.Keys ensures u in versions && v in versions {
      assert (v, u) in steps;
    }
  }

  lemma RegisterKeeps(before: Steps, known: seq<Version>, step: MigrationStep, versions: seq<Version>)
    requires StepsOk(before) && VersionsOk(before, known)
    requires forall v :: v in versions <==> v in known || v == step.source || v == step.target
    ensures var after := before[(step.source, step.target) := step][(step.target, step.source) := step];
      StepsOk(after) && VersionsOk(after, versions)
  {
    var after := before[(step.source, step.target) := step][(step.target, step.source) := step];
    forall v {:trigger IsEndpoint(after, v)} | v in versions ensures IsEndpoint(after, v) {
      if v in known {
        assert IsEndpoint(before, v);
        var u :| (u, v) in before;
        assert (u, v) in after;
      }
      assert (step.source, step.target) in after && (step.target, step.source) in after;
    }
  }
}
