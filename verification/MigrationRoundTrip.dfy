/** Migrating up a chain of versions and rolling back, and the built-in pair of steps. */
module MigrationRoundTrip {
  import opened Sorting
  import opened Wrappers
  import opened VersionGraph
  import opened Migration

  // ---- chains of versions ----

  /** The registered steps join neighbours of an ascending list of versions, and nothing else. */
  ghost predicate IsChain(edges: Edges, chain: seq<Version>) {
    && NoDuplicates(chain)
    && (forall i :: 0 <= i < |chain| ==> chain[i].text != "")
    && (forall i :: 0 <= i < |chain| - 1 ==> Older(chain[i], chain[i + 1]))
    && (forall u, v :: (u, v) in edges <==> exists i :: NextTo(chain, i, u, v))
  }

  ghost predicate NextTo(chain: seq<Version>, i: int, u: Version, v: Version) {
    0 <= i < |chain| - 1 && ((u == chain[i] && v == chain[i + 1]) || (v == chain[i] && u == chain[i + 1]))
  }

  /** The direct way along the chain. */
  function Along(chain: seq<Version>, i: nat, j: nat): (p: seq<Version>)
    requires i < |chain| && j < |chain|
    ensures |p| == (if i <= j then j - i else i - j) + 1 && p[0] == chain[i]
    decreases if i <= j then j - i else i - j
  {
    if i == j then [chain[i]]
    else if i < j then [chain[i]] + Along(chain, i + 1, j)
    else [chain[i]] + Along(chain, i - 1, j)
  }

  function Distance(i: nat, j: nat): nat {
    if i <= j then j - i else i - j
  }

  /** Any route is at least as long as the direct way, and only the direct way is that short. */
  lemma {:induction false} ChainRoutes(edges: Edges, chain: seq<Version>, p: seq<Version>, i: nat, j: nat)
    requires IsChain(edges, chain) && i < |chain| && j < |chain| && IsRoute(edges, p, chain[i], chain[j])
    ensures |p| >= Distance(i, j) + 1
    ensures |p| == Distance(i, j) + 1 ==> p == Along(chain, i, j)
    decreases |p|
  {
    if |p| == 1 {
      assert i == j;
    } else {
      RouteTail(edges, p, chain[i], chain[j]);
      var k := ChainNeighbour(edges, chain, i, p[1]);
      hide IsChain, IsRoute, Along;
      ChainRoutes(edges, chain, p[1..], k, j);
      if |p| == Distance(i, j) + 1 {
        AlongStep(chain, i, k, j);
        assert p == [p[0]] + p[1..];
      }
    }
  }

  lemma AlongStep(chain: seq<Version>, i: nat, k: nat, j: nat)
    requires i < |chain| && k < |chain| && j < |chain| && Distance(i, k) == 1 && Distance(i, j) == Distance(k, j) + 1
    ensures Along(chain, i, j) == [chain[i]] + Along(chain, k, j)
  {}

  lemma ChainNeighbour(edges: Edges, chain: seq<Version>, i: nat, v: Version) returns (k: nat)
    requires IsChain(edges, chain) && i < |chain| && (chain[i], v) in edges
    ensures k < |chain| && chain[k] == v && (k == i + 1 || k == i - 1)
  {
    var n :| NextTo(chain, n, chain[i], v);
    k := if chain[i] == chain[n] && v == chain[n + 1] then n + 1 else n;
  }

  lemma {:induction false} AlongIsRoute(edges: Edges, chain: seq<Version>, i: nat, j: nat)
    requires IsChain(edges, chain) && i < |chain| && j < |chain|
    ensures IsRoute(edges, Along(chain, i, j), chain[i], chain[j])
    decreases Distance(i, j)
  {
    if i != j {
      var k := if i < j then i + 1 else i - 1;
      assert NextTo(chain, if i < j then i else k, chain[i], chain[k]);
      hide IsChain, IsRoute, Along;
      AlongIsRoute(edges, chain, k, j);
      RouteCons(edges, Along(chain, k, j), chain[k], chain[j], chain[i]);
      AlongStep(chain, i, k, j);
    }
  }

  /** On a chain the search has no choice. */
  lemma ChainShortest(edges: Edges, chain: seq<Version>, p: seq<Version>, i: nat, j: nat)
    requires IsChain(edges, chain) && i < |chain| && j < |chain| && IsShortest(edges, p, chain[i], chain[j])
    ensures p == Along(chain, i, j)
  {
    AlongIsRoute(edges, chain, i, j);
    ChainRoutes(edges, chain, p, i, j);
  }

  lemma {:induction false} AlongBackwards(chain: seq<Version>, j: nat, i: nat)
    requires i < j < |chain|
    ensures Along(chain, j, i) == Along(chain, j, i + 1) + [chain[i]]
    decreases j
  {
    if j > i + 1 {
      AlongBackwards(chain, j - 1, i);
      assert [chain[j]] + (Along(chain, j - 1, i + 1) + [chain[i]])
        == ([chain[j]] + Along(chain, j - 1, i + 1)) + [chain[i]];
    } else {
      assert Along(chain, j, i) == [chain[j]] + [chain[i]];
    }
  }

  lemma {:induction false} PathAppend(steps: Steps, p: seq<Version>, v: Version, d: Json)
    requires |p| >= 1
    ensures ApplyPath(steps, p + [v], d) ==
            match ApplyPath(steps, p, d) case Ok(d') => ApplyHop(steps, p[|p| - 1], v, d') case Err(e) => Err(e)
    decreases |p|
  {
    if |p| == 1 {
      assert (p + [v])[1..] == [v];
    } else {
      assert (p + [v])[1..] == p[1..] + [v];
      match ApplyHop(steps, p[0], p[1], d)
      case Ok(d') => PathAppend(steps, p[1..], v, d');
      case Err(_) =>
    }
  }

  /** Every hop of this document's way up the chain is undone by its step's own downgrade. */
  ghost predicate UndoneAlong(steps: Steps, chain: seq<Version>, i: nat, j: nat, d: Json)
    requires i <= j < |chain|
    decreases j - i
  {
    i == j ||
    ((chain[i], chain[i + 1]) in steps &&
     var step := steps[(chain[i], chain[i + 1])];
     step.upgrade(d).Ok? ==>
       step.downgrade(step.upgrade(d).value) == Ok(d) && UndoneAlong(steps, chain, i + 1, j, step.upgrade(d).value))
  }

  /** A hop up and what hopping back makes of it, in terms of the step's functions. */
  lemma UpHop(steps: Steps, chain: seq<Version>, i: nat, d: Json) returns (d1: Json)
    requires Lawful(steps) && IsChain(steps.Keys, chain) && i + 1 < |chain|
    requires HasVersion(d, chain[i]) && ApplyHop(steps, chain[i], chain[i + 1], d).Ok?
    ensures (chain[i], chain[i + 1]) in steps && steps[(chain[i], chain[i + 1])].upgrade(d) == Ok(d1)
    ensures ApplyHop(steps, chain[i], chain[i + 1], d) == Ok(d1) && HasVersion(d1, chain[i + 1])
    ensures ApplyHop(steps, chain[i + 1], chain[i], d1) ==
            match steps[(chain[i], chain[i + 1])].downgrade(d1) case Ok(d') => Ok(d') case Err(e) => Err(StepRaised(e))
  {
    var u, v := chain[i], chain[i + 1];
    assert NextTo(chain, i, u, v);
    d1 := ApplyHop(steps, u, v, d).value;
    OrientedHopLands(steps, u, v, d);
    TupleOrder(VersionTuple(u), VersionTuple(v), VersionTuple(u));
    assert Joins(steps[(u, v)], u, v);
  }

  lemma UpFirst(steps: Steps, chain: seq<Version>, i: nat, j: nat, d: Json, d1: Json)
    requires i < j < |chain| && ApplyHop(steps, chain[i], chain[i + 1], d) == Ok(d1)
    ensures ApplyPath(steps, Along(chain, i, j), d) == ApplyPath(steps, Along(chain, i + 1, j), d1)
  {
    assert Along(chain, i, j)[1..] == Along(chain, i + 1, j);
  }

  lemma {:induction false} AlongEnd(chain: seq<Version>, j: nat, i: nat)
    requires i <= j < |chain|
    ensures Along(chain, j, i)[|Along(chain, j, i)| - 1] == chain[i]
    decreases j
  {
    if i < j {
      AlongEnd(chain, j - 1, i);
    }
  }

  /** The first hop of the way up is the last of the way back. */
  lemma DownLast(steps: Steps, chain: seq<Version>, i: nat, j: nat, d: Json)
    requires i < j < |chain|
    ensures ApplyPath(steps, Along(chain, j, i), d) ==
            match ApplyPath(steps, Along(chain, j, i + 1), d)
            case Ok(d') => ApplyHop(steps, chain[i + 1], chain[i], d')
            case Err(e) => Err(e)
  {
    hide *;
    AlongBackwards(chain, j, i);
    AlongEnd(chain, j, i + 1);
    PathAppend(steps, Along(chain, j, i + 1), chain[i], d);
  }

  /** Up the chain and down again, step by step. */
  lemma {:induction false} UpAndDown(steps: Steps, chain: seq<Version>, i: nat, j: nat, d: Json)
    requires Lawful(steps) && IsChain(steps.Keys, chain) && i <= j < |chain| && UndoneAlong(steps, chain, i, j, d)
    requires HasVersion(d, chain[i]) && ApplyPath(steps, Along(chain, i, j), d).Ok?
    ensures ApplyPath(steps, Along(chain, j, i), ApplyPath(steps, Along(chain, i, j), d).value) == Ok(d)
    decreases j - i
  {
    if i < j {
      var d1 := FirstHopDecides(steps, chain, i, j, d);
    }
  }

  /** If the hops above the first are undone, the first hop alone decides what comes back. */
  lemma {:induction false} FirstHopDecides(steps: Steps, chain: seq<Version>, i: nat, j: nat, d: Json)
    returns (d1: Json)
    requires Lawful(steps) && IsChain(steps.Keys, chain) && i < j < |chain|
    requires HasVersion(d, chain[i]) && ApplyPath(steps, Along(chain, i, j), d).Ok?
    requires (chain[i], chain[i + 1]) in steps && var up := steps[(chain[i], chain[i + 1])].upgrade(d);
      up.Ok? ==> UndoneAlong(steps, chain, i + 1, j, up.value)
    ensures steps[(chain[i], chain[i + 1])].upgrade(d) == Ok(d1)
    ensures ApplyPath(steps, Along(chain, j, i), ApplyPath(steps, Along(chain, i, j), d).value) ==
            match steps[(chain[i], chain[i + 1])].downgrade(d1) case Ok(d') => Ok(d') case Err(e) => Err(StepRaised(e))
    decreases j - i, 0
  {
    hide *;
    FirstHopSucceeds(steps, chain, i, j, d);
    d1 := UpHop(steps, chain, i, d);
    UpFirst(steps, chain, i, j, d, d1);
    UpAndDown(steps, chain, i + 1, j, d1);
    DownLast(steps, chain, i, j, ApplyPath(steps, Along(chain, i, j), d).value);
  }

  lemma FirstHopSucceeds(steps: Steps, chain: seq<Version>, i: nat, j: nat, d: Json)
    requires i < j < |chain| && ApplyPath(steps, Along(chain, i, j), d).Ok?
    ensures ApplyHop(steps, chain[i], chain[i + 1], d).Ok?
  {
    assert Along(chain, i, j)[1] == chain[i + 1];
  }

  /** On a chain of lawful steps, an upward migration ends at its target; and if each of its hops is
      undone by its step's downgrade, migrating the result back returns the original document. */
  lemma ChainRoundTrip(steps: Steps, versions: seq<Version>, chain: seq<Version>, i: nat, j: nat,
                       d: Json, up: Result<Json, MigrationError>, back: Result<Json, MigrationError>)
    requires Lawful(steps) && IsChain(steps.Keys, chain) && i <= j < |chain|
      && (forall v :: v in chain ==> v in versions)
    requires HasVersion(d, chain[i]) && IsMigration(steps, versions, d, chain[j], up) && up.Ok?
    requires IsMigration(steps, versions, up.value, chain[i], back)
    ensures HasVersion(up.value, chain[j])
    ensures UndoneAlong(steps, chain, i, j, d) ==> back == Ok(d)
  {
    MigrationReachesTarget(steps, versions, d, chain[j], up);
    if i != j {
      ChainPaths(steps, versions, chain, i, j, d, up, back);
      if UndoneAlong(steps, chain, i, j, d) {
        UpAndDown(steps, chain, i, j, d);
      }
    }
  }

  /** Both ways of such a migration follow the chain. */
  lemma ChainPaths(steps: Steps, versions: seq<Version>, chain: seq<Version>, i: nat, j: nat,
                   d: Json, up: Result<Json, MigrationError>, back: Result<Json, MigrationError>)
    requires Lawful(steps) && IsChain(steps.Keys, chain) && i < j < |chain|
      && (forall v :: v in chain ==> v in versions)
    requires HasVersion(d, chain[i]) && IsMigration(steps, versions, d, chain[j], up) && up.Ok?
    requires IsMigration(steps, versions, up.value, chain[i], back)
    ensures HasVersion(up.value, chain[j])
    ensures up == ApplyPath(steps, Along(chain, i, j), d) && back == ApplyPath(steps, Along(chain, j, i), up.value)
  {
    hide *;
    MigrationReachesTarget(steps, versions, d, chain[j], up);
    ChainMigration(steps, versions, chain, i, j, d, up);
    ChainMigration(steps, versions, chain, j, i, up.value, back);
  }

  lemma ChainMigration(steps: Steps, versions: seq<Version>, chain: seq<Version>, i: nat, j: nat, d: Json,
          r: Result<Json, MigrationError>)
    requires IsChain(steps.Keys, chain) && i < |chain| && j < |chain| && i != j
      && (forall v :: v in chain ==> v in versions)
    requires HasVersion(d, chain[i]) && IsMigration(steps, versions, d, chain[j], r)
    ensures r == ApplyPath(steps, Along(chain, i, j), d)
  {
    assert chain[i] != chain[j] && Str(chain[i].text) != Str(chain[j].text);
    assert Version(chain[i].text) == chain[i];
    AlongIsRoute(steps.Keys, chain, i, j);
    assert chain[i] in versions && chain[j] in versions;
    var p :| IsShortest(steps.Keys, p, chain[i], chain[j]) && r == ApplyPath(steps, p, d);
    ChainShortest(steps.Keys, chain, p, i, j);
  }

  // ---- src/migration/migrations/v1_0_to_v1_1.py ----

  const V100 := Version("1.0.0")
  const V110 := Version("1.1.0")
  const GATES := "quality_gates"
  const SOP := "sop_compliance_score"
  const GUARD := "path_guard_human_gate"

  /** `data["envelope"]["schema_version"] = v` on a copy. */
  function SetVersion(d: Json, v: Version): (r: Result<Json, string>)
    ensures r.Ok? ==> HasVersion(r.value, v)
    ensures r.Ok? ==> d.Obj? && r.value.Obj? && r.value.fields - {"envelope"} == d.fields - {"envelope"}
  {
    if d.Obj? && "envelope" in d.fields && d.fields["envelope"].Obj? then
      Ok(Obj(d.fields["envelope" := Obj(d.fields["envelope"].fields["schema_version" := Str(v.text)])]))
    else Err("envelope")
  }

  function SetDefault(fields: map<string, Json>, key: string, default: Json): map<string, Json> {
    if key in fields then fields else fields[key := default]
  }

  function Upgrade(d: Json): Result<Json, string> {
    match SetVersion(d, V110)
    case Err(e) => Err(e)
    case Ok(d') =>
      var fields := SetDefault(d'.fields, GATES, Obj(map[]));
      if !fields[GATES].Obj? then Err("setdefault")
      else Ok(Obj(fields[GATES := Obj(SetDefault(SetDefault(fields[GATES].fields, SOP, Null), GUARD, Bool(false)))]))
  }

  function Downgrade(d: Json): Result<Json, string> {
    match SetVersion(d, V100)
    case Err(e) => Err(e)
    case Ok(d') =>
      if GATES !in d'.fields then Ok(d')
      else if !d'.fields[GATES].Obj? then Err("pop")
      else Ok(Obj(d'.fields[GATES := Obj(d'.fields[GATES].fields - {SOP, GUARD})]))
  }

  function BuiltinStep(): MigrationStep {
    MigrationStep(V100, V110, Upgrade, Downgrade)
  }

  /** The document has quality gates, and neither of the two keys that the upgrade adds. */
  predicate HasPlainGates(d: Json) {
    d.Obj? && GATES in d.fields && d.fields[GATES].Obj? && SOP !in d.fields[GATES].fields
      && GUARD !in d.fields[GATES].fields
  }

  /** The upgraded form: both keys present with their defaults. */
  predicate HasDefaultGates(d: Json) {
    && d.Obj? && GATES in d.fields && d.fields[GATES].Obj?
    && SOP in d.fields[GATES].fields && d.fields[GATES].fields[SOP] == Null
    && GUARD in d.fields[GATES].fields && d.fields[GATES].fields[GUARD] == Bool(false)
  }

  /** The two documents agree in every field other than the ones named. */
  ghost predicate SameApartFrom(a: map<string, Json>, b: map<string, Json>, keys: set<string>) {
    forall k :: k !in keys ==> (k in a <==> k in b) && (k in a && k in b ==> a[k] == b[k])
  }

  /** The envelope says `text`, and is as before otherwise. */
  ghost predicate Stamped(before: map<string, Json>, after: map<string, Json>, text: string) {
    && "envelope" in before && before["envelope"].Obj? && "envelope" in after && after["envelope"].Obj?
    && SameApartFrom(before["envelope"].fields, after["envelope"].fields, {"schema_version"})
    && "schema_version" in after["envelope"].fields && after["envelope"].fields["schema_version"] == Str(text)
  }

  /** What the gates hold, none being no gates. */
  function GatesOf(fields: map<string, Json>): Option<map<string, Json>> {
    if GATES !in fields then Some(map[]) else if fields[GATES].Obj? then Some(fields[GATES].fields) else None
  }

  /** The key is there, with the value it had, or with the default if it was not there. */
  predicate HasDefault(before: map<string, Json>, after: map<string, Json>, key: string, default: Json) {
    key in after && after[key] == if key in before then before[key] else default
  }

  /** `after` is `before` at 1.1.0: every gate keeps its value, the two new ones are null and false
      where they were not there, and nothing else is different. */
  ghost predicate IsUpgraded(before: Json, after: Json) {
    && before.Obj? && after.Obj? && GatesOf(before.fields).Some? && GATES in after.fields && after.fields[GATES].Obj?
    && SameApartFrom(before.fields, after.fields, {"envelope", "quality_gates"})
    && Stamped(before.fields, after.fields, "1.1.0")
    && SameApartFrom(GatesOf(before.fields).value, after.fields[GATES].fields,
                     {"sop_compliance_score", "path_guard_human_gate"})
    && HasDefault(GatesOf(before.fields).value, after.fields[GATES].fields, "sop_compliance_score", Null)
    && HasDefault(GatesOf(before.fields).value, after.fields[GATES].fields, "path_guard_human_gate", Bool(false))
  }

  ghost predicate LostGates(before: map<string, Json>, after: map<string, Json>) {
    && SameApartFrom(before, after, {"sop_compliance_score", "path_guard_human_gate"})
    && "sop_compliance_score" !in after && "path_guard_human_gate" !in after
  }

  /** `after` is `before` at 1.0.0: the two gates are gone, and nothing else is different. */
  ghost predicate IsDowngraded(before: Json, after: Json) {
    && before.Obj? && after.Obj? && GatesOf(before.fields).Some?
    && SameApartFrom(before.fields, after.fields, {"envelope", "quality_gates"})
    && Stamped(before.fields, after.fields, "1.0.0")
    && (GATES in after.fields <==> GATES in before.fields)
    && (GATES in after.fields ==>
        after.fields[GATES].Obj? && LostGates(GatesOf(before.fields).value, after.fields[GATES].fields))
  }

  /** The documents that a step of the built-in pair can read. */
  predicate Stampable(d: Json) {
    d.Obj? && "envelope" in d.fields && d.fields["envelope"].Obj? && GatesOf(d.fields).Some?
  }

  lemma SameFields(a: map<string, Json>, b: map<string, Json>, c: map<string, Json>, keys: set<string>)
    requires SameApartFrom(a, b, keys) && SameApartFrom(a, c, keys)
    requires forall k :: k in keys ==> (k in b <==> k in c) && (k in b && k in c ==> b[k] == c[k])
    ensures b == c
  {}

  lemma SameStamp(a: map<string, Json>, b: map<string, Json>, c: map<string, Json>, text: string)
    requires Stamped(a, b, text) && Stamped(a, c, text)
    ensures b["envelope"] == c["envelope"]
  {
    SameFields(a["envelope"].fields, b["envelope"].fields, c["envelope"].fields, {"schema_version"});
  }

  lemma UpgradedOnce(d: Json, a: Json, b: Json)
    requires IsUpgraded(d, a) && IsUpgraded(d, b)
    ensures a == b
  {
    SameStamp(d.fields, a.fields, b.fields, "1.1.0");
    SameFields(GatesOf(d.fields).value, a.fields[GATES].fields, b.fields[GATES].fields,
               {"sop_compliance_score", "path_guard_human_gate"});
    SameFields(d.fields, a.fields, b.fields, {"envelope", "quality_gates"});
  }

  lemma DowngradedOnce(d: Json, a: Json, b: Json)
    requires IsDowngraded(d, a) && IsDowngraded(d, b)
    ensures a == b
  {
    SameStamp(d.fields, a.fields, b.fields, "1.0.0");
    if GATES in d.fields {
      SameFields(GatesOf(d.fields).value, a.fields[GATES].fields, b.fields[GATES].fields,
                 {"sop_compliance_score", "path_guard_human_gate"});
    }
    SameFields(d.fields, a.fields, b.fields, {"envelope", "quality_gates"});
  }

  /** The upgrade returns exactly the document described, for every document it can read. */
  lemma UpgradeIff(d: Json, up: Json)
    ensures Upgrade(d).Ok? <==> Stampable(d)
    ensures Upgrade(d) == Ok(up) <==> IsUpgraded(d, up)
  {
    KeysDiffer();
    if Upgrade(d).Ok? {
      assert IsUpgraded(d, Upgrade(d).value);
      if IsUpgraded(d, up) { UpgradedOnce(d, up, Upgrade(d).value); }
    }
  }

  lemma DowngradeIff(d: Json, down: Json)
    ensures Downgrade(d).Ok? <==> Stampable(d)
    ensures Downgrade(d) == Ok(down) <==> IsDowngraded(d, down)
  {
    KeysDiffer();
    if Downgrade(d).Ok? {
      assert IsDowngraded(d, Downgrade(d).value);
      if IsDowngraded(d, down) { DowngradedOnce(d, down, Downgrade(d).value); }
    }
  }

  lemma KeysDiffer()
    ensures GATES != "envelope" && SOP != GUARD
  {
    assert GATES[0] != "envelope"[0] && SOP[0] != GUARD[0];
  }

  lemma VersionsDiffer()
    ensures V100 != V110 && V100.text != V110.text
    ensures Older(V100, V110)
  {
    assert V100.text[2] != V110.text[2];
    ParseVersions();
  }

  lemma ParseVersions()
    ensures VersionTuple(V100) == [1, 0, 0] && VersionTuple(V110) == [1, 1, 0]
  {
    SplitThree('1', '0', '0');
    SplitThree('1', '1', '0');
    ParseDigit('0');
    ParseDigit('1');
    assert V100.text == ['1', '.', '0', '.', '0'] && V110.text == ['1', '.', '1', '.', '0'];
    assert ParseAll([['1'], ['0'], ['0']]) == Some([1, 0, 0]) by { ParseThree('1', '0', '0'); }
    assert ParseAll([['1'], ['1'], ['0']]) == Some([1, 1, 0]) by { ParseThree('1', '1', '0'); }
  }

  lemma SplitCons(c: char, s: string)
    ensures c != '.' ==> SplitDots([c] + s) == [[c] + SplitDots(s)[0]] + SplitDots(s)[1..]
    ensures c == '.' ==> SplitDots([c] + s) == [""] + SplitDots(s)
  {
    assert ([c] + s)[0] == c && ([c] + s)[1..] == s;
  }

  lemma SplitThree(a: char, b: char, c: char)
    requires a != '.' && b != '.' && c != '.'
    ensures SplitDots([a, '.', b, '.', c]) == [[a], [b], [c]]
  {
    SplitCons(c, "");
    assert [c] + "" == [c] && SplitDots([c]) == [[c]];
    SplitCons('.', [c]);
    assert ['.'] + [c] == ['.', c] && SplitDots(['.', c]) == ["", [c]];
    SplitCons(b, ['.', c]);
    assert [b] + ['.', c] == [b, '.', c] && [b] + "" == [b] && SplitDots([b, '.', c]) == [[b], [c]];
    SplitCons('.', [b, '.', c]);
    assert ['.'] + [b, '.', c] == ['.', b, '.', c] && SplitDots(['.', b, '.', c]) == ["", [b], [c]];
    SplitCons(a, ['.', b, '.', c]);
    assert [a] + ['.', b, '.', c] == [a, '.', b, '.', c] && [a] + "" == [a];
  }

  lemma ParseDigit(c: char)
    requires '0' <= c <= '9'
    ensures ParseInt([c]) == Some(c as int - '0' as int)
  {
    assert [c][1..] == "" && !IsSpace(c);
    assert StripLeft([c]) == [c] && StripRight([c]) == [c];
    assert ParseDigits("", c as int - '0' as int, true) == Some(c as int - '0' as int);
    assert ParseDigits([c], 0, false) == Some(c as int - '0' as int);
  }

  lemma ParseThree(a: char, b: char, c: char)
    requires '0' <= a <= '9' && '0' <= b <= '9' && '0' <= c <= '9'
    ensures ParseAll([[a], [b], [c]]) == Some([a as int - '0' as int, b as int - '0' as int, c as int - '0' as int])
  {
    ParseDigit(a);
    ParseDigit(b);
    ParseDigit(c);
    var (m, n, k) := (a as int - '0' as int, b as int - '0' as int, c as int - '0' as int);
    ParseCons([c], [], k, []);
    assert [[c]] + [] == [[c]] && [k] + [] == [k];
    ParseCons([b], [[c]], n, [k]);
    assert [[b]] + [[c]] == [[b], [c]] && [n] + [k] == [n, k];
    ParseCons([a], [[b], [c]], m, [n, k]);
    assert [[a]] + [[b], [c]] == [[a], [b], [c]] && [m] + [n, k] == [m, n, k];
  }

  lemma BuiltinIsLawful()
    ensures Oriented(BuiltinStep()) && SetsClaimedVersions(BuiltinStep())
  {
    VersionsDiffer();
    KeysDiffer();
    forall d | Upgrade(d).Ok? ensures HasVersion(Upgrade(d).value, V110) {}
    forall d | Downgrade(d).Ok? ensures HasVersion(Downgrade(d).value, V100) {}
  }

  /** Upgrading a 1.0.0 document and downgrading it again returns it exactly when it has quality
      gates without the two keys: missing gates come back empty, a key that was there is lost. */
  lemma DowngradeUndoesUpgradeIff(d: Json)
    requires HasVersion(d, V100) && Upgrade(d).Ok?
    ensures Downgrade(Upgrade(d).value) == Ok(d) <==> HasPlainGates(d)
  {
    KeysDiffer();
    var up := Upgrade(d).value;
    var back := Downgrade(up);
    assert back.Ok?;
    assert d.fields["envelope"].fields["schema_version"] == Str(V100.text);
    assert back.value.fields["envelope"] == d.fields["envelope"];
    if HasPlainGates(d) {
      assert back.value.fields[GATES].fields == d.fields[GATES].fields;
      assert back.value.fields == d.fields;
    } else if GATES in d.fields {
      assert SOP !in back.value.fields[GATES].fields && GUARD !in back.value.fields[GATES].fields;
    } else {
      assert GATES in back.value.fields;
    }
  }

  /** The other way round: what comes back from 1.0.0 is the original exactly when both keys
      were there with their defaults. */
  lemma UpgradeUndoesDowngradeIff(d: Json)
    requires HasVersion(d, V110) && Downgrade(d).Ok?
    ensures Upgrade(Downgrade(d).value) == Ok(d) <==> HasDefaultGates(d)
  {
    KeysDiffer();
    var down := Downgrade(d).value;
    var back := Upgrade(down);
    assert d.fields["envelope"].fields["schema_version"] == Str(V110.text);
    if HasDefaultGates(d) {
      assert back.Ok? && back.value.fields["envelope"] == d.fields["envelope"];
      assert back.value.fields[GATES].fields == d.fields[GATES].fields;
      assert back.value.fields == d.fields;
    } else if back.Ok? {
      var gates := back.value.fields[GATES].fields;
      assert SOP in gates && gates[SOP] == Null && GUARD in gates && gates[GUARD] == Bool(false);
    }
  }

  function BuiltinSteps(): Steps {
    map[(V100, V110) := BuiltinStep(), (V110, V100) := BuiltinStep()]
  }

  lemma BuiltinChain()
    ensures IsChain({(V100, V110), (V110, V100)}, [V100, V110])
  {
    VersionsDiffer();
    var edges, chain := {(V100, V110), (V110, V100)}, [V100, V110];
    forall u, v ensures (u, v) in edges <==> exists i :: NextTo(chain, i, u, v) {
      if (u, v) in edges { assert NextTo(chain, 0, u, v); }
    }
  }

  lemma BuiltinStepsLawful()
    ensures Lawful(BuiltinSteps()) && BuiltinSteps().Keys == {(V100, V110), (V110, V100)}
  {
    VersionsDiffer();
    BuiltinIsLawful();
    forall u, v | (u, v) in BuiltinSteps()
      ensures Joins(BuiltinSteps()[(u, v)], u, v) && (v, u) in BuiltinSteps()
        && BuiltinSteps()[(v, u)] == BuiltinSteps()[(u, v)]
    {
      assert (u, v) == (V100, V110) || (u, v) == (V110, V100);
    }
  }

  /** A chain that begins with the built-in step: the steps registered above it may be any lawful ones
      that undo what they did to this document. */
  ghost predicate StartsBuiltin(steps: Steps, chain: seq<Version>) {
    && Lawful(steps) && IsChain(steps.Keys, chain)
    && |chain| >= 2 && chain[0] == V100 && chain[1] == V110
    && (V100, V110) in steps && steps[(V100, V110)] == BuiltinStep()
  }

  /** Migrating a 1.0.0 document up such a chain and back returns it exactly when its quality gates
      are plain, however far up it went. */
  lemma MixedRoundTrip(steps: Steps, versions: seq<Version>, chain: seq<Version>, j: nat,
                       d: Json, up: Result<Json, MigrationError>, back: Result<Json, MigrationError>)
    requires StartsBuiltin(steps, chain) && 1 <= j < |chain| && (forall v :: v in chain ==> v in versions)
    requires HasVersion(d, V100) && IsMigration(steps, versions, d, chain[j], up) && up.Ok?
    requires Upgrade(d).Ok? ==> UndoneAlong(steps, chain, 1, j, Upgrade(d).value)
    requires IsMigration(steps, versions, up.value, V100, back)
    ensures HasVersion(up.value, chain[j])
    ensures back == Ok(d) <==> HasPlainGates(d)
  {
    ChainPaths(steps, versions, chain, 0, j, d, up, back);
    assert steps[(chain[0], chain[1])] == BuiltinStep();
    hide *;
    BuiltinComesBack(steps, chain, j, d);
  }

  lemma BuiltinComesBack(steps: Steps, chain: seq<Version>, j: nat, d: Json)
    requires Lawful(steps) && IsChain(steps.Keys, chain) && 0 < j < |chain| && chain[0] == V100
    requires (chain[0], chain[1]) in steps && steps[(chain[0], chain[1])] == BuiltinStep()
    requires HasVersion(d, V100) && ApplyPath(steps, Along(chain, 0, j), d).Ok?
    requires Upgrade(d).Ok? ==> UndoneAlong(steps, chain, 1, j, Upgrade(d).value)
    ensures ApplyPath(steps, Along(chain, j, 0), ApplyPath(steps, Along(chain, 0, j), d).value) == Ok(d)
      <==> HasPlainGates(d)
  {
    hide *;
    BuiltinCalls(d);
    var d1 := FirstHopDecides(steps, chain, 0, j, d);
    BuiltinCalls(d1);
    DowngradeUndoesUpgradeIff(d);
  }

  /** A 1.0.0 document that is migrated to 1.1.0, on any chain that begins with the built-in step, comes
      out as the upgraded document, or cannot be read by the step. */
  lemma MigratedUpIff(steps: Steps, versions: seq<Version>, chain: seq<Version>, d: Json,
                      r: Result<Json, MigrationError>)
    requires StartsBuiltin(steps, chain) && (forall v :: v in chain ==> v in versions)
    requires HasVersion(d, V100) && IsMigration(steps, versions, d, V110, r)
    ensures r.Ok? <==> Stampable(d)
    ensures r.Ok? ==> IsUpgraded(d, r.value)
  {
    BuiltinHops(steps, chain, d);
    BuiltinAlong(chain);
    hide *;
    ChainMigration(steps, versions, chain, 0, 1, d, r);
    OneHop(steps, V100, V110, d);
    UpgradeIff(d, if r.Ok? then r.value else d);
  }

  /** And the other way round. */
  lemma MigratedDownIff(steps: Steps, versions: seq<Version>, chain: seq<Version>, d: Json,
                        r: Result<Json, MigrationError>)
    requires StartsBuiltin(steps, chain) && (forall v :: v in chain ==> v in versions)
    requires HasVersion(d, V110) && IsMigration(steps, versions, d, V100, r)
    ensures r.Ok? <==> Stampable(d)
    ensures r.Ok? ==> IsDowngraded(d, r.value)
  {
    BuiltinHops(steps, chain, d);
    BuiltinAlong(chain);
    hide *;
    ChainMigration(steps, versions, chain, 1, 0, d, r);
    OneHop(steps, V110, V100, d);
    DowngradeIff(d, if r.Ok? then r.value else d);
  }

  lemma BuiltinAlong(chain: seq<Version>)
    requires |chain| >= 2 && chain[0] == V100 && chain[1] == V110
    ensures Along(chain, 0, 1) == [V100, V110] && Along(chain, 1, 0) == [V110, V100]
  {}

  lemma BuiltinHops(steps: Steps, chain: seq<Version>, d: Json)
    requires StartsBuiltin(steps, chain)
    ensures IsChain(steps.Keys, chain) && |chain| >= 2 && chain[0] == V100 && chain[1] == V110
    ensures ApplyHop(steps, V100, V110, d) ==
            match Upgrade(d) case Ok(d') => Ok(d') case Err(e) => Err(StepRaised(e))
    ensures ApplyHop(steps, V110, V100, d) ==
            match Downgrade(d) case Ok(d') => Ok(d') case Err(e) => Err(StepRaised(e))
  {
    hide Upgrade, Downgrade, IsChain;
    assert (V100, V110) in steps && (V110, V100) in steps && steps[(V110, V100)] == steps[(V100, V110)];
    hide *;
    VersionsDiffer();
    TupleOrder(VersionTuple(V100), VersionTuple(V110), VersionTuple(V100));
    HopCalls(steps, d);
  }

  lemma HopCalls(steps: Steps, d: Json)
    requires (V100, V110) in steps && (V110, V100) in steps
    requires steps[(V100, V110)] == steps[(V110, V100)] == BuiltinStep()
    requires Older(V100, V110) && !Older(V110, V100)
    ensures ApplyHop(steps, V100, V110, d) ==
            match Upgrade(d) case Ok(d') => Ok(d') case Err(e) => Err(StepRaised(e))
    ensures ApplyHop(steps, V110, V100, d) ==
            match Downgrade(d) case Ok(d') => Ok(d') case Err(e) => Err(StepRaised(e))
  {
    hide Older, Upgrade, Downgrade;
  }

  lemma OneHop(steps: Steps, u: Version, v: Version, d: Json)
    ensures ApplyPath(steps, [u, v], d) == ApplyHop(steps, u, v, d)
  {
    assert [u, v][1..] == [v];
  }

  lemma BuiltinCalls(d: Json)
    ensures BuiltinStep().upgrade(d) == Upgrade(d) && BuiltinStep().downgrade(d) == Downgrade(d)
  {}

  /** The whole round trip through a migrator that knows just the built-in step: the shortest such chain. */
  lemma BuiltinRoundTrip(versions: seq<Version>, d: Json, up: Result<Json, MigrationError>,
          back: Result<Json, MigrationError>)
    requires V100 in versions && V110 in versions && HasVersion(d, V100)
    requires IsMigration(BuiltinSteps(), versions, d, V110, up) && up.Ok?
    requires IsMigration(BuiltinSteps(), versions, up.value, V100, back)
    ensures HasVersion(up.value, V110)
    ensures back == Ok(d) <==> HasPlainGates(d)
  {
    BuiltinStepsLawful();
    BuiltinChain();
    MixedRoundTrip(BuiltinSteps(), versions, [V100, V110], 1, d, up, back);
  }

  /** The condition of one hop, for the built-in step wherever it stands in a chain. */
  lemma BuiltinHopUndoneIff(steps: Steps, chain: seq<Version>, i: nat, d: Json)
    requires i + 1 < |chain| && (chain[i], chain[i + 1]) in steps && steps[(chain[i], chain[i + 1])] == BuiltinStep()
    requires HasVersion(d, V100) && Upgrade(d).Ok?
    ensures UndoneAlong(steps, chain, i, i + 1, d) <==> HasPlainGates(d)
  {
    DowngradeUndoesUpgradeIff(d);
  }

  // ---- a step to a version that is no dotted number ----

  /** A step up to a version with a letter in it, say a release candidate, is taken for one down: the
      migration applies its downgrade, and its upgrade on the way back. */
  lemma LetteredTargetGoesDown(steps: Steps, ns: seq<nat>, v: Version, c: char, d: Json)
    requires ns != [] && ns[0] > 0 && c in v.text && IsLetter(c)
    requires var u := Version(Dotted(ns));
      (u, v) in steps && (v, u) in steps && steps[(u, v)] == steps[(v, u)]
      && steps[(u, v)].source == u && steps[(u, v)].target == v
    ensures var u := Version(Dotted(ns)); var step := steps[(u, v)];
      && !Oriented(step)
      && ApplyHop(steps, u, v, d) ==
         (match step.downgrade(d) case Ok(d') => Ok(d') case Err(e) => Err(StepRaised(e)))
      && ApplyHop(steps, v, u, d) ==
         (match step.upgrade(d) case Ok(d') => Ok(d') case Err(e) => Err(StepRaised(e)))
  {
    LettersAreOldest(v, c, ns);
    hide Older, Dotted;
  }

  // ---- a step to the version called "" ----

  const NAMELESS := Version("")

  /** A step registered between 1.0.0 and the version called "". */
  function NamelessSteps(): Steps {
    var step := MigrationStep(V100, NAMELESS, Upgrade, Downgrade);
    map[(V100, NAMELESS) := step, (NAMELESS, V100) := step]
  }

  /** The step joins the two versions, and yet the migration finds no path. */
  lemma NamelessTargetIsMissed(r: Result<Json, MigrationError>)
    requires IsMigration(NamelessSteps(), [NAMELESS, V100], BareDocument(), NAMELESS, r)
    ensures StepsJoin(NamelessSteps().Keys, V100, NAMELESS) && r == Err(NoPath)
  {
    BareDocumentStays();
    var path := [V100, NAMELESS];
    assert IsStepPath(NamelessSteps().Keys, path, V100, NAMELESS);
    assert |V100.text| == 5 && |NAMELESS.text| == 0;
    assert Str(V100.text) != Str(NAMELESS.text) && Version(V100.text) == V100;
    EmptyVersionIsUnreachable(NamelessSteps().Keys, V100);
  }

  // ---- a step registered the wrong way round ----

  /** The built-in pair, registered from the newer to the older version. */
  function ReversedStep(): MigrationStep {
    MigrationStep(V110, V100, Downgrade, Upgrade)
  }

  function ReversedSteps(): Steps {
    map[(V110, V100) := ReversedStep(), (V100, V110) := ReversedStep()]
  }

  /** A 1.0.0 document with nothing but its envelope. */
  function BareDocument(): Json {
    Obj(map["envelope" := Obj(map["schema_version" := Str(V100.text)])])
  }

  /** Its functions do set the versions they claim; yet the hop up applies the downgrade, and the
      bare document is at 1.0.0 still. */
  lemma ReversedStepMisses()
    ensures SetsClaimedVersions(ReversedStep()) && !Oriented(ReversedStep())
    ensures HasVersion(BareDocument(), V100)
    ensures ApplyHop(ReversedSteps(), V100, V110, BareDocument()) == Ok(BareDocument())
    ensures !HasVersion(BareDocument(), V110)
  {
    VersionsDiffer();
    KeysDiffer();
    TupleOrder(VersionTuple(V100), VersionTuple(V110), VersionTuple(V100));
    BuiltinIsLawful();
    assert Str(V100.text) != Str(V110.text);
    BareDocumentStays();
  }

  lemma BareDocumentStays()
    ensures HasVersion(BareDocument(), V100) && Downgrade(BareDocument()) == Ok(BareDocument())
  {
    KeysDiffer();
    var d := BareDocument();
    var envelope := d.fields["envelope"].fields;
    assert envelope["schema_version" := Str(V100.text)] == envelope;
    assert d.fields["envelope" := Obj(envelope)] == d.fields;
    assert SetVersion(d, V100) == Ok(d);
    assert GATES !in d.fields;
  }

  /** The registered-right pair does not restore the bare document either: it comes back with empty gates. */
  lemma BareDocumentGrows()
    ensures HasVersion(BareDocument(), V100) && Upgrade(BareDocument()).Ok?
    ensures Downgrade(Upgrade(BareDocument()).value) != Ok(BareDocument())
  {
    KeysDiffer();
    BareDocumentStays();
    var d := BareDocument();
    assert SetVersion(d, V110).Ok? && GATES !in SetVersion(d, V110).value.fields;
    DowngradeUndoesUpgradeIff(d);
  }
}
