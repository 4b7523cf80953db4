/** The version graph behind src/migration/schema_migrator.py: version numbers, and routes over
    the registered steps. */
module VersionGraph {
  import opened Sorting
  import opened Texts
  import opened Wrappers

  datatype Version = Version(text: string)

  type Edges = set<(Version, Version)>

  // ---- version numbers ----

  function SplitDots(s: string): (parts: seq<string>)
    ensures |parts| >= 1
  {
    if s == "" then [""]
    else
      var rest := SplitDots(s[1..]);
      if s[0] == '.' then [""] + rest else [[s[0]] + rest[0]] + rest[1..]
  }

  predicate IsSpace(c: char) {
    c == ' ' || '\t' <= c <= '\r' || '\U{1c}' <= c <= '\U{1f}'
  }

  function StripLeft(s: string): string {
    if s != "" && IsSpace(s[0]) then StripLeft(s[1..]) else s
  }

  function StripRight(s: string): string {
    if s != "" && IsSpace(s[|s| - 1]) then StripRight(s[..|s| - 1]) else s
  }

  /** Digits with single underscores between them. */
  function ParseDigits(s: string, value: nat, afterDigit: bool): Option<nat> {
    if s == "" then if afterDigit then Some(value) else None
    else if '0' <= s[0] <= '9' then ParseDigits(s[1..], value * 10 + (s[0] as int - '0' as int), true)
    else if s[0] == '_' && afterDigit then ParseDigits(s[1..], value, false)
    else None
  }

  /** Python's `int(text)` on ASCII text. */
  function ParseInt(text: string): Option<int> {
    var s := StripRight(StripLeft(text));
    var body := if s != "" && (s[0] == '-' || s[0] == '+') then s[1..] else s;
    match ParseDigits(body, 0, false)
    case None => None
    case Some(n) => var k: int := n; if s[0] == '-' then Some(-k) else Some(k)
  }

  function ParseAll(parts: seq<string>): Option<seq<int>> {
    if parts == [] then Some([])
    else match (ParseInt(parts[0]), ParseAll(parts[1..]))
         case (Some(n), Some(rest)) => Some([n] + rest)
         case _ => None
  }

  /** `_version_tuple`: (0,) for whatever is not a dotted number. */
  function VersionTuple(v: Version): seq<int> {
    match ParseAll(SplitDots(v.text))
    case Some(t) => t
    case None => [0]
  }

  /** Python's order on tuples. */
  predicate TupleLess(a: seq<int>, b: seq<int>) {
    b != [] && (a == [] || a[0] < b[0] || (a[0] == b[0] && TupleLess(a[1..], b[1..])))
  }

  predicate Older(u: Version, v: Version) {
    TupleLess(VersionTuple(u), VersionTuple(v))
  }

  function ByAge(): (Version, Version) -> bool {
    (u, v) => Older(u, v)
  }

  lemma {:induction false} TupleOrder(a: seq<int>, b: seq<int>, c: seq<int>)
    ensures !TupleLess(a, a)
    ensures TupleLess(a, b) && TupleLess(b, c) ==> TupleLess(a, c)
    ensures !TupleLess(a, b) && !TupleLess(b, c) ==> !TupleLess(a, c)
    decreases |a| + |b| + |c|
  {
    if a != [] { TupleOrder(a[1..], if b == [] then [] else b[1..], if c == [] then [] else c[1..]); }
  }

  lemma AgeIsOrder()
    ensures StrictWeakOrder(ByAge())
  {
    forall u, v, w: Version
      ensures !Older(u, u)
      ensures Older(u, v) && Older(v, w) ==> Older(u, w)
      ensures !Older(u, v) && !Older(v, w) ==> !Older(u, w)
    {
      TupleOrder(VersionTuple(u), VersionTuple(v), VersionTuple(w));
    }
  }

  // ---- dotted numbers ----

  /** The usual form of a version: numbers, with dots between them. */
  function Dotted(ns: seq<nat>): string
    requires ns != []
  {
    if |ns| == 1 then Decimal(ns[0]) else Decimal(ns[0]) + "." + Dotted(ns[1..])
  }

  predicate Digits(s: string) {
    s != "" && forall i :: 0 <= i < |s| ==> IsDigit(s[i])
  }

  lemma {:induction false} ParseMore(s: string, c: char, value: nat, afterDigit: bool)
    requires IsDigit(c) && ParseDigits(s, value, afterDigit).Some?
    ensures ParseDigits(s + [c], value, afterDigit)
      == Some(ParseDigits(s, value, afterDigit).value * 10 + (c as int - '0' as int))
  {
    if s == "" {
      assert s + [c] == [c] && [c][1..] == "";
    } else {
      assert (s + [c])[0] == s[0] && (s + [c])[1..] == s[1..] + [c];
      if IsDigit(s[0]) {
        ParseMore(s[1..], c, value * 10 + (s[0] as int - '0' as int), true);
      } else {
        ParseMore(s[1..], c, value, false);
      }
    }
  }

  lemma {:induction false} DigitsParse(s: string)
    requires Digits(s)
    ensures Numeral(s) >= 0 && ParseDigits(s, 0, false) == Some(Numeral(s))
  {
    var init, c := s[..|s| - 1], s[|s| - 1];
    assert s == init + [c];
    if init == "" {
      assert s == [c] && [c][1..] == "" && Numeral(init) == 0;
      assert ParseDigits([c], 0, false) == ParseDigits("", c as int - '0' as int, true);
    } else {
      DigitsParse(init);
      ParseMore(init, c, 0, false);
    }
  }

  lemma NoStrip(s: string)
    requires s != "" && !IsSpace(s[0]) && !IsSpace(s[|s| - 1])
    ensures StripRight(StripLeft(s)) == s
  {}

  /** `int` reads the digits of a number as that number. */
  lemma DecimalParses(n: nat)
    ensures ParseInt(Decimal(n)) == Some(n)
  {
    var s := Decimal(n);
    DecimalIsNumeral(n);
    DigitsParse(s);
    hide Decimal, ParseDigits, Numeral, StripLeft, StripRight;
    assert IsDigit(s[0]) && IsDigit(s[|s| - 1]);
    NoStrip(s);
  }

  /** Signs count. */
  lemma SignedNumerals(a: string)
    requires Digits(a)
    ensures ParseInt("-" + a) == Some(-Numeral(a)) && ParseInt("+" + a) == Some(Numeral(a))
  {
    DigitsParse(a);
    hide Numeral, ParseDigits, StripLeft, StripRight;
    assert ("-" + a)[1..] == a && ("+" + a)[1..] == a;
    NoStrip("-" + a);
    NoStrip("+" + a);
  }

  /** Single underscores between digits do not count, and at an end they make no number. */
  lemma UnderscoredNumerals(a: string, b: string)
    requires Digits(a) && Digits(b)
    ensures ParseInt(a + "_" + b) == Some(Numeral(a + b))
    ensures ParseInt(a + "_").None? && ParseInt("_" + a).None?
  {
    DigitsParse(a + b);
    SkipUnderscore(a, b, 0, false);
    assert ParseDigits("_" + a, 0, false) == None;
    hide Numeral, ParseDigits, StripLeft, StripRight;
    NoStrip(a + "_" + b);
    NoStrip(a + "_");
    NoStrip("_" + a);
  }

  lemma {:induction false} SkipUnderscore(a: string, b: string, value: nat, afterDigit: bool)
    requires (forall i :: 0 <= i < |a| ==> IsDigit(a[i])) && Digits(b) && (a != "" || afterDigit)
    ensures ParseDigits(a + "_" + b, value, afterDigit) == ParseDigits(a + b, value, afterDigit)
    ensures ParseDigits(a + "_", value, afterDigit).None?
  {
    if a == "" {
      assert a + "_" + b == "_" + b && ("_" + b)[1..] == b && a + b == b && a + "_" == "_" && "_"[1..] == "";
    } else {
      assert (a + "_" + b)[1..] == a[1..] + "_" + b && (a + b)[1..] == a[1..] + b && (a + "_")[1..] == a[1..] + "_";
      SkipUnderscore(a[1..], b, value * 10 + (a[0] as int - '0' as int), true);
    }
  }

  lemma {:induction false} SplitAfter(part: string, rest: string)
    requires '.' !in part
    ensures SplitDots(part + "." + rest) == [part] + SplitDots(rest)
    ensures SplitDots(part) == [part]
  {
    var text := part + "." + rest;
    if part == "" {
      assert text == "." + rest && text[1..] == rest;
    } else {
      assert part[0] in part;
      SplitAfter(part[1..], rest);
      assert part == [part[0]] + part[1..];
      assert text[0] == part[0] && text[1..] == part[1..] + "." + rest;
    }
  }

  lemma ParseCons(part: string, rest: seq<string>, n: int, values: seq<int>)
    requires ParseInt(part) == Some(n) && ParseAll(rest) == Some(values)
    ensures ParseAll([part] + rest) == Some([n] + values)
  {
    hide ParseInt;
    assert ([part] + rest)[1..] == rest;
  }

  lemma {:induction false} DottedParts(ns: seq<nat>)
    requires ns != []
    ensures ParseAll(SplitDots(Dotted(ns))) == Some(ns)
  {
    DecimalIsNumeral(ns[0]);
    DecimalParses(ns[0]);
    assert '.' !in Decimal(ns[0]);
    hide Decimal, ParseInt, Numeral, SplitDots;
    if |ns| == 1 {
      SplitAfter(Decimal(ns[0]), "");
      ParseCons(Decimal(ns[0]), [], ns[0], []);
      assert [Decimal(ns[0])] + [] == [Decimal(ns[0])] && [ns[0] as int] + [] == ns;
    } else {
      DottedParts(ns[1..]);
      hide ParseAll;
      SplitAfter(Decimal(ns[0]), Dotted(ns[1..]));
      ParseCons(Decimal(ns[0]), SplitDots(Dotted(ns[1..])), ns[0], ns[1..]);
      assert [ns[0]] + ns[1..] == ns;
    }
  }

  /** A dotted version is read as its numbers. */
  lemma DottedTuple(ns: seq<nat>)
    requires ns != []
    ensures VersionTuple(Version(Dotted(ns))) == ns
  {
    DottedParts(ns);
    hide Dotted, SplitDots, ParseAll;
  }

  /** The two agree up to some place, at which a is at its end or has the smaller number. */
  predicate SmallerAt(a: seq<int>, b: seq<int>, k: nat) {
    k <= |a| && k < |b| && a[..k] == b[..k] && (k == |a| || a[k] < b[k])
  }

  lemma {:induction false} TupleLessIff(a: seq<int>, b: seq<int>)
    ensures TupleLess(a, b) <==> exists k: nat :: SmallerAt(a, b, k)
  {
    if a != [] && b != [] {
      TupleLessIff(a[1..], b[1..]);
      if a[0] == b[0] {
        forall k: nat ensures SmallerAt(a, b, k + 1) <==> SmallerAt(a[1..], b[1..], k) {
          if k + 1 <= |a| && k + 1 < |b| {
            assert a[..k + 1] == [a[0]] + a[1..][..k] && b[..k + 1] == [b[0]] + b[1..][..k];
          }
        }
        if k: nat :| SmallerAt(a, b, k) {
          assert k > 0;
          assert SmallerAt(a[1..], b[1..], k - 1);
        }
        if k: nat :| SmallerAt(a[1..], b[1..], k) {
          assert SmallerAt(a, b, k + 1);
        }
      } else {
        assert a[0] < b[0] ==> SmallerAt(a, b, 0);
        forall k: nat ensures SmallerAt(a, b, k) ==> a[0] < b[0] {
          if k > 0 && k <= |a| && k < |b| { assert a[..k][0] == a[0] && b[..k][0] == b[0]; }
        }
      }
    } else {
      assert b != [] ==> SmallerAt(a, b, 0);
    }
  }

  /** So versions compare number by number, not character by character. */
  lemma OlderIff(ms: seq<nat>, ns: seq<nat>)
    requires ms != [] && ns != []
    ensures Older(Version(Dotted(ms)), Version(Dotted(ns))) <==> exists k: nat :: SmallerAt(ms, ns, k)
  {
    DottedTuple(ms);
    DottedTuple(ns);
    TupleLessIff(ms, ns);
  }

  // ---- versions that are no dotted numbers ----

  predicate IsLetter(c: char) { 'a' <= c <= 'z' || 'A' <= c <= 'Z' }

  lemma {:induction false} LetterStays(s: string, c: char)
    requires c in s && IsLetter(c)
    ensures c in StripLeft(s) && c in StripRight(s)
  {
    if IsSpace(s[0]) {
      assert s == [s[0]] + s[1..];
      LetterStays(s[1..], c);
    }
    if IsSpace(s[|s| - 1]) {
      assert s == s[..|s| - 1] + [s[|s| - 1]];
      LetterStays(s[..|s| - 1], c);
    }
  }

  lemma {:induction false} LetterNoDigits(s: string, c: char, value: nat, afterDigit: bool)
    requires c in s && IsLetter(c)
    ensures ParseDigits(s, value, afterDigit).None?
  {
    if s[0] != c {
      assert s == [s[0]] + s[1..];
      LetterNoDigits(s[1..], c, value * 10 + (if s[0] >= '0' then s[0] as int - '0' as int else 0), true);
      LetterNoDigits(s[1..], c, value, false);
    }
  }

  lemma LetterNoInt(text: string, c: char)
    requires c in text && IsLetter(c)
    ensures ParseInt(text).None?
  {
    LetterStays(text, c);
    LetterStays(StripLeft(text), c);
    var s := StripRight(StripLeft(text));
    assert s == [s[0]] + s[1..];
    LetterNoDigits(if s[0] == '-' || s[0] == '+' then s[1..] else s, c, 0, false);
  }

  lemma {:induction false} LetterInPart(text: string, c: char) returns (i: nat)
    requires c in text && c != '.'
    ensures i < |SplitDots(text)| && c in SplitDots(text)[i]
  {
    var rest := SplitDots(text[1..]);
    if text[0] == c {
      i := 0;
    } else {
      assert text == [text[0]] + text[1..];
      i := LetterInPart(text[1..], c);
      if text[0] == '.' {
        assert SplitDots(text)[i + 1] == rest[i];
        i := i + 1;
      } else {
        assert i > 0 ==> SplitDots(text)[i] == rest[i];
      }
    }
  }

  lemma {:induction false} NoPartNoTuple(parts: seq<string>, i: nat)
    requires i < |parts| && ParseInt(parts[i]).None?
    ensures ParseAll(parts).None?
  {
    if i > 0 {
      NoPartNoTuple(parts[1..], i - 1);
    }
  }

  lemma LetterTuple(v: Version, c: char)
    requires c in v.text && IsLetter(c)
    ensures VersionTuple(v) == [0]
  {
    var i := LetterInPart(v.text, c);
    LetterNoInt(SplitDots(v.text)[i], c);
    NoPartNoTuple(SplitDots(v.text), i);
  }

  lemma ZeroIsOldest(ns: seq<nat>)
    requires ns != []
    ensures (ns[0] > 0 ==> TupleLess([0], ns)) && !TupleLess(ns, [0])
  {
    assert [0][1..] == [];
  }

  /** A version with a letter in it counts as 0: older than every dotted number that starts above 0, and
      newer than none. */
  lemma LettersAreOldest(v: Version, c: char, ns: seq<nat>)
    requires c in v.text && IsLetter(c) && ns != []
    ensures ns[0] > 0 ==> Older(v, Version(Dotted(ns)))
    ensures !Older(Version(Dotted(ns)), v)
  {
    LetterTuple(v, c);
    DottedTuple(ns);
    ZeroIsOldest(ns);
    hide VersionTuple, TupleLess;
  }

  // ---- routes ----

  ghost predicate Symmetric(edges: Edges) {
    forall u, v :: (u, v) in edges ==> (v, u) in edges
  }

  /** One hop of the search: it never enters the version called "". */
  predicate Hop(edges: Edges, u: Version, v: Version) {
    (u, v) in edges && v.text != ""
  }

  ghost predicate IsRoute(edges: Edges, p: seq<Version>, source: Version, target: Version) {
    && |p| >= 1 && p[0] == source && p[|p| - 1] == target
    && forall i :: 0 <= i < |p| - 1 ==> Hop(edges, p[i], p[i + 1])
  }

  lemma RouteTail(edges: Edges, p: seq<Version>, source: Version, target: Version)
    requires IsRoute(edges, p, source, target) && |p| >= 2
    ensures Hop(edges, p[0], p[1]) && IsRoute(edges, p[1..], p[1], target)
  {
    assert Hop(edges, p[0], p[0 + 1]);
    forall i | 0 <= i < |p[1..]| - 1 ensures Hop(edges, p[1..][i], p[1..][i + 1]) {
      assert Hop(edges, p[i + 1], p[i + 1 + 1]);
    }
  }

  /** A route without repetition that no other route beats. */
  ghost predicate IsShortest(edges: Edges, p: seq<Version>, source: Version, target: Version) {
    && IsRoute(edges, p, source, target) && NoDuplicates(p)
    && forall q :: IsRoute(edges, q, source, target) ==> |p| <= |q|
  }

  ghost predicate Connected(edges: Edges, source: Version, target: Version) {
    exists p :: IsRoute(edges, p, source, target)
  }

  /** A path over the registered steps, the version called "" included. */
  ghost predicate IsStepPath(edges: Edges, p: seq<Version>, source: Version, target: Version) {
    && |p| >= 1 && p[0] == source && p[|p| - 1] == target
    && forall i :: 0 <= i < |p| - 1 ==> (p[i], p[i + 1]) in edges
  }

  lemma RouteCons(edges: Edges, p: seq<Version>, source: Version, target: Version, u: Version)
    requires IsRoute(edges, p, source, target) && Hop(edges, u, source)
    ensures IsRoute(edges, [u] + p, u, target)
  {
    var q := [u] + p;
    forall i | 0 <= i < |q| - 1 ensures Hop(edges, q[i], q[i + 1]) {
      if i > 0 { assert Hop(edges, p[i - 1], p[i - 1 + 1]); }
    }
  }

  ghost predicate StepsJoin(edges: Edges, source: Version, target: Version) {
    exists p :: IsStepPath(edges, p, source, target)
  }

  /** Only a step from a version to itself leads to the one called "". */
  ghost predicate NothingLeadsToEmpty(edges: Edges) {
    forall u :: (u, Version("")) in edges ==> u.text == ""
  }

  lemma {:induction false} StepPathConnects(edges: Edges, p: seq<Version>, source: Version, target: Version)
    requires NothingLeadsToEmpty(edges) && IsStepPath(edges, p, source, target)
    ensures Connected(edges, source, target)
    decreases |p|
  {
    if |p| == 1 {
      assert IsRoute(edges, [source], source, target);
    } else {
      assert (p[0], p[0 + 1]) in edges;
      assert IsStepPath(edges, p[1..], p[1], target) by {
        forall i | 0 <= i < |p[1..]| - 1 ensures (p[1..][i], p[1..][i + 1]) in edges {
          assert (p[i + 1], p[i + 1 + 1]) in edges;
        }
      }
      StepPathConnects(edges, p[1..], p[1], target);
      if p[1].text == "" {
        assert p[1] == Version("") && p[0] == Version("");
      } else {
        var q :| IsRoute(edges, q, p[1], target);
        RouteCons(edges, q, p[1], target, source);
      }
    }
  }

  /** What the search reaches is always joined by steps. */
  lemma ConnectedIsJoined(edges: Edges, source: Version, target: Version)
    requires Connected(edges, source, target)
    ensures StepsJoin(edges, source, target)
  {
    var p :| IsRoute(edges, p, source, target);
    forall i | 0 <= i < |p| - 1 ensures (p[i], p[i + 1]) in edges { assert Hop(edges, p[i], p[i + 1]); }
    assert IsStepPath(edges, p, source, target);
  }

  /** The search reaches whatever the steps join, from every version, exactly if no other version has a
      step to the one called "". */
  lemma SearchIsCompleteIff(edges: Edges)
    ensures (forall s, t :: StepsJoin(edges, s, t) ==> Connected(edges, s, t)) <==> NothingLeadsToEmpty(edges)
  {
    if NothingLeadsToEmpty(edges) {
      forall s, t | StepsJoin(edges, s, t) ensures Connected(edges, s, t) {
        var p :| IsStepPath(edges, p, s, t);
        StepPathConnects(edges, p, s, t);
      }
    } else {
      var u :| (u, Version("")) in edges && u.text != "";
      assert IsStepPath(edges, [u, Version("")], u, Version(""));
      assert StepsJoin(edges, u, Version(""));
      EmptyVersionIsUnreachable(edges, u);
    }
  }

  /** In particular, as long as no version is called "". */
  lemma NamedVersionsConnect(edges: Edges, source: Version, target: Version)
    requires forall u, v :: (u, v) in edges ==> v.text != ""
    ensures Connected(edges, source, target) <==> StepsJoin(edges, source, target)
  {
    SearchIsCompleteIff(edges);
    if Connected(edges, source, target) {
      ConnectedIsJoined(edges, source, target);
    }
  }

  /** The version called "" is never reached, whatever is registered. */
  lemma EmptyVersionIsUnreachable(edges: Edges, source: Version)
    requires source.text != ""
    ensures !Connected(edges, source, Version(""))
  {
    forall p ensures !IsRoute(edges, p, source, Version("")) {
      if |p| >= 2 && p[|p| - 1] == Version("") {
        var last := |p| - 2;
        assert !Hop(edges, p[last], p[last + 1]);
      }
    }
  }
}
