/** src/healing/health_monitor.py: a window of recent results and a failure counter, against
    the full history since the last reset. */
module Health {
  import opened Arithmetic

  datatype Status = HEALTHY | DEGRADED | UNHEALTHY | DEAD {
    predicate Bad() { UNHEALTHY? || DEAD? }
  }

  datatype Check = Check(success: bool, latency: real)

  datatype Thresholds = Thresholds(
    degradedFailures: int,
    unhealthyFailures: int,
    deadFailures: int,
    degradedLatency: real,
    unhealthyErrorRate: real,
    window: nat)

  const DEFAULT := Thresholds(3, 5, 8, 5000.0, 0.7, 10)

  function Failures(h: seq<Check>): (n: nat)
    ensures n <= |h|
  {
    if h == [] then 0 else (if h[0].success then 0 else 1) + Failures(h[1..])
  }

  function Latency(h: seq<Check>): real {
    if h == [] then 0.0 else h[0].latency + Latency(h[1..])
  }

  predicate RateReached(failed: nat, n: nat, rate: real) {
    n >= 3 && failed as real / n as real >= rate
  }

  /** `_evaluate` */
  function Evaluate(t: Thresholds, recent: seq<Check>, failures: nat): Status {
    if failures >= t.deadFailures then DEAD
    else if failures >= t.unhealthyFailures then UNHEALTHY
    else if RateReached(Failures(recent), |recent|, t.unhealthyErrorRate) then UNHEALTHY
    else if failures >= t.degradedFailures then DEGRADED
    else if recent != [] && Latency(recent) / |recent| as real >= t.degradedLatency then DEGRADED
    else HEALTHY
  }

  // ---- the history view ----

  function Recent(all: seq<Check>, window: nat): seq<Check> {
    if |all| <= window then all else all[|all| - window..]
  }

  /** Length of the failure run at the end. */
  function Trailing(all: seq<Check>): nat {
    if all == [] || all[|all| - 1].success then 0 else Trailing(all[..|all| - 1]) + 1
  }

  /** The status that the last recorded result yields. */
  function StatusAfter(t: Thresholds, all: seq<Check>): Status {
    Evaluate(t, Recent(all, t.window), Trailing(all))
  }

  /** What is told to a monitor. */
  datatype Event = Recorded(check: Check) | CircuitOpen | WasReset

  /** A monitor as its status and everything recorded since the last reset. */
  datatype View = View(status: Status, since: seq<Check>)

  /** An open circuit overrides a good status; a result recomputes it from the history alone. */
  function Next(t: Thresholds, m: View, e: Event): View {
    match e
    case Recorded(c) => View(StatusAfter(t, m.since + [c]), m.since + [c])
    case CircuitOpen => m.(status := if m.status.Bad() then m.status else UNHEALTHY)
    case WasReset => View(HEALTHY, [])
  }

  function Play(t: Thresholds, m: View, events: seq<Event>): View
    decreases |events|
  {
    if events == [] then m else Play(t, Next(t, m, events[0]), events[1..])
  }

  class AgentHealthMonitor {
    const thresholds: Thresholds
    var history: seq<Check>
    var status: Status
    var consecutiveFailures: nat
    var totalChecks: nat
    var totalFailures: nat
    /** Everything recorded since the last reset. */
    ghost var since: seq<Check>

    ghost predicate Valid()
      reads this
    {
      && history == Recent(since, thresholds.window)
      && consecutiveFailures == Trailing(since)
      && totalFailures <= totalChecks
    }

    ghost function Seen(): View
      reads this
    {
      View(status, since)
    }

    constructor (thresholds: Thresholds)
      ensures Valid() && this.thresholds == thresholds
      ensures since == [] && status == HEALTHY && totalChecks == 0 && totalFailures == 0
    {
      this.thresholds := thresholds;
      history, status, consecutiveFailures, totalChecks, totalFailures, since := [], HEALTHY, 0, 0, 0, [];
    }

    /** `deque.append` with a maximal length. */
    method Append(c: Check)
      modifies `history
      ensures history == Recent(old(history) + [c], thresholds.window)
    {
      history := history + [c];
      if |history| > thresholds.window {
        history := history[|history| - thresholds.window..];
      }
    }

    method RecordSuccess(latency: real) returns (s: Status)
      requires Valid()
      modifies this
      ensures Valid() && since == old(since) + [Check(true, latency)]
      ensures s == status == StatusAfter(thresholds, since)
      ensures Seen() == Next(thresholds, old(Seen()), Recorded(Check(true, latency)))
      ensures totalChecks == old(totalChecks) + 1 && totalFailures == old(totalFailures)
    {
      RecentAppend(since, thresholds.window, Check(true, latency));
      Append(Check(true, latency));
      totalChecks := totalChecks + 1;
      consecutiveFailures := 0;
      since := since + [Check(true, latency)];
      status := EvaluateNow();
      s := status;
    }

    method RecordFailure(latency: real) returns (s: Status)
      requires Valid()
      modifies this
      ensures Valid() && since == old(since) + [Check(false, latency)]
      ensures s == status == StatusAfter(thresholds, since)
      ensures Seen() == Next(thresholds, old(Seen()), Recorded(Check(false, latency)))
      ensures totalChecks == old(totalChecks) + 1 && totalFailures == old(totalFailures) + 1
    {
      RecentAppend(since, thresholds.window, Check(false, latency));
      TrailingAppend(since, Check(false, latency));
      Append(Check(false, latency));
      totalChecks := totalChecks + 1;
      totalFailures := totalFailures + 1;
      consecutiveFailures := consecutiveFailures + 1;
      since := since + [Check(false, latency)];
      status := EvaluateNow();
      s := status;
    }

    /** The one place where the status does not follow the history. */
    method RecordCircuitOpen() returns (s: Status)
      requires Valid()
      modifies `status
      ensures Valid() && s == status
      ensures status == if old(status).Bad() then old(status) else UNHEALTHY
      ensures Seen() == Next(thresholds, old(Seen()), CircuitOpen)
    {
      if status.HEALTHY? || status.DEGRADED? {
        status := UNHEALTHY;
      }
      s := status;
    }

    method Reset()
      requires Valid()
      modifies `status, `consecutiveFailures, `history, `since
      ensures Valid() && since == [] && status == HEALTHY
      ensures Seen() == Next(thresholds, old(Seen()), WasReset)
    {
      status, consecutiveFailures, history, since := HEALTHY, 0, [], [];
    }

    method EvaluateNow() returns (s: Status)
      ensures s == Evaluate(thresholds, history, consecutiveFailures)
    {
      if consecutiveFailures >= thresholds.deadFailures { return DEAD; }
      if consecutiveFailures >= thresholds.unhealthyFailures { return UNHEALTHY; }
      var failed, latency := 0, 0.0;
      for i := |history| downto 0
        invariant failed == Failures(history[i..]) && latency == Latency(history[i..])
      {
        assert history[i..][1..] == history[i + 1..];
        if !history[i].success { failed := failed + 1; }
        latency := history[i].latency + latency;
      }
      assert history[0..] == history;
      if RateReached(failed, |history|, thresholds.unhealthyErrorRate) { return UNHEALTHY; }
      if consecutiveFailures >= thresholds.degradedFailures { return DEGRADED; }
      if history != [] && latency / |history| as real >= thresholds.degradedLatency { return DEGRADED; }
      s := HEALTHY;
    }
  }

  lemma RecentAppend(all: seq<Check>, window: nat, c: Check)
    ensures Recent(all + [c], window) == Recent(Recent(all, window) + [c], window)
  {}

  lemma TrailingAppend(all: seq<Check>, c: Check)
    ensures Trailing(all + [c]) == if c.success then 0 else Trailing(all) + 1
  {
    assert (all + [c])[..|all|] == all;
  }

  // ---- each status, told from the results ----

  /** The last n results all failed. */
  predicate LastFailed(all: seq<Check>, n: int) {
    n <= |all| && forall i :: |all| - n <= i < |all| && 0 <= i ==> !all[i].success
  }

  /** How many results the window holds. */
  function WindowSize(all: seq<Check>, window: nat): nat {
    if |all| <= window then |all| else window
  }

  /** Which of the last n results failed. */
  function FailedAmong(all: seq<Check>, n: nat): set<int>
    requires n <= |all|
  {
    set i | |all| - n <= i < |all| && !all[i].success
  }

  /** Of at least three results in the window the share of failures reaches the rate. */
  predicate FailsOften(t: Thresholds, all: seq<Check>) {
    var n := WindowSize(all, t.window);
    n >= 3 && |FailedAmong(all, n)| as real / n as real >= t.unhealthyErrorRate
  }

  /** The latencies of the last n results. */
  function LastLatencies(all: seq<Check>, n: nat): (s: seq<real>)
    requires n <= |all|
    ensures |s| == n && forall i :: 0 <= i < n ==> s[i] == all[|all| - n + i].latency
  {
    seq(n, i requires 0 <= i < n => all[|all| - n + i].latency)
  }

  /** The results in the window are slow on average. */
  predicate Slow(t: Thresholds, all: seq<Check>) {
    var n := WindowSize(all, t.window);
    n >= 1 && Average(LastLatencies(all, n)) >= t.degradedLatency
  }

  lemma {:induction false} TrailingIsRun(all: seq<Check>, n: int)
    ensures Trailing(all) >= n <==> LastFailed(all, n)
    decreases |all|
  {
    if all != [] && n > 0 {
      var init := all[..|all| - 1];
      TrailingIsRun(init, n - 1);
      if LastFailed(all, n) {
        assert !all[|all| - 1].success;
        forall i | |init| - (n - 1) <= i < |init| && 0 <= i ensures !init[i].success { assert init[i] == all[i]; }
      }
      if LastFailed(init, n - 1) && !all[|all| - 1].success {
        forall i | |all| - n <= i < |all| && 0 <= i ensures !all[i].success {
          assert i < |init| ==> init[i] == all[i];
        }
      }
    }
  }

  lemma {:induction false} FailuresAreFailed(all: seq<Check>, n: nat)
    requires n <= |all|
    ensures Failures(all[|all| - n..]) == |FailedAmong(all, n)|
  {
    var h := all[|all| - n..];
    if n == 0 {
      assert FailedAmong(all, n) == {};
    } else {
      FailuresAreFailed(all, n - 1);
      assert h[1..] == all[|all| - (n - 1)..];
      var first := |all| - n;
      assert FailedAmong(all, n) == (if all[first].success then {} else {first}) + FailedAmong(all, n - 1);
    }
  }

  lemma {:induction false} LatencyIsSum(all: seq<Check>, n: nat)
    requires n <= |all|
    ensures Latency(all[|all| - n..]) == Sum(LastLatencies(all, n))
  {
    if n > 0 {
      LatencyIsSum(all, n - 1);
      assert all[|all| - n..][1..] == all[|all| - (n - 1)..];
      assert LastLatencies(all, n)[1..] == LastLatencies(all, n - 1);
    }
  }

  /** DEAD, UNHEALTHY, DEGRADED and HEALTHY, each exactly for its run of failures, share or latency. */
  lemma StatusIff(t: Thresholds, all: seq<Check>)
    ensures StatusAfter(t, all) == DEAD <==> LastFailed(all, t.deadFailures)
    ensures StatusAfter(t, all) == UNHEALTHY <==>
      !LastFailed(all, t.deadFailures) && (LastFailed(all, t.unhealthyFailures) || FailsOften(t, all))
    ensures StatusAfter(t, all) == DEGRADED <==>
      && !LastFailed(all, t.deadFailures) && !LastFailed(all, t.unhealthyFailures) && !FailsOften(t, all)
      && (LastFailed(all, t.degradedFailures) || Slow(t, all))
    ensures StatusAfter(t, all) == HEALTHY <==>
      && !LastFailed(all, t.deadFailures) && !LastFailed(all, t.unhealthyFailures) && !FailsOften(t, all)
      && !LastFailed(all, t.degradedFailures) && !Slow(t, all)
  {
    hide LastFailed, Trailing, Failures, Latency;
    var n := WindowSize(all, t.window);
    assert Recent(all, t.window) == all[|all| - n..];
    TrailingIsRun(all, t.deadFailures);
    TrailingIsRun(all, t.unhealthyFailures);
    TrailingIsRun(all, t.degradedFailures);
    FailuresAreFailed(all, n);
    LatencyIsSum(all, n);
  }

  /** k quick failures in a row, from the start. */
  function OnlyFailures(k: nat): seq<Check> {
    seq(k, _ => Check(false, 0.0))
  }

  /** On a new default monitor the third makes it UNHEALTHY, by its share already, and the eighth DEAD. */
  lemma FailuresInARow(k: nat)
    ensures StatusAfter(DEFAULT, OnlyFailures(k)) == if k >= 8 then DEAD else if k >= 3 then UNHEALTHY else HEALTHY
  {
    var all := OnlyFailures(k);
    var n := WindowSize(all, DEFAULT.window);
    StatusIff(DEFAULT, all);
    AllFailed(all, n);
    if n > 0 { AllZero(LastLatencies(all, n)); }
  }

  lemma {:induction false} AllFailed(all: seq<Check>, n: nat)
    requires n <= |all| && LastFailed(all, n)
    ensures |FailedAmong(all, n)| == n
  {
    if n == 0 {
      assert FailedAmong(all, n) == {};
    } else {
      AllFailed(all, n - 1);
      assert FailedAmong(all, n) == {|all| - n} + FailedAmong(all, n - 1);
    }
  }

  lemma AllZero(s: seq<real>)
    requires s != [] && forall i :: 0 <= i < |s| ==> s[i] == 0.0
    ensures Average(s) == 0.0
  {
    AverageBetween(s, 0.0, 0.0);
  }

  // ---- failures never improve a bad status ----

  lemma {:induction false} FailuresAppend(h: seq<Check>, c: Check)
    ensures Failures(h + [c]) == Failures(h) + if c.success then 0 else 1
  {
    if h == [] {
      assert h + [c] == [c];
    } else {
      assert (h + [c])[1..] == h[1..] + [c];
      FailuresAppend(h[1..], c);
    }
  }

  lemma CrossMultiply(a: real, b: real, c: real, d: real)
    requires b > 0.0 && d > 0.0 && c * b >= a * d
    ensures c / d >= a / b
  {
    var p, q := a / b, c / d;
    assert p * (b * d) == a * d;
    assert q * (b * d) == c * b;
    Scale(q, p, b * d);
  }

  /** One more failure keeps the rate, and so does one more in the same window. */
  lemma RateGrows(f: nat, n: nat, rate: real)
    requires RateReached(f, n, rate) && f <= n
    ensures RateReached(f + 1, n + 1, rate)
  {
    var x, y := f as real, n as real;
    assert (x + 1.0) * y == x * y + y && x * (y + 1.0) == x * y + x;
    CrossMultiply(x, y, x + 1.0, y + 1.0);
  }

  lemma RateHigher(f: nat, g: nat, n: nat, rate: real)
    requires RateReached(f, n, rate) && f <= g
    ensures RateReached(g, n, rate)
  {
    CrossMultiply(f as real, n as real, g as real, n as real);
  }

  lemma RateAfterFailure(all: seq<Check>, window: nat, c: Check, rate: real)
    requires !c.success && RateReached(Failures(Recent(all, window)), |Recent(all, window)|, rate)
    ensures RateReached(Failures(Recent(all + [c], window)), |Recent(all + [c], window)|, rate)
  {
    var before, after := Recent(all, window), Recent(all + [c], window);
    if |all| < window {
      assert after == before + [c];
      FailuresAppend(before, c);
      RateGrows(Failures(before), |before|, rate);
    } else {
      assert after == before[1..] + [c];
      FailuresAppend(before[1..], c);
      RateHigher(Failures(before), Failures(after), |before|, rate);
    }
  }

  /** A failure cannot lift a bad status, whatever slides out of the window. */
  lemma FailureKeepsBad(t: Thresholds, all: seq<Check>, latency: real)
    requires StatusAfter(t, all).Bad()
    ensures StatusAfter(t, all + [Check(false, latency)]).Bad()
  {
    var c := Check(false, latency);
    TrailingAppend(all, c);
    if Trailing(all) < t.unhealthyFailures && Trailing(all) < t.deadFailures {
      RateAfterFailure(all, t.window, c, t.unhealthyErrorRate);
    }
  }

  lemma {:induction false} FailuresKeepBad(t: Thresholds, all: seq<Check>, more: seq<Check>)
    requires StatusAfter(t, all).Bad() && forall c :: c in more ==> !c.success
    ensures StatusAfter(t, all + more).Bad()
    decreases |more|
  {
    hide StatusAfter;
    if more == [] {
      assert all + more == all;
    } else {
      assert more[0] in more && more[0] == Check(false, more[0].latency);
      FailureKeepsBad(t, all, more[0].latency);
      assert (all + [more[0]]) + more[1..] == all + more;
      FailuresKeepBad(t, all + [more[0]], more[1..]);
    }
  }

  // ---- a window full of quick successes heals, if anything can ----

  lemma {:induction false} AllGood(h: seq<Check>, limit: real)
    requires forall c :: c in h ==> c.success && c.latency < limit
    ensures Failures(h) == 0
    ensures h != [] ==> Latency(h) < Times(limit, |h|)
  {
    if h != [] {
      assert h[0] in h && forall c :: c in h[1..] ==> c in h;
      AllGood(h[1..], limit);
    }
  }

  /** No threshold is already reached without any failure at all. */
  predicate CanBeHealthy(t: Thresholds) {
    t.deadFailures > 0 && t.unhealthyFailures > 0 && t.degradedFailures > 0
      && (t.window < 3 || t.unhealthyErrorRate > 0.0)
  }

  /** As many quick successes as the window holds make the monitor healthy from any state,
      exactly when the thresholds let it be healthy at all. */
  lemma SuccessesHeal(t: Thresholds, all: seq<Check>, more: seq<Check>)
    requires |more| == t.window > 0 && forall c :: c in more ==> c.success && c.latency < t.degradedLatency
    ensures StatusAfter(t, all + more).HEALTHY? <==> CanBeHealthy(t)
  {
    assert Recent(all + more, t.window) == more;
    assert (all + more)[|all + more| - 1] == more[|more| - 1] && more[|more| - 1] in more;
    AllGood(more, t.degradedLatency);
    DivideBelow(Latency(more), |more|, t.degradedLatency);
  }

  // ---- the override by an open circuit is not part of the history ----

  function WithoutOpenings(events: seq<Event>): seq<Event> {
    if events == [] then []
    else (if events[0].CircuitOpen? then [] else [events[0]]) + WithoutOpenings(events[1..])
  }

  lemma {:induction false} OpeningsKeepHistory(t: Thresholds, m: View, n: View, events: seq<Event>)
    requires m.since == n.since
    ensures Play(t, m, events).since == Play(t, n, WithoutOpenings(events)).since
    decreases |events|
  {
    if events != [] {
      var rest := WithoutOpenings(events[1..]);
      if events[0].CircuitOpen? {
        assert WithoutOpenings(events) == rest;
        OpeningsKeepHistory(t, Next(t, m, CircuitOpen), n, events[1..]);
      } else {
        assert WithoutOpenings(events)[0] == events[0] && WithoutOpenings(events)[1..] == rest;
        OpeningsKeepHistory(t, Next(t, m, events[0]), Next(t, n, events[0]), events[1..]);
      }
    }
  }

  /** Over any run, the next result or reset leaves a monitor as if no circuit had ever opened. */
  lemma OpeningsLeaveNoTrace(t: Thresholds, m: View, events: seq<Event>, e: Event)
    requires !e.CircuitOpen?
    ensures Next(t, Play(t, m, events), e) == Next(t, Play(t, m, WithoutOpenings(events)), e)
  {
    OpeningsKeepHistory(t, m, m, events);
  }

  /** The results told since the last reset. */
  function ResultsSinceReset(events: seq<Event>): seq<Check> {
    if events == [] then []
    else match events[|events| - 1]
         case Recorded(c) => ResultsSinceReset(events[..|events| - 1]) + [c]
         case CircuitOpen => ResultsSinceReset(events[..|events| - 1])
         case WasReset => []
  }

  /** A circuit has opened since the last result or reset. */
  predicate OpenedLast(events: seq<Event>) {
    events != [] && events[|events| - 1].CircuitOpen?
  }

  lemma {:induction false} PlayAppend(t: Thresholds, m: View, events: seq<Event>, e: Event)
    ensures Play(t, m, events + [e]) == Next(t, Play(t, m, events), e)
    decreases |events|
  {
    if events == [] {
      assert [] + [e] == [e] && [e][1..] == [];
    } else {
      assert (events + [e])[0] == events[0] && (events + [e])[1..] == events[1..] + [e];
      PlayAppend(t, Next(t, m, events[0]), events[1..], e);
    }
  }

  /** Over any run of a new monitor: the status is that of the results since the last reset, HEALTHY
      without any, except that an opening since then makes a good one UNHEALTHY. */
  lemma {:induction false} MonitorIsTold(t: Thresholds, events: seq<Event>)
    ensures var results := ResultsSinceReset(events);
      var status := if results == [] then HEALTHY else StatusAfter(t, results);
      Play(t, View(HEALTHY, []), events)
        == View(if OpenedLast(events) && status in {HEALTHY, DEGRADED} then UNHEALTHY else status, results)
    decreases |events|
  {
    hide StatusAfter;
    if events != [] {
      var init, e := events[..|events| - 1], events[|events| - 1];
      assert events == init + [e];
      MonitorIsTold(t, init);
      PlayAppend(t, View(HEALTHY, []), init, e);
    }
  }

  predicate FailureRateReached(t: Thresholds, all: seq<Check>) {
    RateReached(Failures(Recent(all, t.window)), |Recent(all, t.window)|, t.unhealthyErrorRate)
  }

  /** So a failure right after the circuit opened keeps the status bad exactly if the failures in a
      row, itself included, reach a threshold or the window's failure rate does. */
  lemma OverrideSurvivesIff(t: Thresholds, m: View, latency: real)
    ensures Next(t, m, CircuitOpen).status.Bad()
    ensures Next(t, Next(t, m, CircuitOpen), Recorded(Check(false, latency))).status.Bad() <==>
      || Trailing(m.since) + 1 >= t.deadFailures || Trailing(m.since) + 1 >= t.unhealthyFailures
      || FailureRateReached(t, m.since + [Check(false, latency)])
  {
    TrailingAppend(m.since, Check(false, latency));
  }

  /** On a fresh default monitor it is HEALTHY again after an open circuit and then a failure. */
  lemma CircuitOpenIsForgotten()
    ensures Play(DEFAULT, View(HEALTHY, []), [CircuitOpen]).status == UNHEALTHY
    ensures Play(DEFAULT, View(HEALTHY, []), [CircuitOpen, Recorded(Check(false, 0.0))]).status == HEALTHY
  {
    var events := [CircuitOpen, Recorded(Check(false, 0.0))];
    var open := Next(DEFAULT, View(HEALTHY, []), CircuitOpen);
    assert [CircuitOpen][1..] == [] && events[1..] == [Recorded(Check(false, 0.0))] && events[1..][1..] == [];
    assert [] + [Check(false, 0.0)] == [Check(false, 0.0)];
    OneFailureIsHealthy();
    assert Play(DEFAULT, open, events[1..]) == Next(DEFAULT, open, events[1]);
  }

  lemma OneFailureIsHealthy()
    ensures StatusAfter(DEFAULT, [Check(false, 0.0)]) == HEALTHY
  {
    assert [Check(false, 0.0)][..0] == [] && Trailing([Check(false, 0.0)]) == 1;
    assert Latency([Check(false, 0.0)]) == 0.0;
  }
}
