/** When a tripped breaker can close again without a manual reset. */
module BreakerRecovery {
  import opened Breakers
  import opened BreakerSystem

  ghost predicate NoReset(events: seq<Event>) {
    forall i :: 0 <= i < |events| ==> !events[i].ManualReset?
  }

  /** Some run without a manual reset closes the breaker. */
  ghost predicate CanClose(cfg: Config, s: System) {
    exists events, end :: NoReset(events) && IsRun(cfg, s, events, end) && end.b.state.CLOSED?
  }

  function Max(a: int, b: int): int {
    if a >= b then a else b
  }

  /** Successes that an episode needs, and probes that it may start. */
  function Needed(cfg: Config): int { Max(1, cfg.successThreshold) }
  function Allowed(cfg: Config): int { Max(0, cfg.halfOpenMaxCalls) }

  /** An open breaker fails a call fast exactly until its timeout has run out, and tells when that will be:
      left alone, it fails fast until exactly then, and lets the first later call in if it allows probes. */
  lemma FastFailTellsWhen(cfg: Config, b: Breaker, now: real, later: real)
    requires b.state.OPEN?
    ensures var (after, a) := Admit(cfg, b, now);
      && (a.FastFail? <==> now < OpenedAt(b) + cfg.timeout)
      && (a.FastFail? ==> after == b && a.resetIn > 0.0)
      && (a.FastFail? ==> (Admit(cfg, after, later).1.FastFail? <==> later < now + a.resetIn))
      && (a.FastFail? ==>
            (Admit(cfg, after, later).1.Admitted? <==> later >= now + a.resetIn && cfg.halfOpenMaxCalls >= 1))
  {}

  // ---- overlapping calls ----

  lemma CanCloseVia(cfg: Config, s: System, e: Event)
    requires Enabled(s, e) && !e.ManualReset? && CanClose(cfg, Next(cfg, s, e))
    ensures CanClose(cfg, s)
  {
    var events, end :| NoReset(events) && IsRun(cfg, Next(cfg, s, e), events, end) && end.b.state.CLOSED?;
    var all := [e] + events;
    assert all[1..] == events;
    assert NoReset(all) && IsRun(cfg, s, all, end);
  }

  lemma ClosedCanClose(cfg: Config, s: System)
    requires s.b.state.CLOSED?
    ensures CanClose(cfg, s)
  {
    assert NoReset([]) && IsRun(cfg, s, [], s);
  }

  /** Enough calls in flight close a half-open breaker by all succeeding, whenever they started. */
  lemma {:induction false} SuccessesClose(cfg: Config, s: System)
    requires s.b.state.HALF_OPEN? && s.inFlight >= 1 && s.b.successes + s.inFlight >= cfg.successThreshold
    ensures CanClose(cfg, s)
    decreases s.inFlight
  {
    var next := Next(cfg, s, Succeed);
    if next.b.state.CLOSED? { ClosedCanClose(cfg, next); } else { SuccessesClose(cfg, next); }
    CanCloseVia(cfg, s, Succeed);
  }

  function WaitOut(cfg: Config, s: System): Event {
    var left := OpenedAt(s.b) + cfg.timeout - s.now;
    Advance(if left > 0.0 then left else 0.0)
  }

  /** After the timeout a call turns the breaker half-open, and starts if a probe is allowed. */
  lemma ProbeAfterTimeout(cfg: Config, s: System) returns (half: System)
    requires s.b.state.OPEN?
    ensures Enabled(s, WaitOut(cfg, s)) && half == Next(cfg, Next(cfg, s, WaitOut(cfg, s)), Enter)
    ensures half.b.state.HALF_OPEN? && half.b.successes == 0
    ensures half.inFlight == s.inFlight + half.b.probes && half.b.probes == if cfg.halfOpenMaxCalls >= 1 then 1 else 0
  {
    half := Next(cfg, Next(cfg, s, WaitOut(cfg, s)), Enter);
  }

  lemma CanCloseAfterTimeout(cfg: Config, s: System, half: System)
    requires s.b.state.OPEN? && half == Next(cfg, Next(cfg, s, WaitOut(cfg, s)), Enter) && CanClose(cfg, half)
    ensures CanClose(cfg, s)
  {
    CanCloseVia(cfg, Next(cfg, s, WaitOut(cfg, s)), Enter);
    CanCloseVia(cfg, s, WaitOut(cfg, s));
  }

  /** Two probes at once, one of which fails, leave one more call in flight than before; so
      enough calls pile up in the end. */
  lemma {:induction false} PileUp(cfg: Config, s: System)
    requires cfg.halfOpenMaxCalls >= 2 && s.b.state.OPEN?
    ensures CanClose(cfg, s)
    decreases Max(0, Needed(cfg) - s.inFlight)
  {
    var half := ProbeAfterTimeout(cfg, s);
    if half.inFlight >= Needed(cfg) {
      SuccessesClose(cfg, half);
    } else {
      var two := Next(cfg, half, Enter);
      var open := Next(cfg, two, Fail);
      PileUp(cfg, open);
      CanCloseVia(cfg, two, Fail);
      CanCloseVia(cfg, half, Enter);
    }
    CanCloseAfterTimeout(cfg, s, half);
  }

  /** With at most one probe, what an open breaker has in flight plus one probe is all it gets. */
  ghost predicate Budget(cfg: Config, s: System, k: nat) {
    && cfg.halfOpenMaxCalls <= 1 && Allowed(cfg) + k < Needed(cfg)
    && !s.b.state.CLOSED?
    && (s.b.state.OPEN? ==> s.inFlight <= k)
    && (s.b.state.HALF_OPEN? ==> s.b.probes <= Allowed(cfg) && s.b.successes + s.inFlight - s.b.probes <= k)
  }

  lemma BudgetKept(cfg: Config, s: System, k: nat, e: Event)
    requires Budget(cfg, s, k) && Enabled(s, e) && !e.ManualReset?
    ensures Budget(cfg, Next(cfg, s, e), k)
  {}

  lemma {:induction false} BudgetBars(cfg: Config, s: System, k: nat, events: seq<Event>, end: System)
    requires Budget(cfg, s, k) && NoReset(events) && IsRun(cfg, s, events, end)
    ensures !end.b.state.CLOSED?
    decreases |events|
  {
    if events != [] {
      BudgetKept(cfg, s, k, events[0]);
      assert NoReset(events[1..]) by {
        assert forall i :: 0 <= i < |events[1..]| ==> events[1..][i] == events[i + 1];
      }
      BudgetBars(cfg, Next(cfg, s, events[0]), k, events[1..], end);
    }
  }

  /** An open breaker with k calls in flight can close again exactly when it allows two probes
      at a time, or k plus its allowance covers the successes it needs. */
  lemma ClosableIff(cfg: Config, s: System)
    requires s.b.state.OPEN?
    ensures CanClose(cfg, s) <==> cfg.halfOpenMaxCalls >= 2 || Needed(cfg) <= Allowed(cfg) + s.inFlight
  {
    if cfg.halfOpenMaxCalls >= 2 {
      PileUp(cfg, s);
    } else if Needed(cfg) <= Allowed(cfg) + s.inFlight {
      var half := ProbeAfterTimeout(cfg, s);
      SuccessesClose(cfg, half);
      CanCloseAfterTimeout(cfg, s, half);
    } else if CanClose(cfg, s) {
      var events, end :| NoReset(events) && IsRun(cfg, s, events, end) && end.b.state.CLOSED?;
      BudgetBars(cfg, s, s.inFlight, events, end);
    }
  }

  // ---- one call at a time ----

  ghost predicate IsSequentialRun(cfg: Config, s: System, events: seq<Event>, end: System)
    decreases |events|
  {
    if events == [] then s == end
    else
      && Enabled(s, events[0]) && !events[0].ManualReset? && (events[0].Enter? ==> s.inFlight == 0)
      && IsSequentialRun(cfg, Next(cfg, s, events[0]), events[1..], end)
  }

  ghost predicate CanCloseSequentially(cfg: Config, s: System) {
    exists events, end :: IsSequentialRun(cfg, s, events, end) && end.b.state.CLOSED?
  }

  function Probes(n: nat): seq<Event> {
    if n == 0 then [] else [Enter, Succeed] + Probes(n - 1)
  }

  /** n successful probes in a row close the breaker with a clean failure count, if n are needed
      and n are still allowed. */
  lemma {:induction false} ProbesClose(cfg: Config, s: System, n: nat) returns (end: System)
    requires s.inFlight == 0 && n >= 1
    requires (s.b.state.HALF_OPEN? && n == Max(1, cfg.successThreshold - s.b.successes)
      && s.b.probes + n <= cfg.halfOpenMaxCalls)
          || (s.b.state.OPEN? && s.now >= OpenedAt(s.b) + cfg.timeout && n == Needed(cfg) <= cfg.halfOpenMaxCalls)
    ensures IsSequentialRun(cfg, s, Probes(n), end)
    ensures end.b.state.CLOSED? && end.b.failures == 0 && end.inFlight == 0
    decreases n
  {
    var started := Next(cfg, s, Enter);
    assert started.b.state.HALF_OPEN? && started.inFlight == 1;
    var done := Next(cfg, started, Succeed);
    if done.b.state.CLOSED? {
      assert n == 1;
      end := done;
      assert Probes(0) == [] && IsSequentialRun(cfg, done, [], done);
    } else {
      end := ProbesClose(cfg, done, n - 1);
    }
    SequentialCons(cfg, started, Succeed, Probes(n - 1), end);
    SequentialCons(cfg, s, Enter, [Succeed] + Probes(n - 1), end);
    assert [Enter] + ([Succeed] + Probes(n - 1)) == Probes(n);
  }

  lemma SequentialCons(cfg: Config, s: System, e: Event, rest: seq<Event>, end: System)
    requires Enabled(s, e) && !e.ManualReset? && (e.Enter? ==> s.inFlight == 0)
    requires IsSequentialRun(cfg, Next(cfg, s, e), rest, end)
    ensures IsSequentialRun(cfg, s, [e] + rest, end)
  {
    assert ([e] + rest)[1..] == rest;
  }

  /** Every success of an episode was a probe of that episode. */
  ghost predicate ProbesCovered(cfg: Config, s: System) {
    && cfg.halfOpenMaxCalls < Needed(cfg) && !s.b.state.CLOSED?
    && (s.b.state.OPEN? ==> s.inFlight == 0)
    && (s.b.state.HALF_OPEN? ==> s.b.successes + s.inFlight <= s.b.probes <= Allowed(cfg))
  }

  lemma {:induction false} CoveredBars(cfg: Config, s: System, events: seq<Event>, end: System)
    requires ProbesCovered(cfg, s) && s.inFlight <= 1 && IsSequentialRun(cfg, s, events, end)
    ensures !end.b.state.CLOSED?
    decreases |events|
  {
    if events != [] {
      CoveredBars(cfg, Next(cfg, s, events[0]), events[1..], end);
    }
  }

  /** Used one call at a time, a tripped breaker can close again exactly when its allowance of
      probes covers the successes it needs; then that many successful probes do it. */
  lemma SequentiallyClosableIff(cfg: Config, s: System)
    requires s.b.state.OPEN? && s.inFlight == 0
    ensures CanCloseSequentially(cfg, s) <==> Needed(cfg) <= cfg.halfOpenMaxCalls
  {
    if Needed(cfg) <= cfg.halfOpenMaxCalls {
      var ready := Next(cfg, s, WaitOut(cfg, s));
      var end := ProbesClose(cfg, ready, Needed(cfg));
      SequentialCons(cfg, s, WaitOut(cfg, s), Probes(Needed(cfg)), end);
    } else if CanCloseSequentially(cfg, s) {
      var events, end :| IsSequentialRun(cfg, s, events, end) && end.b.state.CLOSED?;
      CoveredBars(cfg, s, events, end);
    }
  }

  // ---- the breaker that refuses for ever ----

  /** Half-open, all probes used up, nothing in flight: only a manual reset changes that. */
  ghost predicate Wedged(cfg: Config, s: System) {
    s.b.state.HALF_OPEN? && s.b.probes >= cfg.halfOpenMaxCalls && s.inFlight == 0
  }

  lemma {:induction false} WedgedForever(cfg: Config, s: System, events: seq<Event>, end: System)
    requires Wedged(cfg, s) && NoReset(events) && IsRun(cfg, s, events, end)
    ensures Wedged(cfg, end) && end.b == s.b && end.log == s.log
    decreases |events|
  {
    if events != [] {
      assert NoReset(events[1..]) by {
        assert forall i :: 0 <= i < |events[1..]| ==> events[1..][i] == events[i + 1];
      }
      assert !events[0].ManualReset?;
      WedgedForever(cfg, Next(cfg, s, events[0]), events[1..], end);
    }
  }

  ghost predicate NoAbandon(events: seq<Event>) {
    forall i :: 0 <= i < |events| ==> !events[i].Abandon?
  }

  /** Some run without a manual reset wedges the breaker, with or without abandoned calls. */
  ghost predicate CanWedge(cfg: Config, s: System, abandoning: bool) {
    exists events, end :: NoReset(events) && (abandoning || NoAbandon(events)) && IsRun(cfg, s, events, end)
      && Wedged(cfg, end)
  }

  lemma WedgedCanWedge(cfg: Config, s: System, abandoning: bool)
    requires Wedged(cfg, s)
    ensures CanWedge(cfg, s, abandoning)
  {
    assert NoReset([]) && NoAbandon([]) && IsRun(cfg, s, [], s);
  }

  lemma CanWedgeVia(cfg: Config, s: System, e: Event, abandoning: bool)
    requires Enabled(s, e) && !e.ManualReset? && (e.Abandon? ==> abandoning)
    requires CanWedge(cfg, Next(cfg, s, e), abandoning)
    ensures CanWedge(cfg, s, abandoning)
  {
    var events, end :| NoReset(events) && (abandoning || NoAbandon(events))
      && IsRun(cfg, Next(cfg, s, e), events, end) && Wedged(cfg, end);
    var all := [e] + events;
    assert all[1..] == events;
    assert NoReset(all) && (abandoning || NoAbandon(all)) && IsRun(cfg, s, all, end);
  }

  /** An episode in which every call so far was a probe uses up its probes: by successes that do not
      close the breaker, or by abandoning them. */
  lemma {:induction false} ProbesRunOut(cfg: Config, s: System, abandoning: bool)
    requires s.b.state.HALF_OPEN? && s.inFlight == 0 && s.b.probes <= Allowed(cfg)
    requires abandoning || (s.b.successes == s.b.probes && Allowed(cfg) < Needed(cfg))
    ensures CanWedge(cfg, s, abandoning)
    decreases Allowed(cfg) - s.b.probes
  {
    if s.b.probes >= cfg.halfOpenMaxCalls {
      WedgedCanWedge(cfg, s, abandoning);
    } else {
      var started := Next(cfg, s, Enter);
      var leave := if abandoning then Abandon else Succeed;
      ProbesRunOut(cfg, Next(cfg, started, leave), abandoning);
      CanWedgeVia(cfg, started, leave, abandoning);
      CanWedgeVia(cfg, s, Enter, abandoning);
    }
  }

  /** The calls that an open breaker has in flight can all finish without a trace. */
  lemma {:induction false} OpenDrains(cfg: Config, s: System, abandoning: bool)
    requires s.b.state.OPEN? && (abandoning || Allowed(cfg) < Needed(cfg))
    ensures CanWedge(cfg, s, abandoning)
    decreases s.inFlight
  {
    if s.inFlight > 0 {
      OpenDrains(cfg, Next(cfg, s, Succeed), abandoning);
      CanWedgeVia(cfg, s, Succeed, abandoning);
    } else {
      var waited := Next(cfg, s, WaitOut(cfg, s));
      var half := ProbeAfterTimeout(cfg, s);
      if half.inFlight == 0 {
        ProbesRunOut(cfg, half, abandoning);
      } else {
        var leave := if abandoning then Abandon else Succeed;
        ProbesRunOut(cfg, Next(cfg, half, leave), abandoning);
        CanWedgeVia(cfg, half, leave, abandoning);
      }
      CanWedgeVia(cfg, waited, Enter, abandoning);
      CanWedgeVia(cfg, s, WaitOut(cfg, s), abandoning);
    }
  }

  /** Without abandoned calls, each probe of the episode is in flight or has succeeded, and the
      successes do not yet suffice. */
  ghost predicate ProbesAccounted(cfg: Config, s: System) {
    s.b.state.HALF_OPEN? ==> s.b.probes <= s.b.successes + s.inFlight && s.b.successes < Needed(cfg)
  }

  lemma {:induction false} AccountedKept(cfg: Config, s: System, events: seq<Event>, end: System)
    requires ProbesAccounted(cfg, s) && NoAbandon(events) && IsRun(cfg, s, events, end)
    ensures ProbesAccounted(cfg, end)
    decreases |events|
  {
    if events != [] {
      assert !events[0].Abandon?;
      assert NoAbandon(events[1..]) by {
        assert forall i :: 0 <= i < |events[1..]| ==> events[1..][i] == events[i + 1];
      }
      AccountedKept(cfg, Next(cfg, s, events[0]), events[1..], end);
    }
  }

  /** If calls are never abandoned, an open breaker can wedge exactly when its probes do not cover the
      successes it needs. */
  lemma CanWedgeIff(cfg: Config, s: System)
    requires s.b.state.OPEN?
    ensures CanWedge(cfg, s, false) <==> Allowed(cfg) < Needed(cfg)
  {
    if Allowed(cfg) < Needed(cfg) {
      OpenDrains(cfg, s, false);
    }
    if CanWedge(cfg, s, false) {
      var events, end :| NoReset(events) && NoAbandon(events) && IsRun(cfg, s, events, end) && Wedged(cfg, end);
      AccountedKept(cfg, s, events, end);
    }
  }

  /** If calls can be cancelled, every open breaker can wedge, whatever its configuration. */
  lemma CancellationCanWedge(cfg: Config, s: System)
    requires s.b.state.OPEN?
    ensures CanWedge(cfg, s, true)
  {
    OpenDrains(cfg, s, true);
  }

  /** With the default configuration the first successful probe wedges the breaker. */
  lemma DefaultBreakerWedges(s: System)
    requires s.b.state.OPEN? && s.inFlight == 0 && s.now >= OpenedAt(s.b) + DEFAULT.timeout
    ensures Wedged(DEFAULT, Next(DEFAULT, Next(DEFAULT, s, Enter), Succeed))
  {}

  lemma {:induction false} RunAppend(cfg: Config, s: System, events: seq<Event>, mid: System, e: Event)
    requires IsRun(cfg, s, events, mid) && Enabled(mid, e)
    ensures IsRun(cfg, s, events + [e], Next(cfg, mid, e))
    decreases |events|
  {
    if events == [] {
      assert [e][1..] == [];
    } else {
      assert (events + [e])[1..] == events[1..] + [e];
      RunAppend(cfg, Next(cfg, s, events[0]), events[1..], mid, e);
    }
  }

  lemma ReachNext(cfg: Config, s: System, e: Event) returns (next: System)
    requires Reachable(cfg, s) && Enabled(s, e)
    ensures next == Next(cfg, s, e) && Reachable(cfg, next)
  {
    next := Next(cfg, s, e);
    var now, events :| IsRun(cfg, Boot(now), events, s);
    RunAppend(cfg, Boot(now), events, s, e);
  }

  /** Calls that fail one after the other trip a closed breaker at its threshold. */
  lemma {:induction false} FailuresTrip(cfg: Config, s: System) returns (open: System)
    requires Reachable(cfg, s) && s.b.state.CLOSED? && s.inFlight == 0
    ensures Reachable(cfg, open) && open.b.state.OPEN? && open.inFlight == 0
    decreases Max(0, cfg.failureThreshold - s.b.failures)
  {
    var started := ReachNext(cfg, s, Enter);
    open := ReachNext(cfg, started, Fail);
    if open.b.state.CLOSED? {
      open := FailuresTrip(cfg, open);
    }
  }

  /** And a breaker comes to that from new: five failures, the timeout, and one success. */
  lemma DefaultBreakerGetsWedged()
    ensures exists s :: Reachable(DEFAULT, s) && Wedged(DEFAULT, s)
  {
    var s := Boot(0.0);
    assert IsRun(DEFAULT, Boot(0.0), [], s);
    s := FailuresTrip(DEFAULT, s);
    s := ReachNext(DEFAULT, s, WaitOut(DEFAULT, s));
    DefaultBreakerWedges(s);
    s := ReachNext(DEFAULT, s, Enter);
    s := ReachNext(DEFAULT, s, Succeed);
  }
}
