/** src/resilience/circuit_breaker.py. No lock body suspends, so admission is one atomic step
    and so is each completion; the functions say what those steps do, the class does them. */
module Breakers {
  import opened Wrappers

  datatype Circuit = CLOSED | OPEN | HALF_OPEN

  datatype Config = Config(failureThreshold: int, successThreshold: int, timeout: real, halfOpenMaxCalls: int)

  const DEFAULT := Config(5, 2, 30.0, 1)

  datatype Breaker = Breaker(state: Circuit, failures: nat, successes: nat, openedAt: Option<real>, probes: nat)

  const FRESH := Breaker(CLOSED, 0, 0, None, 0)

  /** How a call is let in: run the protected function, or fail fast. */
  datatype Admission = Admitted | FastFail(resetIn: real) | ProbeLimit

  function OpenedAt(b: Breaker): real {
    if b.openedAt.Some? then b.openedAt.value else 0.0
  }

  /** `_evaluate_state` */
  function Evaluate(cfg: Config, b: Breaker, now: real): Breaker {
    if b.state.OPEN? && now - OpenedAt(b) >= cfg.timeout then b.(state := HALF_OPEN, probes := 0, successes := 0) else b
  }

  /** The part of `call` before the protected function. */
  function Admit(cfg: Config, b: Breaker, now: real): (Breaker, Admission) {
    var e := Evaluate(cfg, b, now);
    match e.state
    case CLOSED => (e, Admitted)
    case OPEN =>
      var left := OpenedAt(e) + cfg.timeout - now;
      (e, FastFail(if left > 0.0 then left else 0.0))
    case HALF_OPEN =>
      if e.probes >= cfg.halfOpenMaxCalls then (e, ProbeLimit) else (e.(probes := e.probes + 1), Admitted)
  }

  /** `_on_success` */
  function OnSuccess(cfg: Config, b: Breaker): Breaker {
    match b.state
    case HALF_OPEN =>
      if b.successes + 1 >= cfg.successThreshold
      then b.(state := CLOSED, successes := b.successes + 1, failures := 0, probes := 0)
      else b.(successes := b.successes + 1)
    case CLOSED => b.(failures := 0)
    case OPEN => b
  }

  /** `_on_failure` */
  function OnFailure(cfg: Config, b: Breaker, now: real): Breaker {
    var c := b.(failures := b.failures + 1);
    match b.state
    case HALF_OPEN => c.(state := OPEN, openedAt := Some(now), probes := 0)
    case CLOSED => if c.failures >= cfg.failureThreshold then c.(state := OPEN, openedAt := Some(now)) else c
    case OPEN => c
  }

  class CircuitBreaker {
    const cfg: Config
    var state: Circuit
    var failures: nat
    var successes: nat
    var openedAt: Option<real>
    var probes: nat

    function View(): Breaker
      reads this
    {
      Breaker(state, failures, successes, openedAt, probes)
    }

    constructor (cfg: Config)
      ensures this.cfg == cfg && View() == FRESH
    {
      this.cfg := cfg;
      state, failures, successes, openedAt, probes := CLOSED, 0, 0, None, 0;
    }

    method EvaluateState(now: real) returns (s: Circuit)
      modifies this
      ensures View() == Evaluate(cfg, old(View()), now) && s == state
    {
      if state.OPEN? {
        var elapsed := now - (if openedAt.Some? then openedAt.value else 0.0);
        if elapsed >= cfg.timeout {
          state, probes, successes := HALF_OPEN, 0, 0;
        }
      }
      s := state;
    }

    method TryAdmit(now: real) returns (a: Admission)
      modifies this
      ensures (View(), a) == Admit(cfg, old(View()), now)
    {
      var s := EvaluateState(now);
      if s.OPEN? {
        var left := (if openedAt.Some? then openedAt.value else 0.0) + cfg.timeout - now;
        return FastFail(if left > 0.0 then left else 0.0);
      }
      if s.HALF_OPEN? {
        if probes >= cfg.halfOpenMaxCalls {
          return ProbeLimit;
        }
        probes := probes + 1;
      }
      a := Admitted;
    }

    method Succeeded()
      modifies this
      ensures View() == OnSuccess(cfg, old(View()))
    {
      if state.HALF_OPEN? {
        successes := successes + 1;
        if successes >= cfg.successThreshold {
          state, failures, probes := CLOSED, 0, 0;
        }
      } else if state.CLOSED? {
        failures := 0;
      }
    }

    /** `tripped` says whether the health monitor is told that the circuit opened. */
    method Failed(now: real) returns (tripped: bool)
      modifies this
      ensures View() == OnFailure(cfg, old(View()), now)
      ensures tripped <==> old(state).CLOSED? && state.OPEN?
    {
      failures := failures + 1;
      tripped := false;
      if state.HALF_OPEN? {
        state, openedAt, probes := OPEN, Some(now), 0;
      } else if state.CLOSED? && failures >= cfg.failureThreshold {
        state, openedAt, tripped := OPEN, Some(now), true;
      }
    }

    method Reset()
      modifies this
      ensures View() == FRESH
    {
      state, failures, successes, openedAt, probes := CLOSED, 0, 0, None, 0;
    }
  }
}

/** Overlapping calls on one breaker: any interleaving of admissions, completions, manual
    resets and the passing of time. */
module BreakerSystem {
  import opened Wrappers
  import opened Breakers

  /** Abandon is the end of a call by cancellation, which `call` does not catch. */
  datatype Event = Advance(dt: real) | Enter | Succeed | Fail | Abandon | ManualReset

  /** What an observer of the breaker writes down. */
  datatype Entry = Started(at: real) | Success | Failure | Opened(at: real) | HalfOpened | Closed | WasReset

  datatype System = System(b: Breaker, now: real, inFlight: nat, log: seq<Entry>)

  function Boot(now: real): System {
    System(FRESH, now, 0, [])
  }

  predicate Enabled(s: System, e: Event) {
    match e
    case Advance(dt) => dt >= 0.0
    case Enter => true
    case Succeed => s.inFlight > 0
    case Fail => s.inFlight > 0
    case Abandon => s.inFlight > 0
    case ManualReset => true
  }

  /** The entry for a change of state, if there is one. */
  function Change(before: Breaker, after: Breaker, now: real): seq<Entry> {
    if before.state == after.state then []
    else match after.state
         case OPEN => [Opened(now)]
         case HALF_OPEN => [HalfOpened]
         case CLOSED => [Closed]
  }

  function Next(cfg: Config, s: System, e: Event): System
    requires Enabled(s, e)
  {
    match e
    case Advance(dt) => s.(now := s.now + dt)
    case Enter =>
      var (b, a) := Admit(cfg, s.b, s.now);
      s.(b := b, inFlight := if a.Admitted? then s.inFlight + 1 else s.inFlight,
         log := s.log + Change(s.b, b, s.now) + if a.Admitted? then [Started(s.now)] else [])
    case Succeed =>
      var b := OnSuccess(cfg, s.b);
      s.(b := b, inFlight := s.inFlight - 1, log := s.log + [Success] + Change(s.b, b, s.now))
    case Fail =>
      var b := OnFailure(cfg, s.b, s.now);
      s.(b := b, inFlight := s.inFlight - 1, log := s.log + [Failure] + Change(s.b, b, s.now))
    case Abandon => s.(inFlight := s.inFlight - 1)
    case ManualReset => s.(b := FRESH, log := s.log + [WasReset])
  }

  ghost predicate IsRun(cfg: Config, s: System, events: seq<Event>, end: System)
    decreases |events|
  {
    if events == [] then s == end
    else Enabled(s, events[0]) && IsRun(cfg, Next(cfg, s, events[0]), events[1..], end)
  }

  ghost predicate Reachable(cfg: Config, s: System) {
    exists now, events :: IsRun(cfg, Boot(now), events, s)
  }

  // ---- the breaker, told from the log ----

  /** What one entry makes of the breaker. */
  function Replayed(b: Breaker, e: Entry): Breaker {
    match e
    case Started(_) => if b.state.HALF_OPEN? then b.(probes := b.probes + 1) else b
    case Success =>
      if b.state.HALF_OPEN? then b.(successes := b.successes + 1)
      else if b.state.CLOSED? then b.(failures := 0)
      else b
    case Failure => b.(failures := b.failures + 1)
    case Opened(at) => b.(state := OPEN, openedAt := Some(at), probes := 0)
    case HalfOpened => b.(state := HALF_OPEN, probes := 0, successes := 0)
    case Closed => b.(state := CLOSED, failures := 0, probes := 0)
    case WasReset => FRESH
  }

  function Replay(log: seq<Entry>): Breaker {
    if log == [] then FRESH else Replayed(Replay(log[..|log| - 1]), log[|log| - 1])
  }

  lemma ReplayAppend(log: seq<Entry>, e: Entry)
    ensures Replay(log + [e]) == Replayed(Replay(log), e)
  {
    assert (log + [e])[..|log|] == log;
  }

  /** The log is right so far; and only a half-open breaker has probes. */
  ghost predicate Told(s: System) {
    s.b == Replay(s.log) && (s.b.state.HALF_OPEN? || s.b.probes == 0)
  }

  lemma EnterIsTold(cfg: Config, s: System)
    requires Told(s)
    ensures Told(Next(cfg, s, Enter))
  {
    hide Replay;
    var half := s.log + [HalfOpened];
    ReplayAppend(s.log, HalfOpened);
    ReplayAppend(s.log, Started(s.now));
    ReplayAppend(half, Started(s.now));
    assert s.log + [] == s.log && half + [] == half;
  }

  lemma SucceedIsTold(cfg: Config, s: System)
    requires Told(s) && s.inFlight > 0
    ensures Told(Next(cfg, s, Succeed))
  {
    hide Replay;
    var log1 := s.log + [Success];
    ReplayAppend(s.log, Success);
    ReplayAppend(log1, Closed);
    assert log1 + [] == log1;
  }

  lemma FailIsTold(cfg: Config, s: System)
    requires Told(s) && s.inFlight > 0
    ensures Told(Next(cfg, s, Fail))
  {
    hide Replay;
    var log1 := s.log + [Failure];
    ReplayAppend(s.log, Failure);
    ReplayAppend(log1, Opened(s.now));
    assert log1 + [] == log1;
  }

  lemma NextIsTold(cfg: Config, s: System, e: Event)
    requires Told(s) && Enabled(s, e)
    ensures Told(Next(cfg, s, e))
  {
    hide Replay;
    match e
    case Advance(_) =>
    case Abandon =>
    case ManualReset => ReplayAppend(s.log, WasReset);
    case Enter => EnterIsTold(cfg, s);
    case Succeed => SucceedIsTold(cfg, s);
    case Fail => FailIsTold(cfg, s);
  }

  lemma {:induction false} RunIsTold(cfg: Config, s: System, events: seq<Event>, end: System)
    requires Told(s) && IsRun(cfg, s, events, end)
    ensures Told(end)
    decreases |events|
  {
    if events != [] {
      NextIsTold(cfg, s, events[0]);
      RunIsTold(cfg, Next(cfg, s, events[0]), events[1..], end);
    }
  }

  /** Over every interleaving the breaker is what the log makes of it, every counter and the stamp included. */
  lemma BreakerIsItsLog(cfg: Config, s: System)
    requires Reachable(cfg, s)
    ensures s.b == Replay(s.log)
    ensures s.b.state.HALF_OPEN? || s.b.probes == 0
  {
    var now, events :| IsRun(cfg, Boot(now), events, s);
    RunIsTold(cfg, Boot(now), events, s);
  }

  // ---- what the log says ----

  /** Failed completions since the last success, close or reset. */
  function FailuresSince(log: seq<Entry>): nat {
    if log == [] then 0
    else match log[|log| - 1]
         case Failure => FailuresSince(log[..|log| - 1]) + 1
         case Success => 0
         case Closed => 0
         case WasReset => 0
         case _ => FailuresSince(log[..|log| - 1])
  }

  /** Calls started in the HALF_OPEN episode that the log ends in, if it ends in one. */
  function EpisodeStarts(log: seq<Entry>): Option<nat> {
    if log == [] then None
    else
      var earlier := EpisodeStarts(log[..|log| - 1]);
      match log[|log| - 1]
      case HalfOpened => Some(0)
      case Opened(_) => None
      case Closed => None
      case WasReset => None
      case Started(_) => if earlier.Some? then Some(earlier.value + 1) else None
      case _ => earlier
  }

  /** No call starts in [at, at + timeout) of an opening, unless a reset came between. */
  ghost predicate OpenPeriodsQuiet(cfg: Config, log: seq<Entry>) {
    forall i, j :: 0 <= i < j < |log| && log[i].Opened? && log[j].Started? && NoResetBetween(log, i, j) ==>
      log[j].at >= log[i].at + cfg.timeout
  }

  ghost predicate NoResetBetween(log: seq<Entry>, i: nat, j: nat) {
    forall k :: i < k < j && k < |log| ==> !log[k].WasReset?
  }

  /** Every opening since the last reset is no later than the breaker's own time stamp. */
  ghost predicate StampIsLatest(openedAt: Option<real>, log: seq<Entry>) {
    forall i :: 0 <= i < |log| && log[i].Opened? && NoResetBetween(log, i, |log|) ==>
      openedAt.Some? && log[i].at <= openedAt.value
  }

  ghost predicate CountersOk(cfg: Config, b: Breaker, log: seq<Entry>) {
    && (b.state.CLOSED? ==> b.failures == FailuresSince(log) && (b.failures == 0 || b.failures < cfg.failureThreshold))
    && (b.state.HALF_OPEN? <==> EpisodeStarts(log).Some?)
    && (b.state.HALF_OPEN? ==>
          b.probes == EpisodeStarts(log).value && (b.probes == 0 || b.probes <= cfg.halfOpenMaxCalls))
  }

  ghost predicate ClockOk(cfg: Config, b: Breaker, now: real, log: seq<Entry>) {
    && (b.state.OPEN? ==> b.openedAt.Some?)
    && (b.openedAt.Some? ==> b.openedAt.value <= now)
    && (b.openedAt.Some? && !b.state.OPEN? ==> now >= b.openedAt.value + cfg.timeout)
    && StampIsLatest(b.openedAt, log) && OpenPeriodsQuiet(cfg, log)
  }

  ghost predicate Invariant(cfg: Config, s: System) {
    CountersOk(cfg, s.b, s.log) && ClockOk(cfg, s.b, s.now, s.log)
  }

  /** What appending one entry does to the two summaries. */
  lemma LogAppend(log: seq<Entry>, e: Entry)
    ensures FailuresSince(log + [e]) == match e
      case Failure => FailuresSince(log) + 1
      case Success => 0
      case Closed => 0
      case WasReset => 0
      case _ => FailuresSince(log)
    ensures EpisodeStarts(log + [e]) == match e
      case HalfOpened => Some(0)
      case Opened(_) => None
      case Closed => None
      case WasReset => None
      case Started(_) => (if EpisodeStarts(log).Some? then Some(EpisodeStarts(log).value + 1) else None)
      case _ => EpisodeStarts(log)
  {
    assert (log + [e])[..|log|] == log;
  }

  /** What appending one entry does to the record of openings. */
  lemma StampAppend(cfg: Config, openedAt: Option<real>, log: seq<Entry>, e: Entry)
    requires StampIsLatest(openedAt, log) && OpenPeriodsQuiet(cfg, log)
    requires e.Started? && openedAt.Some? ==> e.at >= openedAt.value + cfg.timeout
    ensures OpenPeriodsQuiet(cfg, log + [e])
    ensures !e.Opened? ==> StampIsLatest(openedAt, log + [e])
    ensures e.WasReset? ==> StampIsLatest(None, log + [e])
    ensures e.Opened? && (openedAt.Some? ==> openedAt.value <= e.at) ==> StampIsLatest(Some(e.at), log + [e])
  {
    var after := log + [e];
    forall i, j | 0 <= i < j < |after| && after[i].Opened? && after[j].Started? && NoResetBetween(after, i, j)
      ensures after[j].at >= after[i].at + cfg.timeout
    {
      assert NoResetBetween(log, i, j) by { ResetBetween(log, e, i, j); }
    }
    forall i | 0 <= i < |log| && NoResetBetween(after, i, |after|)
      ensures NoResetBetween(log, i, |log|) && !e.WasReset? {
      ResetBetween(log, e, i, |log|);
      assert after[|log|] == e;
    }
  }

  lemma ResetBetween(log: seq<Entry>, e: Entry, i: nat, j: nat)
    requires j <= |log|
    ensures NoResetBetween(log + [e], i, j) <==> NoResetBetween(log, i, j)
  {
    forall k | i < k < j ensures (log + [e])[k] == log[k] {}
  }

  lemma EnterKeepsInvariant(cfg: Config, s: System)
    requires Invariant(cfg, s)
    ensures Invariant(cfg, Next(cfg, s, Enter))
  {
    var e := Evaluate(cfg, s.b, s.now);
    var (b, a) := Admit(cfg, s.b, s.now);
    var log1 := s.log + Change(s.b, b, s.now);
    if e != s.b {
      LogAppend(s.log, HalfOpened);
      StampAppend(cfg, s.b.openedAt, s.log, HalfOpened);
    } else {
      assert log1 == s.log;
    }
    if a.Admitted? {
      LogAppend(log1, Started(s.now));
      StampAppend(cfg, s.b.openedAt, log1, Started(s.now));
    } else {
      assert log1 + [] == log1;
    }
  }

  lemma SucceedKeepsInvariant(cfg: Config, s: System)
    requires Invariant(cfg, s) && s.inFlight > 0
    ensures Invariant(cfg, Next(cfg, s, Succeed))
  {
    var log1 := s.log + [Success];
    LogAppend(s.log, Success);
    StampAppend(cfg, s.b.openedAt, s.log, Success);
    LogAppend(log1, Closed);
    StampAppend(cfg, s.b.openedAt, log1, Closed);
    assert log1 + [] == log1;
  }

  lemma FailKeepsInvariant(cfg: Config, s: System)
    requires Invariant(cfg, s) && s.inFlight > 0
    ensures Invariant(cfg, Next(cfg, s, Fail))
  {
    var log1 := s.log + [Failure];
    LogAppend(s.log, Failure);
    StampAppend(cfg, s.b.openedAt, s.log, Failure);
    LogAppend(log1, Opened(s.now));
    StampAppend(cfg, s.b.openedAt, log1, Opened(s.now));
    assert log1 + [] == log1;
  }

  lemma NextKeepsInvariant(cfg: Config, s: System, e: Event)
    requires Invariant(cfg, s) && Enabled(s, e)
    ensures Invariant(cfg, Next(cfg, s, e))
  {
    match e
    case Advance(_) =>
    case Enter => EnterKeepsInvariant(cfg, s);
    case Succeed => SucceedKeepsInvariant(cfg, s);
    case Fail => FailKeepsInvariant(cfg, s);
    case Abandon =>
    case ManualReset =>
      LogAppend(s.log, WasReset);
      StampAppend(cfg, s.b.openedAt, s.log, WasReset);
  }

  lemma {:induction false} RunKeepsInvariant(cfg: Config, s: System, events: seq<Event>, end: System)
    requires Invariant(cfg, s) && IsRun(cfg, s, events, end)
    ensures Invariant(cfg, end)
    decreases |events|
  {
    if events != [] {
      NextKeepsInvariant(cfg, s, events[0]);
      RunKeepsInvariant(cfg, Next(cfg, s, events[0]), events[1..], end);
    }
  }

  /** Over every interleaving: the closed breaker counts the failures since it last saw a reason
      for trust and stays below its threshold (or at zero, should the threshold not be positive),
      open periods are quiet, probes are limited. */
  lemma BreakerIsSafe(cfg: Config, s: System)
    requires Reachable(cfg, s)
    ensures s.b.state.CLOSED? ==>
      s.b.failures == FailuresSince(s.log) && (s.b.failures == 0 || s.b.failures < cfg.failureThreshold)
    ensures OpenPeriodsQuiet(cfg, s.log)
    ensures EpisodeStarts(s.log).Some? <==> s.b.state.HALF_OPEN?
    ensures EpisodeStarts(s.log).Some? ==>
      EpisodeStarts(s.log).value == 0 || EpisodeStarts(s.log).value <= cfg.halfOpenMaxCalls
  {
    var now, events :| IsRun(cfg, Boot(now), events, s);
    assert FailuresSince([]) == 0;
    RunKeepsInvariant(cfg, Boot(now), events, s);
  }
}
