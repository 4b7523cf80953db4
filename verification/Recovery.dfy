/** src/resilience/retry.py and recovery.py on top of the circuit breaker. The environment says
    for each attempt when it reaches the breaker and, should the protected function be called,
    when and how that call ends. */
module Recovery {
  import opened Wrappers
  import opened Breakers
  import opened BreakerSystem
  import opened BreakerRecovery

  datatype ExcClass = ExcClass(name: string)

  /** An exception, by the classes it is an instance of. */
  datatype Exc = Exc(classes: set<ExcClass>)

  datatype Outcome<T> = Returned(value: T) | Raised(exc: Exc)

  datatype Attempt<T> = Attempt(enterAt: real, endAt: real, outcome: Outcome<T>)

  type Environment<!T> = nat -> Attempt<T>

  datatype RetryPolicy = RetryPolicy(
    maxRetries: int,
    baseDelay: real,
    maxDelay: real,
    exponentialBase: real,
    jitter: bool,
    retryableExceptions: seq<ExcClass>)
  {
    predicate IsRetryable(e: Exc) {
      retryableExceptions == [] || exists c :: c in e.classes && c in retryableExceptions
    }

    /** The longest that `compute_delay` can make the loop sleep after an attempt. */
    function DelayCap(attempt: nat): real {
      var delay := baseDelay * Power(exponentialBase, attempt);
      if delay <= maxDelay then delay else maxDelay
    }
  }

  function Power(x: real, n: nat): real {
    if n == 0 then 1.0 else x * Power(x, n - 1)
  }

  const CIRCUIT_OPEN := Exc({ExcClass("CircuitOpenError"), ExcClass("Exception")})

  datatype RetryResult<T> = RetryResult(success: bool, value: Option<T>, lastException: Option<Exc>, attempts: int)

  // ---- one guarded call ----

  predicate LetIn(cfg: Config, b: Breaker, at: real) {
    Admit(cfg, b, at).1.Admitted?
  }

  /** The breaker after `circuit.call(fn)` has run its course. */
  function AfterCall<T>(cfg: Config, b: Breaker, a: Attempt<T>): Breaker {
    var admitted := Admit(cfg, b, a.enterAt).0;
    if !LetIn(cfg, b, a.enterAt) then admitted
    else if a.outcome.Returned? then OnSuccess(cfg, admitted)
    else OnFailure(cfg, admitted, a.endAt)
  }

  /** What `circuit.call(fn)` returns or raises. */
  function CallOutcome<T>(cfg: Config, b: Breaker, a: Attempt<T>): Outcome<T> {
    if LetIn(cfg, b, a.enterAt) then a.outcome else Raised(CIRCUIT_OPEN)
  }

  // ---- the retry loop ----

  /** What a retry loop leaves behind: the breaker, its result, and how often the protected
      function was really called. */
  datatype RetryRun<T> = RetryRun(breaker: Breaker, result: RetryResult<T>, invocations: nat)

  function RetryFrom<T>(cfg: Config, policy: RetryPolicy, env: Environment<T>, b: Breaker, last: Option<Exc>,
          attempt: nat): (run: RetryRun<T>)
    ensures run.result.success <==> run.result.value.Some?
    ensures run.result.success ==> attempt < run.result.attempts <= policy.maxRetries + 1
    ensures !run.result.success ==> run.result.attempts == policy.maxRetries + 1
    ensures run.invocations <= if attempt <= policy.maxRetries then policy.maxRetries + 1 - attempt else 0
    decreases policy.maxRetries + 1 - attempt
  {
    if attempt > policy.maxRetries then
      RetryRun(b, RetryResult(false, None, last, policy.maxRetries + 1), 0)
    else
      var a := env(attempt);
      var after := AfterCall(cfg, b, a);
      var once := if LetIn(cfg, b, a.enterAt) then 1 else 0;
      match CallOutcome(cfg, b, a)
      case Returned(v) => RetryRun(after, RetryResult(true, Some(v), None, attempt + 1), once)
      case Raised(e) =>
        if !policy.IsRetryable(e) then RetryRun(after, RetryResult(false, None, Some(e), policy.maxRetries + 1), once)
        else
          var rest := RetryFrom(cfg, policy, env, after, Some(e), attempt + 1);
          rest.(invocations := rest.invocations + once)
  }

  function Retry<T>(cfg: Config, policy: RetryPolicy, env: Environment<T>, b: Breaker): RetryRun<T> {
    RetryFrom(cfg, policy, env, b, None, 0)
  }

  // ---- the attempts made and the attempts reported ----

  /** How often the loop really goes round from the given attempt on. */
  function Made<T>(cfg: Config, policy: RetryPolicy, env: Environment<T>, b: Breaker, attempt: nat): nat
    decreases policy.maxRetries + 1 - attempt
  {
    if attempt > policy.maxRetries then 0
    else
      match CallOutcome(cfg, b, env(attempt))
      case Returned(_) => 1
      case Raised(e) => if policy.IsRetryable(e)
        then 1 + Made(cfg, policy, env, AfterCall(cfg, b, env(attempt)), attempt + 1) else 1
  }

  /** The breaker when attempt i is made, after the attempts from `attempt` on. */
  function BreakerAt<T>(cfg: Config, env: Environment<T>, b: Breaker, attempt: nat, i: nat): Breaker
    requires attempt <= i
    decreases i - attempt
  {
    if attempt == i then b else BreakerAt(cfg, env, AfterCall(cfg, b, env(attempt)), attempt + 1, i)
  }

  /** What attempt i raises or returns, should the loop get there. */
  function OutcomeAt<T>(cfg: Config, env: Environment<T>, b: Breaker, attempt: nat, i: nat): Outcome<T>
    requires attempt <= i
  {
    CallOutcome(cfg, BreakerAt(cfg, env, b, attempt, i), env(i))
  }

  predicate GoesOn<T>(policy: RetryPolicy, o: Outcome<T>) {
    o.Raised? && policy.IsRetryable(o.exc)
  }

  /** Attempt i comes before the last one, is reached, and raises what is not worth a retry. */
  ghost predicate GivesUpAt<T>(cfg: Config, policy: RetryPolicy, env: Environment<T>, b: Breaker, attempt: nat,
          i: nat)
  {
    && attempt <= i < policy.maxRetries
    && OutcomeAt(cfg, env, b, attempt, i).Raised? && !GoesOn(policy, OutcomeAt(cfg, env, b, attempt, i))
    && forall k: nat :: attempt <= k < i ==> GoesOnAt(cfg, policy, env, b, attempt, k)
  }

  /** Attempt k, if the loop gets there, is followed by another one. */
  ghost predicate GoesOnAt<T>(cfg: Config, policy: RetryPolicy, env: Environment<T>, b: Breaker, attempt: nat, k: nat) {
    attempt <= k && GoesOn(policy, OutcomeAt(cfg, env, b, attempt, k))
  }

  ghost predicate GivesUpEarly<T>(cfg: Config, policy: RetryPolicy, env: Environment<T>, b: Breaker, attempt: nat) {
    exists i: nat :: GivesUpAt(cfg, policy, env, b, attempt, i)
  }

  /** The reported number of attempts is the number made exactly unless the loop gives up before its
      last attempt. (With fewer than no attempts allowed, a negative number is reported.) */
  lemma {:induction false} ReportedIsMadeIff<T>(cfg: Config, policy: RetryPolicy, env: Environment<T>, b: Breaker,
          last: Option<Exc>, attempt: nat)
    requires attempt <= policy.maxRetries + 1 || attempt == 0
    ensures RetryFrom(cfg, policy, env, b, last, attempt).result.attempts
      == attempt + Made(cfg, policy, env, b, attempt)
      <==> policy.maxRetries >= -1 && !GivesUpEarly(cfg, policy, env, b, attempt)
    decreases policy.maxRetries + 1 - attempt
  {
    if attempt <= policy.maxRetries {
      var o := CallOutcome(cfg, b, env(attempt));
      assert OutcomeAt(cfg, env, b, attempt, attempt) == o;
      if GoesOn(policy, o) {
        var after := AfterCall(cfg, b, env(attempt));
        ReportedIsMadeIff(cfg, policy, env, after, Some(o.exc), attempt + 1);
        GivesUpLater(cfg, policy, env, b, attempt);
      } else if o.Raised? && attempt < policy.maxRetries {
        assert GivesUpAt(cfg, policy, env, b, attempt, attempt);
      } else {
        forall i: nat ensures !GivesUpAt(cfg, policy, env, b, attempt, i) {
          assert !GoesOnAt(cfg, policy, env, b, attempt, attempt);
        }
      }
    }
  }

  lemma GivesUpLater<T>(cfg: Config, policy: RetryPolicy, env: Environment<T>, b: Breaker, attempt: nat)
    requires attempt <= policy.maxRetries && GoesOn(policy, CallOutcome(cfg, b, env(attempt)))
    ensures GivesUpEarly(cfg, policy, env, b, attempt)
      <==> GivesUpEarly(cfg, policy, env, AfterCall(cfg, b, env(attempt)), attempt + 1)
  {
    var after, next := AfterCall(cfg, b, env(attempt)), attempt + 1;
    assert OutcomeAt(cfg, env, b, attempt, attempt) == CallOutcome(cfg, b, env(attempt));
    forall k: nat | attempt < k
      ensures OutcomeAt(cfg, env, b, attempt, k) == OutcomeAt(cfg, env, after, next, k)
      ensures GoesOnAt(cfg, policy, env, b, attempt, k) <==> GoesOnAt(cfg, policy, env, after, next, k)
    {}
    forall i: nat ensures GivesUpAt(cfg, policy, env, b, attempt, i) <==> GivesUpAt(cfg, policy, env, after, next, i) {
      if GivesUpAt(cfg, policy, env, b, attempt, i) {
        assert i != attempt && OutcomeAt(cfg, env, b, attempt, i) == OutcomeAt(cfg, env, after, next, i);
        forall k: nat | attempt < k < i ensures GoesOnAt(cfg, policy, env, after, next, k) {
          assert GoesOnAt(cfg, policy, env, b, attempt, k);
        }
      }
      if GivesUpAt(cfg, policy, env, after, next, i) {
        assert OutcomeAt(cfg, env, b, attempt, i) == OutcomeAt(cfg, env, after, next, i);
        forall k: nat | attempt <= k < i ensures GoesOnAt(cfg, policy, env, b, attempt, k) {
          assert attempt < k ==> GoesOnAt(cfg, policy, env, after, next, k);
        }
      }
    }
    if GivesUpEarly(cfg, policy, env, b, attempt) {
      var i: nat :| GivesUpAt(cfg, policy, env, b, attempt, i);
      assert GivesUpAt(cfg, policy, env, after, next, i);
    }
    if GivesUpEarly(cfg, policy, env, after, next) {
      var i: nat :| GivesUpAt(cfg, policy, env, after, next, i);
      assert GivesUpAt(cfg, policy, env, b, attempt, i);
    }
  }

  // ---- which exceptions are worth a retry ----

  /** An empty list stands for every exception; otherwise the exception is an instance of a listed class. */
  predicate Listed(classes: seq<ExcClass>, e: Exc) {
    |classes| > 0 ==> exists i :: 0 <= i < |classes| && classes[i] in e.classes
  }

  /** Attempts `attempt` to n - 1 all raise, should the loop get there. */
  ghost predicate AllRaise<T>(cfg: Config, env: Environment<T>, b: Breaker, attempt: nat, n: int) {
    forall k: nat :: attempt <= k < n ==> OutcomeAt(cfg, env, b, attempt, k).Raised?
  }

  /** And what they raise is listed. */
  ghost predicate AllListed<T>(cfg: Config, classes: seq<ExcClass>, env: Environment<T>, b: Breaker, attempt: nat,
          n: int)
  {
    forall k: nat :: attempt <= k < n ==>
      OutcomeAt(cfg, env, b, attempt, k).Raised? && Listed(classes, OutcomeAt(cfg, env, b, attempt, k).exc)
  }

  lemma RaiseFromNext<T>(cfg: Config, env: Environment<T>, b: Breaker, attempt: nat, n: int)
    requires attempt < n
    ensures AllRaise(cfg, env, b, attempt, n) <==>
      CallOutcome(cfg, b, env(attempt)).Raised? && AllRaise(cfg, env, AfterCall(cfg, b, env(attempt)), attempt + 1, n)
  {
    var after, next := AfterCall(cfg, b, env(attempt)), attempt + 1;
    assert OutcomeAt(cfg, env, b, attempt, attempt) == CallOutcome(cfg, b, env(attempt));
    assert forall k: nat :: next <= k ==> OutcomeAt(cfg, env, b, attempt, k) == OutcomeAt(cfg, env, after, next, k);
    if AllRaise(cfg, env, b, attempt, n) {
      forall k: nat | next <= k < n ensures OutcomeAt(cfg, env, after, next, k).Raised? {
        assert OutcomeAt(cfg, env, b, attempt, k).Raised?;
      }
    }
  }

  lemma ListedFromNext<T>(cfg: Config, classes: seq<ExcClass>, env: Environment<T>, b: Breaker, attempt: nat, n: int)
    requires attempt < n
    ensures var o := CallOutcome(cfg, b, env(attempt));
      AllListed(cfg, classes, env, b, attempt, n) <==>
        && o.Raised? && Listed(classes, o.exc)
        && AllListed(cfg, classes, env, AfterCall(cfg, b, env(attempt)), attempt + 1, n)
  {
    hide Listed, CallOutcome, AfterCall;
    var after, next := AfterCall(cfg, b, env(attempt)), attempt + 1;
    assert OutcomeAt(cfg, env, b, attempt, attempt) == CallOutcome(cfg, b, env(attempt));
    assert forall k: nat :: next <= k ==> OutcomeAt(cfg, env, b, attempt, k) == OutcomeAt(cfg, env, after, next, k);
    if AllListed(cfg, classes, env, b, attempt, n) {
      forall k: nat | next <= k < n
        ensures OutcomeAt(cfg, env, after, next, k).Raised? && Listed(classes, OutcomeAt(cfg, env, after, next, k).exc)
      {
        assert OutcomeAt(cfg, env, b, attempt, k).Raised?;
      }
    }
  }

  lemma RetryableIsListed(policy: RetryPolicy, e: Exc)
    ensures policy.IsRetryable(e) <==> Listed(policy.retryableExceptions, e)
  {
    var classes := policy.retryableExceptions;
    if i :| 0 <= i < |classes| && classes[i] in e.classes {
      assert classes[i] in classes;
    }
  }

  lemma RetryOnce<T>(cfg: Config, policy: RetryPolicy, env: Environment<T>, b: Breaker, last: Option<Exc>, attempt: nat)
    requires attempt <= policy.maxRetries
    ensures var run, o := RetryFrom(cfg, policy, env, b, last, attempt), CallOutcome(cfg, b, env(attempt));
      var after := AfterCall(cfg, b, env(attempt));
      if o.Raised? && Listed(policy.retryableExceptions, o.exc) then
        && run.result == RetryFrom(cfg, policy, env, after, Some(o.exc), attempt + 1).result
        && run.breaker == RetryFrom(cfg, policy, env, after, Some(o.exc), attempt + 1).breaker
        && Made(cfg, policy, env, b, attempt) == 1 + Made(cfg, policy, env, after, attempt + 1)
      else
        && run.result == (if o.Returned? then RetryResult(true, Some(o.value), None, attempt + 1)
          else RetryResult(false, None, Some(o.exc), policy.maxRetries + 1))
        && run.breaker == after && Made(cfg, policy, env, b, attempt) == 1
  {
    hide Listed;
    var o := CallOutcome(cfg, b, env(attempt));
    if o.Raised? { RetryableIsListed(policy, o.exc); }
  }

  /** If attempt n is the first that returns, the loop succeeds, with it, exactly if everything raised
      before is listed. */
  lemma {:induction false} RetrySucceedsIff<T>(cfg: Config, policy: RetryPolicy, env: Environment<T>, b: Breaker,
          last: Option<Exc>, attempt: nat, n: nat)
    requires attempt <= n <= policy.maxRetries
    requires AllRaise(cfg, env, b, attempt, n) && OutcomeAt(cfg, env, b, attempt, n).Returned?
    ensures var result := RetryFrom(cfg, policy, env, b, last, attempt).result;
      && (result.success <==> AllListed(cfg, policy.retryableExceptions, env, b, attempt, n))
      && (result.success ==>
          result.attempts == n + 1 && result.value == Some(OutcomeAt(cfg, env, b, attempt, n).value))
    decreases n - attempt
  {
    var o := CallOutcome(cfg, b, env(attempt));
    RetryOnce(cfg, policy, env, b, last, attempt);
    if attempt < n {
      RaiseFromNext(cfg, env, b, attempt, n);
      ListedFromNext(cfg, policy.retryableExceptions, env, b, attempt, n);
      hide RetryFrom, AllRaise, AllListed, CallOutcome, AfterCall, Listed;
      if Listed(policy.retryableExceptions, o.exc) {
        RetrySucceedsIff(cfg, policy, env, AfterCall(cfg, b, env(attempt)), Some(o.exc), attempt + 1, n);
      }
    }
  }

  /** If none returns, the loop fails with what is raised by its last attempt, which is the last one
      allowed or the first that raises something not listed. */
  lemma {:induction false} RetryFailsWith<T>(cfg: Config, policy: RetryPolicy, env: Environment<T>, b: Breaker,
          last: Option<Exc>, attempt: nat, n: nat)
    requires attempt <= n <= policy.maxRetries && AllRaise(cfg, env, b, attempt, n + 1)
    requires AllListed(cfg, policy.retryableExceptions, env, b, attempt, n)
    requires n == policy.maxRetries || !Listed(policy.retryableExceptions, OutcomeAt(cfg, env, b, attempt, n).exc)
    ensures var run := RetryFrom(cfg, policy, env, b, last, attempt);
      && !run.result.success && run.result.lastException == Some(OutcomeAt(cfg, env, b, attempt, n).exc)
      && run.breaker == AfterCall(cfg, BreakerAt(cfg, env, b, attempt, n), env(n))
    ensures Made(cfg, policy, env, b, attempt) == n + 1 - attempt
    decreases n - attempt
  {
    var o := CallOutcome(cfg, b, env(attempt));
    var after := AfterCall(cfg, b, env(attempt));
    RetryOnce(cfg, policy, env, b, last, attempt);
    RaiseFromNext(cfg, env, b, attempt, n + 1);
    if attempt < n {
      ListedFromNext(cfg, policy.retryableExceptions, env, b, attempt, n);
      hide RetryFrom, Made, AllRaise, AllListed, CallOutcome, AfterCall, Listed;
      RetryFailsWith(cfg, policy, env, after, Some(o.exc), attempt + 1, n);
    }
  }

  const AGENT_ERROR := ExcClass("AgentError")
  const TIMEOUT_ERROR := ExcClass("TimeoutError")
  const CONNECTION_ERROR := ExcClass("ConnectionError")

  /** AGENT_RETRY_POLICY, of whose classes any one is enough. */
  const AGENT_POLICY := RetryPolicy(2, 2.0, 30.0, 2.0, true, [AGENT_ERROR, TIMEOUT_ERROR, CONNECTION_ERROR])

  /** An agent that times out once and then returns succeeds at its second attempt. */
  lemma TimeoutIsRetried(env: Environment<int>)
    requires env(0) == Attempt(0.0, 1.0, Raised(Exc({TIMEOUT_ERROR}))) && env(1) == Attempt(3.0, 4.0, Returned(7))
    ensures Retry(DEFAULT, AGENT_POLICY, env, FRESH).result == RetryResult(true, Some(7), None, 2)
  {
    var b := AfterCall(DEFAULT, FRESH, env(0));
    assert OutcomeAt(DEFAULT, env, FRESH, 0, 0) == Raised(Exc({TIMEOUT_ERROR}));
    assert OutcomeAt(DEFAULT, env, FRESH, 0, 1) == CallOutcome(DEFAULT, BreakerAt(DEFAULT, env, b, 1, 1), env(1));
    assert AGENT_POLICY.retryableExceptions[1] in Exc({TIMEOUT_ERROR}).classes;
    RetrySucceedsIff(DEFAULT, AGENT_POLICY, env, FRESH, None, 0, 1);
  }

  /** Failing fast is not worth a retry to an agent: one attempt, whatever the environment. */
  lemma OpenBreakerStopsAgents(env: Environment<int>, b: Breaker)
    requires b.state.OPEN? && env(0).enterAt < OpenedAt(b) + DEFAULT.timeout
    ensures Made(DEFAULT, AGENT_POLICY, env, b, 0) == 1 && Retry(DEFAULT, AGENT_POLICY, env, b).invocations == 0
    ensures Retry(DEFAULT, AGENT_POLICY, env, b).result.lastException == Some(CIRCUIT_OPEN)
  {
    assert "CircuitOpenError"[0] != "AgentError"[0] && "CircuitOpenError"[0] != "TimeoutError"[0];
    assert "CircuitOpenError"[1] != "ConnectionError"[1] && "Exception"[0] != "AgentError"[0];
    assert "Exception"[0] != "TimeoutError"[0] && "Exception"[0] != "ConnectionError"[0];
    assert !AGENT_POLICY.IsRetryable(CIRCUIT_OPEN);
  }

  /** The report is right for this breaker and environment. */
  ghost predicate ReportsRight<T>(cfg: Config, policy: RetryPolicy, env: Environment<T>, b: Breaker) {
    Retry(cfg, policy, env, b).result.attempts == Made(cfg, policy, env, b, 0)
  }

  /** It is right for all of them exactly if the policy retries on whatever is raised, or does not
      retry at all. */
  lemma PolicyReportsRightIff<T(!new)>(policy: RetryPolicy)
    ensures (forall cfg, env: Environment<T>, b :: ReportsRight(cfg, policy, env, b))
      <==> policy.maxRetries >= -1 && (policy.retryableExceptions == [] || policy.maxRetries <= 0)
  {
    if policy.maxRetries >= -1 && (policy.retryableExceptions == [] || policy.maxRetries <= 0) {
      forall cfg, env: Environment<T>, b ensures ReportsRight(cfg, policy, env, b) {
        forall i: nat ensures !GivesUpAt(cfg, policy, env, b, 0, i) {}
        ReportedIsMadeIff(cfg, policy, env, b, None, 0);
      }
    } else {
      var env: Environment<T> := (i: nat) => Attempt(0.0, 0.0, Raised(Exc({})));
      ReportedIsMadeIff(DEFAULT, policy, env, FRESH, None, 0);
      if policy.maxRetries >= -1 {
        assert OutcomeAt(DEFAULT, env, FRESH, 0, 0) == Raised(Exc({}));
        assert GivesUpAt(DEFAULT, policy, env, FRESH, 0, 0);
      }
      assert !ReportsRight(DEFAULT, policy, env, FRESH);
    }
  }

  const VALUE_ERROR := ExcClass("ValueError")

  /** Three retries for agent errors alone. */
  const PICKY := RetryPolicy(3, 1.0, 60.0, 2.0, false, [AGENT_ERROR])

  /** The first attempt raises a ValueError: one attempt is made and four are reported. */
  lemma EarlyStopMisreports(env: Environment<int>)
    requires env(0) == Attempt(0.0, 0.0, Raised(Exc({VALUE_ERROR})))
    ensures Made(DEFAULT, PICKY, env, FRESH, 0) == 1
    ensures Retry(DEFAULT, PICKY, env, FRESH).result.attempts == 4
    ensures GivesUpEarly(DEFAULT, PICKY, env, FRESH, 0)
  {
    assert "AgentError"[0] != "ValueError"[0];
    assert AGENT_ERROR != VALUE_ERROR && !PICKY.IsRetryable(Exc({VALUE_ERROR}));
    assert LetIn(DEFAULT, FRESH, 0.0);
    ReportedIsMadeIff(DEFAULT, PICKY, env, FRESH, None, 0);
  }

  /** `circuit.call(fn, fallback=None)` */
  method Call<T>(circuit: CircuitBreaker, a: Attempt<T>) returns (r: Outcome<T>, ghost invoked: bool)
    modifies circuit
    ensures circuit.View() == AfterCall(circuit.cfg, old(circuit.View()), a)
    ensures r == CallOutcome(circuit.cfg, old(circuit.View()), a)
    ensures invoked <==> LetIn(circuit.cfg, old(circuit.View()), a.enterAt)
  {
    var admission := circuit.TryAdmit(a.enterAt);
    invoked := admission.Admitted?;
    if !admission.Admitted? {
      return Raised(CIRCUIT_OPEN), invoked;
    }
    if a.outcome.Returned? {
      circuit.Succeeded();
    } else {
      var _ := circuit.Failed(a.endAt);
    }
    r := a.outcome;
  }

  /** `retry_async` around the guarded call. */
  method RetryAsync<T>(circuit: CircuitBreaker, policy: RetryPolicy, env: Environment<T>)
    returns (r: RetryResult<T>, ghost invocations: nat, ghost made: nat)
    modifies circuit
    ensures RetryRun(circuit.View(), r, invocations) == Retry(circuit.cfg, policy, env, old(circuit.View()))
    ensures r.success <==> r.value.Some?
    ensures made == Made(circuit.cfg, policy, env, old(circuit.View()), 0)
  {
    var lastExc: Option<Exc> := None;
    invocations, made := 0, 0;
    var attempt := 0;
    ghost var total := Made(circuit.cfg, policy, env, circuit.View(), 0);
    ghost var whole := Retry(circuit.cfg, policy, env, circuit.View());
    while attempt < policy.maxRetries + 1
      invariant attempt >= 0
      invariant var rest := RetryFrom(circuit.cfg, policy, env, circuit.View(), lastExc, attempt);
        whole == rest.(invocations := rest.invocations + invocations)
      invariant total == made + Made(circuit.cfg, policy, env, circuit.View(), attempt)
    {
      ghost var before := circuit.View();
      var outcome, invoked := Call(circuit, env(attempt));
      invocations := invocations + if invoked then 1 else 0;
      made := made + 1;
      match outcome {
        case Returned(v) =>
          return RetryResult(true, Some(v), None, attempt + 1), invocations, made;
        case Raised(e) =>
          lastExc := Some(e);
          if !policy.IsRetryable(e) { break; }
      }
      attempt := attempt + 1;
    }
    r := RetryResult(false, None, lastExc, policy.maxRetries + 1);
  }

  // ---- a function that always fails ----

  /** From the given attempt on, the function would only raise exceptions worth a retry. */
  ghost predicate AlwaysFails<T>(policy: RetryPolicy, env: Environment<T>, attempt: nat) {
    forall i: nat :: attempt <= i <= policy.maxRetries ==>
      env(i).outcome.Raised? && policy.IsRetryable(env(i).outcome.exc)
  }

  /** Attempts from the given one on reach the breaker before the moment `until`. */
  ghost predicate AllBefore<T>(policy: RetryPolicy, env: Environment<T>, attempt: nat, until: real) {
    forall i: nat :: attempt <= i <= policy.maxRetries ==> env(i).enterAt < until
  }

  /** While the breaker stays open nothing is called and nothing is counted. */
  lemma {:induction false} OpenRetryIsIdle<T>(cfg: Config, policy: RetryPolicy, env: Environment<T>, b: Breaker,
          last: Option<Exc>, attempt: nat)
    requires b.state.OPEN? && AllBefore(policy, env, attempt, OpenedAt(b) + cfg.timeout)
    ensures var run := RetryFrom(cfg, policy, env, b, last, attempt);
      run.breaker == b && run.invocations == 0 && !run.result.success && run.result.attempts == policy.maxRetries + 1
    decreases policy.maxRetries + 1 - attempt
  {
    if attempt <= policy.maxRetries && policy.IsRetryable(CIRCUIT_OPEN) {
      OpenRetryIsIdle(cfg, policy, env, b, Some(CIRCUIT_OPEN), attempt + 1);
    }
  }

  /** An always-failing function is called until the attempts or the failures that the closed
      breaker still tolerates run out, whichever comes first; what attempts remain fail fast
      and leave the count alone. */
  lemma {:induction false} FailingRetry<T>(cfg: Config, policy: RetryPolicy, env: Environment<T>, b: Breaker,
          last: Option<Exc>, attempt: nat)
    requires b.state.CLOSED? && b.failures < cfg.failureThreshold && attempt <= policy.maxRetries + 1
    requires AlwaysFails(policy, env, attempt)
    requires var tripping := attempt + (cfg.failureThreshold - b.failures) - 1;
      AllBefore(policy, env, tripping + 1, env(tripping).endAt + cfg.timeout)
    ensures var run := RetryFrom(cfg, policy, env, b, last, attempt);
      var attempts, tolerated := policy.maxRetries + 1 - attempt, cfg.failureThreshold - b.failures;
      && run.invocations == (if attempts <= tolerated then attempts else tolerated)
      && run.breaker.failures == b.failures + run.invocations
      && (run.breaker.state.OPEN? <==> attempts >= tolerated)
      && !run.result.success && run.result.attempts == policy.maxRetries + 1
    decreases policy.maxRetries + 1 - attempt
  {
    if attempt <= policy.maxRetries {
      var a := env(attempt);
      var after := AfterCall(cfg, b, a);
      assert a.outcome.Raised? && policy.IsRetryable(a.outcome.exc);
      if after.state.CLOSED? {
        FailingRetry(cfg, policy, env, after, Some(a.outcome.exc), attempt + 1);
      } else {
        OpenRetryIsIdle(cfg, policy, env, after, Some(a.outcome.exc), attempt + 1);
      }
    }
  }

  // ---- attempts that come in time ----

  /** Each sleep is at most the one before times the base, and at most the maximum. */
  lemma DelaysGrow(policy: RetryPolicy, attempt: nat)
    requires policy.maxDelay >= 0.0 && policy.baseDelay >= 0.0 && policy.exponentialBase >= 1.0
    ensures policy.DelayCap(0) == if policy.baseDelay <= policy.maxDelay then policy.baseDelay else policy.maxDelay
    ensures var next := policy.DelayCap(attempt) * policy.exponentialBase;
      policy.DelayCap(attempt + 1) == if next <= policy.maxDelay then next else policy.maxDelay
  {
    var x, base := policy.baseDelay * Power(policy.exponentialBase, attempt), policy.exponentialBase;
    assert Power(base, attempt + 1) == base * Power(base, attempt);
    assert policy.baseDelay * (base * Power(base, attempt)) == x * base;
    if x > policy.maxDelay {
      GrowsBy(x, base);
      GrowsBy(policy.maxDelay, base);
    }
  }

  lemma GrowsBy(x: real, base: real)
    requires x >= 0.0 && base >= 1.0
    ensures x * base >= x
    ensures x * base <= x ==> x * base == x
  {
    assert x * (base - 1.0) >= 0.0;
    assert x * base == x * (base - 1.0) + x;
  }

  /** Attempts come one after the other; `slack` bounds what a call and the scheduling add to the sleep. */
  ghost predicate Punctual<T>(policy: RetryPolicy, env: Environment<T>, slack: real) {
    slack >= 0.0 && forall i: nat ::
      env(i).enterAt <= env(i).endAt <= env(i + 1).enterAt <= env(i).enterAt + policy.DelayCap(i) + slack
  }

  /** The longest that the loop can take from one attempt to another. */
  function Span(policy: RetryPolicy, slack: real, first: nat, last: nat): real
    requires first <= last
    decreases last - first
  {
    if first == last then 0.0 else policy.DelayCap(first) + slack + Span(policy, slack, first + 1, last)
  }

  lemma {:induction false} ArrivesWithin<T>(policy: RetryPolicy, env: Environment<T>, slack: real, first: nat,
          last: nat)
    requires Punctual(policy, env, slack) && first <= last
    ensures env(last).enterAt <= env(first).enterAt + Span(policy, slack, first, last)
    decreases last - first
  {
    if first < last {
      ArrivesWithin(policy, env, slack, first + 1, last);
    }
  }

  lemma {:induction false} SpanGrows<T>(policy: RetryPolicy, env: Environment<T>, slack: real, first: nat, last: nat,
          end: nat)
    requires Punctual(policy, env, slack) && first <= last <= end
    ensures 0.0 <= Span(policy, slack, first, last) <= Span(policy, slack, first, end)
    ensures Span(policy, slack, last, end) <= Span(policy, slack, first, end)
    decreases end - first
  {
    if first < last {
      assert env(first).enterAt <= env(first + 1).enterAt;
      SpanGrows(policy, env, slack, first + 1, last, end);
    } else if last < end {
      assert env(last).enterAt <= env(last + 1).enterAt;
      SpanGrows(policy, env, slack, last + 1, last + 1, end);
    }
  }

  /** If all sleeps of the policy fit into the breaker's timeout, an always-failing function is
      called exactly min(maxRetries + 1, failureThreshold - failures) times. */
  lemma PunctualFailingRetry<T>(cfg: Config, policy: RetryPolicy, env: Environment<T>, b: Breaker, slack: real)
    requires b.state.CLOSED? && b.failures < cfg.failureThreshold && policy.maxRetries >= 0
    requires AlwaysFails(policy, env, 0) && Punctual(policy, env, slack)
    requires Span(policy, slack, 0, policy.maxRetries) < cfg.timeout
    ensures var run := Retry(cfg, policy, env, b); var tolerated := cfg.failureThreshold - b.failures;
      && run.invocations == (if policy.maxRetries + 1 <= tolerated then policy.maxRetries + 1 else tolerated)
      && run.breaker.failures == b.failures + run.invocations
      && (run.breaker.state.OPEN? <==> policy.maxRetries + 1 >= tolerated)
  {
    var tripping := cfg.failureThreshold - b.failures - 1;
    forall i: nat | tripping + 1 <= i <= policy.maxRetries ensures env(i).enterAt < env(tripping).endAt + cfg.timeout {
      ArrivesWithin(policy, env, slack, tripping, i);
      SpanGrows(policy, env, slack, tripping, i, policy.maxRetries);
      SpanGrows(policy, env, slack, 0, tripping, policy.maxRetries);
      assert env(tripping).enterAt <= env(tripping).endAt;
    }
    FailingRetry(cfg, policy, env, b, None, 0);
  }

  // ---- the retry loop among all interleavings ----

  ghost predicate TimesInOrder<T>(env: Environment<T>, now: real, attempt: nat) {
    && now <= env(attempt).enterAt
    && forall i: nat :: attempt <= i ==> env(i).enterAt <= env(i).endAt <= env(i + 1).enterAt
  }

  /** Used exclusively, the retry loop is one of the breaker's one-at-a-time runs, so all that
      holds of those holds of it. */
  lemma {:induction false} RetryIsSequentialRun<T>(cfg: Config, policy: RetryPolicy, env: Environment<T>, s: System,
          last: Option<Exc>, attempt: nat)
    returns (events: seq<Event>, end: System)
    requires s.inFlight == 0 && TimesInOrder(env, s.now, attempt)
    ensures IsSequentialRun(cfg, s, events, end)
    ensures end.b == RetryFrom(cfg, policy, env, s.b, last, attempt).breaker && end.inFlight == 0
    decreases policy.maxRetries + 1 - attempt
  {
    if attempt > policy.maxRetries {
      return [], s;
    }
    var a := env(attempt);
    var arrive, leave := Advance(a.enterAt - s.now), Advance(a.endAt - a.enterAt);
    var s1 := Next(cfg, s, arrive);
    var s2 := Next(cfg, s1, Enter);
    var outcome := CallOutcome(cfg, s.b, a);
    var goOn := outcome.Raised? && policy.IsRetryable(outcome.exc);
    assert TimesInOrder(env, a.endAt, attempt + 1);
    var after := s2;
    var call: seq<Event> := [];
    if LetIn(cfg, s.b, a.enterAt) {
      var done := if a.outcome.Returned? then Succeed else Fail;
      var s3 := Next(cfg, s2, leave);
      after := Next(cfg, s3, done);
      call := [leave, done];
    }
    assert after.b == AfterCall(cfg, s.b, a) && after.inFlight == 0;
    if goOn {
      events, end := RetryIsSequentialRun(cfg, policy, env, after, Some(outcome.exc), attempt + 1);
    } else {
      events, end := [], after;
    }
    if call != [] {
      SequentialCons(cfg, Next(cfg, s2, leave), call[1], events, end);
      SequentialCons(cfg, s2, leave, [call[1]] + events, end);
      events := [leave] + ([call[1]] + events);
    }
    SequentialCons(cfg, s1, Enter, events, end);
    SequentialCons(cfg, s, arrive, [Enter] + events, end);
    events := [arrive] + ([Enter] + events);
  }

  // ---- one pipeline step ----

  datatype StepStatus = PENDING | RUNNING | SUCCESS | FAILED | SKIPPED | RECOVERED

  datatype FallbackMode = NO_FALLBACK | CACHED | ALTERNATIVE_MODEL | ALTERNATIVE_AGENT | DEGRADED

  datatype Role = Role(name: string)

  /** `mode`, and whether a fallback model and a fallback agent are named. */
  datatype FallbackConfig = FallbackConfig(mode: FallbackMode, hasModel: bool, hasAgent: bool)

  /** `FallbackStrategy.decide`: a mode whose means are missing degrades, and so does a cached None. */
  function Decide<T>(fb: FallbackConfig, cache: map<Role, Option<T>>, role: Role): FallbackMode {
    match fb.mode
    case CACHED => if role in cache && cache[role].Some? then CACHED else DEGRADED
    case ALTERNATIVE_MODEL => if fb.hasModel then ALTERNATIVE_MODEL else DEGRADED
    case ALTERNATIVE_AGENT => if fb.hasAgent then ALTERNATIVE_AGENT else DEGRADED
    case other => other
  }

  /** Python's None, as a result, is None here. */
  class PipelineStep<T> {
    const role: Role
    var status: StepStatus
    var result: Option<T>
    var error: Option<Exc>
    var attempts: int
    var fallbackUsed: Option<FallbackMode>

    constructor (role: Role)
      ensures this.role == role && status == PENDING && result == None && error == None && attempts == 0
        && fallbackUsed == None
    {
      this.role := role;
      status, result, error, attempts, fallbackUsed := PENDING, None, None, 0, None;
    }
  }

  /** The mark that `run_step` leaves on a step: its status, and the fallback and result it stores, if any. */
  datatype Ending<T> = Ending(status: StepStatus, fallback: Option<FallbackMode>, result: Option<Option<T>>)

  /** How a step has to end, given what the retry loop came to. */
  function StepEnd<T>(run: RetryResult<Option<T>>, fb: FallbackConfig, cache: map<Role, Option<T>>, role: Role,
                      alternative: Option<Outcome<Option<T>>>, continueOnFailure: bool): Ending<T>
  {
    if run.success then Ending(SUCCESS, None, run.value)
    else
      var mode := Decide(fb, cache, role);
      if mode.CACHED? then Ending(RECOVERED, Some(CACHED), if role in cache then Some(cache[role]) else None)
      else if mode.ALTERNATIVE_MODEL? && alternative.Some? && alternative.value.Returned?
      then Ending(RECOVERED, Some(ALTERNATIVE_MODEL), Some(alternative.value.value))
      else if mode.DEGRADED? || continueOnFailure then Ending(SKIPPED, Some(DEGRADED), None)
      else Ending(FAILED, None, None)
  }

  // ---- how a step ends, from the configuration and what happened before ----

  /** What a step leaves behind for later steps: its role, and what its retries came to. */
  datatype PastStep<T> = PastStep(role: Role, run: RetryResult<Option<T>>)

  /** The cache after these steps, the way `run_step` fills it. */
  function CacheAfter<T>(past: seq<PastStep<T>>): map<Role, Option<T>> {
    if past == [] then map[]
    else
      var cache, last := CacheAfter(past[..|past| - 1]), past[|past| - 1];
      if last.run.success && last.run.value.Some? then cache[last.role := last.run.value.value] else cache
  }

  predicate Succeeded<T>(step: PastStep<T>, role: Role) {
    step.role == role && step.run.success && step.run.value.Some?
  }

  /** Step i is the last success of the role. */
  predicate LastSuccess<T>(past: seq<PastStep<T>>, role: Role, i: nat) {
    i < |past| && Succeeded(past[i], role) && forall j :: i < j < |past| ==> !Succeeded(past[j], role)
  }

  lemma {:induction false} CacheHoldsLastSuccess<T>(past: seq<PastStep<T>>, role: Role)
    ensures role in CacheAfter(past) <==> exists i: nat :: LastSuccess(past, role, i)
    ensures forall i: nat :: LastSuccess(past, role, i) ==> CacheAfter(past)[role] == past[i].run.value.value
  {
    if past != [] {
      var n := |past| - 1;
      CacheHoldsLastSuccess(past[..n], role);
      if Succeeded(past[n], role) {
        assert LastSuccess(past, role, n);
      } else {
        forall i: nat ensures LastSuccess(past, role, i) <==> LastSuccess(past[..n], role, i) {
          if LastSuccess(past[..n], role, i) {
            forall j | i < j < |past| ensures !Succeeded(past[j], role) {
              assert j < n ==> past[..n][j] == past[j];
            }
          }
          if LastSuccess(past, role, i) {
            forall j | i < j < n ensures !Succeeded(past[..n][j], role) {
              assert past[..n][j] == past[j];
            }
          }
        }
      }
    }
  }

  /** Some earlier step of the role succeeded, and the last to do so returned something. */
  ghost predicate Remembered<T>(past: seq<PastStep<T>>, role: Role) {
    exists i: nat :: LastSuccess(past, role, i) && past[i].run.value.value.Some?
  }

  /** The alternative model is configured and returns. */
  predicate AlternativeReturns<T>(fb: FallbackConfig, alternative: Option<Outcome<Option<T>>>) {
    fb.mode.ALTERNATIVE_MODEL? && fb.hasModel && alternative.Some? && alternative.value.Returned?
  }

  /** The configured fallback is the degraded mode, or lacks what it needs. */
  ghost predicate Degrades<T>(fb: FallbackConfig, past: seq<PastStep<T>>, role: Role) {
    || fb.mode.DEGRADED?
    || (fb.mode.CACHED? && !Remembered(past, role))
    || (fb.mode.ALTERNATIVE_MODEL? && !fb.hasModel)
    || (fb.mode.ALTERNATIVE_AGENT? && !fb.hasAgent)
  }

  /** After a failed retry a step is recovered exactly by what its role last returned or by the
      alternative model, and with that very result; otherwise it is skipped exactly if its fallback
      degrades or failures may be passed over. */
  lemma StepEndsIff<T>(run: RetryResult<Option<T>>, fb: FallbackConfig, past: seq<PastStep<T>>, role: Role,
          alternative: Option<Outcome<Option<T>>>, continueOnFailure: bool)
    ensures var end := StepEnd(run, fb, CacheAfter(past), role, alternative, continueOnFailure);
      && (run.success ==> end == Ending(SUCCESS, None, run.value))
      && (end.status.RECOVERED? <==>
          !run.success && ((fb.mode.CACHED? && Remembered(past, role)) || AlternativeReturns(fb, alternative)))
      && (forall i: nat :: end.status.RECOVERED? && fb.mode.CACHED? && LastSuccess(past, role, i) ==>
            end == Ending(RECOVERED, Some(CACHED), Some(past[i].run.value.value)))
      && (end.status.RECOVERED? && fb.mode.ALTERNATIVE_MODEL? ==>
            alternative.Some? && alternative.value.Returned?
            && end == Ending(RECOVERED, Some(ALTERNATIVE_MODEL), Some(alternative.value.value)))
      && (end.status.SKIPPED? <==>
          !run.success && !end.status.RECOVERED? && (Degrades(fb, past, role) || continueOnFailure))
      && (end.status.SKIPPED? ==> end == Ending(SKIPPED, Some(DEGRADED), None))
      && (end.status.FAILED? <==>
          !run.success && !end.status.RECOVERED? && !Degrades(fb, past, role) && !continueOnFailure)
      && (end.status.FAILED? ==> end == Ending(FAILED, None, None))
  {
    CacheHoldsLastSuccess(past, role);
    hide CacheAfter, LastSuccess;
  }

  class RecoveryManager<T> {
    const policy: RetryPolicy
    const fallback: FallbackConfig
    const continueOnFailure: bool
    const breakerConfig: Config
    var breakers: map<Role, CircuitBreaker>
    var cache: map<Role, Option<T>>
    /** The steps run so far. */
    ghost var past: seq<PastStep<T>>

    ghost predicate Valid()
      reads this
    {
      && cache == CacheAfter(past)
      && (forall r :: r in breakers ==> breakers[r].cfg == breakerConfig)
      && forall r, q :: r in breakers && q in breakers && r != q ==> breakers[r] != breakers[q]
    }

    constructor (policy: RetryPolicy, fallback: FallbackConfig, continueOnFailure: bool, breakerConfig: Config)
      ensures Valid() && breakers == map[] && cache == map[] && past == []
    {
      this.policy, this.fallback, this.continueOnFailure, this.breakerConfig := policy, fallback, continueOnFailure,
        breakerConfig;
      breakers, cache, past := map[], map[], [];
    }

    /** `CircuitBreakerRegistry.get` */
    method GetBreaker(role: Role) returns (circuit: CircuitBreaker)
      requires Valid()
      modifies `breakers
      ensures Valid() && breakers == old(breakers)[role := circuit]
      ensures if role in old(breakers) then circuit == old(breakers)[role]
        else fresh(circuit) && circuit.View() == FRESH
    {
      if role !in breakers {
        var created := new CircuitBreaker(breakerConfig);
        breakers := breakers[role := created];
      }
      circuit := breakers[role];
    }

    /** `run_step`. The result is what the call returns, or the exception it raises; `started`
        is the state of the role's breaker when the step began. */
    method RunStep(step: PipelineStep<T>, env: Environment<Option<T>>, alternative: Option<Outcome<Option<T>>>)
      returns (r: Result<Option<T>, Option<Exc>>, ghost started: Breaker, ghost invocations: nat)
      requires Valid()
      modifies this, step, breakers.Values
      ensures Valid() && step.role in breakers
      ensures started == if step.role in old(breakers) then old(breakers[step.role].View()) else FRESH
      ensures past == old(past) + [PastStep(step.role, Retry(breakerConfig, policy, env, started).result)]
      ensures var run := Retry(breakerConfig, policy, env, started);
        && breakers[step.role].View() == run.breaker && invocations == run.invocations
        && step.attempts == run.result.attempts
        && cache == (if run.result.success then old(cache)[step.role := run.result.value.value] else old(cache))
        && step.error == (if run.result.success then old(step.error) else run.result.lastException)
        && (r.Err? ==> r.error == run.result.lastException)
      ensures var end := StepEnd(Retry(breakerConfig, policy, env, started).result, fallback, old(cache), step.role,
        alternative, continueOnFailure);
        && step.status == end.status
        && step.fallbackUsed == (if end.fallback.Some? then end.fallback else old(step.fallbackUsed))
        && step.result == (if end.result.Some? then end.result.value else old(step.result))
      ensures r.Err? <==> step.status.FAILED?
      ensures r.Ok? ==> r.value == if step.status.SKIPPED? then None else step.result
      ensures forall q :: q in old(breakers) && q != step.role ==>
        q in breakers && breakers[q] == old(breakers[q]) && breakers[q].View() == old(breakers[q].View())
    {
      hide Retry, StepEnd;
      step.status := RUNNING;
      var circuit := GetBreaker(step.role);
      started := circuit.View();
      var retry;
      ghost var made;
      retry, invocations, made := RetryAsync(circuit, policy, env);
      r := Conclude(step, retry, alternative);
      past := past + [PastStep(step.role, retry)];
      assert past[..|past| - 1] == old(past);
    }

    /** The part of `run_step` after the retry loop. */
    method Conclude(step: PipelineStep<T>, retry: RetryResult<Option<T>>, alternative: Option<Outcome<Option<T>>>)
      returns (r: Result<Option<T>, Option<Exc>>)
      requires retry.success <==> retry.value.Some?
      modifies `cache, step
      ensures step.attempts == retry.attempts
      ensures cache == if retry.success then old(cache)[step.role := retry.value.value] else old(cache)
      ensures step.error == if retry.success then old(step.error) else retry.lastException
      ensures var end := StepEnd(retry, fallback, old(cache), step.role, alternative, continueOnFailure);
        && step.status == end.status
        && step.fallbackUsed == (if end.fallback.Some? then end.fallback else old(step.fallbackUsed))
        && step.result == (if end.result.Some? then end.result.value else old(step.result))
      ensures r.Err? <==> step.status.FAILED?
      ensures r.Err? ==> r.error == retry.lastException
      ensures r.Ok? ==> r.value == if step.status.SKIPPED? then None else step.result
    {
      step.attempts := retry.attempts;
      if retry.success {
        step.status, step.result := SUCCESS, retry.value.value;
        cache := cache[step.role := retry.value.value];
        return Ok(step.result);
      }
      step.error := retry.lastException;
      var mode := Decide(fallback, cache, step.role);
      if mode.CACHED? {
        step.status, step.result, step.fallbackUsed := RECOVERED, cache[step.role], Some(CACHED);
        return Ok(step.result);
      }
      if mode.ALTERNATIVE_MODEL? && alternative.Some? && alternative.value.Returned? {
        step.status, step.result, step.fallbackUsed := RECOVERED, alternative.value.value, Some(ALTERNATIVE_MODEL);
        return Ok(step.result);
      }
      if mode.DEGRADED? || continueOnFailure {
        step.status, step.fallbackUsed := SKIPPED, Some(DEGRADED);
        return Ok(None);
      }
      step.status := FAILED;
      r := Err(retry.lastException);
    }
  }
}
