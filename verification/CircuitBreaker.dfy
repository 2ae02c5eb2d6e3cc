/** The circuit breaker: its metrics as a value, the object that updates them in place, and what
    holds when any number of asynchronous calls interleave. */
module CircuitBreaker {
  import opened Options

  datatype CircuitState = Closed | Open | HalfOpen

  datatype Config = Config(failureThreshold: int, recoveryTimeout: real, successThreshold: int)

  datatype Metrics = Metrics(
    state: CircuitState, failureCount: nat, successCount: nat,
    lastFailureTime: Option<real>, lastStateChange: real,
    totalCalls: nat, totalFailures: nat, totalSuccesses: nat)

  function NewMetrics(now: real): Metrics {
    Metrics(Closed, 0, 0, None, now, 0, 0, 0)
  }

  predicate ShouldAttemptReset(m: Metrics, now: real, cfg: Config) {
    now - m.lastStateChange >= cfg.recoveryTimeout
  }

  /** Is a call let through at this time? */
  predicate Admits(m: Metrics, now: real, cfg: Config) {
    m.state != Open || ShouldAttemptReset(m, now, cfg)
  }

  /** The metrics once a call has been let through. */
  function Admitted(m: Metrics): Metrics {
    if m.state == Open then m.(state := HalfOpen, successCount := 0) else m
  }

  function Opened(m: Metrics, now: real): Metrics {
    if m.state != Open then m.(state := Open, lastStateChange := now) else m
  }

  function Reclosed(m: Metrics, now: real): Metrics {
    if m.state != Closed
    then m.(state := Closed, failureCount := 0, successCount := 0, lastFailureTime := None, lastStateChange := now)
    else m
  }

  function Succeeded(m: Metrics, now: real, cfg: Config): Metrics {
    var m1 := m.(successCount := m.successCount + 1,
                 totalSuccesses := m.totalSuccesses + 1, totalCalls := m.totalCalls + 1);
    match m1.state
    case HalfOpen => if m1.successCount >= cfg.successThreshold then Reclosed(m1, now) else m1
    case Closed => m1.(failureCount := 0)
    case Open => m1
  }

  function Failed(m: Metrics, now: real, cfg: Config): Metrics {
    var m1 := m.(failureCount := m.failureCount + 1, totalFailures := m.totalFailures + 1,
                 totalCalls := m.totalCalls + 1, lastFailureTime := Some(now));
    if m1.state == HalfOpen || m1.failureCount >= cfg.failureThreshold then Opened(m1, now) else m1
  }

  /** How a call that was let through ends: cancellation is no Exception and is not recorded. */
  datatype Ending = Success | Failure | ExcludedFailure | Cancellation

  function Recorded(m: Metrics, ending: Ending, now: real, cfg: Config): Metrics {
    match ending
    case Success => Succeeded(m, now, cfg)
    case Failure => Failed(m, now, cfg)
    case ExcludedFailure => m
    case Cancellation => m
  }

  class Breaker {
    const cfg: Config
    var state: CircuitState
    var failureCount: nat
    var successCount: nat
    var lastFailureTime: Option<real>
    var lastStateChange: real
    var totalCalls: nat
    var totalFailures: nat
    var totalSuccesses: nat

    function View(): Metrics
      reads this
    {
      Metrics(state, failureCount, successCount, lastFailureTime, lastStateChange,
              totalCalls, totalFailures, totalSuccesses)
    }

    constructor (cfg: Config, now: real)
      ensures this.cfg == cfg && View() == NewMetrics(now)
    {
      this.cfg := cfg;
      state, failureCount, successCount, lastFailureTime, lastStateChange := Closed, 0, 0, None, now;
      totalCalls, totalFailures, totalSuccesses := 0, 0, 0;
    }

    /** The entry of call and call_async; false stands for CircuitBreakerOpenError. */
    method Enter(now: real) returns (admitted: bool)
      modifies this
      ensures admitted <==> Admits(old(View()), now, cfg)
      ensures View() == if admitted then Admitted(old(View())) else old(View())
    {
      if state == Open {
        if now - lastStateChange >= cfg.recoveryTimeout {
          state := HalfOpen;
          successCount := 0;
        } else {
          return false;
        }
      }
      return true;
    }

    method OpenCircuit(now: real)
      modifies this
      ensures View() == Opened(old(View()), now)
    {
      if state != Open {
        state := Open;
        lastStateChange := now;
      }
    }

    method CloseCircuit(now: real)
      modifies this
      ensures View() == Reclosed(old(View()), now)
    {
      if state != Closed {
        state := Closed;
        failureCount, successCount, lastFailureTime := 0, 0, None;
        lastStateChange := now;
      }
    }

    method RecordSuccess(now: real)
      modifies this
      ensures View() == Succeeded(old(View()), now, cfg)
    {
      successCount := successCount + 1;
      totalSuccesses := totalSuccesses + 1;
      totalCalls := totalCalls + 1;
      if state == HalfOpen {
        if successCount >= cfg.successThreshold {
          CloseCircuit(now);
        }
      } else if state == Closed {
        failureCount := 0;
      }
    }

    method RecordFailure(excluded: bool, now: real)
      modifies this
      ensures View() == if excluded then old(View()) else Failed(old(View()), now, cfg)
    {
      if excluded { return; }
      failureCount := failureCount + 1;
      totalFailures := totalFailures + 1;
      totalCalls := totalCalls + 1;
      lastFailureTime := Some(now);
      if state == HalfOpen {
        OpenCircuit(now);
      } else if failureCount >= cfg.failureThreshold {
        OpenCircuit(now);
      }
    }

    /** The synchronous call around a function that ends as given. */
    method Call(ending: Ending, entered: real, ended: real) returns (admitted: bool)
      modifies this
      ensures admitted <==> Admits(old(View()), entered, cfg)
      ensures View() == if admitted then Recorded(Admitted(old(View())), ending, ended, cfg) else old(View())
    {
      admitted := Enter(entered);
      if !admitted { return; }
      match ending {
        case Success => RecordSuccess(ended);
        case Failure => RecordFailure(false, ended);
        case ExcludedFailure => RecordFailure(true, ended);
        case Cancellation =>
      }
    }
  }

  // Interleaved asynchronous calls.

  type Elapsed = t: real | t >= 0.0 witness 0.0

  datatype System<C> = System(
    metrics: Metrics, clock: real, inFlight: set<C>,
    admitted: nat, excluded: nat, cancelled: nat, halfOpenings: seq<real>)

  datatype Step<C> =
    | Begin(call: C, wait: Elapsed)
    | End(call: C, ending: Ending, wait: Elapsed)

  /** One step after some waiting time: a new call enters or is refused, or a call in flight ends. */
  ghost function Apply<C>(s: System<C>, step: Step<C>, cfg: Config): System<C> {
    var now := s.clock + step.wait;
    var s1 := s.(clock := now);
    match step
    case Begin(call, _) =>
      if call in s.inFlight || !Admits(s.metrics, now, cfg) then s1
      else s1.(metrics := Admitted(s.metrics), inFlight := s.inFlight + {call}, admitted := s.admitted + 1,
               halfOpenings := if s.metrics.state == Open then s.halfOpenings + [now] else s.halfOpenings)
    case End(call, ending, _) =>
      if call !in s.inFlight then s1
      else s1.(metrics := Recorded(s.metrics, ending, now, cfg), inFlight := s.inFlight - {call},
               excluded := s.excluded + (if ending == ExcludedFailure then 1 else 0),
               cancelled := s.cancelled + (if ending == Cancellation then 1 else 0))
  }

  ghost function Run<C>(s: System<C>, steps: seq<Step<C>>, cfg: Config): System<C>
    decreases |steps|
  {
    if steps == [] then s else Run(Apply(s, steps[0], cfg), steps[1..], cfg)
  }

  ghost function Fresh<C>(now: real): System<C> {
    System(NewMetrics(now), now, {}, 0, 0, 0, [])
  }

  ghost predicate Spaced(times: seq<real>, gap: real) {
    forall i, j :: 0 <= i < j < |times| ==> times[j] - times[i] >= gap
  }

  ghost predicate Good<C>(s: System<C>, cfg: Config) {
    var m := s.metrics;
    && (m.state == Closed <==> m.failureCount < cfg.failureThreshold)
    && (m.state == HalfOpen ==> m.successCount < cfg.successThreshold)
    && m.totalCalls == m.totalSuccesses + m.totalFailures
    && s.admitted == |s.inFlight| + m.totalCalls + s.excluded + s.cancelled
    && m.lastStateChange <= s.clock
    && Spaced(s.halfOpenings, cfg.recoveryTimeout)
    && (forall i :: 0 <= i < |s.halfOpenings| ==> s.halfOpenings[i] <= s.clock)
    && (m.state == Open ==> forall i :: 0 <= i < |s.halfOpenings| ==> s.halfOpenings[i] <= m.lastStateChange)
  }

  lemma ApplyKeepsGood<C>(s: System<C>, step: Step<C>, cfg: Config)
    requires cfg.failureThreshold >= 1 && cfg.successThreshold >= 1 && Good(s, cfg)
    ensures Good(Apply(s, step, cfg), cfg)
  {
    match step {
      case Begin(call, wait) => BeginKeepsGood(s, call, wait, cfg);
      case End(call, ending, wait) => EndKeepsGood(s, call, ending, wait, cfg);
    }
  }

  lemma BeginKeepsGood<C>(s: System<C>, call: C, wait: Elapsed, cfg: Config)
    requires cfg.failureThreshold >= 1 && cfg.successThreshold >= 1 && Good(s, cfg)
    ensures Good(Apply(s, Begin(call, wait), cfg), cfg)
  {
    assert call !in s.inFlight ==> |s.inFlight + {call}| == |s.inFlight| + 1;
  }

  lemma EndKeepsGood<C>(s: System<C>, call: C, ending: Ending, wait: Elapsed, cfg: Config)
    requires cfg.failureThreshold >= 1 && cfg.successThreshold >= 1 && Good(s, cfg)
    ensures Good(Apply(s, End(call, ending, wait), cfg), cfg)
  {
    hide Spaced, Admits;
    assert call in s.inFlight ==> |s.inFlight - {call}| == |s.inFlight| - 1;
  }

  /** Main result: under any interleaving of calls, CLOSED means fewer failures than the threshold
      and conversely, HALF_OPEN means fewer successes than its threshold, every admitted call is in
      flight, counted, excluded or cancelled, and HALF_OPEN is entered at most once per recovery
      timeout. */
  lemma {:induction false} InterleavedCallsKeepGood<C>(now: real, steps: seq<Step<C>>, cfg: Config)
    requires cfg.failureThreshold >= 1 && cfg.successThreshold >= 1
    ensures Good(Run(Fresh<C>(now), steps, cfg), cfg)
  {
    RunKeepsGood(Fresh<C>(now), steps, cfg);
  }

  lemma {:induction false} RunKeepsGood<C>(s: System<C>, steps: seq<Step<C>>, cfg: Config)
    requires cfg.failureThreshold >= 1 && cfg.successThreshold >= 1 && Good(s, cfg)
    ensures Good(Run(s, steps, cfg), cfg)
    decreases |steps|
  {
    if steps != [] {
      ApplyKeepsGood(s, steps[0], cfg);
      RunKeepsGood(Apply(s, steps[0], cfg), steps[1..], cfg);
    }
  }

  lemma {:induction false} ClockRuns<C>(s: System<C>, steps: seq<Step<C>>, cfg: Config)
    ensures s.clock <= Run(s, steps, cfg).clock
    decreases |steps|
  {
    if steps != [] { ClockRuns(Apply(s, steps[0], cfg), steps[1..], cfg); }
  }

  lemma {:induction false} StaysOpenUntilTimeout<C>(s: System<C>, steps: seq<Step<C>>, cfg: Config)
    requires s.metrics.state == Open
    requires Run(s, steps, cfg).clock - s.metrics.lastStateChange < cfg.recoveryTimeout
    ensures var s' := Run(s, steps, cfg);
            && s'.metrics.state == Open && s'.metrics.lastStateChange == s.metrics.lastStateChange
            && s'.admitted == s.admitted
    decreases |steps|
  {
    if steps != [] {
      var s1 := Apply(s, steps[0], cfg);
      ClockRuns(s1, steps[1..], cfg);
      assert s1.metrics.state == Open && s1.metrics.lastStateChange == s.metrics.lastStateChange;
      StaysOpenUntilTimeout(s1, steps[1..], cfg);
    }
  }

  /** Main result: however the calls still in flight end, an open breaker admits nothing until its
      timeout has passed since it opened, and the first call after that. */
  lemma OpenRefusesExactlyForItsTimeout<C>(s: System<C>, steps: seq<Step<C>>, call: C, wait: Elapsed, cfg: Config)
    requires s.metrics.state == Open
    requires Run(s, steps, cfg).clock - s.metrics.lastStateChange < cfg.recoveryTimeout
    requires call !in Run(s, steps, cfg).inFlight
    ensures var s' := Run(s, steps, cfg);
            var next := Apply(s', Begin(call, wait), cfg);
            && s'.admitted == s.admitted
            && (next.admitted == s.admitted + 1 <==> next.clock - s.metrics.lastStateChange >= cfg.recoveryTimeout)
            && (next.admitted == s.admitted + 1 ==> next.metrics.state == HalfOpen && call in next.inFlight)
  {
    hide Run;
    StaysOpenUntilTimeout(s, steps, cfg);
  }

  /** A trial that closes the breaker makes it forget what it counted. */
  lemma ClosingForgets(m: Metrics, now: real, cfg: Config)
    requires m.state == HalfOpen && Recorded(m, Success, now, cfg).state == Closed
    ensures var m' := Recorded(m, Success, now, cfg);
            m' == NewMetrics(now).(totalCalls := m.totalCalls + 1, totalSuccesses := m.totalSuccesses + 1,
                                   totalFailures := m.totalFailures)
  {
  }

  // Recovery.

  /** A call that comes and ends before the next one comes. */
  datatype Finished = Finished(ending: Ending, entered: real, ended: real)

  /** The metrics after calls one after the other; a call that is not admitted changes nothing. */
  function AfterCalls(m: Metrics, calls: seq<Finished>, cfg: Config): Metrics {
    if calls == [] then m
    else
      var m1 := AfterCalls(m, calls[..|calls| - 1], cfg);
      var last := calls[|calls| - 1];
      if Admits(m1, last.entered, cfg) then Recorded(Admitted(m1), last.ending, last.ended, cfg) else m1
  }

  function Successes(calls: seq<Finished>): nat {
    if calls == [] then 0
    else Successes(calls[..|calls| - 1]) + (if calls[|calls| - 1].ending == Success then 1 else 0)
  }

  predicate NoFailures(calls: seq<Finished>) {
    forall i :: 0 <= i < |calls| ==> calls[i].ending != Failure
  }

  /** Left to itself an open breaker recovers: once the timeout is over it admits calls at whatever
      times, is HALF_OPEN while fewer than `successThreshold` of them have succeeded, and CLOSED with
      its failures forgotten from then on. Excluded and cancelled calls do not count. */
  lemma {:induction false} OpenBreakerRecovers(m: Metrics, calls: seq<Finished>, cfg: Config)
    requires cfg.failureThreshold >= 1 && cfg.successThreshold >= 1
    requires m.state == Open && calls != [] && ShouldAttemptReset(m, calls[0].entered, cfg) && NoFailures(calls)
    ensures Admits(m, calls[0].entered, cfg)
    ensures var m' := AfterCalls(m, calls, cfg);
            if Successes(calls) < cfg.successThreshold
            then m'.state == HalfOpen && m'.successCount == Successes(calls)
            else m'.state == Closed && m'.failureCount == 0
    decreases |calls|
  {
    var before, last := calls[..|calls| - 1], calls[|calls| - 1];
    if before == [] {
      assert AfterCalls(m, before, cfg) == m && Successes(before) == 0;
    } else {
      OpenBreakerRecovers(m, before, cfg);
    }
  }

  /** A trial that fails before enough calls have succeeded opens the breaker again, for another full
      timeout from its end. */
  lemma FailedTrialReopens(m: Metrics, calls: seq<Finished>, failed: Finished, cfg: Config)
    requires cfg.failureThreshold >= 1 && cfg.successThreshold >= 1
    requires m.state == Open && ShouldAttemptReset(m, (calls + [failed])[0].entered, cfg)
    requires NoFailures(calls) && Successes(calls) < cfg.successThreshold && failed.ending == Failure
    ensures var m' := AfterCalls(m, calls + [failed], cfg);
            && m'.state == Open
            && forall now :: Admits(m', now, cfg) <==> now - failed.ended >= cfg.recoveryTimeout
  {
    hide AfterCalls, Successes, NoFailures, Recorded, Admitted, Admits;
    LastCall(m, calls, failed, cfg);
    if calls == [] {
      NoCalls(m, cfg);
    } else {
      assert calls[0] == (calls + [failed])[0];
      OpenBreakerRecovers(m, calls, cfg);
    }
    FailureReopens(AfterCalls(m, calls, cfg), failed, cfg);
  }

  lemma NoCalls(m: Metrics, cfg: Config)
    ensures AfterCalls(m, [], cfg) == m
  {
  }

  lemma LastCall(m: Metrics, calls: seq<Finished>, last: Finished, cfg: Config)
    ensures var m1 := AfterCalls(m, calls, cfg);
            AfterCalls(m, calls + [last], cfg) ==
            if Admits(m1, last.entered, cfg) then Recorded(Admitted(m1), last.ending, last.ended, cfg) else m1
  {
    assert (calls + [last])[..|calls|] == calls;
  }

  lemma FailureReopens(m: Metrics, failed: Finished, cfg: Config)
    requires m.state == HalfOpen || (m.state == Open && ShouldAttemptReset(m, failed.entered, cfg))
    requires failed.ending == Failure
    ensures Admits(m, failed.entered, cfg)
    ensures var m' := Recorded(Admitted(m), failed.ending, failed.ended, cfg);
            && m'.state == Open
            && forall now :: Admits(m', now, cfg) <==> now - failed.ended >= cfg.recoveryTimeout
  {
  }

  // Opening.

  /** How many failures there were since the last success; excluded and cancelled calls do not count. */
  function Streak(start: nat, calls: seq<Finished>): nat {
    if calls == [] then start
    else
      match calls[|calls| - 1].ending
      case Success => 0
      case Failure => Streak(start, calls[..|calls| - 1]) + 1
      case _ => Streak(start, calls[..|calls| - 1])
  }

  /** When the last counted failure was. */
  function LastFailure(start: Option<real>, calls: seq<Finished>): Option<real> {
    if calls == [] then start
    else if calls[|calls| - 1].ending == Failure then Some(calls[|calls| - 1].ended)
    else LastFailure(start, calls[..|calls| - 1])
  }

  /** No run of failures has reached the threshold yet. */
  predicate NeverThatMany(start: nat, calls: seq<Finished>, threshold: int) {
    forall k :: 0 <= k <= |calls| ==> Streak(start, calls[..k]) < threshold
  }

  /** A closed breaker counts the failures since the last success and keeps the time of the last one,
      and it stays closed as long as they have not reached the threshold. */
  lemma {:induction false} ClosedCountsStreak(m: Metrics, calls: seq<Finished>, cfg: Config)
    requires m.state == Closed && NeverThatMany(m.failureCount, calls, cfg.failureThreshold)
    ensures var m' := AfterCalls(m, calls, cfg);
            && m'.state == Closed && m'.failureCount == Streak(m.failureCount, calls)
            && m'.lastFailureTime == LastFailure(m.lastFailureTime, calls)
    decreases |calls|
  {
    if calls != [] {
      var before, last := calls[..|calls| - 1], calls[|calls| - 1];
      assert forall k :: 0 <= k <= |before| ==> before[..k] == calls[..k];
      ClosedCountsStreak(m, before, cfg);
      assert calls[..|calls|] == calls;
      LastCall(m, before, last, cfg);
      assert before + [last] == calls;
    }
  }

  /** The failure that makes the run reach the threshold opens the breaker, for a full timeout from its
      end; with a success in between the count starts again, so no fewer failures in a row do. */
  lemma OpensExactlyOnTheStreak(m: Metrics, calls: seq<Finished>, last: Finished, cfg: Config)
    requires m.state == Closed && NeverThatMany(m.failureCount, calls, cfg.failureThreshold)
    ensures var m' := AfterCalls(m, calls + [last], cfg);
            && (m'.state == Open <==> Streak(m.failureCount, calls + [last]) >= cfg.failureThreshold)
            && (m'.state == Open ==> forall now :: Admits(m', now, cfg) <==> now - last.ended >= cfg.recoveryTimeout)
            && (m'.state != Open ==> m'.state == Closed)
  {
    ClosedCountsStreak(m, calls, cfg);
    LastCall(m, calls, last, cfg);
    assert calls[..|calls|] == calls;
    assert (calls + [last])[..|calls|] == calls;
    hide AfterCalls;
  }
}
