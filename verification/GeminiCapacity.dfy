/** The sliding window that Gemini calls of all threads wait for. */
module GeminiCapacity {
  import opened Windows

  /** The deque, every stamp ever granted and the last reading of the clock. */
  datatype Capacity = Capacity(stamps: seq<real>, log: seq<real>, clock: real)

  /** The call may go ahead, has to sleep first, or fails because no calls are allowed at all. */
  datatype Outcome = Granted | SleepFor(seconds: real) | NoCapacity

  datatype Attempted = Attempted(capacity: Capacity, outcome: Outcome)

  const FRESH := Capacity([], [], 0.0)

  function Max(a: real, b: real): real {
    if a < b then b else a
  }

  /** Drop from the front whatever is no later than the cutoff. */
  function Expire(stamps: seq<real>, cutoff: real): seq<real> {
    if stamps != [] && stamps[0] <= cutoff then Expire(stamps[1..], cutoff) else stamps
  }

  lemma {:induction false} ExpireIsSuffix(stamps: seq<real>, cutoff: real)
    ensures var rest := Expire(stamps, cutoff);
            && IsTail(rest, stamps)
            && (rest != [] ==> rest[0] > cutoff)
            && forall i :: 0 <= i < |stamps| - |rest| ==> stamps[i] <= cutoff
  {
    if stamps != [] && stamps[0] <= cutoff {
      ExpireIsSuffix(stamps[1..], cutoff);
      assert IsTail(stamps[1..], stamps);
      TailOfTail(Expire(stamps, cutoff), stamps[1..], stamps);
    } else {
      WholeIsTail(stamps);
    }
  }

  /** What one thread does while it holds the lock. */
  function Attempt(c: Capacity, now: real, maxCalls: nat, period: real): Attempted {
    var stamps := Expire(c.stamps, now - period);
    if |stamps| < maxCalls then Attempted(Capacity(stamps + [now], c.log + [now], now), Granted)
    else if stamps == [] then Attempted(Capacity(stamps, c.log, now), NoCapacity)
    else Attempted(Capacity(stamps, c.log, now), SleepFor(Max(0.01, period - (now - stamps[0]))))
  }

  /** The attempts of all threads in the order in which they hold the lock. */
  function Run(c: Capacity, nows: seq<real>, maxCalls: nat, period: real): Capacity
    decreases |nows|
  {
    if nows == [] then c else Run(Attempt(c, nows[0], maxCalls, period).capacity, nows[1..], maxCalls, period)
  }

  /** Grants `maxCalls` apart are a period apart. */
  predicate SpacedBy(log: seq<real>, maxCalls: nat, period: real) {
    forall i, j :: 0 <= i && i + maxCalls <= j < |log| ==> log[j] >= log[i] + period
  }

  /** The deque is the newest part of the log and the rest has expired. */
  ghost predicate DequeIsTail(c: Capacity, maxCalls: nat, period: real) {
    && |c.stamps| <= maxCalls && IsTail(c.stamps, c.log)
    && (forall i :: 0 <= i < |c.log| - |c.stamps| ==> c.log[i] + period <= c.clock)
  }

  ghost predicate Good(c: Capacity, maxCalls: nat, period: real) {
    && SortedUpTo(c.log, c.clock)
    && DequeIsTail(c, maxCalls, period)
    && SpacedBy(c.log, maxCalls, period)
  }

  lemma StampsAreTail(c: Capacity, now: real, maxCalls: nat, period: real)
    requires DequeIsTail(c, maxCalls, period) && c.clock <= now
    ensures var stamps := Expire(c.stamps, now - period);
            && |stamps| <= |c.stamps| <= |c.log| && IsTail(stamps, c.log)
            && (stamps != [] ==> stamps[0] > now - period)
            && forall i :: 0 <= i < |c.log| - |stamps| ==> c.log[i] + period <= now
  {
    ExpireIsSuffix(c.stamps, now - period);
    hide Expire, IsTail;
    var stamps := Expire(c.stamps, now - period);
    TailOfTail(stamps, c.stamps, c.log);
    TailAt(c.stamps, c.log);
    var was := |c.log| - |c.stamps|;
    forall i | 0 <= i < |c.log| - |stamps|
      ensures c.log[i] + period <= now
    {
      if i >= was { assert c.stamps[i - was] <= now - period; }
    }
  }

  lemma GrantKeepsSpacing(log: seq<real>, now: real, maxCalls: nat, period: real)
    requires SpacedBy(log, maxCalls, period) && maxCalls > 0
    requires forall i :: 0 <= i <= |log| - maxCalls ==> log[i] + period <= now
    ensures SpacedBy(log + [now], maxCalls, period)
  {
  }

  lemma AttemptKeepsGood(c: Capacity, now: real, maxCalls: nat, period: real)
    requires Good(c, maxCalls, period) && c.clock <= now
    ensures Good(Attempt(c, now, maxCalls, period).capacity, maxCalls, period)
  {
    hide Expire, SpacedBy, SortedUpTo, IsTail;
    StampsAreTail(c, now, maxCalls, period);
    var stamps := Expire(c.stamps, now - period);
    AppendSorted(c.log, c.clock, now);
    if |stamps| < maxCalls {
      GrantKeepsSpacing(c.log, now, maxCalls, period);
      AppendTail(stamps, c.log, now);
    }
  }

  lemma {:induction false} RunKeepsGood(c: Capacity, nows: seq<real>, maxCalls: nat, period: real)
    requires Good(c, maxCalls, period) && Sorted([c.clock] + nows)
    ensures Good(Run(c, nows, maxCalls, period), maxCalls, period)
    decreases |nows|
  {
    hide Good, Expire;
    if nows != [] {
      assert ([c.clock] + nows)[0] <= ([c.clock] + nows)[1];
      AttemptKeepsGood(c, nows[0], maxCalls, period);
      var c' := Attempt(c, nows[0], maxCalls, period).capacity;
      assert ([c.clock] + nows)[1..] == [c'.clock] + nows[1..];
      RunKeepsGood(c', nows[1..], maxCalls, period);
    }
  }

  /** Main result: all threads together are granted at most `maxCalls` calls in any window
      (t - period, t]. */
  lemma GrantsAreLimited(nows: seq<real>, maxCalls: nat, period: real, t: real)
    requires Sorted([0.0] + nows)
    ensures |InWindow(Run(FRESH, nows, maxCalls, period).log, t - period, t)| <= maxCalls
  {
    hide Run, DequeIsTail;
    FreshIsGood(maxCalls, period);
    RunKeepsGood(FRESH, nows, maxCalls, period);
    FewWithin(InWindow(Run(FRESH, nows, maxCalls, period).log, t - period, t), maxCalls);
  }

  lemma FreshIsGood(maxCalls: nat, period: real)
    ensures Good(FRESH, maxCalls, period)
  {
    WholeIsTail([]);
    hide IsTail;
  }

  /** An attempt is refused only if it has to be: it is granted exactly if fewer than `maxCalls`
      grants lie in the window that ends now. */
  lemma GrantedExactlyWhenRoom(nows: seq<real>, now: real, maxCalls: nat, period: real)
    requires Sorted([0.0] + nows) && period > 0.0
    requires Run(FRESH, nows, maxCalls, period).clock <= now
    ensures var c := Run(FRESH, nows, maxCalls, period);
            Attempt(c, now, maxCalls, period).outcome == Granted <==> |InWindow(c.log, now - period, now)| < maxCalls
  {
    hide Expire, Run, SpacedBy, DequeIsTail, IsTail;
    FreshIsGood(maxCalls, period);
    RunKeepsGood(FRESH, nows, maxCalls, period);
    var c := Run(FRESH, nows, maxCalls, period);
    StampsAreTail(c, now, maxCalls, period);
    var stamps := Expire(c.stamps, now - period);
    TailAt(stamps, c.log);
    var first := |c.log| - |stamps|;
    RangeSize(first, |c.log|);
    forall i | first <= i < |c.log|
      ensures c.log[i] > now - period
    {
      assert stamps[0] == c.log[first];
    }
    assert InWindow(c.log, now - period, now) == Range(first, |c.log|);
  }

  /** The sleep is long enough: if no other thread is granted a call meanwhile, the next attempt is. */
  lemma OneSleepIsEnough(c: Capacity, now: real, later: real, maxCalls: nat, period: real)
    requires Good(c, maxCalls, period) && c.clock <= now
    requires Attempt(c, now, maxCalls, period).outcome.SleepFor?
    requires later >= now + Attempt(c, now, maxCalls, period).outcome.seconds
    ensures Attempt(Attempt(c, now, maxCalls, period).capacity, later, maxCalls, period).outcome == Granted
  {
    hide SpacedBy, SortedUpTo, Expire, IsTail;
    StampsAreTail(c, now, maxCalls, period);
    var stamps := Expire(c.stamps, now - period);
    ExpireShrinks(stamps, later - period);
  }

  lemma ExpireShrinks(stamps: seq<real>, cutoff: real)
    requires stamps != [] && stamps[0] <= cutoff
    ensures |Expire(stamps, cutoff)| < |stamps|
  {
    ExpireIsSuffix(stamps[1..], cutoff);
  }

  /** A granted attempt, and no other, is on record, at the time it was made. */
  lemma OnlyGrantsAreRecorded(c: Capacity, now: real, maxCalls: nat, period: real)
    ensures var attempted := Attempt(c, now, maxCalls, period);
            && attempted.capacity.clock == now
            && attempted.capacity.log == (if attempted.outcome == Granted then c.log + [now] else c.log)
            && (attempted.outcome == NoCapacity ==> maxCalls == 0)
  {
    hide Expire;
  }

  /** The sleep is neither too short nor too long: until the oldest of the last `maxCalls` grants leaves
      the window, and at least ten milliseconds. */
  lemma SleepLastsUntilRoom(nows: seq<real>, now: real, maxCalls: nat, period: real)
    requires Sorted([0.0] + nows) && Run(FRESH, nows, maxCalls, period).clock <= now
    requires Attempt(Run(FRESH, nows, maxCalls, period), now, maxCalls, period).outcome.SleepFor?
    ensures var c := Run(FRESH, nows, maxCalls, period);
            && 0 < maxCalls <= |c.log|
            && var room := c.log[|c.log| - maxCalls] + period;
               Attempt(c, now, maxCalls, period).outcome == SleepFor(if room - now > 0.01 then room - now else 0.01)
  {
    hide Expire, Run, SpacedBy, DequeIsTail, IsTail;
    FreshIsGood(maxCalls, period);
    RunKeepsGood(FRESH, nows, maxCalls, period);
    var c := Run(FRESH, nows, maxCalls, period);
    ListIsShort(c, maxCalls, period);
    StampsAreTail(c, now, maxCalls, period);
    TailAt(Expire(c.stamps, now - period), c.log);
  }

  lemma ListIsShort(c: Capacity, maxCalls: nat, period: real)
    requires DequeIsTail(c, maxCalls, period)
    ensures |c.stamps| <= maxCalls
  {
  }

  class GeminiApiManager {
    const maxCalls: nat
    const period: real
    var callTimestamps: seq<real>
    ghost var log: seq<real>
    ghost var clock: real

    ghost function View(): Capacity
      reads this
    {
      Capacity(callTimestamps, log, clock)
    }

    constructor (maxCalls: nat, period: real)
      ensures View() == FRESH && this.maxCalls == maxCalls && this.period == period
    {
      this.maxCalls, this.period := maxCalls, period;
      callTimestamps, log, clock := [], [], 0.0;
    }

    /** The body of the loop, under the lock. */
    method TryCapacity(now: real) returns (outcome: Outcome)
      modifies this
      ensures Attempted(View(), outcome) == Attempt(old(View()), now, maxCalls, period)
    {
      while callTimestamps != [] && callTimestamps[0] <= now - period
        invariant Expire(callTimestamps, now - period) == Expire(old(callTimestamps), now - period)
        invariant log == old(log)
        decreases |callTimestamps|
      {
        callTimestamps := callTimestamps[1..];
      }
      clock := now;
      if |callTimestamps| < maxCalls {
        callTimestamps := callTimestamps + [now];
        log := log + [now];
        return Granted;
      }
      if callTimestamps == [] { return NoCapacity; }
      return SleepFor(Max(0.01, period - (now - callTimestamps[0])));
    }

    /** Without competition the loop ends after at most one sleep, which lasts `oversleep` longer than
        asked for. */
    method AwaitCapacity(start: real, oversleep: real) returns (ok: bool, granted: real, sleeps: nat)
      requires Good(View(), maxCalls, period) && clock <= start && oversleep >= 0.0
      modifies this
      ensures Good(View(), maxCalls, period)
      ensures ok <==> maxCalls > 0
      ensures ok ==> log == old(log) + [granted] && sleeps <= 1
      ensures ok && sleeps == 0 ==> granted == start
      ensures ok ==> (sleeps == 0 <==> Attempt(old(View()), start, maxCalls, period).outcome == Granted)
      ensures ok && sleeps == 1 ==>
                granted == start + Attempt(old(View()), start, maxCalls, period).outcome.seconds + oversleep
    {
      hide Good, Expire;
      var now := start;
      sleeps := 0;
      ghost var first := Attempt(View(), start, maxCalls, period);
      while true
        invariant Good(View(), maxCalls, period) && clock <= now && log == old(log)
        invariant sleeps <= 1
        invariant sleeps == 0 ==> now == start && View() == old(View())
        invariant sleeps == 1 ==> Attempt(View(), now, maxCalls, period).outcome == Granted
        invariant sleeps == 1 ==> first.outcome.SleepFor? && now == start + first.outcome.seconds + oversleep
        decreases 2 - sleeps
      {
        ghost var before := View();
        AttemptKeepsGood(before, now, maxCalls, period);
        var outcome := TryCapacity(now);
        match outcome {
          case Granted => return true, now, sleeps;
          case NoCapacity => return false, now, sleeps;
          case SleepFor(seconds) =>
            OneSleepIsEnough(before, now, now + seconds + oversleep, maxCalls, period);
            now := now + seconds + oversleep;
            sleeps := sleeps + 1;
        }
      }
    }
  }
}
