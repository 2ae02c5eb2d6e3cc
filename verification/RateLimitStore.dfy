/** The sliding-window store behind the rate-limit middleware. */
module RateLimitStore {
  import opened Windows

  /** Drop from the front whatever is older than the window. */
  function Expire(events: seq<real>, cutoff: real): seq<real> {
    if events != [] && events[0] < cutoff then Expire(events[1..], cutoff) else events
  }

  lemma {:induction false} ExpireIsSuffix(events: seq<real>, cutoff: real)
    ensures var rest := Expire(events, cutoff);
            && IsTail(rest, events)
            && (rest != [] ==> rest[0] >= cutoff)
            && forall i :: 0 <= i < |events| - |rest| ==> events[i] < cutoff
  {
    if events != [] && events[0] < cutoff {
      ExpireIsSuffix(events[1..], cutoff);
      assert IsTail(events[1..], events);
      TailOfTail(Expire(events, cutoff), events[1..], events);
    } else {
      WholeIsTail(events);
    }
  }

  function NonNegative(n: int): nat {
    if n < 0 then 0 else n
  }

  datatype HitResult = HitResult(events: seq<real>, recorded: bool, remaining: nat)

  /** One hit on the deque of its key. */
  function HitOn(events: seq<real>, now: real, limit: int, window: real): HitResult {
    var kept := Expire(events, now - window);
    if |kept| >= limit then HitResult(kept, false, 0)
    else HitResult(kept + [now], true, NonNegative(limit - |kept + [now]|))
  }

  /** A request passes the middleware if the store reports something remaining. */
  predicate Passes(result: HitResult) {
    result.remaining > 0
  }

  /** One key's deque with the stamps of every recorded hit and the positions of those let through. */
  datatype Key = Key(events: seq<real>, log: seq<real>, passed: set<nat>, clock: real)

  const FRESH := Key([], [], {}, 0.0)

  function Record(k: Key, now: real, limit: int, window: real): Key {
    var result := HitOn(k.events, now, limit, window);
    Key(result.events,
        if result.recorded then k.log + [now] else k.log,
        if Passes(result) then k.passed + {|k.log|} else k.passed,
        now)
  }

  function Run(k: Key, nows: seq<real>, limit: int, window: real): Key
    decreases |nows|
  {
    if nows == [] then k else Run(Record(k, nows[0], limit, window), nows[1..], limit, window)
  }

  /** The stamps from `first` on are exactly those no earlier than `from`. */
  predicate FirstInside(log: seq<real>, first: int, from: real) {
    forall i :: 0 <= i < |log| ==> (first <= i <==> from <= log[i])
  }

  /** The deque is exactly the part of the log inside the window that ends with the last hit. */
  ghost predicate DequeIsWindow(k: Key, limit: int, window: real) {
    && SortedUpTo(k.log, k.clock)
    && IsTail(k.events, k.log)
    && (k.log != [] ==> |k.events| <= limit)
    && FirstInside(k.log, |k.log| - |k.events|, k.clock - window)
  }

  /** Recorded hits `limit` apart are more than a window apart, and a hit that was let through keeps
      that distance already from the one `limit - 1` before it. */
  ghost predicate Spaced(k: Key, limit: int, window: real) {
    && (forall i, j :: 0 <= i < |k.log| && 0 <= j < |k.log| && i + limit <= j ==> k.log[j] > k.log[i] + window)
    && (forall j :: j in k.passed ==> j < |k.log| && limit >= 2)
    && (forall i, j :: 0 <= i < |k.log| && j in k.passed && i + limit - 1 <= j ==> k.log[j] > k.log[i] + window)
  }

  ghost predicate Good(k: Key, limit: int, window: real) {
    DequeIsWindow(k, limit, window) && Spaced(k, limit, window) && (limit <= 0 ==> k.log == [])
  }

  lemma KeptIsWindow(k: Key, now: real, limit: int, window: real)
    requires DequeIsWindow(k, limit, window) && k.clock <= now
    ensures var kept := Expire(k.events, now - window);
            && |kept| <= |k.events| <= |k.log| && IsTail(kept, k.log)
            && FirstInside(k.log, |k.log| - |kept|, now - window)
  {
    ExpireIsSuffix(k.events, now - window);
    hide Expire, IsTail;
    var kept := Expire(k.events, now - window);
    TailOfTail(kept, k.events, k.log);
    TailAt(k.events, k.log);
    TailAt(kept, k.log);
    var was, first := |k.log| - |k.events|, |k.log| - |kept|;
    forall i | 0 <= i < |k.log|
      ensures first <= i <==> now - window <= k.log[i]
    {
      if first <= i {
        assert k.log[first] == kept[0];
        assert first < i ==> k.log[first] <= k.log[i];
      } else if was <= i {
        assert k.events[i - was] < now - window;
      }
    }
  }

  lemma RecordKeepsSpaced(k: Key, now: real, limit: int, window: real)
    requires Good(k, limit, window) && k.clock <= now && window >= 0.0
    ensures Spaced(Record(k, now, limit, window), limit, window)
  {
    hide Expire, DequeIsWindow, IsTail;
    KeptIsWindow(k, now, limit, window);
    var kept := Expire(k.events, now - window);
    var n, first := |k.log|, |k.log| - |kept|;
    var k' := Record(k, now, limit, window);
    if |kept| < limit {
      assert k'.log == k.log + [now];
      assert forall i :: 0 <= i < first ==> k.log[i] + window < now;
      forall i, j | 0 <= i < |k'.log| && 0 <= j < |k'.log| && i + limit <= j
        ensures k'.log[j] > k'.log[i] + window
      {
        if j == n { assert i < first; }
      }
      forall i, j | 0 <= i < |k'.log| && j in k'.passed && i + limit - 1 <= j
        ensures j < |k'.log| && k'.log[j] > k'.log[i] + window
      {
        if j == n && n !in k.passed { assert i < first; }
      }
    }
  }

  lemma InsideAppend(log: seq<real>, first: nat, from: real, now: real)
    requires FirstInside(log, first, from) && first <= |log| && from <= now
    ensures FirstInside(log + [now], first, from)
  {
  }

  lemma RecordKeepsWindow(k: Key, now: real, limit: int, window: real)
    requires Good(k, limit, window) && k.clock <= now && window >= 0.0
    ensures DequeIsWindow(Record(k, now, limit, window), limit, window)
    ensures limit <= 0 ==> Record(k, now, limit, window).log == []
  {
    hide Expire, Spaced, SortedUpTo, FirstInside, IsTail;
    KeptIsWindow(k, now, limit, window);
    AppendSorted(k.log, k.clock, now);
    var kept := Expire(k.events, now - window);
    AppendTail(kept, k.log, now);
    InsideAppend(k.log, |k.log| - |kept|, now - window, now);
  }

  lemma RecordKeepsGood(k: Key, now: real, limit: int, window: real)
    requires Good(k, limit, window) && k.clock <= now && window >= 0.0
    ensures Good(Record(k, now, limit, window), limit, window)
  {
    RecordKeepsSpaced(k, now, limit, window);
    RecordKeepsWindow(k, now, limit, window);
  }

  lemma {:induction false} RunKeepsGood(k: Key, nows: seq<real>, limit: int, window: real)
    requires Good(k, limit, window) && Sorted([k.clock] + nows) && window >= 0.0
    ensures Good(Run(k, nows, limit, window), limit, window)
    decreases |nows|
  {
    hide Good, Expire;
    if nows != [] {
      assert ([k.clock] + nows)[0] <= ([k.clock] + nows)[1];
      RecordKeepsGood(k, nows[0], limit, window);
      var k' := Record(k, nows[0], limit, window);
      assert ([k.clock] + nows)[1..] == [k'.clock] + nows[1..];
      RunKeepsGood(k', nows[1..], limit, window);
    }
  }

  /** Main result: any closed window of the store's length holds at most `limit` recorded hits and at
      most `limit - 1` that were let through. */
  lemma HitsAreLimited(nows: seq<real>, limit: int, window: real, t: real)
    requires Sorted([0.0] + nows) && window >= 0.0
    ensures var k := Run(FRESH, nows, limit, window);
            var inside := InClosedWindow(k.log, t - window, t);
            |inside| <= NonNegative(limit) && |inside * k.passed| <= NonNegative(limit - 1)
  {
    hide Run, DequeIsWindow;
    FreshIsGood(limit, window);
    RunKeepsGood(FRESH, nows, limit, window);
    var k := Run(FRESH, nows, limit, window);
    var inside := InClosedWindow(k.log, t - window, t);
    FewWithin(inside, NonNegative(limit));
    FewWithin(inside * k.passed, NonNegative(limit - 1));
  }

  lemma FreshIsGood(limit: int, window: real)
    ensures Good(FRESH, limit, window)
  {
    WholeIsTail([]);
    hide IsTail;
  }

  lemma ClockBoundsLog(k: Key, limit: int, window: real)
    requires DequeIsWindow(k, limit, window)
    ensures forall i :: 0 <= i < |k.log| ==> k.log[i] <= k.clock
  {
  }

  /** Main result: the answer is exactly one less than the room left in the closed window that ends
      now. So the hit that fills the window is recorded and yet refused by the middleware, and a
      limit of one lets nobody through. */
  lemma RemainingIsExact(nows: seq<real>, now: real, limit: int, window: real)
    requires Sorted([0.0] + nows) && window >= 0.0
    requires Run(FRESH, nows, limit, window).clock <= now
    ensures var k := Run(FRESH, nows, limit, window);
            var used := |InClosedWindow(k.log, now - window, now)|;
            var result := HitOn(k.events, now, limit, window);
            && result.remaining == NonNegative(limit - used - 1)
            && (result.recorded <==> used < limit)
            && (Passes(result) <==> used < limit - 1)
  {
    FreshIsGood(limit, window);
    hide Expire, Run, Spaced, DequeIsWindow, IsTail;
    RunKeepsGood(FRESH, nows, limit, window);
    var k := Run(FRESH, nows, limit, window);
    ClockBoundsLog(k, limit, window);
    KeptIsWindow(k, now, limit, window);
    var first := |k.log| - |Expire(k.events, now - window)|;
    RangeSize(first, |k.log|);
    assert InClosedWindow(k.log, now - window, now) == Range(first, |k.log|);
  }

  /** Three hits at once with a limit of two are answered with 1, 0, 0. */
  lemma ThreeHitsAtOnce(now: real, window: real)
    requires window >= 0.0
    ensures var first := HitOn([], now, 2, window);
            var second := HitOn(first.events, now, 2, window);
            var third := HitOn(second.events, now, 2, window);
            (first.remaining, second.remaining, third.remaining) == (1, 0, 0) && second.recorded && !third.recorded
  {
    assert Expire([now], now - window) == [now];
    assert Expire([now, now], now - window) == [now, now];
  }

  // Several keys.

  datatype Request = Request(key: string, now: real)

  function EventsOf(store: map<string, seq<real>>, key: string): seq<real> {
    if key in store then store[key] else []
  }

  function Serve(store: map<string, seq<real>>, requests: seq<Request>, limit: int, window: real)
    : map<string, seq<real>>
    decreases |requests|
  {
    if requests == [] then store
    else
      var r := requests[0];
      Serve(store[r.key := HitOn(EventsOf(store, r.key), r.now, limit, window).events], requests[1..], limit, window)
  }

  /** The times of one key's requests. */
  function TimesOf(requests: seq<Request>, key: string): seq<real> {
    if requests == [] then []
    else if requests[0].key == key then [requests[0].now] + TimesOf(requests[1..], key)
    else TimesOf(requests[1..], key)
  }

  /** A key's deque depends on that key's requests alone. */
  lemma {:induction false} KeysAreIndependent(store: map<string, seq<real>>, requests: seq<Request>, key: string,
                                              k: Key, limit: int, window: real)
    requires EventsOf(store, key) == k.events
    ensures EventsOf(Serve(store, requests, limit, window), key) == Run(k, TimesOf(requests, key), limit, window).events
    decreases |requests|
  {
    hide HitOn;
    if requests != [] {
      var r := requests[0];
      var store' := store[r.key := HitOn(EventsOf(store, r.key), r.now, limit, window).events];
      if r.key == key {
        KeysAreIndependent(store', requests[1..], key, Record(k, r.now, limit, window), limit, window);
        assert TimesOf(requests, key)[1..] == TimesOf(requests[1..], key);
      } else {
        KeysAreIndependent(store', requests[1..], key, k, limit, window);
      }
    }
  }

  class InMemoryRateLimitStore {
    var events: map<string, seq<real>>

    constructor ()
      ensures events == map[]
    {
      events := map[];
    }

    method Hit(key: string, limit: int, window: real, now: real) returns (remaining: nat)
      modifies this
      ensures var result := HitOn(EventsOf(old(events), key), now, limit, window);
              remaining == result.remaining && events == old(events)[key := result.events]
    {
      var deque := EventsOf(events, key);
      while deque != [] && now - deque[0] > window
        invariant Expire(deque, now - window) == Expire(EventsOf(events, key), now - window)
        decreases |deque|
      {
        deque := deque[1..];
      }
      events := events[key := deque];
      if |deque| >= limit { return 0; }
      deque := deque + [now];
      events := events[key := deque];
      return NonNegative(limit - |deque|);
    }
  }
}
