/** The rate limiter that decorates the forensic engine's calls. */
module ForensicRateLimiter {
  import opened Windows

  /** One decorated call: the clock on entry and when its stamp is taken, after any sleep. */
  datatype Call = Call(now: real, stamp: real)

  /** The list the limiter keeps and, as history, every stamp ever recorded and the positions in it
      right before which the list was cleared. */
  datatype Limiter = Limiter(calls: seq<real>, log: seq<real>, clears: set<nat>, clock: real)

  const FRESH := Limiter([], [], {}, 0.0)

  /** The stamps that are still inside the period. */
  function Recent(calls: seq<real>, cutoff: real): (recent: seq<real>)
    ensures |recent| <= |calls|
  {
    if calls == [] then []
    else if calls[0] > cutoff then [calls[0]] + Recent(calls[1..], cutoff)
    else Recent(calls[1..], cutoff)
  }

  /** The clock does not run backwards and a sleep lasts at least as long as asked for. */
  predicate Timed(l: Limiter, c: Call, maxCalls: nat, period: real) {
    var recent := Recent(l.calls, c.now - period);
    && l.clock <= c.now <= c.stamp
    && (|recent| >= maxCalls && recent != [] ==> c.stamp >= c.now + (period - (c.now - recent[0])))
  }

  /** One call. With no calls allowed there is no oldest call to wait for and the call fails. */
  function Acquired(l: Limiter, c: Call, maxCalls: nat, period: real): Limiter {
    var recent := Recent(l.calls, c.now - period);
    if |recent| < maxCalls then
      Limiter(recent + [c.stamp], l.log + [c.stamp], l.clears, c.stamp)
    else if recent == [] then
      Limiter(recent, l.log, l.clears, c.now)
    else
      Limiter([c.stamp], l.log + [c.stamp], l.clears + {|l.log|}, c.stamp)
  }

  function Run(l: Limiter, cs: seq<Call>, maxCalls: nat, period: real): Limiter
    decreases |cs|
  {
    if cs == [] then l else Run(Acquired(l, cs[0], maxCalls, period), cs[1..], maxCalls, period)
  }

  predicate AllTimed(l: Limiter, cs: seq<Call>, maxCalls: nat, period: real)
    decreases |cs|
  {
    cs == [] ||
    (Timed(l, cs[0], maxCalls, period) && AllTimed(Acquired(l, cs[0], maxCalls, period), cs[1..], maxCalls, period))
  }

  predicate ClearedWithin(clears: set<nat>, i: int, j: int) {
    exists e :: e in clears && i < e <= j
  }

  /** The stamps before `first` that are younger than the last clear are no later than the cutoff. */
  ghost predicate DroppedExpired(log: seq<real>, clears: set<nat>, first: int, cutoff: real) {
    forall i :: 0 <= i < first && i < |log| && !ClearedWithin(clears, i, |log|) ==> log[i] <= cutoff
  }

  /** The list is the newest part of the log, and what it dropped since the last clear has expired. */
  ghost predicate ListIsTail(l: Limiter, maxCalls: nat, period: real) {
    var first := |l.log| - |l.calls|;
    && |l.calls| <= maxCalls && IsTail(l.calls, l.log)
    && (forall e :: e in l.clears ==> e <= first)
    && DroppedExpired(l.log, l.clears, first, l.clock - period)
  }

  /** Without a clear in between, calls `maxCalls` apart are a period apart. */
  ghost predicate SpacedBetweenClears(l: Limiter, maxCalls: nat, period: real) {
    forall i, j :: 0 <= i && i + maxCalls <= j < |l.log| && !ClearedWithin(l.clears, i, j) ==>
      l.log[j] >= l.log[i] + period
  }

  /** The call after a clear is a period later than the one `maxCalls` before it, with no other clear
      in between. */
  ghost predicate ClearsWait(l: Limiter, maxCalls: nat, period: real) {
    forall e :: e in l.clears ==>
      && maxCalls <= e < |l.log|
      && l.log[e] >= l.log[e - maxCalls] + period
      && !ClearedWithin(l.clears, e - maxCalls, e - 1)
  }

  ghost predicate Good(l: Limiter, maxCalls: nat, period: real) {
    && SortedUpTo(l.log, l.clock)
    && (maxCalls == 0 ==> l.log == [])
    && ListIsTail(l, maxCalls, period)
    && SpacedBetweenClears(l, maxCalls, period)
    && ClearsWait(l, maxCalls, period)
  }

  lemma {:induction false} AllRecent(calls: seq<real>, cutoff: real)
    requires forall i :: 0 <= i < |calls| ==> calls[i] > cutoff
    ensures Recent(calls, cutoff) == calls
  {
    if calls != [] {
      AllRecent(calls[1..], cutoff);
    }
  }

  /** On a sorted list the expired stamps come first. */
  lemma {:induction false} RecentIsSuffix(calls: seq<real>, cutoff: real)
    requires Sorted(calls)
    ensures IsTail(Recent(calls, cutoff), calls)
    ensures forall i :: 0 <= i < |calls| - |Recent(calls, cutoff)| ==> calls[i] <= cutoff
  {
    if calls == [] {
    } else if calls[0] > cutoff {
      AllRecent(calls, cutoff);
      WholeIsTail(calls);
    } else {
      RecentIsSuffix(calls[1..], cutoff);
      assert IsTail(calls[1..], calls);
      TailOfTail(Recent(calls, cutoff), calls[1..], calls);
    }
  }

  lemma RecentIsTail(l: Limiter, c: Call, maxCalls: nat, period: real)
    requires Sorted(l.log) && ListIsTail(l, maxCalls, period) && Timed(l, c, maxCalls, period)
    ensures var recent := Recent(l.calls, c.now - period);
            var first := |l.log| - |recent|;
            && |recent| <= |l.calls| <= |l.log| && IsTail(recent, l.log)
            && (forall e :: e in l.clears ==> e <= first)
            && DroppedExpired(l.log, l.clears, first, c.now - period)
  {
    hide Recent, IsTail, Sorted, DroppedExpired;
    TailSorted(l.calls, l.log);
    var recent := Recent(l.calls, c.now - period);
    RecentIsSuffix(l.calls, c.now - period);
    TailOfTail(recent, l.calls, l.log);
    DroppingMore(l, recent, l.clock - period, c.now - period);
  }

  lemma DroppingMore(l: Limiter, recent: seq<real>, earlier: real, cutoff: real)
    requires |recent| <= |l.calls| && IsTail(l.calls, l.log)
    requires forall i :: 0 <= i < |l.calls| - |recent| ==> l.calls[i] <= cutoff
    requires DroppedExpired(l.log, l.clears, |l.log| - |l.calls|, earlier) && earlier <= cutoff
    ensures DroppedExpired(l.log, l.clears, |l.log| - |recent|, cutoff)
  {
    TailAt(l.calls, l.log);
    hide IsTail, ClearedWithin;
    var was := |l.log| - |l.calls|;
    forall i | was <= i < |l.log| - |recent|
      ensures l.log[i] <= cutoff
    {
      assert l.calls[i - was] <= cutoff;
    }
  }

  lemma DroppedAppend(log: seq<real>, clears: set<nat>, first: nat, cutoff: real, later: real, stamp: real)
    requires DroppedExpired(log, clears, first, cutoff) && first <= |log| && cutoff <= later
    ensures DroppedExpired(log + [stamp], clears, first, later)
  {
    forall i | 0 <= i < first && !ClearedWithin(clears, i, |log| + 1)
      ensures (log + [stamp])[i] <= later
    {
      assert !ClearedWithin(clears, i, |log|);
    }
  }

  lemma LogIsSorted(l: Limiter, maxCalls: nat, period: real)
    requires Good(l, maxCalls, period)
    ensures Sorted(l.log) && ListIsTail(l, maxCalls, period)
  {
  }

  lemma RecordKeepsSpacing(l: Limiter, l': Limiter, n: nat, stamp: real, maxCalls: nat, period: real)
    requires SpacedBetweenClears(l, maxCalls, period) && n == |l.log|
    requires maxCalls > 0 && DroppedExpired(l.log, l.clears, n - maxCalls + 1, stamp - period)
    requires l'.log == l.log + [stamp] && l'.clears == l.clears
    ensures SpacedBetweenClears(l', maxCalls, period)
  {
    forall i, j | 0 <= i && i + maxCalls <= j < |l'.log| && !ClearedWithin(l'.clears, i, j)
      ensures l'.log[j] >= l'.log[i] + period
    {
    }
  }

  lemma RecordKeepsWaits(l: Limiter, l': Limiter, stamp: real, maxCalls: nat, period: real)
    requires ClearsWait(l, maxCalls, period)
    requires l'.log == l.log + [stamp] && l'.clears == l.clears
    ensures ClearsWait(l', maxCalls, period)
  {
    hide ClearedWithin;
  }

  lemma RecordKeepsGood(l: Limiter, c: Call, maxCalls: nat, period: real)
    requires Good(l, maxCalls, period) && Timed(l, c, maxCalls, period)
    requires |Recent(l.calls, c.now - period)| < maxCalls
    ensures Good(Acquired(l, c, maxCalls, period), maxCalls, period)
  {
    LogIsSorted(l, maxCalls, period);
    hide Recent, Good, Sorted, IsTail, DroppedExpired;
    RecentIsTail(l, c, maxCalls, period);
    var recent := Recent(l.calls, c.now - period);
    RecordedIsGood(l, Acquired(l, c, maxCalls, period), recent, c.now, c.stamp, maxCalls, period);
  }

  lemma RecordedIsGood(l: Limiter, l': Limiter, recent: seq<real>, now: real, stamp: real, maxCalls: nat, period: real)
    requires Good(l, maxCalls, period) && l.clock <= now <= stamp && |recent| < maxCalls
    requires IsTail(recent, l.log) && |recent| <= |l.log| && (forall e :: e in l.clears ==> e <= |l.log| - |recent|)
    requires DroppedExpired(l.log, l.clears, |l.log| - |recent|, now - period)
    requires l' == Limiter(recent + [stamp], l.log + [stamp], l.clears, stamp)
    ensures Good(l', maxCalls, period)
  {
    hide SpacedBetweenClears, ClearsWait, SortedUpTo, IsTail, DroppedExpired;
    var n := |l.log|;
    FewerDropped(l.log, l.clears, n - |recent|, n - maxCalls + 1, now - period, stamp - period);
    RecordKeepsSpacing(l, l', n, stamp, maxCalls, period);
    RecordKeepsWaits(l, l', stamp, maxCalls, period);
    AppendSorted(l.log, l.clock, stamp);
    AppendTail(recent, l.log, stamp);
    DroppedAppend(l.log, l.clears, n - |recent|, now - period, stamp - period, stamp);
  }

  lemma FewerDropped(log: seq<real>, clears: set<nat>, first: int, fewer: int, cutoff: real, later: real)
    requires DroppedExpired(log, clears, first, cutoff) && fewer <= first && cutoff <= later
    ensures DroppedExpired(log, clears, fewer, later)
  {
  }

  lemma ClearKeepsSpacing(l: Limiter, l': Limiter, n: nat, stamp: real, maxCalls: nat, period: real)
    requires SpacedBetweenClears(l, maxCalls, period) && n == |l.log|
    requires l'.log == l.log + [stamp] && l'.clears == l.clears + {n} && maxCalls > 0
    ensures SpacedBetweenClears(l', maxCalls, period)
  {
    forall i, j | 0 <= i && i + maxCalls <= j < |l'.log| && !ClearedWithin(l'.clears, i, j)
      ensures l'.log[j] >= l'.log[i] + period
    {
      assert j != n by { assert n in l'.clears; }
      assert !ClearedWithin(l.clears, i, j);
    }
  }

  lemma ClearHasWaited(l: Limiter, l': Limiter, n: nat, stamp: real, maxCalls: nat, period: real)
    requires ClearsWait(l, maxCalls, period) && n == |l.log| && 0 < maxCalls <= n
    requires stamp >= l.log[n - maxCalls] + period && (forall e :: e in l.clears ==> e <= n - maxCalls)
    requires l'.log == l.log + [stamp] && l'.clears == l.clears + {n}
    ensures ClearsWait(l', maxCalls, period)
  {
    forall e | e in l'.clears
      ensures maxCalls <= e < |l'.log| && l'.log[e] >= l'.log[e - maxCalls] + period
      ensures !ClearedWithin(l'.clears, e - maxCalls, e - 1)
    {
      if e != n { assert !ClearedWithin(l.clears, e - maxCalls, e - 1); }
    }
  }

  lemma ClearKeepsGood(l: Limiter, c: Call, maxCalls: nat, period: real)
    requires Good(l, maxCalls, period) && Timed(l, c, maxCalls, period)
    requires |Recent(l.calls, c.now - period)| >= maxCalls > 0
    ensures Good(Acquired(l, c, maxCalls, period), maxCalls, period)
  {
    LogIsSorted(l, maxCalls, period);
    hide Recent, Good, Sorted, IsTail, DroppedExpired;
    RecentIsTail(l, c, maxCalls, period);
    var recent := Recent(l.calls, c.now - period);
    ClearedIsGood(l, Acquired(l, c, maxCalls, period), recent, c.stamp, maxCalls, period);
  }

  lemma ClearedIsGood(l: Limiter, l': Limiter, recent: seq<real>, stamp: real, maxCalls: nat, period: real)
    requires Good(l, maxCalls, period) && l.clock <= stamp && |recent| == maxCalls > 0
    requires IsTail(recent, l.log) && |recent| <= |l.log| && (forall e :: e in l.clears ==> e <= |l.log| - |recent|)
    requires stamp >= recent[0] + period
    requires l' == Limiter([stamp], l.log + [stamp], l.clears + {|l.log|}, stamp)
    ensures Good(l', maxCalls, period)
  {
    TailAt(recent, l.log);
    hide SpacedBetweenClears, ClearsWait, SortedUpTo, IsTail, DroppedExpired;
    var n := |l.log|;
    assert l.log[n - maxCalls] == recent[0];
    ClearKeepsSpacing(l, l', n, stamp, maxCalls, period);
    ClearHasWaited(l, l', n, stamp, maxCalls, period);
    AppendSorted(l.log, l.clock, stamp);
    LastIsTail(l.log, stamp);
    ClearForgets(l'.log, l'.clears, n, stamp - period);
  }

  lemma ClearForgets(log: seq<real>, clears: set<nat>, n: nat, cutoff: real)
    requires n in clears && n < |log|
    ensures DroppedExpired(log, clears, n, cutoff)
  {
    assert forall i :: 0 <= i < n ==> ClearedWithin(clears, i, |log|);
  }

  lemma {:induction false} RunKeepsGood(l: Limiter, cs: seq<Call>, maxCalls: nat, period: real)
    requires Good(l, maxCalls, period) && AllTimed(l, cs, maxCalls, period)
    ensures Good(Run(l, cs, maxCalls, period), maxCalls, period)
    decreases |cs|
  {
    if cs != [] {
      if |Recent(l.calls, cs[0].now - period)| < maxCalls {
        RecordKeepsGood(l, cs[0], maxCalls, period);
      } else if maxCalls > 0 {
        ClearKeepsGood(l, cs[0], maxCalls, period);
      }
      hide Good, Timed;
      RunKeepsGood(Acquired(l, cs[0], maxCalls, period), cs[1..], maxCalls, period);
    }
  }

  /** A call sleeps, and clears the list, exactly if the `maxCalls`-th latest call is still inside the
      period and was not forgotten by an earlier clear; and every call is on record with its stamp. */
  lemma SleepsExactlyWhenFull(l: Limiter, c: Call, maxCalls: nat, period: real)
    requires Good(l, maxCalls, period) && Timed(l, c, maxCalls, period) && maxCalls > 0
    ensures var l' := Acquired(l, c, maxCalls, period);
            var i := |l.log| - maxCalls;
            && l'.log == l.log + [c.stamp]
            && (l'.clears == if i >= 0 && !ClearedWithin(l.clears, i, |l.log|) && l.log[i] > c.now - period
                             then l.clears + {|l.log|} else l.clears)
            && |l.log| !in l.clears
  {
    LogIsSorted(l, maxCalls, period);
    RecentIsTail(l, c, maxCalls, period);
    RecentAreRecent(l.calls, c.now - period);
    var recent := Recent(l.calls, c.now - period);
    TailAt(recent, l.log);
    hide Recent, Sorted, IsTail, SpacedBetweenClears, ClearsWait, SortedUpTo;
    assert |recent| >= maxCalls ==> |recent| == maxCalls && recent[0] == l.log[|l.log| - maxCalls];
  }

  lemma {:induction false} RecentAreRecent(calls: seq<real>, cutoff: real)
    ensures forall i :: 0 <= i < |Recent(calls, cutoff)| ==> Recent(calls, cutoff)[i] > cutoff
  {
    if calls != [] { RecentAreRecent(calls[1..], cutoff); }
  }

  /** How many calls a window can hold: clearing the list forgets up to `maxCalls - 1` calls that are
      still recent. */
  function Bound(maxCalls: nat): nat {
    if maxCalls == 0 then 0 else 2 * maxCalls - 1
  }

  /** Past a clear: either the clear itself or what follows it keeps the distance. */
  lemma FarApartPastClear(l: Limiter, maxCalls: nat, period: real, i: nat, e: nat, j: nat)
    requires Sorted(l.log) && SpacedBetweenClears(l, maxCalls, period) && ClearsWait(l, maxCalls, period)
    requires e in l.clears && i < e <= j < |l.log| && i + 2 * maxCalls - 1 <= j
    ensures l.log[j] >= l.log[i] + period
  {
    assert maxCalls <= e && l.log[e] >= l.log[e - maxCalls] + period;
    if e - maxCalls >= i {
      assert l.log[i] <= l.log[e - maxCalls];
      assert l.log[e] <= l.log[j];
    } else if ClearedWithin(l.clears, e, j) {
      var e2 :| e2 in l.clears && e < e2 <= j;
      assert !ClearedWithin(l.clears, e2 - maxCalls, e2 - 1);
      assert e <= e2 - maxCalls;
      assert l.log[i] <= l.log[e2 - maxCalls];
      assert l.log[e2] <= l.log[j];
    } else {
      assert l.log[j] >= l.log[e] + period;
      assert l.log[i] <= l.log[e];
    }
  }

  lemma FarApart(l: Limiter, maxCalls: nat, period: real, i: nat, j: nat)
    requires Good(l, maxCalls, period)
    requires i + Bound(maxCalls) <= j < |l.log|
    ensures l.log[j] >= l.log[i] + period
  {
    hide ListIsTail, ClearsWait;
    if ClearedWithin(l.clears, i, j) {
      var e :| e in l.clears && i < e <= j;
      FarApartPastClear(l, maxCalls, period, i, e, j);
    }
  }

  lemma FreshIsGood(maxCalls: nat, period: real)
    ensures Good(FRESH, maxCalls, period)
  {
    WholeIsTail([]);
    hide IsTail;
  }

  /** Main result: whatever the calls and however long they oversleep, at most `2 * maxCalls - 1` of
      them fall into any window (t - period, t]. */
  lemma CallsAreLimited(cs: seq<Call>, maxCalls: nat, period: real, t: real)
    requires AllTimed(FRESH, cs, maxCalls, period)
    ensures |InWindow(Run(FRESH, cs, maxCalls, period).log, t - period, t)| <= Bound(maxCalls)
  {
    hide Run, AllTimed, Good;
    FreshIsGood(maxCalls, period);
    RunKeepsGood(FRESH, cs, maxCalls, period);
    var l := Run(FRESH, cs, maxCalls, period);
    var ks := InWindow(l.log, t - period, t);
    forall i, k | i in ks && k in ks
      ensures k - i < Bound(maxCalls)
    {
      if k - i >= Bound(maxCalls) { FarApart(l, maxCalls, period, i, k); }
    }
    FewWithin(ks, Bound(maxCalls));
  }

  // The bound is reached.

  function Copies<T>(n: nat, x: T): (s: seq<T>)
    ensures |s| == n && forall i :: 0 <= i < n ==> s[i] == x
  {
    seq(n, _ => x)
  }

  /** As long as nothing expires and there is room, calls are recorded at once. */
  lemma {:induction false} Filling(l: Limiter, n: nat, x: real, maxCalls: nat, period: real)
    requires period > 0.0 && l.clock <= x && |l.calls| + n <= maxCalls
    requires forall i :: 0 <= i < |l.calls| ==> l.calls[i] > x - period
    ensures AllTimed(l, Copies(n, Call(x, x)), maxCalls, period)
    ensures Run(l, Copies(n, Call(x, x)), maxCalls, period) ==
            Limiter(l.calls + Copies(n, x), l.log + Copies(n, x), l.clears, if n == 0 then l.clock else x)
    decreases n
  {
    if n > 0 {
      AllRecent(l.calls, x - period);
      var l' := Acquired(l, Call(x, x), maxCalls, period);
      Filling(l', n - 1, x, maxCalls, period);
      assert Copies(n, Call(x, x))[1..] == Copies(n - 1, Call(x, x));
      assert [x] + Copies(n - 1, x) == Copies(n, x);
      assert l'.log + Copies(n - 1, x) == l.log + Copies(n, x);
      assert l'.calls + Copies(n - 1, x) == l.calls + Copies(n, x);
    } else {
      assert Copies(0, Call(x, x)) == [];
      assert l.calls + Copies(0, x) == l.calls && l.log + Copies(0, x) == l.log;
    }
  }

  lemma {:induction false} RunAppend(l: Limiter, a: seq<Call>, b: seq<Call>, maxCalls: nat, period: real)
    requires AllTimed(l, a, maxCalls, period) && AllTimed(Run(l, a, maxCalls, period), b, maxCalls, period)
    ensures AllTimed(l, a + b, maxCalls, period)
    ensures Run(l, a + b, maxCalls, period) == Run(Run(l, a, maxCalls, period), b, maxCalls, period)
    decreases |a|
  {
    hide Acquired, Timed;
    if a == [] {
      assert a + b == b;
    } else {
      RunAppend(Acquired(l, a[0], maxCalls, period), a[1..], b, maxCalls, period);
      assert (a + b)[1..] == a[1..] + b;
    }
  }

  /** One call, then a full list half a period later, one call that has to sleep, then as many as fit. */
  function BusyCalls(maxCalls: nat, period: real): seq<Call>
    requires maxCalls > 0
  {
    [Call(0.0, 0.0)] + Copies(maxCalls - 1, Call(period / 2.0, period / 2.0)) +
    ([Call(period / 2.0, period)] + Copies(maxCalls - 1, Call(period, period)))
  }

  lemma BusyFirstHalf(maxCalls: nat, period: real)
    requires maxCalls > 0 && period > 0.0
    ensures var first := [Call(0.0, 0.0)] + Copies(maxCalls - 1, Call(period / 2.0, period / 2.0));
            var stamps := [0.0] + Copies(maxCalls - 1, period / 2.0);
            && AllTimed(FRESH, first, maxCalls, period)
            && Run(FRESH, first, maxCalls, period) ==
               Limiter(stamps, stamps, {}, if maxCalls == 1 then 0.0 else period / 2.0)
  {
    var l := Acquired(FRESH, Call(0.0, 0.0), maxCalls, period);
    Filling(l, maxCalls - 1, period / 2.0, maxCalls, period);
    var first := [Call(0.0, 0.0)] + Copies(maxCalls - 1, Call(period / 2.0, period / 2.0));
    assert first[1..] == Copies(maxCalls - 1, Call(period / 2.0, period / 2.0));
  }

  lemma BusySecondHalf(l: Limiter, maxCalls: nat, period: real)
    requires maxCalls > 0 && period > 0.0
    requires l.calls == [0.0] + Copies(maxCalls - 1, period / 2.0) && 0.0 <= l.clock <= period / 2.0
    ensures var second := [Call(period / 2.0, period)] + Copies(maxCalls - 1, Call(period, period));
            && AllTimed(l, second, maxCalls, period)
            && Run(l, second, maxCalls, period).log == l.log + Copies(maxCalls, period)
  {
    AllRecent(l.calls, period / 2.0 - period);
    var l' := Acquired(l, Call(period / 2.0, period), maxCalls, period);
    Filling(l', maxCalls - 1, period, maxCalls, period);
    var second := [Call(period / 2.0, period)] + Copies(maxCalls - 1, Call(period, period));
    assert second[1..] == Copies(maxCalls - 1, Call(period, period));
    assert l'.log + Copies(maxCalls - 1, period) == l.log + Copies(maxCalls, period);
  }

  /** The bound is tight for every setting, so the limiter keeps to `maxCalls` calls in every window
      exactly when `maxCalls` is at most one. */
  lemma BoundIsReached(maxCalls: nat, period: real)
    requires maxCalls > 0 && period > 0.0
    ensures AllTimed(FRESH, BusyCalls(maxCalls, period), maxCalls, period)
    ensures var log := Run(FRESH, BusyCalls(maxCalls, period), maxCalls, period).log;
            |InWindow(log, period - period, period)| == Bound(maxCalls)
  {
    var first := [Call(0.0, 0.0)] + Copies(maxCalls - 1, Call(period / 2.0, period / 2.0));
    var second := [Call(period / 2.0, period)] + Copies(maxCalls - 1, Call(period, period));
    BusyFirstHalf(maxCalls, period);
    var half := Run(FRESH, first, maxCalls, period);
    BusySecondHalf(half, maxCalls, period);
    RunAppend(FRESH, first, second, maxCalls, period);
    assert BusyCalls(maxCalls, period) == first + second;
    var log := Run(FRESH, BusyCalls(maxCalls, period), maxCalls, period).log;
    assert log == [0.0] + Copies(maxCalls - 1, period / 2.0) + Copies(maxCalls, period);
    RangeSize(1, 2 * maxCalls);
    assert InWindow(log, period - period, period) == Range(1, 2 * maxCalls);
  }

  predicate WindowIsOverfull(cs: seq<Call>, maxCalls: nat, period: real, t: real) {
    |InWindow(Run(FRESH, cs, maxCalls, period).log, t - period, t)| > maxCalls
  }

  /** Every window holds at most `maxCalls` calls, whatever the run. */
  ghost predicate KeepsToItsLimit(maxCalls: nat, period: real) {
    forall cs, t :: AllTimed(FRESH, cs, maxCalls, period) ==> !WindowIsOverfull(cs, maxCalls, period, t)
  }

  /** Main result: the documented limit is kept exactly when it is at most one. */
  lemma LimitIsKeptExactlyForOne(maxCalls: nat, period: real)
    requires period > 0.0
    ensures KeepsToItsLimit(maxCalls, period) <==> maxCalls <= 1
  {
    if maxCalls <= 1 {
      forall cs, t | AllTimed(FRESH, cs, maxCalls, period)
        ensures !WindowIsOverfull(cs, maxCalls, period, t)
      {
        CallsAreLimited(cs, maxCalls, period, t);
      }
    } else {
      BoundIsReached(maxCalls, period);
      assert WindowIsOverfull(BusyCalls(maxCalls, period), maxCalls, period, period);
    }
  }

  class RateLimiter {
    const maxCalls: nat
    const period: real
    var calls: seq<real>
    ghost var log: seq<real>
    ghost var clears: set<nat>
    ghost var clock: real

    ghost function View(): Limiter
      reads this
    {
      Limiter(calls, log, clears, clock)
    }

    constructor (maxCalls: nat, period: real)
      ensures View() == FRESH && this.maxCalls == maxCalls && this.period == period
    {
      this.maxCalls, this.period := maxCalls, period;
      calls, log, clears, clock := [], [], {}, 0.0;
    }

    /** What a decorated call does before the function runs; `stamp` is the clock when it is taken. */
    method Acquire(now: real, stamp: real) returns (ok: bool)
      requires Timed(View(), Call(now, stamp), maxCalls, period)
      modifies this
      ensures View() == Acquired(old(View()), Call(now, stamp), maxCalls, period)
      ensures ok <==> |log| == old(|log|) + 1
    {
      calls := Recent(calls, now - period);
      if |calls| >= maxCalls {
        if calls == [] { clock := now; return false; }
        clears := clears + {|log|};
        calls := [];
      }
      calls := calls + [stamp];
      log, clock := log + [stamp], stamp;
      return true;
    }
  }
}
