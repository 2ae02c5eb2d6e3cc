/** Counting the entries of a log of time stamps that fall into a window. */
module Windows {

  predicate Sorted(log: seq<real>) {
    forall i, j :: 0 <= i < j < |log| ==> log[i] <= log[j]
  }

  /** A sorted log whose last stamp is not after the clock. */
  predicate SortedUpTo(log: seq<real>, clock: real) {
    Sorted(log) && forall i :: 0 <= i < |log| ==> log[i] <= clock
  }

  lemma AppendSorted(log: seq<real>, clock: real, now: real)
    requires SortedUpTo(log, clock) && clock <= now
    ensures SortedUpTo(log, now) && SortedUpTo(log + [now], now)
  {
  }

  // What a list that drops from its front keeps of a log.

  predicate IsTail(part: seq<real>, log: seq<real>) {
    |part| <= |log| && part == log[|log| - |part|..]
  }

  lemma TailAt(part: seq<real>, log: seq<real>)
    requires IsTail(part, log)
    ensures forall i :: 0 <= i < |part| ==> part[i] == log[|log| - |part| + i]
  {
  }

  lemma WholeIsTail(log: seq<real>)
    ensures IsTail(log, log)
  {
  }

  lemma LastIsTail(log: seq<real>, x: real)
    ensures IsTail([x], log + [x])
  {
  }

  lemma AppendTail(part: seq<real>, log: seq<real>, x: real)
    requires IsTail(part, log)
    ensures IsTail(part + [x], log + [x])
  {
  }

  lemma TailOfTail(inner: seq<real>, outer: seq<real>, log: seq<real>)
    requires IsTail(inner, outer) && IsTail(outer, log)
    ensures IsTail(inner, log) && |inner| <= |outer| <= |log|
  {
  }

  lemma TailSorted(part: seq<real>, log: seq<real>)
    requires Sorted(log) && IsTail(part, log)
    ensures Sorted(part)
  {
    TailAt(part, log);
  }

  /** The positions of the stamps in (after, upTo]. */
  function InWindow(log: seq<real>, after: real, upTo: real): set<nat> {
    set k: nat | k < |log| && after < log[k] <= upTo
  }

  /** The positions of the stamps in [from, upTo]. */
  function InClosedWindow(log: seq<real>, from: real, upTo: real): set<nat> {
    set k: nat | k < |log| && from <= log[k] <= upTo
  }

  function Range(lo: nat, hi: nat): (ks: set<nat>)
    requires lo <= hi
    ensures forall k :: k in ks <==> lo <= k < hi
    decreases hi - lo
  {
    if lo == hi then {} else {lo} + Range(lo + 1, hi)
  }

  lemma {:induction false} RangeSize(lo: nat, hi: nat)
    requires lo <= hi
    ensures |Range(lo, hi)| == hi - lo
    decreases hi - lo
  {
    if lo < hi {
      RangeSize(lo + 1, hi);
    }
  }

  lemma SubsetSize(small: set<nat>, big: set<nat>)
    requires small <= big
    ensures |small| <= |big|
  {
    assert big == small + (big - small);
  }

  lemma {:induction false} Smallest(ks: set<nat>) returns (least: nat)
    requires ks != {}
    ensures least in ks && forall k :: k in ks ==> least <= k
    decreases |ks|
  {
    var x :| x in ks;
    if ks == {x} { return x; }
    var rest := ks - {x};
    assert forall k :: k in ks <==> k == x || k in rest;
    assert rest != {};
    var y := Smallest(rest);
    least := if x < y then x else y;
  }

  /** Positions less than `n` apart from one another are at most `n`. */
  lemma FewWithin(ks: set<nat>, n: nat)
    requires forall i, k :: i in ks && k in ks ==> k - i < n
    ensures |ks| <= n
  {
    if ks != {} {
      var i := Smallest(ks);
      SubsetSize(ks, Range(i, i + n));
      RangeSize(i, i + n);
    }
  }
}
