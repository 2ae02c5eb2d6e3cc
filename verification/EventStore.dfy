/** Realtime events and the replay scans over stored ones. */
module EventStore {
  import opened Options

  datatype Event = Event(id: string, session: string, sequence: nat, body: string)

  /** What deque(maxlen=n) keeps of a history. */
  function LastN<T>(history: seq<T>, n: nat): (kept: seq<T>)
    ensures |kept| == if |history| <= n then |history| else n
    ensures kept == history[|history| - |kept|..]
  {
    if |history| <= n then history else history[|history| - n..]
  }

  lemma LastNAppend<T>(history: seq<T>, x: T, n: nat)
    ensures LastN(LastN(history, n) + [x], n) == LastN(history + [x], n)
  {
  }

  /** The index of the first match, or the length if there is none. */
  ghost function FirstMatch<T>(items: seq<T>, matches: T -> bool): (p: nat)
    ensures p <= |items|
    ensures forall i :: 0 <= i < p ==> !matches(items[i])
    ensures p < |items| ==> matches(items[p])
  {
    if items == [] || matches(items[0]) then 0 else 1 + FirstMatch(items[1..], matches)
  }

  /** Everything after the first match; nothing if there is none. */
  ghost function AfterFirst<T>(items: seq<T>, matches: T -> bool): (suffix: seq<T>)
    ensures |suffix| <= |items| && suffix == items[|items| - |suffix|..]
  {
    var p := FirstMatch(items, matches);
    if p < |items| then items[p + 1..] else []
  }

  lemma {:induction false} AfterFirstSplit<T>(before: seq<T>, x: T, after: seq<T>, matches: T -> bool)
    requires matches(x) && forall i :: 0 <= i < |before| ==> !matches(before[i])
    ensures AfterFirst(before + [x] + after, matches) == after
  {
    var items := before + [x] + after;
    assert items[|before|] == x;
    assert forall i :: 0 <= i < |before| ==> items[i] == before[i];
    assert FirstMatch(items, matches) == |before|;
  }

  class InMemoryEventStore {
    const maxlen: nat
    var buffer: seq<(string, Event)>
    ghost var appended: seq<(string, Event)>

    ghost predicate Valid()
      reads this
    {
      buffer == LastN(appended, maxlen)
    }

    constructor (maxlen: nat)
      ensures Valid() && this.maxlen == maxlen && appended == []
    {
      this.maxlen, buffer, appended := maxlen, [], [];
    }

    method Append(storeId: string, event: Event)
      requires Valid()
      modifies this
      ensures Valid() && appended == old(appended) + [(storeId, event)]
    {
      LastNAppend(appended, (storeId, event), maxlen);
      appended := appended + [(storeId, event)];
      buffer := LastN(buffer + [(storeId, event)], maxlen);
    }

    /** Without a last id the latest `count` events (a count of 0 means all of them, as a slice
        from -0 does); otherwise what follows the first entry with that id. */
    method Replay(lastId: Option<string>, count: nat) returns (out: seq<Event>)
      ensures lastId.None? ==>
                |out| == (if count == 0 || |buffer| <= count then |buffer| else count) &&
                forall i :: 0 <= i < |out| ==> out[i] == buffer[|buffer| - |out| + i].1
      ensures lastId.Some? ==>
                var suffix := AfterFirst(buffer, (entry: (string, Event)) => entry.0 == lastId.value);
                |out| == |suffix| && forall i :: 0 <= i < |out| ==> out[i] == suffix[i].1
    {
      out := [];
      if lastId.None? {
        var from := if count == 0 || |buffer| <= count then 0 else |buffer| - count;
        for i := from to |buffer|
          invariant |out| == i - from
          invariant forall k :: 0 <= k < |out| ==> out[k] == buffer[from + k].1
        {
          out := out + [buffer[i].1];
        }
        return;
      }
      ghost var matches := (entry: (string, Event)) => entry.0 == lastId.value;
      ghost var p := FirstMatch(buffer, matches);
      var found := false;
      for i := 0 to |buffer|
        invariant found <==> p < i
        invariant !found ==> out == []
        invariant found ==> |out| == i - p - 1
        invariant found ==> forall k :: 0 <= k < |out| ==> out[k] == buffer[p + 1 + k].1
      {
        if found {
          out := out + [buffer[i].1];
        } else if buffer[i].0 == lastId.value {
          found := true;
        }
      }
    }
  }

  /** The scan over fetched stream entries, where an entry matches by its stream id or by the id
      of the event it carries; an empty last id means none. */
  method StreamReplay(entries: seq<(string, Event)>, lastId: string) returns (out: seq<Event>)
    ensures lastId == "" ==> |out| == |entries| && forall i :: 0 <= i < |out| ==> out[i] == entries[i].1
    ensures lastId != "" ==>
              var suffix := AfterFirst(entries, (entry: (string, Event)) => entry.0 == lastId || entry.1.id == lastId);
              |out| == |suffix| && forall i :: 0 <= i < |out| ==> out[i] == suffix[i].1
  {
    out := [];
    if lastId == "" {
      for i := 0 to |entries|
        invariant |out| == i && forall k :: 0 <= k < i ==> out[k] == entries[k].1
      {
        out := out + [entries[i].1];
      }
      return;
    }
    ghost var matches := (entry: (string, Event)) => entry.0 == lastId || entry.1.id == lastId;
    ghost var p := FirstMatch(entries, matches);
    var found := false;
    for i := 0 to |entries|
      invariant found <==> p < i
      invariant !found ==> out == []
      invariant found ==> |out| == i - p - 1 && forall k :: 0 <= k < |out| ==> out[k] == entries[p + 1 + k].1
    {
      if !found {
        if entries[i].0 == lastId {
          found := true;
          continue;
        }
        if entries[i].1.id == lastId {
          found := true;
          continue;
        }
        continue;
      }
      out := out + [entries[i].1];
    }
  }
}
