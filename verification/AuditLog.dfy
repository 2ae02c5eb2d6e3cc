/** What the audit store contains: exactly the accepted writes, in order. */
module AuditLog {
  import opened Options
  import opened Decimal
  import opened AuditChain
  import opened AuditTamper

  /** What an appender hands over. */
  datatype Event = Event(eventType: string, payload: string, actor: Option<string>)

  /** The store holds `n` entries of the session, under the ids of sequences 1..n. */
  ghost predicate HasLength(docs: Store, session: string, n: nat) {
    && (forall i: nat :: 1 <= i <= n ==> Holds(docs, session, i))
    && (forall id :: id in docs && docs[id].session == session ==> 1 <= docs[id].sequence <= n)
  }

  ghost predicate Holds(docs: Store, session: string, i: nat) {
    var id := DocumentId(session, i);
    id in docs && docs[id].session == session && docs[id].sequence == i
  }

  /** A pending write is fresh if what its appender has read is still the last entry. */
  ghost predicate Fresh<A>(s: State<A>, step: Step<A>) {
    step.Write? && step.appender in s.pending &&
    IsLatest(s.Docs(), s.pending[step.appender].session, s.pending[step.appender].previous)
  }

  /** The store after the step holds one entry more: the caller's event under the next sequence, linked
      to the former head. Everything else is as it was. */
  ghost predicate OneMore(docs: Store, docs': Store, session: string, n: nat, event: Event, hash: string -> string) {
    var id := DocumentId(session, n + 1);
    && id !in docs && docs'.Keys == docs.Keys + {id}
    && (forall other :: other in docs ==> docs'[other] == docs[other])
    && docs'[id].session == session && docs'[id].sequence == n + 1
    && docs'[id].eventType == event.eventType && docs'[id].payload == event.payload && docs'[id].actor == event.actor
    && docs'[id].eventHash == hash(Preimage(docs'[id]))
    && docs'[id].previousHash ==
       (if n == 0 then "" else if DocumentId(session, n) in docs then docs[DocumentId(session, n)].eventHash else "")
  }

  lemma LatestGivesLength(docs: Store, session: string, answer: Option<Entry>, hash: string -> string)
    requires Linked(docs, hash) && IsLatest(docs, session, answer)
    ensures HasLength(docs, session, if answer.Some? then answer.value.sequence else 0)
    ensures answer.Some? ==>
              var id := DocumentId(session, answer.value.sequence);
              answer.value.sequence >= 1 && id in docs && docs[id] == answer.value
  {
    hide DocumentId, Preimage;
    if answer.Some? {
      var id :| id in docs && docs[id] == answer.value;
      assert id == DocumentId(session, answer.value.sequence);
      forall i: nat | 1 <= i <= answer.value.sequence
        ensures Holds(docs, session, i)
      {
        SequencesHaveNoHoles(docs, session, i, answer.value.sequence, hash);
      }
    }
  }

  /** Main result about a write: if what its appender has read is still the last entry, the store has
      exactly the caller's event more; otherwise it stays exactly as it was. */
  lemma WriteStoresExactlyWhenFresh<A>(before: seq<Step<A>>, s: State<A>, a: A, event: Event, hash: string -> string)
    requires s == Run(Empty<A>(), before, hash) && a in s.pending
    ensures var step := Write(a, event.eventType, event.payload, event.actor);
            var docs, docs' := s.Docs(), Apply(s, step, hash).Docs();
            var p := s.pending[a];
            var n := if p.previous.Some? then p.previous.value.sequence else 0;
            if Fresh(s, step) then HasLength(docs, p.session, n) && OneMore(docs, docs', p.session, n, event, hash)
            else docs' == docs
  {
    hide Run, Linked, IsLatest;
    EmptyIsGood<A>(hash);
    RunKeepsGood(Empty<A>(), before, hash);
    WriteSucceedsExactlyWhenFresh(before, a, event.eventType, event.payload, event.actor, s, hash);
    var p := s.pending[a];
    var step := Write(a, event.eventType, event.payload, event.actor);
    var e := NextEntry(p.session, p.previous, event.eventType, event.payload, event.actor, hash);
    NextEntryHashesItself(p.session, p.previous, event.eventType, event.payload, event.actor, hash);
    assert Apply(s, step, hash).Docs() == Commit(s.Docs(), e);
    if Fresh(s, step) {
      LatestGivesLength(s.Docs(), p.session, p.previous, hash);
      hide DocumentId, Preimage, HasLength;
    }
  }

  /** An appender that reads the newest version and writes at once always stores its event. */
  lemma LoneAppendIsStored<A>(before: seq<Step<A>>, s: State<A>, a: A, session: string, answer: Option<Entry>,
                              event: Event, hash: string -> string)
    requires s == Run(Empty<A>(), before, hash) && s.versions != [] && IsLatest(s.Docs(), session, answer)
    ensures var read := Apply(s, Read(a, session, |s.versions| - 1, answer), hash);
            var docs' := Apply(read, Write(a, event.eventType, event.payload, event.actor), hash).Docs();
            read.Docs() == s.Docs() &&
            OneMore(s.Docs(), docs', session, if answer.Some? then answer.value.sequence else 0, event, hash)
  {
    hide OneMore, IsLatest, Run;
    var step := Read(a, session, |s.versions| - 1, answer);
    RunSnoc(Empty<A>(), before, step, hash);
    var read := Apply(s, step, hash);
    assert read.Docs() == s.Docs() && a in read.pending && read.pending[a] == Pending(session, answer);
    WriteStoresExactlyWhenFresh(before + [step], read, a, event, hash);
  }

  lemma EmptyIsGood<A>(hash: string -> string)
    ensures Good(Empty<A>(), hash)
  {
  }

  // The log of accepted writes.

  /** The events of the fresh writes to a session along a run, in order. */
  ghost function Accepted<A>(s: State<A>, steps: seq<Step<A>>, session: string, hash: string -> string): seq<Event>
    decreases |steps|
  {
    if steps == [] then []
    else
      var rest := Accepted(Apply(s, steps[0], hash), steps[1..], session, hash);
      if Fresh(s, steps[0]) && s.pending[steps[0].appender].session == session
      then [Event(steps[0].eventType, steps[0].payload, steps[0].actor)] + rest
      else rest
  }

  /** The session's entries are these events, in order, and nothing else. */
  ghost predicate Lists(docs: Store, session: string, events: seq<Event>) {
    && HasLength(docs, session, |events|)
    && forall i: nat :: i < |events| ==> Records(docs, session, i + 1, events[i])
  }

  ghost predicate Records(docs: Store, session: string, sequence: nat, event: Event) {
    var id := DocumentId(session, sequence);
    && id in docs && docs[id].eventType == event.eventType
    && docs[id].payload == event.payload && docs[id].actor == event.actor
  }

  lemma OneMoreLists(docs: Store, docs': Store, session: string, events: seq<Event>, event: Event,
                     hash: string -> string)
    requires Lists(docs, session, events) && OneMore(docs, docs', session, |events|, event, hash)
    ensures Lists(docs', session, events + [event])
  {
    hide DocumentId, Preimage;
    var n := |events|;
    forall i: nat | i < n + 1
      ensures Records(docs', session, i + 1, (events + [event])[i])
    {
      if i < n { assert Records(docs, session, i + 1, events[i]); }
    }
    forall i: nat | 1 <= i <= n + 1
      ensures Holds(docs', session, i)
    {
      if i <= n { assert Holds(docs, session, i); }
    }
  }

  lemma OtherSessionLists(docs: Store, docs': Store, other: string, n: nat, event: Event, session: string,
                          events: seq<Event>, hash: string -> string)
    requires Lists(docs, session, events) && OneMore(docs, docs', other, n, event, hash) && other != session
    ensures Lists(docs', session, events)
  {
    hide DocumentId, Preimage;
    forall i: nat | i < |events|
      ensures Records(docs', session, i + 1, events[i])
    {
      assert Records(docs, session, i + 1, events[i]);
    }
    forall i: nat | 1 <= i <= |events|
      ensures Holds(docs', session, i)
    {
      assert Holds(docs, session, i);
    }
  }

  lemma LengthIsUnique(docs: Store, session: string, m: nat, n: nat)
    requires HasLength(docs, session, m) && HasLength(docs, session, n)
    ensures m == n
  {
    hide DocumentId;
    assert n >= 1 ==> Holds(docs, session, n);
    assert m >= 1 ==> Holds(docs, session, m);
  }

  lemma StepLists<A>(before: seq<Step<A>>, s: State<A>, step: Step<A>, session: string, events: seq<Event>,
                     hash: string -> string)
    requires s == Run(Empty<A>(), before, hash) && Lists(s.Docs(), session, events)
    ensures Lists(Apply(s, step, hash).Docs(), session,
              if Fresh(s, step) && s.pending[step.appender].session == session
              then events + [Event(step.eventType, step.payload, step.actor)] else events)
  {
    hide Lists, Run, HasLength, IsLatest, OneMore;
    if step.Write? && step.appender in s.pending {
      var event := Event(step.eventType, step.payload, step.actor);
      var p := s.pending[step.appender];
      var n := if p.previous.Some? then p.previous.value.sequence else 0;
      WriteStoresExactlyWhenFresh(before, s, step.appender, event, hash);
      var docs' := Apply(s, step, hash).Docs();
      hide Apply;
      if Fresh(s, step) {
        if p.session == session {
          ListsLength(s.Docs(), session, events);
          LengthIsUnique(s.Docs(), session, n, |events|);
          OneMoreLists(s.Docs(), docs', session, events, event, hash);
        } else {
          OtherSessionLists(s.Docs(), docs', p.session, n, event, session, events, hash);
        }
      }
    } else {
      assert Apply(s, step, hash).Docs() == s.Docs();
    }
  }

  lemma ListsLength(docs: Store, session: string, events: seq<Event>)
    requires Lists(docs, session, events)
    ensures HasLength(docs, session, |events|)
  {
  }

  lemma {:induction false} RunSnoc<A>(s: State<A>, steps: seq<Step<A>>, step: Step<A>, hash: string -> string)
    ensures Run(s, steps + [step], hash) == Apply(Run(s, steps, hash), step, hash)
    decreases |steps|
  {
    hide Apply;
    if steps == [] {
      assert [] + [step] == [step] && [step][1..] == [];
      assert Run(Apply(s, step, hash), [], hash) == Apply(s, step, hash);
    } else {
      assert (steps + [step])[1..] == steps[1..] + [step];
      RunSnoc(Apply(s, steps[0], hash), steps[1..], step, hash);
    }
  }

  lemma {:induction false} AcceptedAreListed<A>(before: seq<Step<A>>, s: State<A>, steps: seq<Step<A>>, session: string,
                                                events: seq<Event>, hash: string -> string)
    requires s == Run(Empty<A>(), before, hash) && Lists(s.Docs(), session, events)
    ensures Lists(Run(s, steps, hash).Docs(), session, events + Accepted(s, steps, session, hash))
    decreases |steps|
  {
    hide Lists, Apply, IsLatest;
    if steps == [] {
      assert events + [] == events;
    } else {
      var step := steps[0];
      StepLists(before, s, step, session, events, hash);
      RunSnoc(Empty<A>(), before, step, hash);
      var mine := Fresh(s, step) && s.pending[step.appender].session == session;
      var events' := if mine then events + [Event(step.eventType, step.payload, step.actor)] else events;
      AcceptedAreListed(before + [step], Apply(s, step, hash), steps[1..], session, events', hash);
      var rest := Accepted(Apply(s, step, hash), steps[1..], session, hash);
      assert mine ==> events' + rest == events + ([Event(step.eventType, step.payload, step.actor)] + rest);
    }
  }

  /** Main result: whatever the appenders do and however stale their reads are, a session's entries are
      exactly the events of its fresh writes, in the order in which they were accepted. */
  lemma StoreIsTheAcceptedWrites<A>(steps: seq<Step<A>>, session: string, hash: string -> string)
    ensures Lists(Run(Empty<A>(), steps, hash).Docs(), session, Accepted(Empty<A>(), steps, session, hash))
  {
    var none: seq<Event> := [];
    assert Lists(Empty<A>().Docs(), session, none);
    hide Lists, Accepted, Apply;
    AcceptedAreListed([], Empty<A>(), steps, session, none, hash);
    assert none + Accepted(Empty<A>(), steps, session, hash) == Accepted(Empty<A>(), steps, session, hash);
  }

  /** So an export has one entry per accepted write, with the accepted payloads in order. */
  lemma ExportListsAccepted<A>(steps: seq<Step<A>>, session: string, hash: string -> string, i: nat)
    requires i < |Accepted(Empty<A>(), steps, session, hash)|
    ensures var events := Accepted(Empty<A>(), steps, session, hash);
            var docs := Run(Empty<A>(), steps, hash).Docs();
            && (forall k: nat :: 1 <= k <= |events| ==> DocumentId(session, k) in docs)
            && Export(docs, session, |events|)[i].payload == events[i].payload
            && Export(docs, session, |events|)[i].sequence == i + 1
  {
    StoreIsTheAcceptedWrites(steps, session, hash);
    hide Accepted, Run, DocumentId;
    var events := Accepted(Empty<A>(), steps, session, hash);
    var docs := Run(Empty<A>(), steps, hash).Docs();
    assert Records(docs, session, i + 1, events[i]);
    assert Holds(docs, session, i + 1);
    forall k: nat | 1 <= k <= |events|
      ensures DocumentId(session, k) in docs
    {
      assert Holds(docs, session, k);
    }
  }
}
