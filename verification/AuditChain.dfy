/** The audit trail: hash-linked entries stored under ids derived from their sequence number. */
module AuditChain {
  import opened Options
  import opened Decimal

  datatype Entry = Entry(
    session: string, sequence: nat, eventType: string, payload: string,
    actor: Option<string>, previousHash: string, eventHash: string)

  type Store = map<string, Entry>

  datatype Appended = Created(eventHash: string) | AlreadyExists

  function DocumentId(session: string, sequence: nat): string {
    session + "-" + Padded(sequence)
  }

  function ActorText(actor: Option<string>): string {
    if actor.Some? then actor.value else ""
  }

  /** The text that is hashed; the payload is its canonical JSON form. */
  function Preimage(e: Entry): string {
    e.session + ":" +
    (Digits(e.sequence) + ":" + (e.eventType + ":" + (ActorText(e.actor) + ":" + (e.previousHash + ":" + e.payload))))
  }

  /** The entry an appender builds on the last entry it has read. */
  function NextEntry(session: string, previous: Option<Entry>, eventType: string, payload: string,
                     actor: Option<string>, hash: string -> string): Entry
  {
    var sequence := if previous.Some? then previous.value.sequence + 1 else 1;
    var previousHash := if previous.Some? then previous.value.eventHash else "";
    var draft := Entry(session, sequence, eventType, payload, actor, previousHash, "");
    draft.(eventHash := hash(Preimage(draft)))
  }

  /** create: refused if a document with that id exists. */
  function Commit(docs: Store, e: Entry): Store {
    var id := DocumentId(e.session, e.sequence);
    if id in docs then docs else docs[id := e]
  }

  class AuditEventRepository {
    const hash: string -> string
    var docs: Store

    constructor (hash: string -> string)
      ensures this.hash == hash && docs == map[]
    {
      this.hash, docs := hash, map[];
    }

    /** The transaction body, with the answer of its query for the last entry as an argument. */
    method Append(session: string, eventType: string, payload: string, actor: Option<string>, previous: Option<Entry>)
      returns (result: Appended)
      modifies this
      ensures var e := NextEntry(session, previous, eventType, payload, actor, hash);
              && docs == Commit(old(docs), e)
              && result == if DocumentId(session, e.sequence) in old(docs) then AlreadyExists else Created(e.eventHash)
    {
      var previousHash, sequence := "", 1;
      if previous.Some? {
        previousHash, sequence := previous.value.eventHash, previous.value.sequence + 1;
      }
      var e := Entry(session, sequence, eventType, payload, actor, previousHash, "");
      e := e.(eventHash := hash(Preimage(e)));
      var id := DocumentId(session, sequence);
      if id in docs { return AlreadyExists; }
      docs := docs[id := e];
      return Created(e.eventHash);
    }
  }

  // Document ids.

  lemma DocumentIdInjective(s: string, m: nat, t: string, n: nat)
    requires DocumentId(s, m) == DocumentId(t, n)
    ensures s == t && m == n
  {
    SplitAtLastHyphen(s, Padded(m), t, Padded(n));
    PaddedInjective(m, n);
  }

  /** Session ids may contain hyphens, the number after the last one does not. */
  lemma SplitAtLastHyphen(a: string, p: string, b: string, q: string)
    requires a + "-" + p == b + "-" + q
    requires '-' !in p && '-' !in q
    ensures a == b && p == q
  {
    var whole := a + "-" + p;
    assert whole == b + "-" + q;
    assert whole[|a|] == '-' && whole[|b|] == '-';
    assert forall j :: |a| < j < |whole| ==> whole[j] == p[j - |a| - 1];
    assert forall j :: |b| < j < |whole| ==> whole[j] == q[j - |b| - 1];
    assert |a| == |b|;
    assert a == whole[..|a|] && b == whole[..|b|];
    assert p == whole[|a| + 1..] && q == whole[|b| + 1..];
  }

  // Any number of appenders.

  /** Every document sits under its own id, carries its own hash and links to its predecessor. */
  ghost predicate Linked(docs: Store, hash: string -> string) {
    forall id :: id in docs ==>
      var e := docs[id];
      && e.sequence >= 1
      && id == DocumentId(e.session, e.sequence)
      && e.eventHash == hash(Preimage(e))
      && (e.sequence == 1 ==> e.previousHash == "")
      && (e.sequence > 1 ==>
            && DocumentId(e.session, e.sequence - 1) in docs
            && docs[DocumentId(e.session, e.sequence - 1)].eventHash == e.previousHash)
  }

  /** The answer of the query for the last entry of a session. */
  ghost predicate IsLatest(docs: Store, session: string, answer: Option<Entry>) {
    && (answer.None? ==> forall id :: id in docs ==> docs[id].session != session)
    && (answer.Some? ==>
          && answer.value in docs.Values
          && answer.value.session == session
          && forall id :: id in docs && docs[id].session == session ==> docs[id].sequence <= answer.value.sequence)
  }

  datatype Pending = Pending(session: string, previous: Option<Entry>)

  /** All versions of the store so far, and what each appender has read and not yet committed. */
  datatype State<A> = State(versions: seq<Store>, pending: map<A, Pending>)
  {
    ghost function Docs(): Store { if versions == [] then map[] else versions[|versions| - 1] }
  }

  datatype Step<A> =
    | Read(appender: A, session: string, version: nat, answer: Option<Entry>)
    | Write(appender: A, eventType: string, payload: string, actor: Option<string>)

  /** A read may answer from any version of the store, however old; a write commits against the
      newest one. */
  ghost function Apply<A>(s: State<A>, step: Step<A>, hash: string -> string): State<A> {
    match step
    case Read(a, session, version, answer) =>
      if version < |s.versions| && IsLatest(s.versions[version], session, answer)
      then s.(pending := s.pending[a := Pending(session, answer)])
      else s
    case Write(a, eventType, payload, actor) =>
      if a in s.pending then
        var p := s.pending[a];
        State(s.versions + [Commit(s.Docs(), NextEntry(p.session, p.previous, eventType, payload, actor, hash))],
              s.pending - {a})
      else s
  }

  ghost function Run<A>(s: State<A>, steps: seq<Step<A>>, hash: string -> string): State<A>
    decreases |steps|
  {
    if steps == [] then s else Run(Apply(s, steps[0], hash), steps[1..], hash)
  }

  ghost function Empty<A>(): State<A> {
    State([map[]], map[])
  }

  ghost predicate Within(older: Store, newer: Store) {
    forall id :: id in older ==> id in newer && newer[id] == older[id]
  }

  /** What a read has seen is still there: the entry itself, under its id. */
  ghost predicate StillStored(docs: Store, p: Pending) {
    p.previous.Some? ==>
      && p.previous.value.session == p.session
      && DocumentId(p.session, p.previous.value.sequence) in docs
      && docs[DocumentId(p.session, p.previous.value.sequence)] == p.previous.value
  }

  ghost predicate Good<A>(s: State<A>, hash: string -> string) {
    && s.versions != []
    && Linked(s.Docs(), hash)
    && (forall v :: 0 <= v < |s.versions| ==> Linked(s.versions[v], hash) && Within(s.versions[v], s.Docs()))
    && (forall a :: a in s.pending ==> StillStored(s.Docs(), s.pending[a]))
  }

  lemma NextEntryHashesItself(session: string, previous: Option<Entry>, eventType: string, payload: string,
                              actor: Option<string>, hash: string -> string)
    ensures var e := NextEntry(session, previous, eventType, payload, actor, hash);
            e.eventHash == hash(Preimage(e))
  {
    var e := NextEntry(session, previous, eventType, payload, actor, hash);
    assert Preimage(e) == Preimage(e.(eventHash := ""));
  }

  /** Committing the successor of a stored entry (or a first entry) keeps every link. */
  lemma CommitKeepsLinked(docs: Store, p: Pending, eventType: string, payload: string, actor: Option<string>,
                          hash: string -> string)
    requires Linked(docs, hash) && StillStored(docs, p)
    ensures var docs' := Commit(docs, NextEntry(p.session, p.previous, eventType, payload, actor, hash));
            Linked(docs', hash) && Within(docs, docs')
  {
    assert p.previous.Some? ==> p.previous.value.sequence >= 1;
    hide DocumentId, Preimage, Linked;
    var e := NextEntry(p.session, p.previous, eventType, payload, actor, hash);
    NextEntryHashesItself(p.session, p.previous, eventType, payload, actor, hash);
    assert p.previous.Some? ==> DocumentId(e.session, e.sequence - 1) in docs;
    hide NextEntry;
    if DocumentId(e.session, e.sequence) !in docs {
      NewLinkKeepsLinked(docs, e, hash);
    }
  }

  lemma NewLinkKeepsLinked(docs: Store, e: Entry, hash: string -> string)
    requires Linked(docs, hash) && DocumentId(e.session, e.sequence) !in docs
    requires e.sequence >= 1 && e.eventHash == hash(Preimage(e))
    requires e.sequence == 1 ==> e.previousHash == ""
    requires e.sequence > 1 ==>
               && DocumentId(e.session, e.sequence - 1) in docs
               && docs[DocumentId(e.session, e.sequence - 1)].eventHash == e.previousHash
    ensures Linked(docs[DocumentId(e.session, e.sequence) := e], hash)
  {
    hide DocumentId, Preimage;
  }

  lemma ReadKeepsGood<A>(s: State<A>, version: nat, session: string, answer: Option<Entry>, hash: string -> string)
    requires Good(s, hash) && version < |s.versions| && IsLatest(s.versions[version], session, answer)
    ensures StillStored(s.Docs(), Pending(session, answer))
  {
    hide DocumentId, Preimage;
    if answer.Some? {
      var id :| id in s.versions[version] && s.versions[version][id] == answer.value;
      assert id in s.Docs();
    }
  }

  lemma ApplyKeepsGood<A>(s: State<A>, step: Step<A>, hash: string -> string)
    requires Good(s, hash)
    ensures Good(Apply(s, step, hash), hash)
    ensures Within(s.Docs(), Apply(s, step, hash).Docs())
  {
    hide DocumentId, Linked, NextEntry, IsLatest;
    match step {
      case Read(a, session, version, answer) =>
        if version < |s.versions| && IsLatest(s.versions[version], session, answer) {
          ReadKeepsGood(s, version, session, answer, hash);
        }
      case Write(a, eventType, payload, actor) =>
        if a in s.pending {
          var p := s.pending[a];
          CommitKeepsLinked(s.Docs(), p, eventType, payload, actor, hash);
          var s' := Apply(s, step, hash);
          assert s'.Docs() == Commit(s.Docs(), NextEntry(p.session, p.previous, eventType, payload, actor, hash));
        }
    }
  }

  lemma {:induction false} RunKeepsGood<A>(s: State<A>, steps: seq<Step<A>>, hash: string -> string)
    requires Good(s, hash)
    ensures Good(Run(s, steps, hash), hash)
    ensures Within(s.Docs(), Run(s, steps, hash).Docs())
    decreases |steps|
  {
    if steps != [] {
      ApplyKeepsGood(s, steps[0], hash);
      RunKeepsGood(Apply(s, steps[0], hash), steps[1..], hash);
    }
  }

  lemma {:induction false} SequencesHaveNoHoles(docs: Store, session: string, j: nat, k: nat, hash: string -> string)
    requires Linked(docs, hash) && DocumentId(session, k) in docs && 1 <= j <= k
    ensures DocumentId(session, j) in docs
    ensures docs[DocumentId(session, j)].session == session && docs[DocumentId(session, j)].sequence == j
    decreases k
  {
    var e := docs[DocumentId(session, k)];
    DocumentIdInjective(session, k, e.session, e.sequence);
    if j < k {
      SequencesHaveNoHoles(docs, session, j, k - 1, hash);
    }
  }

  /** Main result: however many appenders interleave and however stale their reads are, the store
      is a set of unforked chains: per session the sequence numbers are 1..n without holes, each
      under a single document, each entry hashes itself and links to its predecessor's hash. */
  lemma ChainsNeverFork<A>(steps: seq<Step<A>>, hash: string -> string, session: string, k: nat)
    requires DocumentId(session, k) in Run(Empty<A>(), steps, hash).Docs()
    ensures Linked(Run(Empty<A>(), steps, hash).Docs(), hash)
    ensures var docs := Run(Empty<A>(), steps, hash).Docs();
            && k >= 1
            && (forall j: nat :: 1 <= j <= k ==>
                 DocumentId(session, j) in docs && docs[DocumentId(session, j)].sequence == j)
            && (forall id :: id in docs && docs[id].session == session && docs[id].sequence == k ==>
                 id == DocumentId(session, k))
  {
    RunKeepsGood(Empty<A>(), steps, hash);
    var docs := Run(Empty<A>(), steps, hash).Docs();
    DocumentIdInjective(session, k, docs[DocumentId(session, k)].session, docs[DocumentId(session, k)].sequence);
    forall j: nat | 1 <= j <= k
      ensures DocumentId(session, j) in docs && docs[DocumentId(session, j)].sequence == j
    {
      SequencesHaveNoHoles(docs, session, j, k, hash);
    }
  }

  /** A write succeeds exactly when the entry its appender read is still the last one: a stale
      write always runs into an existing document. */
  lemma WriteSucceedsExactlyWhenFresh<A>(steps: seq<Step<A>>, a: A, eventType: string, payload: string,
                                         actor: Option<string>, s: State<A>, hash: string -> string)
    requires s == Run(Empty<A>(), steps, hash) && a in s.pending
    ensures var p := s.pending[a];
            var e := NextEntry(p.session, p.previous, eventType, payload, actor, hash);
            DocumentId(e.session, e.sequence) !in s.Docs() <==> IsLatest(s.Docs(), p.session, p.previous)
  {
    RunKeepsGood(Empty<A>(), steps, hash);
    var docs, p := s.Docs(), s.pending[a];
    var e := NextEntry(p.session, p.previous, eventType, payload, actor, hash);
    if DocumentId(e.session, e.sequence) !in docs {
      forall id | id in docs && docs[id].session == p.session
        ensures docs[id].sequence < e.sequence
      {
        if docs[id].sequence >= e.sequence {
          SequencesHaveNoHoles(docs, p.session, e.sequence, docs[id].sequence, hash);
        }
      }
    } else {
      DocumentIdInjective(e.session, e.sequence, docs[DocumentId(e.session, e.sequence)].session,
                          docs[DocumentId(e.session, e.sequence)].sequence);
    }
  }

  /** Nothing that was written is ever changed or removed. */
  lemma WrittenStays<A>(before: seq<Step<A>>, after: seq<Step<A>>, hash: string -> string)
    ensures var s := Run(Empty<A>(), before, hash);
            Within(s.Docs(), Run(s, after, hash).Docs())
  {
    RunKeepsGood(Empty<A>(), before, hash);
    RunKeepsGood(Run(Empty<A>(), before, hash), after, hash);
  }
}
