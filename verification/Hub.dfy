/** The broadcaster as a transition system: publishing, registering, leaving, pruning and reading
    are atomic steps over a log of everything that was ever fanned out. */
module Hub {
  import opened Options
  import opened EventStore

  datatype Config = Config(bufferSize: nat, maxQueueSize: nat, maxPayloadBytes: nat)

  /** One subscriber's queue. `received` is everything ever put into it and `taken` how much of
      that its reader has consumed. The rest is bookkeeping for statements: the log positions of
      what was put, the log position it joined at, and whether no put was ever refused. */
  datatype Mailbox = Mailbox(
    received: seq<Event>, taken: nat, lastActive: real,
    positions: seq<nat>, joined: nat, lossless: bool)
  {
    /** What is still in the queue. */
    function Queue(): seq<Event> { if taken <= |received| then received[taken..] else [] }

    function Consumed(): seq<Event> { if taken <= |received| then received[..taken] else received }

    predicate Full(cfg: Config) { cfg.maxQueueSize > 0 && |Queue()| >= cfg.maxQueueSize }
  }

  datatype State<K> = State(
    log: seq<Event>,
    buffer: seq<Event>,
    mailboxes: map<K, Mailbox>,
    active: set<K>,
    counters: map<string, nat>,
    oversized: set<(string, nat)>)

  ghost function Initial<K>(): State<K> {
    State([], [], map[], {}, map[], {})
  }

  /** An event handed to publish; `size` is the length of its serialised form. */
  datatype Draft = Draft(hasType: bool, id: string, session: string, payloadSession: string, body: string, size: nat)
  {
    function Session(): string { if session != "" then session else payloadSession }
  }

  /** put_nowait: a full queue refuses the event. */
  ghost function Put(box: Mailbox, e: Event, position: nat, now: real, cfg: Config): Mailbox {
    if box.Full(cfg) then box.(lossless := false)
    else box.(received := box.received + [e], positions := box.positions + [position], lastActive := now)
  }

  ghost function Fanout<K>(h: State<K>, e: Event, now: real, cfg: Config): State<K> {
    h.(log := h.log + [e],
       buffer := LastN(h.buffer + [e], cfg.bufferSize),
       mailboxes := map k | k in h.mailboxes ::
         if k in h.active then Put(h.mailboxes[k], e, |h.log|, now, cfg) else h.mailboxes[k])
  }

  ghost function Counter(counters: map<string, nat>, session: string): nat {
    if session in counters then counters[session] else 0
  }

  ghost function Numbered<K>(h: State<K>, d: Draft): Event {
    Event(d.id, d.Session(), if d.Session() != "" then Counter(h.counters, d.Session()) + 1 else 0, d.body)
  }

  /** publish: number the event within its session, refuse it if it is too large, fan it out. A
      refused oversized event has used up its number. */
  ghost function Publish<K>(h: State<K>, d: Draft, now: real, cfg: Config): State<K> {
    if !d.hasType then h
    else
      var e := Numbered(h, d);
      var h1 := if e.session != "" then h.(counters := h.counters[e.session := e.sequence]) else h;
      if d.size > cfg.maxPayloadBytes then h1.(oversized := h1.oversized + {(e.session, e.sequence)})
      else Fanout(h1, e, now, cfg)
  }

  ghost function HasId(id: string): Event -> bool {
    (e: Event) => e.id == id
  }

  ghost function ReplayItems(buffer: seq<Event>, lastId: Option<string>): (items: seq<Event>)
    ensures |items| <= |buffer| && items == buffer[|buffer| - |items|..]
  {
    if lastId.None? then buffer else AfterFirst(buffer, HasId(lastId.value))
  }

  /** A fresh queue filled with the replay up to its capacity. */
  ghost function Replayed(items: seq<Event>, from: nat, now: real, cfg: Config): Mailbox {
    var n := if cfg.maxQueueSize > 0 && |items| > cfg.maxQueueSize then cfg.maxQueueSize else |items|;
    Mailbox(items[..n], 0, now, seq(n, i => from + i), from, n == |items|)
  }

  ghost function Register<K>(h: State<K>, k: K, lastId: Option<string>, now: real, cfg: Config): State<K> {
    var items := ReplayItems(h.buffer, lastId);
    var from := if |items| <= |h.log| then |h.log| - |items| else 0;
    h.(mailboxes := h.mailboxes[k := Replayed(items, from, now, cfg)], active := h.active + {k})
  }

  ghost function Unregister<K>(h: State<K>, k: K): State<K> {
    h.(active := h.active - {k})
  }

  ghost function Prune<K>(h: State<K>, cutoff: real): State<K> {
    h.(active := set k | k in h.active && !(k in h.mailboxes && h.mailboxes[k].lastActive < cutoff))
  }

  /** The reader takes the next event; on an empty queue it waits and nothing happens. */
  ghost function Take(box: Mailbox): Mailbox {
    if box.Queue() != [] then box.(taken := box.taken + 1) else box
  }

  ghost function Consume<K>(h: State<K>, k: K): State<K> {
    if k in h.mailboxes then h.(mailboxes := h.mailboxes[k := Take(h.mailboxes[k])]) else h
  }

  datatype Step<K> =
    | DoPublish(draft: Draft, now: real)
    | DoRegister(k: K, lastId: Option<string>, now: real)
    | DoUnregister(k: K)
    | DoPrune(cutoff: real)
    | DoConsume(k: K)

  /** One step; every registration makes a new queue, so a known key is not registered again. */
  ghost function Apply<K>(h: State<K>, step: Step<K>, cfg: Config): State<K> {
    match step
    case DoPublish(d, now) => Publish(h, d, now, cfg)
    case DoRegister(k, lastId, now) => if k in h.mailboxes then h else Register(h, k, lastId, now, cfg)
    case DoUnregister(k) => Unregister(h, k)
    case DoPrune(cutoff) => Prune(h, cutoff)
    case DoConsume(k) => Consume(h, k)
  }

  ghost function Run<K>(h: State<K>, steps: seq<Step<K>>, cfg: Config): State<K>
    decreases |steps|
  {
    if steps == [] then h else Run(Apply(h, steps[0], cfg), steps[1..], cfg)
  }

  // What every run keeps.

  predicate StrictlyIncreasing(positions: seq<nat>) {
    forall i, j :: 0 <= i < j < |positions| ==> positions[i] < positions[j]
  }

  /** The queue's history is an in-order, duplicate-free part of the log from `joined` on; without
      a refused put it is a gap-free piece of the log, up to its end while still subscribed. */
  ghost predicate MailboxGood(log: seq<Event>, box: Mailbox, active: bool) {
    && box.taken <= |box.received| == |box.positions|
    && box.joined <= |log|
    && StrictlyIncreasing(box.positions)
    && (forall i :: 0 <= i < |box.positions| ==>
          box.joined <= box.positions[i] < |log| && box.received[i] == log[box.positions[i]])
    && (box.lossless ==> box.received <= log[box.joined..])
    && (box.lossless && active ==> box.received == log[box.joined..])
  }

  /** Numbers within a session rise along the log, and each number given out belongs to a
      logged event or to a refused oversized one, never to both. */
  ghost predicate NumbersGood(log: seq<Event>, counters: map<string, nat>, oversized: set<(string, nat)>) {
    && (forall i :: 0 <= i < |log| && log[i].session != "" ==>
         1 <= log[i].sequence <= Counter(counters, log[i].session))
    && (forall i, j :: 0 <= i < j < |log| && log[i].session == log[j].session != "" ==>
         log[i].sequence < log[j].sequence)
    && (forall session: string, n: nat :: session != "" && 1 <= n <= Counter(counters, session) ==>
          ((session, n) in oversized <==> !IsLogged(log, session, n)))
    && (forall session: string, n: nat :: (session, n) in oversized && session != "" ==>
         n <= Counter(counters, session))
  }

  ghost predicate IsLogged(log: seq<Event>, session: string, n: nat) {
    exists i :: 0 <= i < |log| && log[i].session == session && log[i].sequence == n
  }

  ghost predicate Good<K>(h: State<K>, cfg: Config) {
    && h.buffer == LastN(h.log, cfg.bufferSize)
    && h.active <= h.mailboxes.Keys
    && (forall k :: k in h.mailboxes ==> MailboxGood(h.log, h.mailboxes[k], k in h.active))
    && NumbersGood(h.log, h.counters, h.oversized)
  }

  lemma InitialIsGood<K>(cfg: Config)
    ensures Good(Initial<K>(), cfg)
  {
  }

  lemma PutKeepsGood(log: seq<Event>, box: Mailbox, e: Event, now: real, cfg: Config)
    requires MailboxGood(log, box, true)
    ensures MailboxGood(log + [e], Put(box, e, |log|, now, cfg), true)
  {
    var log' := log + [e];
    assert log'[box.joined..] == log[box.joined..] + [e];
  }

  lemma LeftAloneStaysGood(log: seq<Event>, box: Mailbox, e: Event)
    requires MailboxGood(log, box, false)
    ensures MailboxGood(log + [e], box, false)
  {
    var log' := log + [e];
    assert log'[box.joined..] == log[box.joined..] + [e];
  }

  lemma ReplayedIsGood(log: seq<Event>, items: seq<Event>, now: real, cfg: Config)
    requires |items| <= |log| && items == log[|log| - |items|..]
    ensures MailboxGood(log, Replayed(items, |log| - |items|, now, cfg), true)
  {
  }

  lemma LoggedKeepsNumbers(log: seq<Event>, counters: map<string, nat>, oversized: set<(string, nat)>, e: Event)
    requires NumbersGood(log, counters, oversized) && e.session != "" && e.sequence == Counter(counters, e.session) + 1
    ensures NumbersGood(log + [e], counters[e.session := e.sequence], oversized)
  {
    var log', counters' := log + [e], counters[e.session := e.sequence];
    forall session: string, n: nat | session != "" && 1 <= n <= Counter(counters', session)
      ensures (session, n) in oversized <==> !IsLogged(log', session, n)
    {
      LoggedAppend(log, e, session, n);
    }
  }

  lemma LoggedAppend(log: seq<Event>, e: Event, session: string, n: nat)
    ensures IsLogged(log + [e], session, n) <==> IsLogged(log, session, n) || (e.session == session && e.sequence == n)
  {
    var log' := log + [e];
    if IsLogged(log, session, n) {
      var i :| 0 <= i < |log| && log[i].session == session && log[i].sequence == n;
      assert log'[i] == log[i];
    }
    assert log'[|log|] == e;
  }

  lemma UnnumberedKeepsNumbers(log: seq<Event>, counters: map<string, nat>, oversized: set<(string, nat)>, e: Event)
    requires NumbersGood(log, counters, oversized) && e.session == ""
    ensures NumbersGood(log + [e], counters, oversized)
  {
    forall session: string, n: nat | session != "" && 1 <= n <= Counter(counters, session)
      ensures (session, n) in oversized <==> !IsLogged(log + [e], session, n)
    {
      LoggedAppend(log, e, session, n);
    }
  }

  lemma RefusedKeepsNumbers(log: seq<Event>, counters: map<string, nat>, oversized: set<(string, nat)>, e: Event)
    requires NumbersGood(log, counters, oversized) && e.session != "" && e.sequence == Counter(counters, e.session) + 1
    ensures NumbersGood(log, counters[e.session := e.sequence], oversized + {(e.session, e.sequence)})
  {
  }

  lemma FanoutKeepsGood<K>(h: State<K>, counters: map<string, nat>, e: Event, now: real, cfg: Config)
    requires Good(h, cfg) && NumbersGood(h.log + [e], counters, h.oversized)
    ensures Good(Fanout(h.(counters := counters), e, now, cfg), cfg)
  {
    hide NumbersGood, MailboxGood, Put;
    LastNAppend(h.log, e, cfg.bufferSize);
    forall k | k in h.mailboxes
      ensures k in h.active ==> MailboxGood(h.log + [e], Put(h.mailboxes[k], e, |h.log|, now, cfg), true)
      ensures k !in h.active ==> MailboxGood(h.log + [e], h.mailboxes[k], false)
    {
      if k in h.active {
        PutKeepsGood(h.log, h.mailboxes[k], e, now, cfg);
      } else {
        LeftAloneStaysGood(h.log, h.mailboxes[k], e);
      }
    }
  }

  lemma PublishKeepsGood<K>(h: State<K>, d: Draft, now: real, cfg: Config)
    requires Good(h, cfg)
    ensures Good(Publish(h, d, now, cfg), cfg)
  {
    var e := Numbered(h, d);
    if e.session == "" {
      UnnumberedKeepsNumbers(h.log, h.counters, h.oversized, e);
      hide NumbersGood, MailboxGood, Fanout;
      FanoutKeepsGood(h, h.counters, e, now, cfg);
      assert h.(counters := h.counters) == h;
    } else {
      LoggedKeepsNumbers(h.log, h.counters, h.oversized, e);
      RefusedKeepsNumbers(h.log, h.counters, h.oversized, e);
      hide NumbersGood, MailboxGood, Fanout;
      FanoutKeepsGood(h, h.counters[e.session := e.sequence], e, now, cfg);
    }
  }

  lemma SuffixOfSuffix(log: seq<Event>, buffer: seq<Event>, items: seq<Event>)
    requires |buffer| <= |log| && buffer == log[|log| - |buffer|..]
    requires |items| <= |buffer| && items == buffer[|buffer| - |items|..]
    ensures items == log[|log| - |items|..]
  {
  }

  lemma RegisterKeepsGood<K>(h: State<K>, k: K, lastId: Option<string>, now: real, cfg: Config)
    requires Good(h, cfg)
    ensures Good(Register(h, k, lastId, now, cfg), cfg)
  {
    hide NumbersGood, MailboxGood, Replayed, LastN, ReplayItems;
    var items := ReplayItems(h.buffer, lastId);
    SuffixOfSuffix(h.log, h.buffer, items);
    ReplayedIsGood(h.log, items, now, cfg);
    assert forall j :: j in h.mailboxes && j != k ==> (j in h.active <==> j in h.active + {k});
  }

  lemma ApplyKeepsGood<K>(h: State<K>, step: Step<K>, cfg: Config)
    requires Good(h, cfg)
    ensures Good(Apply(h, step, cfg), cfg)
  {
    match step {
      case DoPublish(d, now) =>
        hide Publish, Good;
        PublishKeepsGood(h, d, now, cfg);
      case DoRegister(k, lastId, now) =>
        hide Register, Good;
        RegisterKeepsGood(h, k, lastId, now, cfg);
      case DoUnregister(_) =>
      case DoPrune(_) =>
      case DoConsume(_) =>
    }
  }

  lemma {:induction false} RunKeepsGood<K>(h: State<K>, steps: seq<Step<K>>, cfg: Config)
    requires Good(h, cfg)
    ensures Good(Run(h, steps, cfg), cfg)
    decreases |steps|
  {
    if steps != [] {
      ApplyKeepsGood(h, steps[0], cfg);
      RunKeepsGood(Apply(h, steps[0], cfg), steps[1..], cfg);
    }
  }

  /** Main result: under any interleaving of steps, what a subscriber has consumed followed by
      what is still queued for it is an in-order, duplicate-free subsequence of the fanout log. */
  lemma DeliveryIsInOrderWithoutDuplicates<K>(steps: seq<Step<K>>, h: State<K>, cfg: Config, k: K)
    requires h == Run(Initial<K>(), steps, cfg) && k in h.mailboxes
    ensures var box := h.mailboxes[k];
            && StrictlyIncreasing(box.positions)
            && |box.Consumed() + box.Queue()| == |box.positions|
            && forall i :: 0 <= i < |box.positions| ==>
                 box.positions[i] < |h.log| && (box.Consumed() + box.Queue())[i] == h.log[box.positions[i]]
  {
    hide Run, NumbersGood, LastN, StrictlyIncreasing;
    InitialIsGood<K>(cfg);
    RunKeepsGood(Initial<K>(), steps, cfg);
    ConsumedAndQueued(h.mailboxes[k]);
  }

  lemma ConsumedAndQueued(box: Mailbox)
    requires box.taken <= |box.received|
    ensures box.Consumed() + box.Queue() == box.received
  {
  }

  /** Sequence numbers rise along the log within every session, and a number is missing from the
      log exactly when its event was refused as oversized. */
  lemma SequenceGapsAreRefusals<K>(steps: seq<Step<K>>, cfg: Config)
    ensures var h := Run(Initial<K>(), steps, cfg);
            NumbersGood(h.log, h.counters, h.oversized)
  {
    RunKeepsGood(Initial<K>(), steps, cfg);
  }

  // Resuming.

  /** A mailbox keeps its joining point, and what it has received only grows by log positions that
      did not exist before. */
  ghost predicate Continues(before: Mailbox, after: Mailbox, logLength: nat) {
    && after.joined == before.joined
    && before.positions <= after.positions
    && (forall i :: |before.positions| <= i < |after.positions| ==> after.positions[i] >= logLength)
    && (after.lossless ==> before.lossless)
  }

  lemma ApplyContinues<K>(h: State<K>, step: Step<K>, cfg: Config, k: K)
    requires k in h.mailboxes
    ensures var h' := Apply(h, step, cfg);
            k in h'.mailboxes && Continues(h.mailboxes[k], h'.mailboxes[k], |h.log|) && h.log <= h'.log
  {
    hide LastN, Put, Numbered, Register;
    match step {
      case DoPublish(d, now) =>
        PutContinues(h.mailboxes[k], Numbered(h, d), |h.log|, now, cfg);
      case DoRegister(j, lastId, now) =>
        hide Continues;
        RegisterLeavesOthers(h, j, lastId, now, cfg);
        StandingStillContinues(h.mailboxes[k], |h.log|);
      case _ =>
    }
  }

  lemma StandingStillContinues(box: Mailbox, position: nat)
    ensures Continues(box, box, position)
  {
  }

  lemma PutContinues(box: Mailbox, e: Event, position: nat, now: real, cfg: Config)
    ensures Continues(box, Put(box, e, position, now, cfg), position) && Continues(box, box, position)
  {
  }

  lemma RegisterLeavesOthers<K>(h: State<K>, j: K, lastId: Option<string>, now: real, cfg: Config)
    ensures var h' := Register(h, j, lastId, now, cfg);
            && h'.log == h.log
            && forall k :: k in h.mailboxes && k != j ==> k in h'.mailboxes && h'.mailboxes[k] == h.mailboxes[k]
  {
    hide ReplayItems, Replayed;
  }

  lemma {:induction false} RunContinues<K>(h: State<K>, steps: seq<Step<K>>, cfg: Config, k: K)
    requires k in h.mailboxes
    ensures var h' := Run(h, steps, cfg);
            k in h'.mailboxes && Continues(h.mailboxes[k], h'.mailboxes[k], |h.log|) && h.log <= h'.log
    decreases |steps|
  {
    hide Apply;
    if steps != [] {
      ApplyContinues(h, steps[0], cfg, k);
      RunContinues(Apply(h, steps[0], cfg), steps[1..], cfg, k);
    }
  }

  lemma RegisterJoins<K>(h: State<K>, k: K, lastId: string, now: real, cfg: Config)
    requires Good(h, cfg) && FirstMatch(h.buffer, HasId(lastId)) < |h.buffer|
    ensures var h1 := Register(h, k, Some(lastId), now, cfg);
            var p := FirstMatch(h.buffer, HasId(lastId));
            && h1.log == h.log
            && k in h1.mailboxes
            && 0 <= |h.log| - |h.buffer| + p < |h.log|
            && h.log[|h.log| - |h.buffer| + p].id == lastId
            && h1.mailboxes[k].joined == |h.log| - |h.buffer| + p + 1
  {
    hide NumbersGood, MailboxGood;
    var p := FirstMatch(h.buffer, HasId(lastId));
    assert h.buffer[p] == h.log[|h.log| - |h.buffer| + p];
  }

  /** Main result: a subscriber that resumes after an event still in the replay buffer, and whose
      queue never refuses an event, has received exactly the log after that event: no gap between
      replay and live delivery, no event twice. */
  lemma ResumeIsExact<K>(before: seq<Step<K>>, h: State<K>, k: K, lastId: string, now: real,
                         after: seq<Step<K>>, h': State<K>, cfg: Config)
    requires h == Run(Initial<K>(), before, cfg)
    requires FirstMatch(h.buffer, HasId(lastId)) < |h.buffer|
    requires h' == Run(Register(h, k, Some(lastId), now, cfg), after, cfg)
    requires k in h'.active && k in h'.mailboxes && h'.mailboxes[k].lossless
    ensures var resumed := |h.log| - |h.buffer| + FirstMatch(h.buffer, HasId(lastId));
            && 0 <= resumed < |h.log| <= |h'.log|
            && h'.log[resumed].id == lastId
            && h'.mailboxes[k].Consumed() + h'.mailboxes[k].Queue() == h'.log[resumed + 1..]
  {
    hide Apply, NumbersGood, Register, MailboxGood, LastN, FirstMatch, Good;
    InitialIsGood<K>(cfg);
    RunKeepsGood(Initial<K>(), before, cfg);
    RegisterJoins(h, k, lastId, now, cfg);
    RegisterKeepsGood(h, k, Some(lastId), now, cfg);
    var h1 := Register(h, k, Some(lastId), now, cfg);
    RunKeepsGood(h1, after, cfg);
    RunContinues(h1, after, cfg, k);
    LosslessIsExact(h', k, cfg);
  }

  lemma LosslessIsExact<K>(h: State<K>, k: K, cfg: Config)
    requires Good(h, cfg) && k in h.active && k in h.mailboxes && h.mailboxes[k].lossless
    ensures h.mailboxes[k].joined <= |h.log|
    ensures h.mailboxes[k].Consumed() + h.mailboxes[k].Queue() == h.log[h.mailboxes[k].joined..]
  {
    hide NumbersGood, LastN;
    assert MailboxGood(h.log, h.mailboxes[k], true);
    ConsumedAndQueued(h.mailboxes[k]);
  }

  /** An event that was fanned out without reaching a queue never reaches it later. */
  lemma MissedIsNeverDelivered<K>(before: seq<Step<K>>, after: seq<Step<K>>, cfg: Config, k: K, position: nat)
    requires var h := Run(Initial<K>(), before, cfg);
             k in h.mailboxes && position < |h.log| && position !in h.mailboxes[k].positions
    ensures var h' := Run(Run(Initial<K>(), before, cfg), after, cfg);
            k in h'.mailboxes && position !in h'.mailboxes[k].positions
  {
    RunContinues(Run(Initial<K>(), before, cfg), after, cfg, k);
  }

  /** Resuming loses events for good exactly when the replay is larger than the queue: the queue
      takes the oldest part only. With room for all of it nothing of the replay is lost. */
  lemma ReplayFitsOrIsCut<K>(before: seq<Step<K>>, k: K, lastId: Option<string>, now: real, cfg: Config)
    requires k !in Run(Initial<K>(), before, cfg).mailboxes
    ensures var h := Run(Initial<K>(), before, cfg);
            var h' := Apply(h, DoRegister(k, lastId, now), cfg);
            var items := ReplayItems(h.buffer, lastId);
            && (h'.mailboxes[k].received == items <==> cfg.maxQueueSize == 0 || |items| <= cfg.maxQueueSize)
            && h'.mailboxes[k].received <= items
            && (cfg.maxQueueSize > 0 && |items| > cfg.maxQueueSize ==>
                  |h.log| - 1 !in h'.mailboxes[k].positions && |h'.mailboxes[k].received| == cfg.maxQueueSize)
  {
    hide Run, NumbersGood, MailboxGood, LastN, ReplayItems;
    InitialIsGood<K>(cfg);
    RunKeepsGood(Initial<K>(), before, cfg);
    var h := Run(Initial<K>(), before, cfg);
    var items := ReplayItems(h.buffer, lastId);
    SuffixOfSuffix(h.log, h.buffer, items);
    ReplayedSize(items, |h.log| - |items|, now, cfg);
  }

  lemma ReplayedSize(items: seq<Event>, from: nat, now: real, cfg: Config)
    ensures var box := Replayed(items, from, now, cfg);
            && box.received <= items
            && (box.received == items <==> cfg.maxQueueSize == 0 || |items| <= cfg.maxQueueSize)
            && (cfg.maxQueueSize > 0 && |items| > cfg.maxQueueSize ==>
                  |box.received| == cfg.maxQueueSize && from + |items| - 1 !in box.positions)
  {
  }
}
