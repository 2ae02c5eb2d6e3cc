/** What each step of the hub does to every queue, and which subscribers miss nothing. */
module HubDelivery {
  import opened Options
  import opened EventStore
  import opened Hub

  /** There is room for one more event in the queue. */
  predicate HasRoom(box: Mailbox, cfg: Config) {
    cfg.maxQueueSize == 0 || |box.Queue()| < cfg.maxQueueSize
  }

  /** Publishing this draft fans an event out. */
  predicate FansOut(d: Draft, cfg: Config) {
    d.hasType && d.size <= cfg.maxPayloadBytes
  }

  // Single steps.

  /** Main result about publishing: an accepted draft becomes exactly one event at the end of the log,
      with the draft's id and body and the next number of its session; it enters the queue of every
      subscriber with room, and of no other, and refreshes exactly those. A rejected draft reaches
      neither the log nor a queue, and only an oversized one uses up a number. */
  lemma PublishReachesExactly<K>(h: State<K>, d: Draft, now: real, cfg: Config)
    ensures var h' := Apply(h, DoPublish(d, now), cfg);
            var session := if d.session != "" then d.session else d.payloadSession;
            var number := (if session in h.counters then h.counters[session] else 0) + 1;
            && h'.active == h.active && h'.mailboxes.Keys == h.mailboxes.Keys
            && h'.counters == (if d.hasType && session != "" then h.counters[session := number] else h.counters)
            && (if FansOut(d, cfg)
                then h'.log == h.log + [Event(d.id, session, if session != "" then number else 0, d.body)]
                else h'.log == h.log && h'.buffer == h.buffer)
            && forall k :: k in h.mailboxes ==>
                 if FansOut(d, cfg) && k in h.active && HasRoom(h.mailboxes[k], cfg)
                 then
                   && h'.mailboxes[k].received == h.mailboxes[k].received + [h'.log[|h.log|]]
                   && h'.mailboxes[k].positions == h.mailboxes[k].positions + [|h.log|]
                   && h'.mailboxes[k].taken == h.mailboxes[k].taken && h'.mailboxes[k].lastActive == now
                 else h'.mailboxes[k].(lossless := h.mailboxes[k].lossless) == h.mailboxes[k]
  {
    hide LastN;
    var h' := Apply(h, DoPublish(d, now), cfg);
    if FansOut(d, cfg) {
      assert h'.log[|h.log|] == Numbered(h, d);
    }
  }

  /** A reader takes the oldest queued event, and nobody else notices. */
  lemma ConsumeTakesTheOldest<K>(h: State<K>, k: K, cfg: Config)
    requires k in h.mailboxes && h.mailboxes[k].taken <= |h.mailboxes[k].received|
    ensures var h' := Apply(h, DoConsume(k), cfg);
            var box := h.mailboxes[k];
            && h' == h.(mailboxes := h'.mailboxes) && h'.mailboxes.Keys == h.mailboxes.Keys
            && (forall j :: j in h.mailboxes && j != k ==> h'.mailboxes[j] == h.mailboxes[j])
            && (if box.Queue() == [] then h'.mailboxes[k] == box
                else
                  && h'.mailboxes[k].Consumed() == box.Consumed() + [box.Queue()[0]]
                  && h'.mailboxes[k].Queue() == box.Queue()[1..]
                  && h'.mailboxes[k].received == box.received && h'.mailboxes[k].positions == box.positions)
  {
  }

  /** Exactly the subscribers that have been inactive since the cutoff leave; queues stay as they are. */
  lemma PruneRemovesExactly<K>(h: State<K>, cutoff: real, cfg: Config)
    ensures var h' := Apply(h, DoPrune(cutoff), cfg);
            && h' == h.(active := h'.active)
            && forall k :: k in h'.active <==>
                 k in h.active && !(k in h.mailboxes && h.mailboxes[k].lastActive < cutoff)
  {
  }

  lemma UnregisterRemovesExactly<K>(h: State<K>, k: K, cfg: Config)
    ensures var h' := Apply(h, DoUnregister(k), cfg);
            && h' == h.(active := h'.active)
            && forall j :: j in h'.active <==> j in h.active && j != k
  {
  }

  /** A new subscriber is active at once, holds the start of its replay, and changes nobody else. */
  lemma RegisterAdds<K>(h: State<K>, k: K, lastId: Option<string>, now: real, cfg: Config)
    requires k !in h.mailboxes
    ensures var h' := Apply(h, DoRegister(k, lastId, now), cfg);
            && h' == h.(active := h.active + {k}, mailboxes := h'.mailboxes)
            && h'.mailboxes.Keys == h.mailboxes.Keys + {k}
            && (forall j :: j in h.mailboxes ==> h'.mailboxes[j] == h.mailboxes[j])
            && h'.mailboxes[k].taken == 0 && h'.mailboxes[k].lastActive == now
            && h'.mailboxes[k].received <=
               (if lastId.None? then h.buffer else AfterFirst(h.buffer, HasId(lastId.value)))
  {
  }

  // Whole runs.

  /** Before every publish of the run that fans out, the queue of `k` has room. */
  ghost predicate AlwaysRoom<K>(h: State<K>, steps: seq<Step<K>>, cfg: Config, k: K)
    decreases |steps|
  {
    steps == [] ||
    ((steps[0].DoPublish? && FansOut(steps[0].draft, cfg) ==> k in h.mailboxes && HasRoom(h.mailboxes[k], cfg)) &&
     AlwaysRoom(Apply(h, steps[0], cfg), steps[1..], cfg, k))
  }

  lemma StepKeepsSubscribed<K>(h: State<K>, step: Step<K>, cfg: Config, k: K)
    requires k in h.mailboxes && k in Apply(h, step, cfg).active
    ensures k in h.active && k in Apply(h, step, cfg).mailboxes
  {
    hide LastN, Put, Numbered, ReplayItems, Replayed;
  }

  lemma {:induction false} StaysSubscribed<K>(h: State<K>, steps: seq<Step<K>>, cfg: Config, k: K)
    requires k in h.mailboxes && k in Run(h, steps, cfg).active
    ensures k in h.active
    decreases |steps|
  {
    hide Apply;
    if steps != [] {
      ApplyContinues(h, steps[0], cfg, k);
      StaysSubscribed(Apply(h, steps[0], cfg), steps[1..], cfg, k);
      StepKeepsSubscribed(h, steps[0], cfg, k);
    }
  }

  /** With room for it, a step adds to what `k` has received exactly what it adds to the log. */
  lemma StepDelivers<K>(h: State<K>, step: Step<K>, cfg: Config, k: K)
    requires k in h.mailboxes && k in Apply(h, step, cfg).active
    requires step.DoPublish? && FansOut(step.draft, cfg) ==> HasRoom(h.mailboxes[k], cfg)
    ensures var h' := Apply(h, step, cfg);
            && k in h'.mailboxes && h.log <= h'.log
            && h'.mailboxes[k].received == h.mailboxes[k].received + h'.log[|h.log|..]
  {
    StepKeepsSubscribed(h, step, cfg, k);
    match step {
      case DoPublish(d, now) =>
        PublishReachesExactly(h, d, now, cfg);
        hide Apply;
        var h' := Apply(h, step, cfg);
        if FansOut(d, cfg) {
          assert h'.log[|h.log|..] == [h'.log[|h.log|]];
        }
      case DoRegister(j, lastId, now) =>
        RegisterLeavesOthers(h, j, lastId, now, cfg);
        hide Register;
      case _ =>
    }
  }

  lemma {:induction false} RunDelivers<K>(h: State<K>, steps: seq<Step<K>>, cfg: Config, k: K)
    requires k in h.mailboxes && AlwaysRoom(h, steps, cfg, k) && k in Run(h, steps, cfg).active
    ensures var h' := Run(h, steps, cfg);
            && k in h'.mailboxes && h.log <= h'.log
            && h'.mailboxes[k].received == h.mailboxes[k].received + h'.log[|h.log|..]
    decreases |steps|
  {
    hide Apply, HasRoom, FansOut;
    if steps != [] {
      var h1, h' := Apply(h, steps[0], cfg), Run(h, steps, cfg);
      ApplyContinues(h, steps[0], cfg, k);
      StaysSubscribed(h1, steps[1..], cfg, k);
      StepDelivers(h, steps[0], cfg, k);
      RunDelivers(h1, steps[1..], cfg, k);
      assert h'.log[|h.log|..] == h1.log[|h.log|..] + h'.log[|h1.log|..];
    }
  }

  /** Main result: a subscriber whose replay fits its queue, whose queue has room before every publish,
      and that is still subscribed, has consumed and queued exactly the log from the start of its replay:
      of the whole buffer if it names no event, of what follows the event it names, or of nothing if
      that event is not in the buffer. */
  lemma RegisteredWithRoomGetsEverything<K>(before: seq<Step<K>>, h: State<K>, k: K, lastId: Option<string>, now: real,
                                            after: seq<Step<K>>, h': State<K>, cfg: Config)
    requires h == Run(Initial<K>(), before, cfg) && k !in h.mailboxes
    requires var items := if lastId.None? then h.buffer else AfterFirst(h.buffer, HasId(lastId.value));
             cfg.maxQueueSize == 0 || |items| <= cfg.maxQueueSize
    requires var h1 := Apply(h, DoRegister(k, lastId, now), cfg);
             AlwaysRoom(h1, after, cfg, k) && h' == Run(h1, after, cfg)
    requires k in h'.active
    ensures var items := if lastId.None? then h.buffer else AfterFirst(h.buffer, HasId(lastId.value));
            && |items| <= |h.log| && h.log <= h'.log && k in h'.mailboxes
            && h'.mailboxes[k].Consumed() + h'.mailboxes[k].Queue() == h'.log[|h.log| - |items|..]
  {
    hide Good, LastN, Run, AlwaysRoom, Replayed, AfterFirst, Apply;
    InitialIsGood<K>(cfg);
    RunKeepsGood(Initial<K>(), before, cfg);
    var h1 := Apply(h, DoRegister(k, lastId, now), cfg);
    QueueHoldsReplay(before, h, k, lastId, now, cfg);
    RunDelivers(h1, after, cfg, k);
    ApplyKeepsGood(h, DoRegister(k, lastId, now), cfg);
    RunKeepsGood(h1, after, cfg);
    TakenFits(h', k, cfg);
    ConsumedAndQueued(h'.mailboxes[k]);
    SuffixGrows(h.log, h'.log, |h.log| - |ReplayItems(h.buffer, lastId)|);
  }

  /** So one that resumes after an event of the buffer has everything after that event. */
  lemma ResumedWithRoomGetsEverything<K>(before: seq<Step<K>>, h: State<K>, k: K, lastId: string, now: real,
                                         after: seq<Step<K>>, h': State<K>, cfg: Config)
    requires h == Run(Initial<K>(), before, cfg) && k !in h.mailboxes
    requires FirstMatch(h.buffer, HasId(lastId)) < |h.buffer|
    requires cfg.maxQueueSize == 0 || |AfterFirst(h.buffer, HasId(lastId))| <= cfg.maxQueueSize
    requires var h1 := Apply(h, DoRegister(k, Some(lastId), now), cfg);
             AlwaysRoom(h1, after, cfg, k) && h' == Run(h1, after, cfg)
    requires k in h'.active
    ensures var resumed := |h.log| - |h.buffer| + FirstMatch(h.buffer, HasId(lastId));
            && 0 <= resumed < |h.log| <= |h'.log| && h'.log[resumed].id == lastId
            && k in h'.mailboxes
            && h'.mailboxes[k].Consumed() + h'.mailboxes[k].Queue() == h'.log[resumed + 1..]
  {
    hide Good, LastN, Run, AlwaysRoom, Replayed, FirstMatch, Apply;
    RegisteredWithRoomGetsEverything(before, h, k, Some(lastId), now, after, h', cfg);
    InitialIsGood<K>(cfg);
    RunKeepsGood(Initial<K>(), before, cfg);
    RegisterJoins(h, k, lastId, now, cfg);
  }

  lemma SuffixGrows(log: seq<Event>, longer: seq<Event>, from: nat)
    requires log <= longer && from <= |log|
    ensures longer[from..] == log[from..] + longer[|log|..]
  {
  }

  /** Right after registering, the queue holds the whole replay, which is the end of the log. */
  lemma QueueHoldsReplay<K>(before: seq<Step<K>>, h: State<K>, k: K, lastId: Option<string>, now: real, cfg: Config)
    requires h == Run(Initial<K>(), before, cfg) && k !in h.mailboxes && Good(h, cfg)
    requires cfg.maxQueueSize == 0 || |ReplayItems(h.buffer, lastId)| <= cfg.maxQueueSize
    ensures var h1 := Apply(h, DoRegister(k, lastId, now), cfg);
            var n := |ReplayItems(h.buffer, lastId)|;
            && n <= |h.log| && h1.log == h.log && k in h1.mailboxes
            && h1.mailboxes[k].received == h.log[|h.log| - n..]
  {
    hide Good, Run, Replayed, AfterFirst;
    ReplayFitsOrIsCut(before, k, lastId, now, cfg);
    ReplayIsLogSuffix(h, lastId, cfg);
  }

  lemma TakenFits<K>(h: State<K>, k: K, cfg: Config)
    requires Good(h, cfg) && k in h.mailboxes
    ensures h.mailboxes[k].taken <= |h.mailboxes[k].received|
  {
    hide NumbersGood, LastN;
    assert MailboxGood(h.log, h.mailboxes[k], k in h.active);
  }

  lemma ReplayIsLogSuffix<K>(h: State<K>, lastId: Option<string>, cfg: Config)
    requires Good(h, cfg)
    ensures var n := |ReplayItems(h.buffer, lastId)|;
            n <= |h.log| && ReplayItems(h.buffer, lastId) == h.log[|h.log| - n..]
  {
    hide NumbersGood, MailboxGood, AfterFirst;
    var items, from := ReplayItems(h.buffer, lastId), |h.log| - |h.buffer|;
    assert h.buffer == h.log[from..];
    assert h.buffer[|h.buffer| - |items|..] == h.log[from + (|h.buffer| - |items|)..];
  }

  /** Main result: an event fanned out while a subscriber is active is missing from what it has
      received, then and in every later state, if and only if its queue was at capacity at that
      publish. */
  lemma MissedExactlyWhenFull<K>(before: seq<Step<K>>, h: State<K>, k: K, d: Draft, now: real, after: seq<Step<K>>,
                                 cfg: Config)
    requires h == Run(Initial<K>(), before, cfg) && k in h.active && k in h.mailboxes && FansOut(d, cfg)
    ensures var h1 := Apply(h, DoPublish(d, now), cfg);
            var h' := Run(h1, after, cfg);
            && k in h'.mailboxes
            && (|h.log| !in h'.mailboxes[k].positions <==>
                  cfg.maxQueueSize > 0 && |h.mailboxes[k].Queue()| >= cfg.maxQueueSize)
  {
    hide Run, NumbersGood, LastN;
    InitialIsGood<K>(cfg);
    RunKeepsGood(Initial<K>(), before, cfg);
    assert MailboxGood(h.log, h.mailboxes[k], true);
    PublishReachesExactly(h, d, now, cfg);
    hide Apply, MailboxGood;
    var h1 := Apply(h, DoPublish(d, now), cfg);
    assert |h.log| in h1.mailboxes[k].positions <==> HasRoom(h.mailboxes[k], cfg) by {
      if HasRoom(h.mailboxes[k], cfg) {
        assert h1.mailboxes[k].positions[|h.mailboxes[k].positions|] == |h.log|;
      }
    }
    RunContinues(h1, after, cfg, k);
    var ps, ps' := h1.mailboxes[k].positions, Run(h1, after, cfg).mailboxes[k].positions;
    assert |h.log| in ps' <==> |h.log| in ps;
  }
}
