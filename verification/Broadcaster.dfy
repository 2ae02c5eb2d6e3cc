/** The in-process broadcaster: objects updated in place, each method one step of the hub. */
module Broadcaster {
  import opened Options
  import opened EventStore
  import Hub

  class Subscriber {
    var queue: seq<Event>
    var lastActive: real
    ghost var received: seq<Event>
    ghost var positions: seq<nat>
    ghost var joined: nat
    ghost var lossless: bool

    ghost predicate Valid()
      reads this
    {
      |queue| <= |received| && queue == received[|received| - |queue|..]
    }

    ghost function View(): Hub.Mailbox
      reads this
    {
      var taken := if |queue| <= |received| then |received| - |queue| else 0;
      Hub.Mailbox(received, taken, lastActive, positions, joined, lossless)
    }

    constructor (now: real, ghost joined: nat)
      ensures Valid() && View() == Hub.Mailbox([], 0, now, [], joined, true)
    {
      queue, lastActive, received, positions, this.joined, lossless := [], now, [], [], joined, true;
    }

    /** put_nowait; false stands for QueueFull. */
    method PutNowait(e: Event, ghost position: nat, cfg: Hub.Config) returns (ok: bool)
      requires Valid()
      modifies this
      ensures Valid()
      ensures ok <==> !old(View()).Full(cfg)
      ensures View() == Hub.Put(old(View()), e, position, old(lastActive), cfg)
    {
      if cfg.maxQueueSize > 0 && |queue| >= cfg.maxQueueSize {
        lossless := false;
        return false;
      }
      queue := queue + [e];
      received, positions := received + [e], positions + [position];
      return true;
    }

    /** One iteration of the fanout: a successful put refreshes the activity stamp. */
    method Offer(e: Event, ghost position: nat, now: real, cfg: Hub.Config)
      requires Valid()
      modifies this
      ensures Valid() && View() == Hub.Put(old(View()), e, position, now, cfg)
    {
      var ok := PutNowait(e, position, cfg);
      if ok { lastActive := now; }
    }

    /** The reader takes the next event, if there is one. */
    method Take() returns (e: Option<Event>)
      requires Valid()
      modifies this
      ensures Valid()
      ensures e == (if old(queue) == [] then None else Some(old(queue)[0]))
      ensures View() == Hub.Take(old(View()))
    {
      if queue == [] { return None; }
      e, queue := Some(queue[0]), queue[1..];
    }
  }

  class Broadcaster {
    const cfg: Hub.Config
    const store: InMemoryEventStore
    var subscribers: set<Subscriber>
    var replayBuffer: seq<Event>
    var seqCounters: map<string, nat>
    ghost var everyone: set<Subscriber>
    ghost var log: seq<Event>
    ghost var oversized: set<(string, nat)>

    ghost predicate Valid()
      reads this, everyone, store
    {
      && subscribers <= everyone
      && store.Valid()
      && (forall s :: s in everyone ==> s.Valid())
    }

    ghost function Mailboxes(): map<Subscriber, Hub.Mailbox>
      reads this`everyone, everyone
    {
      map s | s in everyone :: s.View()
    }

    lemma NobodyHasNoMailbox()
      requires everyone == {}
      ensures Mailboxes() == map[]
    {
    }

    ghost function View(): Hub.State<Subscriber>
      reads this, everyone
    {
      Hub.State(log, replayBuffer, Mailboxes(), subscribers, seqCounters, oversized)
    }

    constructor (cfg: Hub.Config)
      ensures Valid() && fresh(store) && this.cfg == cfg && View() == Hub.Initial()
    {
      hide Subscriber.View, Subscriber.Valid, InMemoryEventStore.Valid;
      this.cfg := cfg;
      store := new InMemoryEventStore(cfg.bufferSize);
      subscribers, replayBuffer, seqCounters, everyone, log, oversized := {}, [], map[], {}, [], {};
      new;
      NobodyHasNoMailbox();
    }

    /** Offer the event to every subscriber, in any order. */
    method OfferToAll(e: Event, now: real)
      requires Valid()
      modifies subscribers
      ensures Valid()
      ensures forall s :: s in everyone ==>
                s.View() == if s in subscribers then Hub.Put(old(s.View()), e, |log|, now, cfg) else old(s.View())
    {
      hide Hub.Put;
      var todo := subscribers;
      while todo != {}
        invariant todo <= subscribers
        invariant forall s :: s in everyone ==> s.Valid()
        invariant forall s :: s in everyone && (s in todo || s !in subscribers) ==> s.View() == old(s.View())
        invariant forall s :: s in subscribers && s !in todo ==> s.View() == Hub.Put(old(s.View()), e, |log|, now, cfg)
      {
        var s :| s in todo;
        hide Subscriber.View;
        s.Offer(e, |log|, now, cfg);
        todo := todo - {s};
      }
    }

    method FanoutRaw(e: Event, now: real)
      requires Valid()
      modifies this, subscribers
      ensures Valid() && everyone == old(everyone)
      ensures View() == Hub.Fanout(old(View()), e, now, cfg)
      ensures log == old(log) + [e]
    {
      hide Hub.Put, Subscriber.View, Subscriber.Valid, InMemoryEventStore.Valid, LastN;
      replayBuffer := LastN(replayBuffer + [e], cfg.bufferSize);
      OfferToAll(e, now);
      log := log + [e];
      assert View().mailboxes == Hub.Fanout(old(View()), e, now, cfg).mailboxes;
    }

    /** The scan of the replay buffer with its `found` flag. */
    method ReplayAfter(lastId: Option<string>) returns (items: seq<Event>)
      ensures items == Hub.ReplayItems(replayBuffer, lastId)
    {
      if lastId.None? { return replayBuffer; }
      items := [];
      ghost var p := FirstMatch(replayBuffer, Hub.HasId(lastId.value));
      var found := false;
      for i := 0 to |replayBuffer|
        invariant found <==> p < i
        invariant !found ==> items == []
        invariant found ==> items == replayBuffer[p + 1..i]
      {
        if found {
          items := items + [replayBuffer[i]];
        } else if replayBuffer[i].id == lastId.value {
          found := true;
        }
      }
    }

    /** A new subscriber whose queue is filled with replay items until it refuses one. */
    method Prefill(items: seq<Event>, now: real, ghost from: nat) returns (sub: Subscriber)
      ensures fresh(sub) && sub.Valid() && sub.View() == Hub.Replayed(items, from, now, cfg)
    {
      sub := new Subscriber(now, from);
      ghost var i := 0;
      for k := 0 to |items|
        invariant i == k && sub.Valid() && sub.queue == sub.received == items[..k] && sub.lossless
        invariant sub.lastActive == now && sub.joined == from && sub.positions == seq(k, j => from + j)
        invariant cfg.maxQueueSize > 0 ==> k <= cfg.maxQueueSize
      {
        var ok := sub.PutNowait(items[k], from + k, cfg);
        if !ok { break; }
        i := i + 1;
      }
    }

    method Register(lastId: Option<string>, now: real) returns (sub: Subscriber)
      requires Valid()
      modifies this
      ensures Valid() && fresh(sub) && everyone == old(everyone) + {sub}
      ensures View() == Hub.Register(old(View()), sub, lastId, now, cfg)
    {
      hide Hub.Replayed, Hub.ReplayItems, Subscriber.View, Subscriber.Valid, InMemoryEventStore.Valid;
      var items := ReplayAfter(lastId);
      ghost var from: nat := if |items| <= |log| then |log| - |items| else 0;
      sub := Prefill(items, now, from);
      subscribers := subscribers + {sub};
      everyone := everyone + {sub};
      assert forall s :: s in old(everyone) ==> s.View() == old(s.View()) && s != sub;
      assert View().mailboxes == Hub.Register(old(View()), sub, lastId, now, cfg).mailboxes;
    }

    method Unregister(sub: Subscriber)
      requires Valid()
      modifies this
      ensures Valid() && everyone == old(everyone)
      ensures View() == Hub.Unregister(old(View()), sub)
    {
      subscribers := subscribers - {sub};
    }

    method PruneInactive(cutoff: real)
      requires Valid()
      modifies this
      ensures Valid() && everyone == old(everyone)
      ensures View() == Hub.Prune(old(View()), cutoff)
    {
      var removed := set s | s in subscribers && s.lastActive < cutoff;
      subscribers := subscribers - removed;
    }

    method Consume(sub: Subscriber) returns (e: Option<Event>)
      requires Valid() && sub in everyone
      modifies sub
      ensures Valid()
      ensures View() == Hub.Consume(old(View()), sub)
      ensures e == (if old(sub.queue) == [] then None else Some(old(sub.queue)[0]))
    {
      hide Hub.Take, Subscriber.View, Subscriber.Valid, InMemoryEventStore.Valid;
      e := sub.Take();
      assert forall s :: s in everyone && s != sub ==> s.View() == old(s.View());
      assert Mailboxes() == Hub.Consume(old(View()), sub).mailboxes;
    }

    /** Number the event within its session. */
    method AssignSequence(draft: Hub.Draft) returns (e: Event)
      requires Valid()
      modifies this`seqCounters
      ensures Valid() && e == Hub.Numbered(old(View()), draft)
      ensures View() ==
              if e.session != "" then old(View()).(counters := old(seqCounters)[e.session := e.sequence])
              else old(View())
    {
      var session := if draft.session != "" then draft.session else draft.payloadSession;
      var sequence: nat := 0;
      if session != "" {
        sequence := (if session in seqCounters then seqCounters[session] else 0) + 1;
        seqCounters := seqCounters[session := sequence];
      }
      e := Event(draft.id, session, sequence, draft.body);
      assert Mailboxes() == old(Mailboxes());
    }

    /** Returns the stored event, or None where the event is rejected. */
    method Publish(draft: Hub.Draft, storeId: string, now: real) returns (stored: Option<Event>)
      requires Valid()
      modifies this, subscribers, store
      ensures Valid() && everyone == old(everyone)
      ensures View() == Hub.Publish(old(View()), draft, now, cfg)
      ensures stored ==
              if draft.hasType && draft.size <= cfg.maxPayloadBytes then Some(Hub.Numbered(old(View()), draft))
              else None
      ensures store.appended == old(store.appended) + if stored.Some? then [(storeId, stored.value)] else []
      ensures log == old(log) + if stored.Some? then [stored.value] else []
    {
      hide Subscriber.View, Subscriber.Valid, InMemoryEventStore.Valid, Hub.Fanout, Hub.Numbered;
      if !draft.hasType { return None; }
      var e := AssignSequence(draft);
      if draft.size > cfg.maxPayloadBytes {
        oversized := oversized + {(e.session, e.sequence)};
        return None;
      }
      ghost var numbered := View();
      store.Append(storeId, e);
      assert Mailboxes() == old(Mailboxes());
      assert View() == numbered;
      hide View;
      FanoutRaw(e, now);
      return Some(e);
    }
  }
}
