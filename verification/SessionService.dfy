/** Bootstrap, tick and retry of one stored session, and runs of them. */
module SessionService {
  import opened Options
  import opened MarathonState
  import MarathonStep
  import MarathonLoop

  datatype Response =
    | NoContent
    | NotFound
    | Forbidden
    | CannotRetry
    | ServerError
    | Ticked(status: AgentStatus)
    | Retrying

  /** One request, with what the outside answers while it is served: whether the agent object can
      be built, and whether the audit entry (and tick scheduling) after it succeeds. */
  datatype Request =
    | Bootstrap(env: Environment, agentReady: bool, audited: bool)
    | Tick(user: string, env: Environment, agentReady: bool, audited: bool)
    | Retry(user: string, audited: bool)

  datatype Session = Session(owner: string, doc: Snapshot)

  /** The stored session, the response, and whether another tick was scheduled. */
  datatype Served = Served(session: Option<Session>, response: Response, scheduled: bool)

  /** What `start` stores for a document under the given object name. */
  function NewDocument(uri: string): Snapshot {
    Snapshot(Queued, [ReceivedObject(uri)], 0, 0, uri != "", 0, map[], [], [], {})
  }

  predicate Retryable(status: AgentStatus) {
    status == Failed || status == WaitingForUser || status == Queued
  }

  function WithDoc(session: Session, doc: Snapshot): Option<Session> {
    Some(session.(doc := doc))
  }

  function Serve(stored: Option<Session>, request: Request, cfg: Config): Served {
    match stored
    case None => Served(None, if request.Bootstrap? then NoContent else NotFound, false)
    case Some(session) =>
      match request
      case Bootstrap(env, agentReady, audited) =>
        if !agentReady then Served(WithDoc(session, session.doc.(status := Failed)), NoContent, false)
        else
          var r := MarathonStep.RunSingleStep(session.doc, env, cfg);
          if !audited then Served(WithDoc(session, r.saved.(status := Failed)), NoContent, false)
          else Served(WithDoc(session, r.saved), NoContent, r.status == Running)
      case Tick(user, env, agentReady, audited) =>
        if user != session.owner then Served(stored, Forbidden, false)
        else if !agentReady then Served(stored, ServerError, false)
        else
          var r := MarathonStep.RunSingleStep(session.doc, env, cfg);
          if !audited then Served(WithDoc(session, r.saved), ServerError, false)
          else Served(WithDoc(session, r.saved), Ticked(r.status), r.status == Running)
      case Retry(user, audited) =>
        if user != session.owner then Served(stored, Forbidden, false)
        else if !Retryable(session.doc.status) then Served(stored, CannotRetry, false)
        else
          var doc := session.doc.(status := Running, retryCount := session.doc.retryCount + 1);
          Served(WithDoc(session, doc), if audited then Retrying else ServerError, audited)
  }

  /** Any sequence of requests, one after the other. */
  function Run(stored: Option<Session>, requests: seq<Request>, cfg: Config): Option<Session>
    decreases |requests|
  {
    if requests == [] then stored else Run(Serve(stored, requests[0], cfg).session, requests[1..], cfg)
  }

  class Service {
    const cfg: Config
    var session: Option<Session>
    var scheduledTicks: nat

    constructor (cfg: Config)
      ensures this.cfg == cfg && session == None && scheduledTicks == 0
    {
      this.cfg, session, scheduledTicks := cfg, None, 0;
    }

    method Create(owner: string, uri: string)
      modifies this
      ensures session == Some(Session(owner, NewDocument(uri))) && scheduledTicks == old(scheduledTicks)
    {
      session := Some(Session(owner, NewDocument(uri)));
    }

    method RunStep(env: Environment) returns (status: AgentStatus)
      requires session.Some?
      modifies this
      ensures var r := MarathonStep.RunSingleStep(old(session).value.doc, env, cfg);
              status == r.status && session == WithDoc(old(session).value, r.saved)
      ensures scheduledTicks == old(scheduledTicks)
    {
      var agent := new MarathonLoop.Loop(cfg, session.value.doc);
      var nextTick;
      status, nextTick := agent.RunSingleStep(env);
      session := WithDoc(session.value, agent.stored);
    }

    method Bootstrap(env: Environment, agentReady: bool, audited: bool)
      modifies this
      ensures var r := Serve(old(session), Request.Bootstrap(env, agentReady, audited), cfg);
              session == r.session && scheduledTicks == old(scheduledTicks) + (if r.scheduled then 1 else 0)
    {
      if session.None? { return; }
      if !agentReady {
        session := WithDoc(session.value, session.value.doc.(status := Failed));
        return;
      }
      var status := RunStep(env);
      if !audited {
        session := WithDoc(session.value, session.value.doc.(status := Failed));
      } else if status == Running {
        scheduledTicks := scheduledTicks + 1;
      }
    }

    method Tick(user: string, env: Environment, agentReady: bool, audited: bool) returns (response: Response)
      modifies this
      ensures var r := Serve(old(session), Request.Tick(user, env, agentReady, audited), cfg);
              session == r.session && response == r.response &&
              scheduledTicks == old(scheduledTicks) + (if r.scheduled then 1 else 0)
    {
      if session.None? { return NotFound; }
      if session.value.owner != user { return Forbidden; }
      if !agentReady { return ServerError; }
      var status := RunStep(env);
      if !audited { return ServerError; }
      if status == Running { scheduledTicks := scheduledTicks + 1; }
      return Ticked(status);
    }

    method Retry(user: string, audited: bool) returns (response: Response)
      modifies this
      ensures var r := Serve(old(session), Request.Retry(user, audited), cfg);
              session == r.session && response == r.response &&
              scheduledTicks == old(scheduledTicks) + (if r.scheduled then 1 else 0)
    {
      if session.None? { return NotFound; }
      if session.value.owner != user { return Forbidden; }
      var doc := session.value.doc;
      if !Retryable(doc.status) { return CannotRetry; }
      session := WithDoc(session.value, doc.(status := Running, retryCount := doc.retryCount + 1));
      if !audited { return ServerError; }
      scheduledTicks := scheduledTicks + 1;
      return Retrying;
    }
  }
}
