/** The automatic chain of ticks, through what the service schedules, and what each request may do. */
module SessionTicks {
  import opened Options
  import opened MarathonState
  import opened MarathonStep
  import opened SessionService
  import opened MarathonTheorems
  import opened MarathonBudget

  // What status a step reports.

  /** The statuses a step leaves alone although it goes on. */
  predicate Resting(status: AgentStatus) {
    status == WaitingForUser || status == Sleeping
  }

  /** The reported status is the stored one, unless a phase that succeeds reports RUNNING for a session
      that is still stored as waiting. */
  predicate Agrees(status: AgentStatus, reported: AgentStatus, stored: AgentStatus) {
    reported == stored || (Resting(status) && reported == Running && stored == status)
  }

  predicate OutcomeAgrees(s: Snapshot, outcome: Outcome) {
    match outcome
    case Proceed(s') => s'.status == s.status
    case Return(s', status, _) => Agrees(s.status, status, s'.status)
    case SourceFailure(_) => true
    case Failure(s') => s'.status == s.status
  }

  predicate Awake(status: AgentStatus) {
    status == Running || Resting(status)
  }

  lemma RecordsAgree(s: Snapshot, env: Environment, cfg: Config)
    ensures OutcomeAgrees(s, RecordChecks(s, env, cfg))
  {
    hide HasAnalysis, Marked, RegisterRecords, ScanFrom, RecordQueries.BuildRecordSearchQueries;
    forall s', title, scan
      ensures var outcome := RegisterRecords(s', title, scan, env, cfg);
              (outcome.Proceed? || outcome.Failure?) && outcome.state.status == s'.status
    {
      RegistrationAgrees(s', title, scan, env, cfg);
    }
  }

  lemma RegistrationAgrees(s: Snapshot, title: string, scan: Scan, env: Environment, cfg: Config)
    ensures var outcome := RegisterRecords(s, title, scan, env, cfg);
            (outcome.Proceed? || outcome.Failure?) && outcome.state.status == s.status
  {
    hide HasAnalysis, Marked, ValidEvidence, RecordQueries.CallsForContinuity, RecordQueries.MentionsNewRegister,
         ContinuityQuery;
  }

  lemma DecisionAgrees(s: Snapshot, env: Environment, cfg: Config)
    requires Awake(s.status)
    ensures OutcomeAgrees(s, DecideAndAct(s, env, cfg))
  {
    hide HasAnalysis, Marked, ExecuteTool, RecordChecksComplete, IsStuck;
    var choice := GenerateDecision(s, env, cfg);
    if choice.decision.Some? {
      ToolAgrees(Noted(choice.state), choice.decision.value, env, cfg);
    }
  }

  lemma ToolAgrees(s: Snapshot, d: Decision, env: Environment, cfg: Config)
    requires Awake(s.status)
    ensures match ExecuteTool(s, d, env, cfg)
            case Proceed(_) => true
            case Return(s', status, _) => Agrees(s.status, status, s'.status)
            case SourceFailure(_) => true
            case Failure(_) => false
  {
    hide HasAnalysis, Marked, ValidEvidence, SearchesForTitle, HasPerformedAction;
  }

  lemma PhasesAgree(s: Snapshot, env: Environment, cfg: Config)
    requires Awake(s.status)
    ensures OutcomeAgrees(s, RunPhases(s, env, cfg))
  {
    hide HasAnalysis, Marked, ValidEvidence, RecordChecks, DecideAndAct;
    var s1 := if env.context.title.Some? then Noted(s) else s;
    RecordsAgree(s1, env, cfg);
    DecisionAgrees(s1, env, cfg);
  }

  /** Main result about a step: what it reports is what it stores, unless the session was stored as
      waiting or sleeping and a phase reports RUNNING without waking it. */
  lemma ReportedIsStored(d: Snapshot, env: Environment, cfg: Config)
    ensures var r := RunSingleStep(d, env, cfg);
            Agrees(d.status, r.status, r.saved.status)
  {
    hide HasAnalysis, Marked, RunPhases, BudgetChecksComplete;
    var s := Started(d);
    if Awake(s.status) {
      PhasesAgree(s, env, cfg);
    }
  }

  // What a request may do.

  /** Main result about requests: one from anybody but the owner, or for a session that does not
      exist, changes nothing and schedules nothing. */
  lemma StrangersChangeNothing(stored: Option<Session>, request: Request, cfg: Config)
    requires stored.None? || (!request.Bootstrap? && request.user != stored.value.owner)
    ensures var served := Serve(stored, request, cfg);
            && served.session == stored && !served.scheduled
            && served.response == (if stored.Some? then Forbidden
                                   else if request.Bootstrap? then NoContent else NotFound)
  {
  }

  /** A retry by the owner reopens exactly a FAILED, waiting or queued session: it runs again with one
      more retry counted and is otherwise as it was. */
  lemma RetryReopensExactly(session: Session, audited: bool, cfg: Config)
    ensures var served := Serve(Some(session), Retry(session.owner, audited), cfg);
            if session.doc.status in {Failed, WaitingForUser, Queued} then
              && served.session == Some(session.(doc := session.doc.(
                   status := Running, retryCount := session.doc.retryCount + 1)))
              && served.scheduled == audited && served.response == (if audited then Retrying else ServerError)
            else served.session == Some(session) && !served.scheduled && served.response == CannotRetry
  {
  }

  /** What an owner's tick and a bootstrap store, answer and schedule: the step's state, its status, and
      a next tick exactly if that is RUNNING; a bootstrap that fails leaves the session FAILED. */
  lemma TickServesStep(session: Session, env: Environment, agentReady: bool, audited: bool, cfg: Config)
    ensures var served := Serve(Some(session), Tick(session.owner, env, agentReady, audited), cfg);
            var r := RunSingleStep(session.doc, env, cfg);
            && served.session == Some(session.(doc := if agentReady then r.saved else session.doc))
            && (served.scheduled <==> agentReady && audited && r.status == Running)
            && served.response == (if agentReady && audited then Ticked(r.status) else ServerError)
  {
    hide RunSingleStep;
  }

  lemma BootstrapServesStep(session: Session, env: Environment, agentReady: bool, audited: bool, cfg: Config)
    ensures var served := Serve(Some(session), Bootstrap(env, agentReady, audited), cfg);
            var r := RunSingleStep(session.doc, env, cfg);
            && served.session == Some(session.(doc :=
                 if !agentReady then session.doc.(status := Failed)
                 else if !audited then r.saved.(status := Failed) else r.saved))
            && (served.scheduled <==> agentReady && audited && r.status == Running)
            && served.response == NoContent
  {
    hide RunSingleStep;
  }

  // The chain.

  /** How the outside serves one link of the chain. */
  datatype Link = Link(env: Environment, agentReady: bool, audited: bool)

  /** The request at the start of the chain is the bootstrap, the others are the scheduled ticks. */
  function Asked(owner: string, first: bool, link: Link): Request {
    if first then Bootstrap(link.env, link.agentReady, link.audited)
    else Tick(owner, link.env, link.agentReady, link.audited)
  }

  /** The sessions stored along the chain: one after each request, the next request only if the service
      has scheduled it. */
  function Chain(session: Session, first: bool, links: seq<Link>, cfg: Config): seq<Option<Session>>
    decreases |links|
  {
    if links == [] then []
    else
      var served := Serve(Some(session), Asked(session.owner, first, links[0]), cfg);
      [served.session] +
      (if served.scheduled && served.session.Some? then Chain(served.session.value, false, links[1..], cfg) else [])
  }

  /** How many steps the budget leaves. */
  function Left(d: Snapshot): nat {
    if d.totalSteps < MAX_STEPS then MAX_STEPS - d.totalSteps else 1
  }

  lemma LinkServes(session: Session, first: bool, link: Link, cfg: Config)
    ensures var served := Serve(Some(session), Asked(session.owner, first, link), cfg);
            var r := RunSingleStep(session.doc, link.env, cfg);
            && served.session.Some? && served.session.value.owner == session.owner
            && (served.scheduled <==> link.agentReady && link.audited && r.status == Running)
            && (link.agentReady && link.audited ==> served.session.value.doc == r.saved)
  {
    hide RunSingleStep;
  }

  lemma {:induction false} ChainFitsFrom(session: Session, first: bool, links: seq<Link>, cfg: Config)
    ensures |Chain(session, first, links, cfg)| <= Left(session.doc)
    decreases |links|
  {
    hide RunSingleStep, Serve;
    if links != [] {
      LinkServes(session, first, links[0], cfg);
      var served := Serve(Some(session), Asked(session.owner, first, links[0]), cfg);
      if served.scheduled {
        RunningIsCounted(session.doc, links[0].env, cfg);
        ChainFitsFrom(served.session.value, false, links[1..], cfg);
      }
    }
  }

  /** The stored sessions of the chain are all RUNNING up to the last one. */
  lemma {:induction false} ChainRunsFrom(session: Session, first: bool, links: seq<Link>, cfg: Config)
    requires session.doc.status == Queued || session.doc.status == Running
    ensures var chain := Chain(session, first, links, cfg);
            && |chain| <= |links| && (links != [] ==> |chain| >= 1)
            && (forall i :: 0 <= i < |chain| ==> chain[i].Some? && chain[i].value.owner == session.owner)
            && (forall i :: 0 <= i < |chain| - 1 ==> chain[i].value.doc.status == Running)
            && (0 < |chain| < |links| ==>
                  var last := links[|chain| - 1];
                  !(last.agentReady && last.audited && chain[|chain| - 1].value.doc.status == Running))
    decreases |links|
  {
    hide RunSingleStep, Serve;
    if links != [] {
      LinkServes(session, first, links[0], cfg);
      ReportedIsStored(session.doc, links[0].env, cfg);
      var served := Serve(Some(session), Asked(session.owner, first, links[0]), cfg);
      if served.scheduled {
        ChainRunsFrom(served.session.value, false, links[1..], cfg);
      }
    }
  }

  /** Main result about the chain: the bootstrap of an upload and the ticks scheduled after it make at
      most fifteen steps; every session stored on the way is RUNNING; and while the agent is ready and
      the audit is written, the chain goes on exactly while the stored session is RUNNING, so it stops
      at COMPLETED, FLAGGED, FAILED and WAITING_FOR_USER. */
  lemma ChainGoesOnWhileRunning(owner: string, uri: string, links: seq<Link>, cfg: Config)
    ensures var chain := Chain(Session(owner, NewDocument(uri)), true, links, cfg);
            && |chain| <= 15 && |chain| <= |links| && (links != [] ==> |chain| >= 1)
            && (forall i :: 0 <= i < |chain| ==> chain[i].Some?)
            && (forall i :: 0 <= i < |chain| - 1 ==> chain[i].value.doc.status == Running)
            && (0 < |chain| < |links| && links[|chain| - 1].agentReady && links[|chain| - 1].audited ==>
                  chain[|chain| - 1].value.doc.status != Running)
  {
    var session := Session(owner, NewDocument(uri));
    ChainFitsFrom(session, true, links, cfg);
    ChainRunsFrom(session, true, links, cfg);
  }

  /** A session stored as waiting that is ticked can be driven on without being RUNNING, so for those
      the chain and the stored status part: here an inspection that fails reports RUNNING. */
  lemma WaitingIsDrivenOn(session: Session, env: Environment, cfg: Config)
    requires session.doc.status == WaitingForUser && session.doc.totalSteps <= 13
    requires session.doc.emptyResponses < cfg.emptyResponseMaxRetries
    requires !(cfg.imageAnalysisEnabled && StillToAnalyze(session.doc))
    requires ImageAnalyzed in session.doc.checklist && PhysicalBoundaryVerified !in session.doc.checklist
    requires env.context.coordinates.Located? && env.boundary.BoundaryError?
    ensures var served := Serve(Some(session), Tick(session.owner, env, true, true), cfg);
            served.scheduled && served.session.Some? && served.session.value.doc.status == WaitingForUser
  {
    hide HasAnalysis, Marked, RecordChecks, DecideAndAct;
  }
}
