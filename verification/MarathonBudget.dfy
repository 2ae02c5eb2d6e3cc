/** The step budget: how long automatic ticking lasts, and which final states stay final. */
module MarathonBudget {
  import opened Options
  import opened MarathonState
  import opened MarathonStep
  import opened SessionService
  import opened MarathonTheorems

  predicate HasHigh(findings: seq<Finding>) {
    exists i :: 0 <= i < |findings| && IsHigh(findings[i])
  }

  /** What a phase does to the state: no step is counted or forgotten, findings are only appended, a
      session completes only without a HIGH finding, a marked line stays in memory, and the image is
      recorded as analysed only where its analysis was still awaited. */
  predicate Framed(s: Snapshot, s': Snapshot) {
    && s'.totalSteps == s.totalSteps
    && s.findings <= s'.findings
    && (s'.status == Completed ==> s.status == Completed || !HasHigh(s'.findings))
    && s'.hasDocument == s.hasDocument
    && (HasAnalysis(s.memory) ==> HasAnalysis(s'.memory))
    && (ImageAnalyzed in s'.evidence ==> ImageAnalyzed in s.evidence || StillToAnalyze(s))
    && (ImageAnalyzed in s'.checklist ==> ImageAnalyzed in s.checklist || StillToAnalyze(s))
  }

  predicate StillToAnalyze(s: Snapshot) {
    s.hasDocument && !HasAnalysis(s.memory)
  }

  lemma RecordsFramed(s: Snapshot, title: string, scan: Scan, env: Environment, cfg: Config)
    ensures Framed(s, RegisterRecords(s, title, scan, env, cfg).state)
  {
    hide HasAnalysis, Marked, CheckContinuity, ValidEvidence;
    forall s': Snapshot
      ensures Framed(s', CheckContinuity(s', title, scan, env, cfg).state)
    {
      ContinuityFramed(s', title, scan, env, cfg);
    }
  }

  lemma ContinuityFramed(s: Snapshot, title: string, scan: Scan, env: Environment, cfg: Config)
    ensures Framed(s, CheckContinuity(s, title, scan, env, cfg).state)
  {
    hide HasAnalysis, Marked, ValidEvidence, ContinuityQuery,
         RecordQueries.CallsForContinuity, RecordQueries.MentionsNewRegister;
  }

  lemma RecordChecksFramed(s: Snapshot, env: Environment, cfg: Config)
    ensures Framed(s, RecordChecks(s, env, cfg).state)
  {
    hide HasAnalysis, Marked, RegisterRecords, ScanFrom, RecordQueries.BuildRecordSearchQueries;
    forall s', title, scan
      ensures Framed(s', RegisterRecords(s', title, scan, env, cfg).state)
    {
      RecordsFramed(s', title, scan, env, cfg);
    }
  }

  lemma ToolFramed(s: Snapshot, d: Decision, env: Environment, cfg: Config)
    ensures Framed(s, ExecuteTool(s, d, env, cfg).state)
  {
    hide HasAnalysis, Marked, SearchTool, SatelliteTool;
    SearchFramed(s, d.toolInput, env, cfg);
    SatelliteFramed(s, env);
  }

  lemma SatelliteFramed(s: Snapshot, env: Environment)
    ensures Framed(s, SatelliteTool(s, env).state)
  {
    hide HasAnalysis, Marked, ValidEvidence;
  }

  lemma SearchFramed(s: Snapshot, input: string, env: Environment, cfg: Config)
    ensures Framed(s, SearchTool(s, input, env, cfg).state)
  {
    hide HasAnalysis, Marked, ValidEvidence, SearchesForTitle, HasPerformedAction;
  }

  lemma DecisionFramed(s: Snapshot, env: Environment, cfg: Config)
    ensures Framed(s, DecideAndAct(s, env, cfg).state)
  {
    hide HasAnalysis, Marked, ExecuteTool, RecordChecksComplete, IsStuck;
    var choice := GenerateDecision(s, env, cfg);
    if choice.decision.Some? {
      ToolFramed(Noted(choice.state), choice.decision.value, env, cfg);
    }
  }

  lemma AnalysisFramed(s: Snapshot, env: Environment)
    requires StillToAnalyze(s)
    ensures Framed(s, AnalyzeDocument(s, env).state)
  {
    hide HasAnalysis, Marked, ValidEvidence;
  }

  lemma BoundaryFramed(s: Snapshot, env: Environment)
    ensures Framed(s, VerifyBoundary(s, env).state)
  {
    hide HasAnalysis, Marked, ValidEvidence;
  }

  /** A memory line makes no difference to the frame. */
  lemma NotedFrame(s: Snapshot, s': Snapshot)
    ensures Framed(Noted(s), s') <==> Framed(s, s')
  {
    hide HasAnalysis, Marked;
  }

  lemma PhasesFramed(s: Snapshot, env: Environment, cfg: Config)
    ensures Framed(s, RunPhases(s, env, cfg).state)
  {
    hide HasAnalysis, Marked, RecordChecks, DecideAndAct, VerifyBoundary, AnalyzeDocument, Framed;
    if StillToAnalyze(s) { AnalysisFramed(s, env); }
    var s1 := if env.context.title.Some? then Noted(s) else s;
    RecordChecksFramed(s1, env, cfg);
    DecisionFramed(s1, env, cfg);
    BoundaryFramed(s1, env);
    NotedFrame(s, RecordChecks(s1, env, cfg).state);
    NotedFrame(s, DecideAndAct(s1, env, cfg).state);
    NotedFrame(s, VerifyBoundary(s1, env).state);
  }

  /** Within the budget a step counts itself exactly when it is saved, and only appends findings. */
  lemma StepWithinBudget(d: Snapshot, env: Environment, cfg: Config)
    requires d.totalSteps + 1 < MAX_STEPS
    ensures var r := RunSingleStep(d, env, cfg);
            && (r.saved == d || r.saved.totalSteps == d.totalSteps + 1)
            && (r.status == Running ==> r.saved.totalSteps == d.totalSteps + 1)
            && d.findings <= r.saved.findings
            && (r.saved.status == Completed ==> r.saved == d || !HasHigh(r.saved.findings))
  {
    hide HasAnalysis, Marked, RunPhases;
    PhasesFramed(Started(d), env, cfg);
  }

  /** A step that asks for another tick has counted itself and stayed below the budget. */
  lemma RunningIsCounted(d: Snapshot, env: Environment, cfg: Config)
    requires RunSingleStep(d, env, cfg).status == Running
    ensures RunSingleStep(d, env, cfg).saved.totalSteps == d.totalSteps + 1 < MAX_STEPS
  {
    hide RunPhases;
    if d.totalSteps + 1 < MAX_STEPS {
      StepWithinBudget(d, env, cfg);
    }
  }

  /** How many steps an automatic chain makes: each one is followed by another while it returns RUNNING. */
  function ChainLength(d: Snapshot, envs: seq<Environment>, cfg: Config): nat
    decreases |envs|
  {
    if envs == [] then 0
    else
      var r := RunSingleStep(d, envs[0], cfg);
      1 + if r.status == Running then ChainLength(r.saved, envs[1..], cfg) else 0
  }

  /** However long the outside keeps answering, automatic ticking stops within the budget. */
  lemma {:induction false} ChainFitsBudget(d: Snapshot, envs: seq<Environment>, cfg: Config)
    ensures ChainLength(d, envs, cfg) <= if d.totalSteps < MAX_STEPS then MAX_STEPS - d.totalSteps else 1
    decreases |envs|
  {
    hide RunSingleStep;
    if envs != [] {
      var r := RunSingleStep(d, envs[0], cfg);
      if r.status == Running {
        RunningIsCounted(d, envs[0], cfg);
        ChainFitsBudget(r.saved, envs[1..], cfg);
      }
    }
  }

  lemma FreshChainMakesAtMostFifteenSteps(uri: string, envs: seq<Environment>, cfg: Config)
    ensures ChainLength(NewDocument(uri), envs, cfg) <= 15
  {
    ChainFitsBudget(NewDocument(uri), envs, cfg);
  }

  // Which final states stay.

  predicate NoBootstrap(requests: seq<Request>) {
    forall i :: 0 <= i < |requests| ==> !requests[i].Bootstrap?
  }

  /** COMPLETED survives every tick and every retry of a document session. */
  lemma {:induction false} CompletedIsAbsorbing(session: Session, requests: seq<Request>, cfg: Config)
    requires DocumentInvariant(session.doc) && session.doc.status == Completed
    requires NoBootstrap(requests)
    ensures var final := Run(Some(session), requests, cfg);
            final.Some? && final.value.doc.status == Completed && final.value.doc.evidence == session.doc.evidence
    decreases |requests|
  {
    hide Serve, DocumentInvariant;
    if requests != [] {
      assert forall i :: 0 <= i < |requests[1..]| ==> requests[1..][i] == requests[i + 1];
      CompletedSurvivesRequest(session, requests[0], cfg);
      CompletedIsAbsorbing(Serve(Some(session), requests[0], cfg).session.value, requests[1..], cfg);
    }
  }

  lemma CompletedSurvivesRequest(session: Session, request: Request, cfg: Config)
    requires DocumentInvariant(session.doc) && session.doc.status == Completed && !request.Bootstrap?
    ensures var next := Serve(Some(session), request, cfg).session;
            && next.Some? && next.value.doc.status == Completed
            && next.value.doc.evidence == session.doc.evidence && DocumentInvariant(next.value.doc)
  {
    hide RunSingleStep, DocumentInvariant;
    if request.Tick? { CompletedSurvivesStep(session.doc, request.env, cfg); }
  }

  lemma CompletedSurvivesStep(d: Snapshot, env: Environment, cfg: Config)
    requires DocumentInvariant(d) && d.status == Completed
    ensures var saved := RunSingleStep(d, env, cfg).saved;
            saved.status == Completed && saved.evidence == d.evidence && DocumentInvariant(saved)
  {
    hide RunPhases;
  }

  /** FLAGGED survives a tick exactly when it was saved at step 13 or earlier. From step 14 on the
      budget branch runs first and overwrites it: with COMPLETED, erasing the findings, if all six
      checks are recorded, and with WAITING_FOR_USER otherwise. */
  lemma FlaggedSurvivesTickExactlyUpToStep13(d: Snapshot, env: Environment, cfg: Config)
    requires DocumentInvariant(d) && d.status == Flagged
    ensures var r := RunSingleStep(d, env, cfg);
            && (r.saved.status == Flagged <==> d.totalSteps <= 13)
            && (d.totalSteps <= 13 ==> r.saved == d)
            && (d.totalSteps >= 14 && d.evidence.Keys == ALL_SIX ==>
                  r.saved.status == Completed && r.saved.findings == [AutoConcluded])
            && (d.totalSteps >= 14 && d.evidence.Keys != ALL_SIX ==> r.saved.status == WaitingForUser)
  {
    hide RunPhases;
  }

  lemma {:induction false} FlaggedIsAbsorbingUpToStep13(session: Session, requests: seq<Request>, cfg: Config)
    requires session.doc.status == Flagged && session.doc.totalSteps <= 13
    requires NoBootstrap(requests)
    ensures Run(Some(session), requests, cfg) == Some(session)
    decreases |requests|
  {
    hide RunPhases;
    if requests != [] {
      assert forall i :: 0 <= i < |requests[1..]| ==> requests[1..][i] == requests[i + 1];
      assert Serve(Some(session), requests[0], cfg).session == Some(session);
      FlaggedIsAbsorbingUpToStep13(session, requests[1..], cfg);
    }
  }

  /** What later states keep of earlier ones: steps are never uncounted, and below the budget no
      finding is lost and completion excludes a HIGH one. */
  predicate Later(d: Snapshot, d': Snapshot) {
    && d.totalSteps <= d'.totalSteps
    && (d'.totalSteps < MAX_STEPS ==> d.findings <= d'.findings)
    && (d'.status == Completed ==> !HasHigh(d'.findings))
  }

  lemma StepIsLater(d: Snapshot, env: Environment, cfg: Config)
    requires d.status == Completed ==> !HasHigh(d.findings)
    ensures Later(d, RunSingleStep(d, env, cfg).saved)
  {
    if d.totalSteps + 1 < MAX_STEPS {
      hide RunSingleStep;
      StepWithinBudget(d, env, cfg);
    } else {
      hide RunPhases;
    }
  }

  lemma {:induction false} RunIsLater(session: Session, requests: seq<Request>, cfg: Config)
    requires session.doc.status == Completed ==> !HasHigh(session.doc.findings)
    ensures var final := Run(Some(session), requests, cfg);
            final.Some? && Later(session.doc, final.value.doc)
    decreases |requests|
  {
    hide RunSingleStep, HasHigh;
    if requests != [] {
      var r := requests[0];
      if !r.Retry? {
        StepIsLater(session.doc, r.env, cfg);
      }
      RunIsLater(Serve(Some(session), r, cfg).session.value, requests[1..], cfg);
    }
  }

  lemma HighStaysInPrefix(before: seq<Finding>, after: seq<Finding>)
    requires before <= after && HasHigh(before)
    ensures HasHigh(after)
  {
    var i :| 0 <= i < |before| && IsHigh(before[i]);
    assert IsHigh(after[i]);
  }

  /** Once a HIGH finding is recorded, the session is not COMPLETED in any later state that was
      saved below the step budget. */
  lemma HighFindingBlocksCompletion(owner: string, uri: string, before: seq<Request>, after: seq<Request>, cfg: Config)
    requires Run(Uploaded(owner, uri), before, cfg).Some?
    requires Run(Uploaded(owner, uri), before, cfg).value.doc.totalSteps < MAX_STEPS
    requires HasHigh(Run(Uploaded(owner, uri), before, cfg).value.doc.findings)
    ensures var final := Run(Run(Uploaded(owner, uri), before, cfg), after, cfg);
            final.Some? && (final.value.doc.totalSteps < MAX_STEPS ==> final.value.doc.status != Completed)
  {
    hide RunSingleStep;
    RunIsLater(Uploaded(owner, uri).value, before, cfg);
    var middle := Run(Uploaded(owner, uri), before, cfg).value;
    RunIsLater(middle, after, cfg);
    var final := Run(Some(middle), after, cfg).value;
    if final.doc.totalSteps < MAX_STEPS {
      HighStaysInPrefix(middle.doc.findings, final.doc.findings);
    }
  }
}
