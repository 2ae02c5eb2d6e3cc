/** For which object names the guarantees hold: the image phase looks for a marker in every memory
    line, and the first line quotes the name under which the document was stored. */
module MarathonNames {
  import opened Options
  import opened Text
  import opened RecordQueries
  import opened MarathonState
  import opened MarathonStep
  import opened SessionService
  import opened MarathonTheorems
  import opened MarathonBudget
  import opened MarathonRuns

  /** The document goes through the image phase: known before the session is created. */
  predicate Guarded(uri: string, cfg: Config) {
    cfg.imageAnalysisEnabled && PlainName(uri)
  }

  // Without the guard.

  /** Nothing has been recorded about the document. */
  predicate Untouched(d: Snapshot) {
    && (d.status == Queued || d.status == Running) && d.totalSteps + 1 < MAX_STEPS && d.emptyResponses == 0
    && d.evidence == map[] && d.checklist == {} && d.findings == [] && d.actions == []
  }

  /** The image phase does not hold the session back. */
  predicate PastImage(d: Snapshot, cfg: Config) {
    !StillToAnalyze(d) || !cfg.imageAnalysisEnabled
  }

  /** Good answers of all tools, and the given decision of the model. */
  function Deciding(tool: Tool, input: string): Environment {
    Answers(ImageRead(TRACE, DIGEST), "x").(reply := Parsed(Decision(tool, input, false, 0)))
  }

  lemma DecidingIsTrusted(tool: Tool, input: string)
    ensures var env := Deciding(tool, input);
            && Trustworthy(env) && ReadsImage(env) && SeesNoDiscrepancy(env) && FindsRecords(env)
            && HasProvenance(env.Research(0))
            && Signed(env.Research(0).traceId, env.Research(0).sha256)
  {
    var env, good := Deciding(tool, input), Answers(ImageRead(TRACE, DIGEST), "x");
    DigestIsValid();
    DisputeWords();
    AnswersAreSigned(ImageRead(TRACE, DIGEST), "x");
    hide IsValidSha256, IsValidTraceId, MentionsDispute;
    assert forall i: nat :: env.Research(i) == good.Research(i);
  }

  /** With nothing recorded and no image phase, a step is the model's free decision. */
  lemma StepIsFree(d: Snapshot, env: Environment, cfg: Config)
    requires Untouched(d) && PastImage(d, cfg) && cfg.emptyResponseMaxRetries >= 1 && env.context.title.Some?
    ensures RunSingleStep(d, env, cfg) == Settle(DecideAndAct(Noted(Started(d)), env, cfg), cfg)
  {
    hide DecideAndAct, RecordChecks, VerifyBoundary, AnalyzeDocument, HasAnalysis;
  }

  lemma FinishingAtOnce(d: Snapshot, cfg: Config)
    requires Untouched(d) && PastImage(d, cfg) && cfg.emptyResponseMaxRetries >= 1
    ensures var saved := RunSingleStep(d, Deciding(FinishAudit, ""), cfg).saved;
            saved.status == Completed && saved.evidence == map[] && saved.totalSteps == d.totalSteps + 1
  {
    StepIsFree(d, Deciding(FinishAudit, ""), cfg);
    hide RunSingleStep, HasAnalysis, Answers;
  }

  lemma WaitingAtOnce(d: Snapshot, cfg: Config)
    requires Untouched(d) && PastImage(d, cfg) && cfg.emptyResponseMaxRetries >= 1
    ensures RunSingleStep(d, Deciding(WaitUser, ""), cfg).saved.status == WaitingForUser
  {
    StepIsFree(d, Deciding(WaitUser, ""), cfg);
    hide RunSingleStep, HasAnalysis, Answers;
  }

  lemma SearchingAtOnce(d: Snapshot, cfg: Config)
    requires Untouched(d) && PastImage(d, cfg) && cfg.emptyResponseMaxRetries >= 1
    ensures RunSingleStep(d, Deciding(GoogleSearch, "title"), cfg).saved.evidence.Keys == {TitleSearched}
  {
    var env := Deciding(GoogleSearch, "title");
    StepIsFree(d, env, cfg);
    DecidingIsTrusted(GoogleSearch, "title");
    TitleIsSearched();
    hide RunSingleStep, HasAnalysis, IsValidTraceId, IsValidSha256, SearchesForTitle, Trustworthy, FindsRecords;
    var s := Noted(Noted(Started(d)));
    var found := env.Research(0);
    var s1 := WithEvidence(s, TitleSearched, Evidence(GeminiGoogleSearch, found.traceId, found.sha256)).value;
    assert s1.evidence.Keys == {TitleSearched};
    assert !HasPerformedAction(s, GoogleSearch, cfg.inputHash("title"));
  }

  lemma TitleIsSearched()
    ensures SearchesForTitle("title")
  {
    assert Lower("title") == "title";
    assert MatchesAt("title", "title", 0);
    var words := ["title", "owner", "gazette", "land"];
    assert Contains(Lower("title"), words[0]);
  }

  lemma NewDocumentIsUntouched(uri: string, cfg: Config)
    ensures Untouched(NewDocument(uri))
    ensures PastImage(NewDocument(uri), cfg) <==> !Guarded(uri, cfg)
  {
    MarkedLines(ReceivedObject(uri));
    var memory := [ReceivedObject(uri)];
    assert HasAnalysis(memory) <==> Marked(memory[0]);
    hide Marked;
  }

  lemma OneRequest(owner: string, uri: string, env: Environment, cfg: Config)
    requires Trustworthy(env)
    ensures AllTrusted([OneTick(owner, env)])
    ensures Run(Uploaded(owner, uri), [OneTick(owner, env)], cfg) ==
            Some(Session(owner, RunSingleStep(NewDocument(uri), env, cfg).saved))
  {
    hide RunSingleStep, Trustworthy;
    RunTick(owner, NewDocument(uri), env, [], cfg);
    RunNothing(Some(Session(owner, RunSingleStep(NewDocument(uri), env, cfg).saved)), cfg);
    assert [OneTick(owner, env)] + [] == [OneTick(owner, env)];
  }

  // An agent that may not fail to answer even once never gets anywhere.

  predicate Stalled(d: Snapshot) {
    d.evidence == map[] && d.checklist == {} && d.status != Completed
  }

  lemma StalledStep(d: Snapshot, env: Environment, reply: ModelReply, cfg: Config)
    requires cfg.emptyResponseMaxRetries == 0 && Stalled(d)
    ensures Stalled(RunSingleStep(d, env, cfg).saved)
    ensures RunSingleStep(d, env, cfg) == RunSingleStep(d, env.(reply := reply), cfg)
  {
    hide RunPhases;
  }

  lemma {:induction false} RunStalls(session: Session, requests: seq<Request>, cfg: Config)
    requires cfg.emptyResponseMaxRetries == 0 && Stalled(session.doc)
    ensures var final := Run(Some(session), requests, cfg);
            final.Some? && Stalled(final.value.doc)
    decreases |requests|
  {
    hide RunSingleStep;
    if requests != [] {
      var r := requests[0];
      if !r.Retry? { StalledStep(session.doc, r.env, ModelException, cfg); }
      RunStalls(Serve(Some(session), r, cfg).session.value, requests[1..], cfg);
    }
  }

  // Exactly when.

  predicate Backed(d: Snapshot, check: Check) {
    check in d.evidence && ValidEvidence(d.evidence[check])
  }

  predicate CompletesUnbacked(owner: string, uri: string, requests: seq<Request>, cfg: Config) {
    var final := Run(Uploaded(owner, uri), requests, cfg);
    && final.Some?
    && final.value.doc.status == Completed
    && exists check :: check in ALL_SIX && !Backed(final.value.doc, check)
  }

  /** COMPLETED implies the six checks, over all runs of an upload. */
  ghost predicate CompletionIsBacked(owner: string, uri: string, cfg: Config) {
    forall requests :: AllTrusted(requests) ==> !CompletesUnbacked(owner, uri, requests, cfg)
  }

  /** Main result: over all runs of an upload COMPLETED implies valid evidence for the six checks if
      and only if image analysis is on and the object's name is not empty and lacks the marker. (An
      agent that may not fail to answer even once never completes anything.) */
  lemma CompletionIsBackedExactlyWhen(owner: string, uri: string, cfg: Config)
    ensures CompletionIsBacked(owner, uri, cfg) <==> Guarded(uri, cfg) || cfg.emptyResponseMaxRetries == 0
  {
    hide Run, RunSingleStep, Trustworthy, ValidEvidence, Contains;
    if Guarded(uri, cfg) {
      forall requests | AllTrusted(requests)
        ensures !CompletesUnbacked(owner, uri, requests, cfg)
      {
        if CompletesUnbacked(owner, uri, requests, cfg) {
          var d := Run(Uploaded(owner, uri), requests, cfg).value.doc;
          var check :| check in ALL_SIX && !Backed(d, check);
          CompletedHasAllEvidence(owner, uri, requests, cfg, check);
        }
      }
    } else if cfg.emptyResponseMaxRetries == 0 {
      forall requests | AllTrusted(requests)
        ensures !CompletesUnbacked(owner, uri, requests, cfg)
      {
        RunStalls(Uploaded(owner, uri).value, requests, cfg);
      }
    } else {
      var env := Deciding(FinishAudit, "");
      NewDocumentIsUntouched(uri, cfg);
      FinishingAtOnce(NewDocument(uri), cfg);
      DecidingIsTrusted(FinishAudit, "");
      OneRequest(owner, uri, env, cfg);
      assert !Backed(RunSingleStep(NewDocument(uri), env, cfg).saved, ImageAnalyzed);
      assert CompletesUnbacked(owner, uri, [OneTick(owner, env)], cfg);
    }
  }

  predicate OffStage(owner: string, uri: string, requests: seq<Request>, cfg: Config) {
    var final := Run(Uploaded(owner, uri), requests, cfg);
    || final.None?
    || !IsStage(final.value.doc.evidence.Keys)
    || exists check :: check in final.value.doc.checklist && check != LocationChecked && !Backed(final.value.doc, check)
  }

  /** Every stored state holds one of the five evidence sets and a backed checklist. */
  ghost predicate AlwaysStaged(owner: string, uri: string, cfg: Config) {
    forall requests :: AllTrusted(requests) ==> !OffStage(owner, uri, requests, cfg)
  }

  /** The evidence of all runs is staged under exactly the same condition. */
  lemma StagedExactlyWhen(owner: string, uri: string, cfg: Config)
    ensures AlwaysStaged(owner, uri, cfg) <==> Guarded(uri, cfg) || cfg.emptyResponseMaxRetries == 0
  {
    hide Run, RunSingleStep, Trustworthy, ValidEvidence, Contains;
    if Guarded(uri, cfg) {
      forall requests | AllTrusted(requests)
        ensures !OffStage(owner, uri, requests, cfg)
      {
        EvidenceIsStaged(owner, uri, requests, cfg);
      }
    } else if cfg.emptyResponseMaxRetries == 0 {
      forall requests | AllTrusted(requests)
        ensures !OffStage(owner, uri, requests, cfg)
      {
        RunStalls(Uploaded(owner, uri).value, requests, cfg);
      }
    } else {
      var env := Deciding(GoogleSearch, "title");
      NewDocumentIsUntouched(uri, cfg);
      SearchingAtOnce(NewDocument(uri), cfg);
      DecidingIsTrusted(GoogleSearch, "title");
      OneRequest(owner, uri, env, cfg);
      assert OffStage(owner, uri, [OneTick(owner, env)], cfg);
    }
  }

  predicate AsksModel(owner: string, uri: string, requests: seq<Request>, env: Environment, reply: ModelReply,
                      cfg: Config)
  {
    var final := Run(Uploaded(owner, uri), requests, cfg);
    && final.Some?
    && RunSingleStep(final.value.doc, env, cfg) != RunSingleStep(final.value.doc, env.(reply := reply), cfg)
  }

  /** No reachable state leaves anything to the model. */
  ghost predicate NeverAsksModel(owner: string, uri: string, cfg: Config) {
    forall requests, env, reply :: AllTrusted(requests) ==> !AsksModel(owner, uri, requests, env, reply, cfg)
  }

  /** The model's free decision never matters under exactly the same condition. */
  lemma ModelIsIdleExactlyWhen(owner: string, uri: string, cfg: Config)
    ensures NeverAsksModel(owner, uri, cfg) <==> Guarded(uri, cfg) || cfg.emptyResponseMaxRetries == 0
  {
    hide Run, RunSingleStep, Trustworthy, Contains;
    if Guarded(uri, cfg) {
      forall requests, env, reply | AllTrusted(requests)
        ensures !AsksModel(owner, uri, requests, env, reply, cfg)
      {
        ModelIsNeverConsulted(owner, uri, requests, env, reply, cfg);
      }
    } else if cfg.emptyResponseMaxRetries == 0 {
      forall requests, env, reply | AllTrusted(requests)
        ensures !AsksModel(owner, uri, requests, env, reply, cfg)
      {
        RunStalls(Uploaded(owner, uri).value, requests, cfg);
        StalledStep(Run(Uploaded(owner, uri), requests, cfg).value.doc, env, reply, cfg);
      }
    } else {
      var finish, wait := Deciding(FinishAudit, ""), Deciding(WaitUser, "");
      NewDocumentIsUntouched(uri, cfg);
      FinishingAtOnce(NewDocument(uri), cfg);
      WaitingAtOnce(NewDocument(uri), cfg);
      RunNothing(Uploaded(owner, uri), cfg);
      assert wait == finish.(reply := wait.reply);
      assert AsksModel(owner, uri, [], finish, wait.reply, cfg);
    }
  }

  function FourTicks(owner: string, e1: Environment, e2: Environment, e3: Environment, e4: Environment): seq<Request> {
    [OneTick(owner, e1)] + ([OneTick(owner, e2)] + ([OneTick(owner, e3)] + ([OneTick(owner, e4)] + [])))
  }

  predicate GoodAnswersFail(owner: string, uri: string,
                            e1: Environment, e2: Environment, e3: Environment, e4: Environment, cfg: Config)
  {
    var final := Run(Uploaded(owner, uri), FourTicks(owner, e1, e2, e3, e4), cfg);
    && ReadsImage(e1) && SeesNoDiscrepancy(e2) && FindsRecords(e3)
    && !(final.Some? && final.value.doc.status == Completed && final.value.doc.evidence.Keys == ALL_SIX)
  }

  /** Four ticks with good answers complete the session with all six checks. */
  ghost predicate GoodAnswersSuffice(owner: string, uri: string, cfg: Config) {
    forall e1, e2, e3, e4 :: !GoodAnswersFail(owner, uri, e1, e2, e3, e4, cfg)
  }

  /** Good answers complete a session under exactly the same condition, given an agent that gets
      anywhere. */
  lemma GoodAnswersSufficeExactlyWhen(owner: string, uri: string, cfg: Config)
    ensures GoodAnswersSuffice(owner, uri, cfg) <==> Guarded(uri, cfg) && cfg.emptyResponseMaxRetries >= 1
  {
    hide Run, RunSingleStep, Trustworthy, ReadsImage, SeesNoDiscrepancy, FindsRecords, Contains;
    var env := Deciding(FinishAudit, "");
    DecidingIsTrusted(FinishAudit, "");
    if cfg.emptyResponseMaxRetries == 0 {
      RunStalls(Uploaded(owner, uri).value, FourTicks(owner, env, env, env, env), cfg);
      assert GoodAnswersFail(owner, uri, env, env, env, env, cfg);
    } else if Guarded(uri, cfg) {
      forall e1, e2, e3, e4
        ensures !GoodAnswersFail(owner, uri, e1, e2, e3, e4, cfg)
      {
        if ReadsImage(e1) && SeesNoDiscrepancy(e2) && FindsRecords(e3) {
          GoodAnswersComplete(owner, uri, e1, e2, e3, e4, cfg);
        }
      }
    } else {
      FourTicksEndAtOnce(owner, uri, env, cfg);
      assert GoodAnswersFail(owner, uri, env, env, env, env, cfg);
    }
  }

  lemma FourTicksEndAtOnce(owner: string, uri: string, env: Environment, cfg: Config)
    requires !Guarded(uri, cfg) && cfg.emptyResponseMaxRetries >= 1 && env == Deciding(FinishAudit, "")
    ensures var final := Run(Uploaded(owner, uri), FourTicks(owner, env, env, env, env), cfg);
            final.Some? && final.value.doc.evidence == map[]
  {
    NewDocumentIsUntouched(uri, cfg);
    FinishingAtOnce(NewDocument(uri), cfg);
    hide Run, Deciding, Guarded, PastImage, Untouched;
    var tick := [OneTick(owner, env)];
    var d1 := RunSingleStep(NewDocument(uri), env, cfg).saved;
    EndedStays(d1, env, cfg);
    hide RunSingleStep;
    RunTick(owner, NewDocument(uri), env, tick + (tick + (tick + [])), cfg);
    RunTick(owner, d1, env, tick + (tick + []), cfg);
    RunTick(owner, d1, env, tick + [], cfg);
    RunTick(owner, d1, env, [], cfg);
    RunNothing(Some(Session(owner, d1)), cfg);
  }

  lemma EndedStays(d: Snapshot, env: Environment, cfg: Config)
    requires d.status == Completed && d.totalSteps == 1
    ensures RunSingleStep(d, env, cfg).saved == d
  {
    hide RunPhases;
  }

  // The inputs.

  const MARKED_NAME := "gs://bucket/uploads/" + IMAGE_MARKER + " deed.pdf"

  lemma MarkedNameIsMarked()
    ensures Contains(MARKED_NAME, IMAGE_MARKER)
  {
    assert MatchesAt(IMAGE_MARKER, IMAGE_MARKER, 0);
    ContainsConcat("gs://bucket/uploads/", IMAGE_MARKER, " deed.pdf", IMAGE_MARKER);
  }

  /** A file of this name is COMPLETED without any evidence after one tick. */
  lemma MarkedNameCompletesUnbacked(owner: string, cfg: Config)
    requires cfg.emptyResponseMaxRetries >= 1
    ensures !PlainName(MARKED_NAME)
    ensures var final := Run(Uploaded(owner, MARKED_NAME), [OneTick(owner, Deciding(FinishAudit, ""))], cfg);
            final.Some? && final.value.doc.status == Completed && final.value.doc.evidence == map[]
  {
    MarkedNameIsMarked();
    hide Contains, Run, RunSingleStep, Trustworthy;
    NewDocumentIsUntouched(MARKED_NAME, cfg);
    FinishingAtOnce(NewDocument(MARKED_NAME), cfg);
    DecidingIsTrusted(FinishAudit, "");
    OneRequest(owner, MARKED_NAME, Deciding(FinishAudit, ""), cfg);
  }

  /** So is a document of any name, if the error text of a failed image analysis contains the marker. */
  lemma MarkedErrorCompletesUnbacked(owner: string, uri: string, error: string, cfg: Config)
    requires cfg.emptyResponseMaxRetries >= 1 && Guarded(uri, cfg) && Contains(error, IMAGE_MARKER)
    ensures var failing := OneTick(owner, Answers(ImageError(error), "x"));
            var finishing := OneTick(owner, Deciding(FinishAudit, ""));
            var final := Run(Uploaded(owner, uri), [failing] + ([finishing] + []), cfg);
            final.Some? && final.value.doc.status == Completed && final.value.doc.evidence == map[]
  {
    hide Contains, Marked, HasAnalysis, Deciding, Run;
    var failing, finishing := Answers(ImageError(error), "x"), Deciding(FinishAudit, "");
    NewDocumentIsUntouched(uri, cfg);
    MarkedLines(ImageFailure(error));
    var d1 := RunSingleStep(NewDocument(uri), failing, cfg).saved;
    assert Untouched(d1) && HasAnalysis(d1.memory);
    FinishingAtOnce(d1, cfg);
    hide RunSingleStep;
    var d2 := RunSingleStep(d1, finishing, cfg).saved;
    RunTick(owner, NewDocument(uri), failing, [OneTick(owner, finishing)] + [], cfg);
    RunTick(owner, d1, finishing, [], cfg);
    RunNothing(Some(Session(owner, d2)), cfg);
  }

  // What every run without a plain name keeps.

  predicate NeverAnalyzed(d: Snapshot) {
    !StillToAnalyze(d) && ImageAnalyzed !in d.evidence && ImageAnalyzed !in d.checklist
  }

  lemma StepNeverAnalyzes(d: Snapshot, env: Environment, cfg: Config)
    requires NeverAnalyzed(d)
    ensures NeverAnalyzed(RunSingleStep(d, env, cfg).saved)
  {
    hide RunPhases, HasAnalysis, Marked;
    PhasesFramed(Started(d), env, cfg);
  }

  lemma {:induction false} RunNeverAnalyzes(session: Session, requests: seq<Request>, cfg: Config)
    requires NeverAnalyzed(session.doc)
    ensures var final := Run(Some(session), requests, cfg);
            final.Some? && NeverAnalyzed(final.value.doc)
    decreases |requests|
  {
    hide RunSingleStep, HasAnalysis;
    if requests != [] {
      var r := requests[0];
      if !r.Retry? { StepNeverAnalyzes(session.doc, r.env, cfg); }
      RunNeverAnalyzes(Serve(Some(session), r, cfg).session.value, requests[1..], cfg);
    }
  }

  /** A document without a plain name is never recorded as analysed, whatever happens. */
  lemma MarkedNameIsNeverAnalyzed(owner: string, uri: string, requests: seq<Request>, cfg: Config)
    requires !PlainName(uri)
    ensures var final := Run(Uploaded(owner, uri), requests, cfg);
            && final.Some?
            && ImageAnalyzed !in final.value.doc.evidence && ImageAnalyzed !in final.value.doc.checklist
  {
    NewDocumentIsUntouched(uri, cfg.(imageAnalysisEnabled := true));
    hide Run;
    RunNeverAnalyzes(Uploaded(owner, uri).value, requests, cfg);
  }

  /** A session that lost its historical-chain search can never complete again, whatever its name and
      whatever follows: its evidence stays as it is. */
  lemma WithoutHistoryNeverCompletes(owner: string, uri: string, before: seq<Request>, after: seq<Request>, cfg: Config)
    requires cfg.imageAnalysisEnabled && AllTrusted(before) && AllTrusted(after)
    requires Run(Uploaded(owner, uri), before, cfg).Some?
    requires Run(Uploaded(owner, uri), before, cfg).value.doc.evidence.Keys == ALL_BUT_HISTORICAL
    ensures var final := Run(Run(Uploaded(owner, uri), before, cfg), after, cfg);
            final.Some? && final.value.doc.status != Completed && final.value.doc.evidence.Keys == ALL_BUT_HISTORICAL
  {
    hide Run, Consistent;
    if PlainName(uri) {
      UploadIsConsistent(owner, uri);
      RunKeepsInvariant(Uploaded(owner, uri), before, cfg);
      RunKeepsInvariant(Run(Uploaded(owner, uri), before, cfg), after, cfg);
    } else {
      MarkedNameIsNeverAnalyzed(owner, uri, before, cfg);
      assert false;
    }
  }
}
