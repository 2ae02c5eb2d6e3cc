/** Runs that do happen: how a document session completes, and how a flagged one ends up completed. */
module MarathonRuns {
  import opened Options
  import opened Text
  import opened RecordQueries
  import opened MarathonState
  import opened MarathonStep
  import opened SessionService
  import opened MarathonTheorems
  import opened MarathonBudget

  /** A session under way after `n` steps with the evidence of one stage. */
  ghost predicate Underway(d: Snapshot, n: nat, stage: set<Check>) {
    && Consistent(d) && (d.status == Queued || d.status == Running)
    && d.totalSteps == n && d.evidence.Keys == stage && d.emptyResponses == 0
  }

  /** Image analysis is on and a single empty answer does not stop the agent. */
  predicate Usable(cfg: Config) {
    cfg.imageAnalysisEnabled && cfg.emptyResponseMaxRetries >= 1
  }

  // What the outside answers on the good path.

  predicate ReadsImage(env: Environment) {
    env.image.ImageRead? && Signed(env.image.traceId, env.image.sha256)
  }

  predicate SeesNoDiscrepancy(env: Environment) {
    && env.context.coordinates.Located?
    && env.boundary.BoundaryInspected? && !env.boundary.highDiscrepancy
    && Signed(env.boundary.traceId, env.boundary.sha256)
  }

  /** All five searches and the continuity search are answered and nothing is in dispute. */
  predicate FindsRecords(env: Environment) {
    && env.context.title.Some? && Trustworthy(env) && HasProvenance(env.continuity)
    && forall i :: 0 <= i < 5 ==> HasProvenance(env.Research(i)) && !MentionsDispute(env.Research(i).text)
  }

  predicate FindsDispute(env: Environment) {
    && env.context.title.Some? && Trustworthy(env)
    && HasProvenance(env.Research(0)) && HasProvenance(env.Research(1)) && MentionsDispute(env.Research(1).text)
  }

  // One step on each stage.

  lemma FailedImageStep(d: Snapshot, n: nat, env: Environment, cfg: Config)
    requires Usable(cfg) && Underway(d, n, {}) && n + 1 < MAX_STEPS && env.image.ImageError? && Trustworthy(env)
    ensures var saved := RunSingleStep(d, env, cfg).saved;
            Underway(saved, n + 1, {}) && saved.findings == d.findings
  {
    hide ValidEvidence, Marked, HasAnalysis, Contains;
    MarkedLines(ImageFailure(env.image.error));
  }

  lemma ImageStep(d: Snapshot, n: nat, env: Environment, cfg: Config)
    requires Usable(cfg) && Underway(d, n, {}) && n + 1 < MAX_STEPS && ReadsImage(env)
    ensures var saved := RunSingleStep(d, env, cfg).saved;
            Underway(saved, n + 1, IMAGE_ONLY) && saved.findings == d.findings
  {
    hide IsValidTraceId, IsValidSha256, Marked, HasAnalysis, Contains;
    MarkedLines(ImageAnalysis);
    var s := Started(d);
    assert AwaitsAnalysis(s, cfg);
    var e := Evidence(GeminiVision, env.image.traceId, env.image.sha256);
    assert ValidEvidence(e) && e.traceId != "" && e.sha256 != "" by {
      SignedIsPresent(e.traceId, e.sha256);
    }
    var s1 := Remembered(s, ImageAnalysis);
    assert WithEvidence(s1, ImageAnalyzed, e).value.evidence.Keys == IMAGE_ONLY;
  }

  lemma SignedIsPresent(traceId: string, sha256: string)
    requires Signed(traceId, sha256)
    ensures traceId != "" && sha256 != ""
  {
  }

  lemma BoundaryStep(d: Snapshot, n: nat, env: Environment, cfg: Config)
    requires Usable(cfg) && Underway(d, n, IMAGE_ONLY) && n + 1 < MAX_STEPS && SeesNoDiscrepancy(env)
    ensures var saved := RunSingleStep(d, env, cfg).saved;
            Underway(saved, n + 1, IMAGE_AND_BOUNDARY) && saved.findings == d.findings
  {
    hide HasAnalysis, Marked, IsValidTraceId, IsValidSha256, RecordChecks, DecideAndAct;
    var s := Started(d);
    GatesReadStage(s);
    var s1 := if env.context.title.Some? then Noted(s) else s;
    var e := Evidence(GeminiVision, env.boundary.traceId, env.boundary.sha256);
    SignedIsPresent(e.traceId, e.sha256);
    var located := Noted(s1).(checklist := s1.checklist + {LocationChecked});
    var s2 := WithEvidence(located, PhysicalBoundaryVerified, e).value;
    assert s2.evidence.Keys == IMAGE_AND_BOUNDARY;
    assert VerifyBoundary(s1, env) == Return(s2, Running, 1);
  }

  /** On the third stage a step is Step 5. */
  lemma StepIsRecordChecks(d: Snapshot, n: nat, env: Environment, cfg: Config)
    requires Usable(cfg) && Underway(d, n, IMAGE_AND_BOUNDARY) && n + 1 < MAX_STEPS && env.context.title.Some?
    ensures var s := Noted(Started(d));
            && Consistent(s) && s.status == Running && s.evidence == d.evidence && s.findings == d.findings
            && RunSingleStep(d, env, cfg) ==
               match RecordChecks(s, env, cfg)
               case Proceed(s') => StepResult(s', Running, 1)
               case outcome => Settle(outcome, cfg)
  {
    hide HasAnalysis, Marked, RecordChecks, DecideAndAct, VerifyBoundary, ValidEvidence;
    GatesReadStage(Started(d));
  }

  lemma DisputeStep(d: Snapshot, n: nat, env: Environment, cfg: Config)
    requires Usable(cfg) && Underway(d, n, IMAGE_AND_BOUNDARY) && n + 1 < MAX_STEPS && FindsDispute(env)
    ensures var saved := RunSingleStep(d, env, cfg).saved;
            && saved.status == Failed && HasHigh(saved.findings)
            && Underway(saved.(status := Running), n + 1, IMAGE_AND_BOUNDARY)
  {
    hide HasAnalysis, Marked, RunSingleStep, MentionsDispute, MentionsConversion, BuildRecordSearchQueries;
    StepIsRecordChecks(d, n, env, cfg);
    var s := Noted(Started(d));
    var title := env.context.title.value;
    var queries := BuildRecordSearchQueries(title, env.context.owner, env.context.county);
    QueriesCoverMandatoryTopics(title, env.context.owner, env.context.county);
    ScanStopsAtDispute(queries, env, cfg, StartScan(s));
    RecordChecksKeepConsistent(s, env, cfg);
    hide ScanFrom, Trustworthy;
    var actions := ScanFrom(queries, env, cfg, 0, StartScan(s)).actions;
    var saved := LegalDisputeFound(s.(actions := actions));
    assert RunSingleStep(d, env, cfg).saved == saved;
    assert IsHigh(saved.findings[|s.findings|]);
  }

  lemma ScanStopsAtDispute(queries: seq<string>, env: Environment, cfg: Config, acc: Scan)
    requires |queries| == 5 && IsGazetteQuery(queries[1])
    requires HasProvenance(env.Research(0)) && HasProvenance(env.Research(1)) && MentionsDispute(env.Research(1).text)
    ensures ScanFrom(queries, env, cfg, 0, acc).Disputed?
  {
    hide MentionsDispute, MentionsConversion, IsGazetteQuery, IsZoningQuery;
    var next := Scanning(queries[0], env.Research(0), cfg, acc);
    assert ScanFrom(queries, env, cfg, 1, next).Disputed?;
  }

  lemma {:induction false} ScanGoesThrough(queries: seq<string>, env: Environment, cfg: Config, i: nat, acc: Scan)
    requires i <= |queries|
    requires forall k :: i <= k < |queries| ==> HasProvenance(env.Research(k)) && !MentionsDispute(env.Research(k).text)
    ensures ScanFrom(queries, env, cfg, i, acc).Scanned?
    decreases |queries| - i
  {
    hide MentionsDispute, MentionsConversion, IsGazetteQuery, IsZoningQuery;
    if i < |queries| {
      ScanGoesThrough(queries, env, cfg, i + 1, Scanning(queries[i], env.Research(i), cfg, acc));
    }
  }

  /** Registering the records adds at most the finding about an unverified conversion. */
  predicate AtMostConversion(before: seq<Finding>, after: seq<Finding>) {
    after == before || after == before + [ConversionUnverified]
  }

  lemma RegistrationFindings(s: Snapshot, title: string, scan: Scan, env: Environment, cfg: Config)
    ensures var s' := RegisterRecords(s, title, scan, env, cfg).state;
            && AtMostConversion(s.findings, s'.findings)
            && s'.totalSteps == s.totalSteps && s'.emptyResponses == s.emptyResponses
  {
    hide CheckContinuity, ValidEvidence;
    forall s': Snapshot
      ensures var s'' := CheckContinuity(s', title, scan, env, cfg).state;
              AtMostConversion(s'.findings, s''.findings) && s''.totalSteps == s'.totalSteps
              && s''.emptyResponses == s'.emptyResponses
    {
      ContinuityFindings(s', title, scan, env, cfg);
    }
  }

  lemma ContinuityFindings(s: Snapshot, title: string, scan: Scan, env: Environment, cfg: Config)
    ensures var s' := CheckContinuity(s, title, scan, env, cfg).state;
            && AtMostConversion(s.findings, s'.findings)
            && s'.totalSteps == s.totalSteps && s'.emptyResponses == s.emptyResponses
  {
    hide ValidEvidence, CallsForContinuity, MentionsNewRegister, ContinuityQuery;
  }

  lemma RecordsStep(d: Snapshot, n: nat, env: Environment, cfg: Config)
    requires Usable(cfg) && Underway(d, n, IMAGE_AND_BOUNDARY) && n + 1 < MAX_STEPS && FindsRecords(env)
    ensures var saved := RunSingleStep(d, env, cfg).saved;
            Underway(saved, n + 1, ALL_SIX) && AtMostConversion(d.findings, saved.findings)
  {
    hide HasAnalysis, Marked, RunSingleStep, MentionsDispute, BuildRecordSearchQueries, RegisterRecords,
         ScanFrom, ScanUsable, CallsForContinuity;
    StepIsRecordChecks(d, n, env, cfg);
    var s := Noted(Started(d));
    var title := env.context.title.value;
    var queries := BuildRecordSearchQueries(title, env.context.owner, env.context.county);
    ScanKeepsGood(queries, env, cfg, 0, StartScan(s));
    ScanGoesThrough(queries, env, cfg, 0, StartScan(s));
    var scan := ScanFrom(queries, env, cfg, 0, StartScan(s)).scan;
    FinishedScan(title, env.context.owner, env.context.county, scan);
    var s1 := Noted(s.(actions := scan.actions));
    RecordsRegistered(s1, title, scan, env, cfg);
    RegistrationFindings(s1, title, scan, env, cfg);
  }

  /** With all six checks a step concludes: FLAGGED with a HIGH finding, COMPLETED without. */
  lemma FinishStep(d: Snapshot, n: nat, env: Environment, cfg: Config)
    requires Usable(cfg) && Underway(d, n, ALL_SIX) && n + 1 < MAX_STEPS
    ensures var saved := RunSingleStep(d, env, cfg).saved;
            && saved.status == (if HasHigh(d.findings) then Flagged else Completed)
            && DocumentInvariant(saved) && saved.totalSteps == n + 1
            && saved.evidence.Keys == ALL_SIX && saved.findings == d.findings
  {
    hide HasAnalysis, Marked, RecordChecks, DecideAndAct, VerifyBoundary, IsStuck, OnlySearches, ValidEvidence;
    var s := Started(d);
    GatesReadStage(s);
    var s1 := if env.context.title.Some? then Noted(s) else s;
    assert Consistent(s1);
    DecisionIsForced(s1, env, cfg);
    ConcludingKeeps(Noted(s1));
  }

  // Whole runs.

  function OneTick(owner: string, env: Environment): Request {
    Tick(owner, env, true, true)
  }

  lemma RunCons(stored: Option<Session>, r: Request, rest: seq<Request>, cfg: Config)
    ensures Run(stored, [r] + rest, cfg) == Run(Serve(stored, r, cfg).session, rest, cfg)
  {
    assert ([r] + rest)[1..] == rest;
  }

  lemma RunTick(owner: string, d: Snapshot, env: Environment, rest: seq<Request>, cfg: Config)
    ensures Run(Some(Session(owner, d)), [OneTick(owner, env)] + rest, cfg) ==
            Run(Some(Session(owner, RunSingleStep(d, env, cfg).saved)), rest, cfg)
  {
    hide RunSingleStep;
    RunCons(Some(Session(owner, d)), OneTick(owner, env), rest, cfg);
  }

  lemma NewDocumentIsUnderway(uri: string)
    requires PlainName(uri)
    ensures Underway(NewDocument(uri), 0, {})
  {
    MarkedLines(ReceivedObject(uri));
    hide Marked;
  }

  /** Main result: COMPLETED is reached. Whatever the title and the answers, four ticks that read the
      image, see no discrepancy, find the records without a dispute, and conclude complete a session. */
  lemma GoodAnswersComplete(owner: string, uri: string,
                            e1: Environment, e2: Environment, e3: Environment, e4: Environment, cfg: Config)
    requires Usable(cfg) && PlainName(uri) && ReadsImage(e1) && SeesNoDiscrepancy(e2) && FindsRecords(e3)
    ensures var t1, t2, t3, t4 := OneTick(owner, e1), OneTick(owner, e2), OneTick(owner, e3), OneTick(owner, e4);
            var requests := [t1] + ([t2] + ([t3] + ([t4] + [])));
            var final := Run(Uploaded(owner, uri), requests, cfg);
            final.Some? && final.value.doc.status == Completed && final.value.doc.totalSteps == 4
            && final.value.doc.evidence.Keys == ALL_SIX
  {
    hide RunSingleStep, Underway, FindsRecords, Run;
    NewDocumentIsUnderway(uri);
    var d0 := NewDocument(uri);
    var d1 := RunSingleStep(d0, e1, cfg).saved;
    var d2 := RunSingleStep(d1, e2, cfg).saved;
    var d3 := RunSingleStep(d2, e3, cfg).saved;
    var d4 := RunSingleStep(d3, e4, cfg).saved;
    ImageStep(d0, 0, e1, cfg);
    BoundaryStep(d1, 1, e2, cfg);
    RecordsStep(d2, 2, e3, cfg);
    FinishStep(d3, 3, e4, cfg);
    var t2, t3, t4 := OneTick(owner, e2), OneTick(owner, e3), OneTick(owner, e4);
    RunTick(owner, d0, e1, [t2] + ([t3] + ([t4] + [])), cfg);
    RunTick(owner, d1, e2, [t3] + ([t4] + []), cfg);
    RunTick(owner, d2, e3, [t4] + [], cfg);
    RunTick(owner, d3, e4, [], cfg);
    RunNothing(Some(Session(owner, d4)), cfg);
  }

  lemma RunNothing(stored: Option<Session>, cfg: Config)
    ensures Run(stored, [], cfg) == stored
  {
  }

  // A flagged session that becomes COMPLETED.

  function ZeroDigits(n: nat): (s: string)
    ensures |s| == n && forall i :: 0 <= i < n ==> s[i] == '0'
  {
    if n == 0 then "" else "0" + ZeroDigits(n - 1)
  }

  const DIGEST: Sha256Hex := ZeroDigits(64)
  const TRACE := "trace-01"

  /** Answers in one step: the given image result and the given text to each search. */
  function Answers(image: ImageResult, text: string): Environment {
    Environment(image, CaseContext(Some("C.R. 1"), None, None, Located), BoundaryInspected(TRACE, DIGEST, false),
                [Found(text), Found(text), Found(text), Found(text), Found(text)], Found(text),
                DIGEST, DIGEST, DIGEST, ModelException, Located)
  }

  function Found(text: string): ResearchResult {
    ResearchFound(text, TRACE, DIGEST)
  }

  lemma DigestIsValid()
    ensures IsValidSha256(DIGEST) && IsValidTraceId(TRACE)
  {
    var s := TRACE;
    assert s[0] == 't' && s[|s| - 1] == '1';
    assert LStrip(s) == s && RStrip(s) == s;
  }

  lemma AnswersAreSigned(image: ImageResult, text: string)
    requires image.ImageRead? ==> Signed(image.traceId, image.sha256)
    requires image.ImageError? ==> image.error == ""
    ensures var env := Answers(image, text);
            && Trustworthy(env) && SeesNoDiscrepancy(env) && HasProvenance(env.continuity)
            && forall i :: 0 <= i < 5 ==>
               env.Research(i) == ResearchFound(text, TRACE, DIGEST) && HasProvenance(env.Research(i))
  {
    DigestIsValid();
    hide IsValidSha256, IsValidTraceId;
  }

  lemma DisputeWords()
    ensures MentionsDispute("disputed") && !MentionsDispute("x")
  {
    assert Lower("disputed") == "disputed";
    assert MatchesAt("disputed", "disputed", 0);
    var words := ["disputed", "dispute", "court order", "injunction", "restriction"];
    assert Contains(Lower("disputed"), words[0]);
    assert Lower("x") == "x";
  }

  function Ticks(owner: string, env: Environment, n: nat, rest: seq<Request>): seq<Request> {
    if n == 0 then rest else [OneTick(owner, env)] + Ticks(owner, env, n - 1, rest)
  }

  lemma {:induction false} FailedImages(owner: string, d: Snapshot, n: nat, env: Environment, k: nat,
                                        rest: seq<Request>, cfg: Config)
    returns (d': Snapshot)
    requires Usable(cfg) && Underway(d, n, {}) && n + k < MAX_STEPS && env.image.ImageError? && Trustworthy(env)
    ensures Underway(d', n + k, {}) && d'.findings == d.findings
    ensures Run(Some(Session(owner, d)), Ticks(owner, env, k, rest), cfg) == Run(Some(Session(owner, d')), rest, cfg)
    decreases k
  {
    hide RunSingleStep, Underway, Run;
    d' := d;
    if k > 0 {
      FailedImageStep(d, n, env, cfg);
      RunTick(owner, d, env, Ticks(owner, env, k - 1, rest), cfg);
      d' := FailedImages(owner, RunSingleStep(d, env, cfg).saved, n + 1, env, k - 1, rest, cfg);
    }
  }

  /** Nine failed images, the image, the boundary, a disputed Gazette answer and a retry. */
  function DisputedAndRetried(owner: string, rest: seq<Request>): seq<Request> {
    var calm := [OneTick(owner, Answers(ImageRead(TRACE, DIGEST), "x"))];
    Ticks(owner, Answers(ImageError(""), "x"), 9,
      calm + (calm + ([OneTick(owner, Answers(ImageError(""), "disputed"))] + ([Retry(owner, true)] + rest))))
  }

  lemma RetryAfterDispute(owner: string, d: Snapshot, n: nat, rest: seq<Request>, cfg: Config) returns (d': Snapshot)
    requires d.status == Failed && HasHigh(d.findings) && Underway(d.(status := Running), n, IMAGE_AND_BOUNDARY)
    ensures Underway(d', n, IMAGE_AND_BOUNDARY) && HasHigh(d'.findings)
    ensures Run(Some(Session(owner, d)), [Retry(owner, true)] + rest, cfg) == Run(Some(Session(owner, d')), rest, cfg)
  {
    hide HasAnalysis, Marked, ValidEvidence, HasHigh;
    RunCons(Some(Session(owner, d)), Retry(owner, true), rest, cfg);
    d' := d.(status := Running, retryCount := d.retryCount + 1);
  }

  lemma ConversionKeepsHigh(before: seq<Finding>, after: seq<Finding>)
    requires AtMostConversion(before, after) && HasHigh(before)
    ensures HasHigh(after)
  {
    HighStaysInPrefix(before, after);
  }

  /** The last part of the run: calm records, the conclusion, and the tick that exceeds the budget. */
  lemma FlaggedAtFourteenCompletes(owner: string, d: Snapshot, calm: Environment, cfg: Config)
    requires Usable(cfg) && Underway(d, 12, IMAGE_AND_BOUNDARY) && HasHigh(d.findings) && FindsRecords(calm)
    ensures var tick := [OneTick(owner, calm)];
            var flagged := Run(Some(Session(owner, d)), tick + (tick + []), cfg);
            var final := Run(Some(Session(owner, d)), tick + (tick + (tick + [])), cfg);
            && flagged.Some? && flagged.value.doc.status == Flagged && flagged.value.doc.totalSteps == 14
            && HasHigh(flagged.value.doc.findings)
            && final.Some? && final.value.doc.status == Completed && final.value.doc.findings == [AutoConcluded]
  {
    hide RunSingleStep, Underway, Run, HasHigh, FindsRecords;
    var d1 := RunSingleStep(d, calm, cfg).saved;
    var d2 := RunSingleStep(d1, calm, cfg).saved;
    var d3 := RunSingleStep(d2, calm, cfg).saved;
    RecordsStep(d, 12, calm, cfg);
    ConversionKeepsHigh(d.findings, d1.findings);
    FinishStep(d1, 13, calm, cfg);
    FlaggedSurvivesTickExactlyUpToStep13(d2, calm, cfg);
    var tick := [OneTick(owner, calm)];
    RunTick(owner, d, calm, tick + [], cfg);
    RunTick(owner, d1, calm, [], cfg);
    RunNothing(Some(Session(owner, d2)), cfg);
    RunTick(owner, d, calm, tick + (tick + []), cfg);
    RunTick(owner, d1, calm, tick + [], cfg);
    RunTick(owner, d2, calm, [], cfg);
    RunNothing(Some(Session(owner, d3)), cfg);
  }

  lemma DisputeIsRetried(owner: string, uri: string, rest: seq<Request>, cfg: Config) returns (d: Snapshot)
    requires Usable(cfg) && PlainName(uri)
    ensures Underway(d, 12, IMAGE_AND_BOUNDARY) && HasHigh(d.findings)
    ensures Run(Uploaded(owner, uri), DisputedAndRetried(owner, rest), cfg) == Run(Some(Session(owner, d)), rest, cfg)
  {
    hide HasAnalysis, Marked;
    DigestIsValid();
    DisputeWords();
    var failing, calm := Answers(ImageError(""), "x"), Answers(ImageRead(TRACE, DIGEST), "x");
    var disputed := Answers(ImageError(""), "disputed");
    AnswersAreSigned(ImageRead(TRACE, DIGEST), "x");
    AnswersAreSigned(ImageError(""), "disputed");
    assert ReadsImage(calm) && FindsDispute(disputed);
    AnswersAreSigned(ImageError(""), "x");
    NewDocumentIsUnderway(uri);
    hide RunSingleStep, Underway, Run, HasHigh, FindsDispute, ReadsImage, SeesNoDiscrepancy, Answers, Trustworthy;
    var tick := [OneTick(owner, calm)];
    var r4 := [Retry(owner, true)] + rest;
    var r3 := [OneTick(owner, disputed)] + r4;
    var d0 := FailedImages(owner, NewDocument(uri), 0, failing, 9, tick + (tick + r3), cfg);
    var d1 := RunSingleStep(d0, calm, cfg).saved;
    var d2 := RunSingleStep(d1, calm, cfg).saved;
    var d3 := RunSingleStep(d2, disputed, cfg).saved;
    ImageStep(d0, 9, calm, cfg);
    RunTick(owner, d0, calm, tick + r3, cfg);
    BoundaryStep(d1, 10, calm, cfg);
    RunTick(owner, d1, calm, r3, cfg);
    DisputeStep(d2, 11, disputed, cfg);
    RunTick(owner, d2, disputed, r4, cfg);
    d := RetryAfterDispute(owner, d3, 12, rest, cfg);
  }

  /** A session with a legal dispute on record can end COMPLETED with that finding erased: this run
      of an uploaded document is FLAGGED at step 14 with a HIGH finding, and the next tick
      overwrites both. */
  lemma DisputeCanBeErased(owner: string, uri: string, cfg: Config)
    requires Usable(cfg) && PlainName(uri)
    ensures var tick := [OneTick(owner, Answers(ImageRead(TRACE, DIGEST), "x"))];
            var flagged := Run(Uploaded(owner, uri), DisputedAndRetried(owner, tick + (tick + [])), cfg);
            var final := Run(Uploaded(owner, uri), DisputedAndRetried(owner, tick + (tick + (tick + []))), cfg);
            && flagged.Some? && flagged.value.doc.status == Flagged && flagged.value.doc.totalSteps == 14
            && HasHigh(flagged.value.doc.findings)
            && final.Some? && final.value.doc.status == Completed && final.value.doc.findings == [AutoConcluded]
  {
    DigestIsValid();
    DisputeWords();
    AnswersAreSigned(ImageRead(TRACE, DIGEST), "x");
    var calm := Answers(ImageRead(TRACE, DIGEST), "x");
    assert FindsRecords(calm);
    hide Underway, Run, HasHigh, FindsRecords, Answers, DisputedAndRetried;
    var tick := [OneTick(owner, calm)];
    var d := DisputeIsRetried(owner, uri, tick + (tick + []), cfg);
    FlaggedAtFourteenCompletes(owner, d, calm, cfg);
    var d' := DisputeIsRetried(owner, uri, tick + (tick + (tick + [])), cfg);
    FlaggedAtFourteenCompletes(owner, d', calm, cfg);
  }
}
