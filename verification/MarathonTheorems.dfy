/** What every run of a session that starts with a document keeps. */
module MarathonTheorems {
  import opened Options
  import opened Text
  import opened RecordQueries
  import opened MarathonState
  import opened MarathonStep
  import opened SessionService

  // The five evidence sets a stored session can hold.

  const IMAGE_ONLY: set<Check> := {ImageAnalyzed}
  const IMAGE_AND_BOUNDARY: set<Check> := {ImageAnalyzed, PhysicalBoundaryVerified}
  const ALL_BUT_HISTORICAL: set<Check> :=
    {ImageAnalyzed, PhysicalBoundaryVerified, TitleSearched, AdditionalRecordsChecked, ZoningChecked}
  const ALL_SIX: set<Check> := ALL_BUT_HISTORICAL + {HistoricalChainChecked}

  predicate IsStage(checks: set<Check>) {
    || checks == {}
    || checks == IMAGE_ONLY
    || checks == IMAGE_AND_BOUNDARY
    || checks == ALL_BUT_HISTORICAL
    || checks == ALL_SIX
  }

  /** The three stages from the boundary check on. */
  predicate IsBehindBoundary(checks: set<Check>) {
    checks == IMAGE_AND_BOUNDARY || checks == ALL_BUT_HISTORICAL || checks == ALL_SIX
  }

  predicate OnlySearches(actions: seq<Action>) {
    forall i :: 0 <= i < |actions| ==> actions[i].tool == GoogleSearch
  }

  /** Successful tool calls carry a valid trace id and hash, as the tools construct them. */
  predicate Signed(traceId: string, sha256: string) {
    IsValidTraceId(traceId) && IsValidSha256(sha256)
  }

  predicate ResearchSigned(r: ResearchResult) {
    r.ResearchFound? ==> Signed(r.traceId, r.sha256)
  }

  /** Successful results are signed, and the text of a vision error does not look like an analysis. */
  predicate Trustworthy(env: Environment) {
    && (env.image.ImageRead? ==> Signed(env.image.traceId, env.image.sha256))
    && (env.image.ImageError? ==> !Contains(env.image.error, IMAGE_MARKER))
    && (env.boundary.BoundaryInspected? ==> Signed(env.boundary.traceId, env.boundary.sha256))
    && (forall i :: 0 <= i < |env.research| ==> ResearchSigned(env.research[i]))
    && ResearchSigned(env.continuity)
  }

  predicate RequestTrusted(r: Request) {
    !r.Retry? ==> Trustworthy(r.env)
  }

  predicate AllTrusted(requests: seq<Request>) {
    forall i :: 0 <= i < |requests| ==> RequestTrusted(requests[i])
  }

  /** What holds of the state throughout a step. */
  ghost predicate Consistent(d: Snapshot) {
    && d.hasDocument
    && IsStage(d.evidence.Keys)
    && (HasAnalysis(d.memory) <==> ImageAnalyzed in d.evidence)
    && d.checklist - {LocationChecked} == d.evidence.Keys
    && (forall c :: c in d.evidence ==> ValidEvidence(d.evidence[c]))
    && OnlySearches(d.actions)
    && (AdditionalRecordsChecked in d.evidence ==> |d.actions| >= 5)
  }

  /** What holds of every stored state of a document session. */
  ghost predicate DocumentInvariant(d: Snapshot) {
    Consistent(d) && (d.status == Completed ==> d.evidence.Keys == ALL_SIX)
  }

  /** The name of the stored object is not empty and does not look like an image analysis. */
  predicate PlainName(uri: string) {
    uri != "" && !Contains(uri, IMAGE_MARKER)
  }

  // The record searches of Step 5.

  predicate ScanGood(queries: seq<string>, i: nat, scan: Scan) {
    && i <= |queries|
    && |scan.entries| == i
    && |scan.traces| == i
    && |scan.actions| >= i
    && OnlySearches(scan.actions)
    && (forall k :: 0 <= k < i ==> IsValidTraceId(scan.traces[k]))
    && (scan.zoning.Some? ==> ValidEvidence(scan.zoning.value))
    && (forall k :: 0 <= k < i && IsZoningQuery(queries[k]) ==> scan.zoning.Some?)
  }

  ghost predicate EntriesQuote(queries: seq<string>, scan: Scan) {
    && |scan.entries| <= |queries|
    && forall k :: 0 <= k < |scan.entries| ==> Quotes(scan.entries[k], queries[k])
  }

  ghost predicate Quotes(entry: string, query: string) {
    exists traceId, text :: entry == ResultEntry(query, traceId, text)
  }

  lemma {:induction false} ScanKeepsGood(queries: seq<string>, env: Environment, cfg: Config, i: nat, acc: Scan)
    requires Trustworthy(env) && ScanGood(queries, i, acc) && EntriesQuote(queries, acc)
    ensures match ScanFrom(queries, env, cfg, i, acc)
            case Scanned(scan) => ScanGood(queries, |queries|, scan) && EntriesQuote(queries, scan)
            case Aborted(actions) => OnlySearches(actions)
            case Disputed(actions) => OnlySearches(actions)
    decreases |queries| - i
  {
    if i < |queries| && HasProvenance(env.Research(i)) {
      var result := env.Research(i);
      var next := Scanning(queries[i], result, cfg, acc);
      assert Quotes(next.entries[i], queries[i]) by {
        assert next.entries[i] == ResultEntry(queries[i], result.traceId, result.text);
      }
      ScanKeepsGood(queries, env, cfg, i + 1, next);
    }
  }

  predicate ScanUsable(scan: Scan) {
    && scan.zoning.Some? && ValidEvidence(scan.zoning.value)
    && IsValidTraceId(Join(scan.traces, "|"))
    && CallsForContinuity(Join(scan.entries, "\n"))
  }

  /** A finished scan over the mandatory queries has zoning evidence, a usable joined trace, and a
      transcript that calls for the continuity search. */
  lemma FinishedScan(title: string, owner: Option<string>, county: Option<string>, scan: Scan)
    requires var queries := BuildRecordSearchQueries(title, owner, county);
             ScanGood(queries, 5, scan) && EntriesQuote(queries, scan)
    ensures ScanUsable(scan)
  {
    var queries := BuildRecordSearchQueries(title, owner, county);
    QueriesCoverMandatoryTopics(title, owner, county);
    JoinStartsWithFirst(scan.traces, "|");
    assert Quotes(scan.entries[2], queries[2]);
    var traceId, text :| scan.entries[2] == ResultEntry(queries[2], traceId, text);
    TranscriptCallsForContinuity(scan.entries, 2, queries[2], traceId, text);
  }

  /** Once all queries are answered, the step registers everything but the historical chain, and
      the historical chain exactly when the extra continuity search succeeds. */
  lemma RecordsRegistered(s: Snapshot, title: string, scan: Scan, env: Environment, cfg: Config)
    requires Trustworthy(env) && ScanUsable(scan)
    requires Consistent(s) && s.evidence.Keys == IMAGE_AND_BOUNDARY && |s.actions| >= 5
    ensures var outcome := RegisterRecords(s, title, scan, env, cfg);
            && outcome.Proceed?
            && Consistent(outcome.state)
            && outcome.state.evidence.Keys == (if HasProvenance(env.continuity) then ALL_SIX else ALL_BUT_HISTORICAL)
            && outcome.state.status == s.status
  {
    hide HasAnalysis, Marked, CallsForContinuity, Join, CheckContinuity, IsValidTraceId, IsValidSha256;
    var trace := Join(scan.traces, "|");
    var s1 := WithEvidence(s, TitleSearched, Evidence(GeminiGoogleSearch, trace, env.titleDigest)).value;
    var s2 := WithEvidence(s1, AdditionalRecordsChecked, Evidence(GeminiGoogleSearch, trace, env.recordsDigest)).value;
    var s3 := WithEvidence(s2, ZoningChecked, scan.zoning.value).value;
    assert s3.evidence.Keys == ALL_BUT_HISTORICAL;
    assert Consistent(s3);
    ContinuityChecked(s3, title, scan, env, cfg);
  }

  lemma OneMoreSearch(actions: seq<Action>, inputHash: string)
    requires OnlySearches(actions)
    ensures OnlySearches(actions + [Action(GoogleSearch, inputHash)])
  {
  }

  lemma ContinuityChecked(s: Snapshot, title: string, scan: Scan, env: Environment, cfg: Config)
    requires Trustworthy(env) && ScanUsable(scan)
    requires Consistent(s) && s.evidence.Keys == ALL_BUT_HISTORICAL
    ensures var outcome := CheckContinuity(s, title, scan, env, cfg);
            && outcome.Proceed?
            && Consistent(outcome.state)
            && outcome.state.evidence.Keys == (if HasProvenance(env.continuity) then ALL_SIX else ALL_BUT_HISTORICAL)
            && outcome.state.status == s.status
  {
    hide HasAnalysis, Marked, OnlySearches, IsValidTraceId, IsValidSha256,
         CallsForContinuity, Join, MentionsNewRegister;
    if HasProvenance(env.continuity) {
      OneMoreSearch(s.actions, cfg.inputHash(ContinuityQuery(title)));
      var s1 := Noted(s).(actions := s.actions + [Action(GoogleSearch, cfg.inputHash(ContinuityQuery(title)))]);
      var e := Evidence(GeminiGoogleSearch, env.continuity.traceId, env.continuity.sha256);
      var s2 := WithEvidence(s1, HistoricalChainChecked, e).value;
      assert s2.evidence.Keys == ALL_SIX;
      assert Consistent(s2);
    }
  }

  /** A run of Step 5 that ends without an exception leaves one of three evidence sets. */
  lemma RecordChecksKeepConsistent(s: Snapshot, env: Environment, cfg: Config)
    requires Trustworthy(env) && Consistent(s) && s.evidence.Keys == IMAGE_AND_BOUNDARY
    ensures match RecordChecks(s, env, cfg)
            case Proceed(s') =>
              && Consistent(s') && s'.status == s.status
              && IsBehindBoundary(s'.evidence.Keys)
            case Return(s', status, _) =>
              Consistent(s') && s'.evidence.Keys == IMAGE_AND_BOUNDARY && s'.status == status == Failed
            case SourceFailure(s') => s' == s
            case Failure(_) => false
  {
    hide HasAnalysis, Marked;
    if env.context.title.Some? {
      var title := env.context.title.value;
      var queries := BuildRecordSearchQueries(title, env.context.owner, env.context.county);
      RecordQueriesKeepConsistent(s, title, queries, env, cfg);
    }
  }

  lemma RecordQueriesKeepConsistent(s: Snapshot, title: string, queries: seq<string>, env: Environment, cfg: Config)
    requires Trustworthy(env) && Consistent(s) && s.evidence.Keys == IMAGE_AND_BOUNDARY
    requires queries == BuildRecordSearchQueries(title, env.context.owner, env.context.county)
    ensures match RunRecordQueries(s, title, queries, env, cfg)
            case Proceed(s') =>
              && Consistent(s') && s'.status == s.status
              && IsBehindBoundary(s'.evidence.Keys)
            case Return(s', status, _) =>
              Consistent(s') && s'.evidence.Keys == IMAGE_AND_BOUNDARY && s'.status == status == Failed
            case SourceFailure(_) => false
            case Failure(_) => false
  {
    hide HasAnalysis, Marked, IsStage, ValidEvidence, HasProvenance,
         RegisterRecords, ScanUsable, BuildRecordSearchQueries;
    ScanKeepsGood(queries, env, cfg, 0, StartScan(s));
    var outcome := ScanFrom(queries, env, cfg, 0, StartScan(s));
    hide ScanFrom;
    if outcome.Scanned? {
      FinishedScan(title, env.context.owner, env.context.county, outcome.scan);
      RecordsRegistered(Noted(s.(actions := outcome.scan.actions)), title, outcome.scan, env, cfg);
    }
  }

  /** With Step 5 behind it, a document session is stuck by definition, so the decision is forced:
      finish when all six checks are recorded, wait for the user otherwise. */
  lemma DecisionIsForced(s: Snapshot, env: Environment, cfg: Config)
    requires Consistent(s) && AdditionalRecordsChecked in s.evidence
    ensures IsStuck(s)
    ensures var decided := Noted(s);
            DecideAndAct(s, env, cfg) ==
            if s.evidence.Keys == ALL_SIX
            then Return(Concluded(decided).(retryCount := 0), Concluded(decided).status, cfg.stepDelaySeconds)
            else
              var waiting := Noted(decided.(status := WaitingForUser, retryCount := 0));
              Return(waiting, WaitingForUser, cfg.stepDelaySeconds)
  {
    hide HasAnalysis, Marked;
    assert RecordChecksComplete(s) <==> s.evidence.Keys == ALL_SIX;
  }

  /** The stages a step may lead to. */
  predicate StageFollows(before: set<Check>, after: set<Check>) {
    && before <= after
    && (before == ALL_BUT_HISTORICAL ==> after == before)
  }

  /** The checklist gates see exactly which stage the evidence is in. */
  lemma GatesReadStage(s: Snapshot)
    requires Consistent(s)
    ensures ImageAnalyzed in s.checklist && PhysicalBoundaryVerified !in s.checklist <==> s.evidence.Keys == IMAGE_ONLY
    ensures PhysicalBoundaryVerified in s.checklist && AdditionalRecordsChecked !in s.checklist <==>
            s.evidence.Keys == IMAGE_AND_BOUNDARY
    ensures AdditionalRecordsChecked in s.checklist <==>
            s.evidence.Keys == ALL_BUT_HISTORICAL || s.evidence.Keys == ALL_SIX
    ensures HasAnalysis(s.memory) <==> s.evidence.Keys != {}
  {
    hide HasAnalysis, Marked;
    assert forall c :: c != LocationChecked ==> (c in s.checklist <==> c in s.checklist - {LocationChecked});
  }

  lemma PhasesKeepInvariant(s: Snapshot, env: Environment, cfg: Config)
    requires cfg.imageAnalysisEnabled && Trustworthy(env) && Consistent(s) && s.status != Completed
    ensures var r := Settle(RunPhases(s, env, cfg), cfg);
            DocumentInvariant(r.saved) && StageFollows(s.evidence.Keys, r.saved.evidence.Keys)
  {
    hide HasAnalysis, Marked, RecordChecks, DecideAndAct, VerifyBoundary, AnalyzeDocument, Trustworthy, IsStage;
    if AwaitsAnalysis(s, cfg) {
      AnalysisKeepsInvariant(s, env, cfg);
    } else {
      var s1 := if env.context.title.Some? then Noted(s) else s;
      assert Consistent(s1);
      hide Consistent, DocumentInvariant;
      GatesReadStage(s1);
      if s1.evidence.Keys == IMAGE_ONLY {
        BoundaryKeepsInvariant(s1, env, cfg);
      } else if s1.evidence.Keys == IMAGE_AND_BOUNDARY {
        RecordsKeepInvariant(s1, env, cfg);
      } else {
        ForcedDecisionKeepsInvariant(s1, env, cfg);
      }
    }
  }

  lemma RecordsKeepInvariant(s: Snapshot, env: Environment, cfg: Config)
    requires Trustworthy(env) && Consistent(s) && s.status != Completed && s.evidence.Keys == IMAGE_AND_BOUNDARY
    ensures match RecordChecks(s, env, cfg)
            case Proceed(s') => DocumentInvariant(s') && IMAGE_AND_BOUNDARY <= s'.evidence.Keys
            case outcome =>
              var r := Settle(outcome, cfg);
              DocumentInvariant(r.saved) && IMAGE_AND_BOUNDARY <= r.saved.evidence.Keys
  {
    hide RecordChecks, Trustworthy;
    RecordChecksKeepConsistent(s, env, cfg);
  }

  lemma ForcedDecisionKeepsInvariant(s: Snapshot, env: Environment, cfg: Config)
    requires Consistent(s) && s.status != Completed && AdditionalRecordsChecked in s.checklist
    ensures var outcome := DecideAndAct(s, env, cfg);
            && !outcome.Proceed?
            && var r := Settle(outcome, cfg);
               DocumentInvariant(r.saved) && s.evidence.Keys == r.saved.evidence.Keys
  {
    hide HasAnalysis, Marked, DecideAndAct, IsStuck, OnlySearches;
    GatesReadStage(s);
    DecisionIsForced(s, env, cfg);
    ConcludingKeeps(Noted(s));
  }

  lemma ConcludingKeeps(s: Snapshot)
    requires Consistent(s)
    ensures var d := Concluded(s).(retryCount := 0);
            Consistent(d) && d.evidence == s.evidence
    ensures var d := Noted(s.(status := WaitingForUser, retryCount := 0));
            Consistent(d) && d.evidence == s.evidence
  {
    hide HasAnalysis, Marked, OnlySearches, IsStage, ValidEvidence;
  }

  lemma AnalysisKeepsInvariant(s: Snapshot, env: Environment, cfg: Config)
    requires Trustworthy(env) && Consistent(s) && s.status != Completed && !HasAnalysis(s.memory)
    ensures var outcome := AnalyzeDocument(s, env);
            && !outcome.Proceed?
            && DocumentInvariant(Settle(outcome, cfg).saved)
    ensures s.evidence.Keys == {}
  {
    hide Marked, HasAnalysis, Contains;
    assert s.evidence.Keys == {};
    if env.image.ImageError? { MarkedLines(ImageFailure(env.image.error)); }
    MarkedLines(ImageAnalysis);
    if env.image.ImageRead? {
      var s1 := Remembered(s, ImageAnalysis);
      var s2 := WithEvidence(s1, ImageAnalyzed, Evidence(GeminiVision, env.image.traceId, env.image.sha256)).value;
      assert s2.evidence.Keys == IMAGE_ONLY;
      assert Consistent(s2);
    }
  }

  lemma BoundaryKeepsInvariant(s: Snapshot, env: Environment, cfg: Config)
    requires Trustworthy(env) && Consistent(s) && s.status != Completed && s.evidence.Keys == IMAGE_ONLY
    ensures var outcome := VerifyBoundary(s, env);
            && !outcome.Proceed?
            && var r := Settle(outcome, cfg);
               DocumentInvariant(r.saved) && IMAGE_ONLY <= r.saved.evidence.Keys
  {
    hide HasAnalysis, Marked;
    if env.context.coordinates.Located? && env.boundary.BoundaryInspected? {
      var s1 := Noted(s).(checklist := s.checklist + {LocationChecked});
      var e := Evidence(GeminiVision, env.boundary.traceId, env.boundary.sha256);
      var s2 := WithEvidence(s1, PhysicalBoundaryVerified, e).value;
      assert s2.evidence.Keys == IMAGE_AND_BOUNDARY;
      assert Consistent(s2);
    }
  }

  /** Every step keeps the invariant and moves between the stages in one direction only. */
  lemma StepKeepsInvariant(d: Snapshot, env: Environment, cfg: Config)
    requires cfg.imageAnalysisEnabled && Trustworthy(env) && DocumentInvariant(d)
    ensures var r := RunSingleStep(d, env, cfg);
            DocumentInvariant(r.saved) && StageFollows(d.evidence.Keys, r.saved.evidence.Keys)
  {
    hide HasAnalysis, Marked;
    var s := Started(d);
    assert Consistent(s);
    if s.totalSteps >= MAX_STEPS {
      assert BudgetChecksComplete(s) <==> s.evidence.Keys == ALL_SIX;
    } else if !HasEnded(s.status) && s.emptyResponses < cfg.emptyResponseMaxRetries {
      PhasesKeepInvariant(s, env, cfg);
    }
  }

  ghost predicate SessionInvariant(stored: Option<Session>) {
    stored.Some? && DocumentInvariant(stored.value.doc)
  }

  lemma ServeKeepsInvariant(stored: Option<Session>, r: Request, cfg: Config)
    requires cfg.imageAnalysisEnabled && RequestTrusted(r) && SessionInvariant(stored)
    ensures var next := Serve(stored, r, cfg).session;
            SessionInvariant(next) && next.Some? && stored.Some? &&
            StageFollows(stored.value.doc.evidence.Keys, next.value.doc.evidence.Keys)
  {
    hide HasAnalysis, Marked, DocumentInvariant, RunSingleStep, Trustworthy, StageFollows;
    var d := stored.value.doc;
    if r.Retry? {
      ReopeningKeepsInvariant(d, Running, d.retryCount + 1);
    } else {
      StepKeepsInvariant(d, r.env, cfg);
      ReopeningKeepsInvariant(d, Failed, d.retryCount);
      var saved := RunSingleStep(d, r.env, cfg).saved;
      ReopeningKeepsInvariant(saved, Failed, saved.retryCount);
    }
  }

  lemma ReopeningKeepsInvariant(d: Snapshot, status: AgentStatus, retryCount: nat)
    requires DocumentInvariant(d) && status != Completed
    ensures DocumentInvariant(d.(status := status, retryCount := retryCount))
    ensures StageFollows(d.evidence.Keys, d.evidence.Keys)
    ensures d.(status := status) == d.(status := status, retryCount := d.retryCount)
  {
    hide HasAnalysis, Marked;
  }

  lemma {:induction false} RunKeepsInvariant(stored: Option<Session>, requests: seq<Request>, cfg: Config)
    requires cfg.imageAnalysisEnabled && AllTrusted(requests) && SessionInvariant(stored)
    ensures var final := Run(stored, requests, cfg);
            && SessionInvariant(final) && final.Some? && stored.Some?
            && StageFollows(stored.value.doc.evidence.Keys, final.value.doc.evidence.Keys)
    decreases |requests|
  {
    assert stored.Some?;
    hide Serve, SessionInvariant, RequestTrusted;
    if requests != [] {
      assert RequestTrusted(requests[0]);
      ServeKeepsInvariant(stored, requests[0], cfg);
      assert AllTrusted(requests[1..]);
      RunKeepsInvariant(Serve(stored, requests[0], cfg).session, requests[1..], cfg);
    }
  }

  function Uploaded(owner: string, uri: string): Option<Session> {
    Some(Session(owner, NewDocument(uri)))
  }

  lemma UploadIsConsistent(owner: string, uri: string)
    requires PlainName(uri)
    ensures SessionInvariant(Uploaded(owner, uri))
  {
    MarkedLines(ReceivedObject(uri));
    hide Marked;
  }

  /** Main result: whatever sequence of bootstraps, ticks and retries is served, a document session
      that is COMPLETED holds valid evidence for all six mandatory checks. */
  lemma CompletedHasAllEvidence(owner: string, uri: string, requests: seq<Request>, cfg: Config, check: Check)
    requires cfg.imageAnalysisEnabled && PlainName(uri) && AllTrusted(requests) && check in ALL_SIX
    requires Run(Uploaded(owner, uri), requests, cfg).Some?
    requires Run(Uploaded(owner, uri), requests, cfg).value.doc.status == Completed
    ensures var d := Run(Uploaded(owner, uri), requests, cfg).value.doc;
            check in d.evidence && ValidEvidence(d.evidence[check])
  {
    hide Run;
    UploadIsConsistent(owner, uri);
    RunKeepsInvariant(Uploaded(owner, uri), requests, cfg);
  }

  /** Every stored state holds exactly one of five evidence sets, and every true checklist item
      other than location_checked has a valid record. */
  lemma EvidenceIsStaged(owner: string, uri: string, requests: seq<Request>, cfg: Config)
    requires cfg.imageAnalysisEnabled && PlainName(uri) && AllTrusted(requests)
    ensures var final := Run(Uploaded(owner, uri), requests, cfg);
            && final.Some?
            && IsStage(final.value.doc.evidence.Keys)
            && forall c :: c in final.value.doc.checklist && c != LocationChecked ==>
                 c in final.value.doc.evidence && ValidEvidence(final.value.doc.evidence[c])
  {
    hide Run;
    UploadIsConsistent(owner, uri);
    RunKeepsInvariant(Uploaded(owner, uri), requests, cfg);
  }

  lemma {:induction false} SameScan(queries: seq<string>, env: Environment, reply: ModelReply, cfg: Config,
                                    i: nat, acc: Scan)
    requires i <= |queries|
    ensures ScanFrom(queries, env, cfg, i, acc) == ScanFrom(queries, env.(reply := reply), cfg, i, acc)
    decreases |queries| - i
  {
    if i < |queries| && HasProvenance(env.Research(i)) {
      SameScan(queries, env, reply, cfg, i + 1, Scanning(queries[i], env.Research(i), cfg, acc));
    }
  }

  lemma SameRegistration(s: Snapshot, title: string, scan: Scan, env: Environment, reply: ModelReply, cfg: Config)
    ensures RegisterRecords(s, title, scan, env, cfg) == RegisterRecords(s, title, scan, env.(reply := reply), cfg)
  {
    hide ValidEvidence, CallsForContinuity, Join, WithConversionRisk;
  }

  lemma SameRecordQueries(s: Snapshot, title: string, queries: seq<string>, env: Environment, reply: ModelReply,
                          cfg: Config)
    ensures RunRecordQueries(s, title, queries, env, cfg) ==
            RunRecordQueries(s, title, queries, env.(reply := reply), cfg)
  {
    SameScan(queries, env, reply, cfg, 0, StartScan(s));
    var outcome := ScanFrom(queries, env, cfg, 0, StartScan(s));
    if outcome.Scanned? {
      SameRegistration(Noted(s.(actions := outcome.scan.actions)), title, outcome.scan, env, reply, cfg);
    }
    hide ScanFrom, RegisterRecords;
  }

  lemma SameRecordChecks(s: Snapshot, env: Environment, reply: ModelReply, cfg: Config)
    ensures RecordChecks(s, env, cfg) == RecordChecks(s, env.(reply := reply), cfg)
  {
    if env.context.title.Some? {
      var queries := BuildRecordSearchQueries(env.context.title.value, env.context.owner, env.context.county);
      SameRecordQueries(s, env.context.title.value, queries, env, reply, cfg);
    }
  }

  /** The model's free decision never matters to a document session: a step from any reachable
      state is the same whatever the model would have answered. */
  lemma ModelIsNeverConsulted(owner: string, uri: string, requests: seq<Request>, env: Environment, reply: ModelReply,
                              cfg: Config)
    requires cfg.imageAnalysisEnabled && PlainName(uri) && AllTrusted(requests)
    ensures var final := Run(Uploaded(owner, uri), requests, cfg);
            && final.Some?
            && RunSingleStep(final.value.doc, env, cfg) == RunSingleStep(final.value.doc, env.(reply := reply), cfg)
  {
    hide Run, RunSingleStep, Consistent;
    UploadIsConsistent(owner, uri);
    RunKeepsInvariant(Uploaded(owner, uri), requests, cfg);
    StepIgnoresModel(Run(Uploaded(owner, uri), requests, cfg).value.doc, env, reply, cfg);
  }

  lemma StepIgnoresModel(d: Snapshot, env: Environment, reply: ModelReply, cfg: Config)
    requires cfg.imageAnalysisEnabled && DocumentInvariant(d)
    ensures RunSingleStep(d, env, cfg) == RunSingleStep(d, env.(reply := reply), cfg)
  {
    hide HasAnalysis, Marked, RecordChecks, DecideAndAct;
    var env' := env.(reply := reply);
    var s := Started(d);
    if s.totalSteps < MAX_STEPS && !HasEnded(s.status) &&
       s.emptyResponses < cfg.emptyResponseMaxRetries && !AwaitsAnalysis(s, cfg)
    {
      var s1 := if env.context.title.Some? then Noted(s) else s;
      if AdditionalRecordsChecked in s1.evidence {
        DecisionIsForced(s1, env, cfg);
        DecisionIsForced(s1, env', cfg);
      } else {
        SameRecordChecks(s1, env, reply, cfg);
      }
    }
  }
}
