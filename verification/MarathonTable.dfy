/** What each step stores, stated on the stored fields alone: one lemma for each way a step can go. */
module MarathonTable {
  import opened Options
  import opened Text
  import opened RecordQueries
  import opened MarathonState
  import opened MarathonStep
  import opened SessionService
  import opened MarathonTheorems
  import opened MarathonBudget
  import opened MarathonRuns

  /** The step goes on to the phases. */
  predicate Proceeds(d: Snapshot, cfg: Config) {
    && d.status !in {Completed, Flagged, Failed}
    && d.totalSteps <= 13 && d.emptyResponses < cfg.emptyResponseMaxRetries
  }

  /** The status a step works with. */
  function Awake(status: AgentStatus): AgentStatus {
    if status == Queued || status == Idle then Running else status
  }

  /** One more step is counted; evidence, findings, actions and document are as before. */
  predicate OnlyCounted(d: Snapshot, saved: Snapshot) {
    && saved.totalSteps == d.totalSteps + 1
    && saved.evidence == d.evidence && saved.findings == d.findings && saved.actions == d.actions
    && saved.hasDocument == d.hasDocument
  }

  predicate Provenance(traceId: string, sha256: string) {
    traceId != "" && sha256 != ""
  }

  // Steps that do not reach the phases.

  /** From step 14 on the budget decides: COMPLETED with the five checks on record, and WAITING_FOR_USER
      otherwise, whatever the status was. */
  lemma BudgetDecides(d: Snapshot, env: Environment, cfg: Config)
    requires d.totalSteps >= 14
    ensures var r := RunSingleStep(d, env, cfg);
            var complete := forall check ::
              check in {ImageAnalyzed, PhysicalBoundaryVerified, AdditionalRecordsChecked, ZoningChecked,
                        HistoricalChainChecked} ==>
                check in d.evidence && Provenance(d.evidence[check].traceId, d.evidence[check].sha256);
            && r.saved.status == r.status == (if complete then Completed else WaitingForUser)
            && r.saved.findings == (if complete then [AutoConcluded] else d.findings)
            && r.saved.evidence == d.evidence && r.saved.actions == d.actions && r.saved.checklist == d.checklist
            && r.saved.totalSteps == d.totalSteps + 1 && r.nextTick == 0
  {
    hide RunPhases, HasAnalysis, Marked;
    var five := {ImageAnalyzed, PhysicalBoundaryVerified, AdditionalRecordsChecked, ZoningChecked,
                 HistoricalChainChecked};
    assert BudgetChecksComplete(Started(d)) <==>
      forall check :: check in five ==> HasVerifiedCheck(Started(d), check);
  }

  /** An ended session is returned as it is. */
  lemma EndedStaysAsItIs(d: Snapshot, env: Environment, cfg: Config)
    requires d.totalSteps <= 13 && d.status in {Completed, Flagged, Failed}
    ensures RunSingleStep(d, env, cfg) == StepResult(d, d.status, 0)
  {
    hide RunPhases;
  }

  lemma SilenceWaits(d: Snapshot, env: Environment, cfg: Config)
    requires d.totalSteps <= 13 && d.status !in {Completed, Flagged, Failed}
    requires d.emptyResponses >= cfg.emptyResponseMaxRetries
    ensures var r := RunSingleStep(d, env, cfg);
            && r.saved.status == r.status == WaitingForUser && r.nextTick == 0
            && OnlyCounted(d, r.saved) && r.saved.checklist == d.checklist
  {
    hide RunPhases;
  }

  // The image.

  predicate AtImage(d: Snapshot, cfg: Config) {
    Proceeds(d, cfg) && cfg.imageAnalysisEnabled && StillToAnalyze(d)
  }

  lemma ImageDecides(d: Snapshot, env: Environment, cfg: Config)
    requires AtImage(d, cfg)
    ensures var r := RunSingleStep(d, env, cfg);
            match env.image
            case SourceInaccessible =>
              && OnlyCounted(d, r.saved) && r.saved.status == r.status == Failed && r.saved.checklist == d.checklist
              && !HasAnalysis(r.saved.memory) && r.nextTick == 0
            case ImageError(error) =>
              && OnlyCounted(d, r.saved) && r.saved.status == r.status == Running && r.nextTick == 1
              && r.saved.checklist == d.checklist - {ImageAnalyzed}
              && r.saved.memory == d.memory + [ImageFailure(error)]
            case ImageRead(traceId, sha256) =>
              && HasAnalysis(r.saved.memory)
              && (if !Provenance(traceId, sha256) then
                    && OnlyCounted(d, r.saved) && r.saved.status == r.status == Running && r.nextTick == 1
                    && r.saved.checklist == d.checklist
                  else Signed(traceId, sha256) ==>
                    && OnlyCounted(d, r.saved.(evidence := d.evidence))
                    && r.saved.evidence == d.evidence[ImageAnalyzed := Evidence(GeminiVision, traceId, sha256)]
                    && r.saved.status == r.status == Running && r.nextTick == 1
                    && r.saved.checklist == d.checklist + {ImageAnalyzed})
  {
    hide HasAnalysis, Marked, IsValidTraceId, IsValidSha256;
    MarkedLines(ImageAnalysis);
    MarkedLines(Note);
  }

  // An exception.

  /** What an exception in a phase leaves: one more retry, FAILED beyond the limit. */
  predicate Raised(d: Snapshot, r: StepResult, cfg: Config) {
    && OnlyCounted(d, r.saved)
    && r.saved.retryCount == d.retryCount + 1
    && r.saved.status == r.status == (if d.retryCount + 1 > cfg.maxRetries then Failed else Awake(d.status))
    && r.nextTick == 5
  }

  lemma BadImageSignatureRaises(d: Snapshot, env: Environment, cfg: Config)
    requires AtImage(d, cfg) && env.image.ImageRead?
    requires Provenance(env.image.traceId, env.image.sha256) && !Signed(env.image.traceId, env.image.sha256)
    ensures Raised(d, RunSingleStep(d, env, cfg), cfg)
  {
    hide HasAnalysis, Marked, IsValidTraceId, IsValidSha256;
  }

  // The boundary.

  predicate AtBoundary(d: Snapshot, cfg: Config) {
    && Proceeds(d, cfg) && !(cfg.imageAnalysisEnabled && StillToAnalyze(d))
    && ImageAnalyzed in d.checklist && PhysicalBoundaryVerified !in d.checklist
  }

  lemma StepIsBoundary(d: Snapshot, env: Environment, cfg: Config)
    requires AtBoundary(d, cfg)
    ensures var s := if env.context.title.Some? then Noted(Started(d)) else Started(d);
            var outcome := VerifyBoundary(s, env);
            !outcome.Proceed? && RunSingleStep(d, env, cfg) == Settle(outcome, cfg)
  {
    hide HasAnalysis, Marked, DecideAndAct, RecordChecks;
  }

  /** Main result of the boundary phase: with a signed view of the parcel a step flags the session,
      with the finding and no further tick, if and only if the discrepancy is HIGH; either way the
      view is recorded as evidence. */
  lemma BoundaryDecides(d: Snapshot, env: Environment, cfg: Config)
    requires AtBoundary(d, cfg) && env.context.coordinates.Located?
    requires env.boundary.BoundaryInspected? && Signed(env.boundary.traceId, env.boundary.sha256)
    ensures var r := RunSingleStep(d, env, cfg);
            var e := Evidence(GeminiVision, env.boundary.traceId, env.boundary.sha256);
            && r.saved.evidence == d.evidence[PhysicalBoundaryVerified := e]
            && r.saved.checklist == d.checklist + {LocationChecked, PhysicalBoundaryVerified}
            && r.saved.totalSteps == d.totalSteps + 1 && r.saved.actions == d.actions
            && (if env.boundary.highDiscrepancy
                then r.saved.status == r.status == Flagged && r.nextTick == 0 &&
                     r.saved.findings == d.findings + [BoundaryDiscrepancy]
                else r.saved.status == Awake(d.status) && r.status == Running && r.nextTick == 1 &&
                     r.saved.findings == d.findings)
  {
    SignedIsPresent(env.boundary.traceId, env.boundary.sha256);
    StepIsBoundary(d, env, cfg);
    hide HasAnalysis, Marked, IsValidTraceId, IsValidSha256, RunSingleStep;
  }

  lemma BoundaryWithoutView(d: Snapshot, env: Environment, cfg: Config)
    requires AtBoundary(d, cfg)
    requires !env.context.coordinates.Located? || !env.boundary.BoundaryInspected? ||
             !Signed(env.boundary.traceId, env.boundary.sha256)
    ensures var r := RunSingleStep(d, env, cfg);
            if !env.context.coordinates.Located? then
              && OnlyCounted(d, r.saved) && r.saved.checklist == d.checklist
              && r.saved.status == r.status == WaitingForUser && r.nextTick == 0
            else if env.boundary.BoundaryRaised? then Raised(d, r, cfg) && r.saved.checklist == d.checklist
            else
              && r.saved.checklist == d.checklist + {LocationChecked}
              && (if env.boundary.BoundaryInspected? && Provenance(env.boundary.traceId, env.boundary.sha256)
                  then Raised(d, r, cfg)
                  else
                    && OnlyCounted(d, r.saved) && r.saved.status == Awake(d.status)
                    && r.status == Running && r.nextTick == 1)
  {
    StepIsBoundary(d, env, cfg);
    hide HasAnalysis, Marked, IsValidTraceId, IsValidSha256, RunSingleStep;
  }

  /** The boundary phase is reached with the image as only evidence. */
  lemma ImageOnlyIsAtBoundary(d: Snapshot, cfg: Config)
    requires Consistent(d) && d.evidence.Keys == IMAGE_ONLY && Proceeds(d, cfg)
    ensures AtBoundary(d, cfg)
  {
    hide HasAnalysis, Marked, IsStage, OnlySearches, ValidEvidence;
    GatesReadStage(d);
  }

  /** For a session on the way with the image as only evidence: FLAGGED with the finding exactly on a
      HIGH discrepancy, RUNNING with the findings as they were otherwise. */
  lemma ImageOnlyFlagsExactlyOnHigh(d: Snapshot, n: nat, env: Environment, cfg: Config)
    requires Usable(cfg) && Underway(d, n, IMAGE_ONLY) && n + 1 < MAX_STEPS
    requires env.context.coordinates.Located? && env.boundary.BoundaryInspected?
    requires Signed(env.boundary.traceId, env.boundary.sha256)
    ensures var saved := RunSingleStep(d, env, cfg).saved;
            && saved.evidence.Keys == IMAGE_AND_BOUNDARY
            && (saved.status == Flagged && saved.findings == d.findings + [BoundaryDiscrepancy] <==>
                  env.boundary.highDiscrepancy)
            && (saved.status == Running && saved.findings == d.findings <==> !env.boundary.highDiscrepancy)
  {
    hide Consistent, RunSingleStep, HasAnalysis, Marked;
    ImageOnlyIsAtBoundary(d, cfg);
    BoundaryDecides(d, env, cfg);
  }

  /** Main result: over every run of every upload, a session whose boundary step has seen a HIGH
      discrepancy is not COMPLETED in any later state that was stored below the step budget. */
  lemma HighDiscrepancyIsNeverCompleted(owner: string, uri: string, before: seq<Request>, env: Environment,
                                        audited: bool, after: seq<Request>, cfg: Config)
    requires var d := Run(Uploaded(owner, uri), before, cfg);
             d.Some? && d.value.owner == owner && AtBoundary(d.value.doc, cfg)
    requires env.context.coordinates.Located? && env.boundary.BoundaryInspected? && env.boundary.highDiscrepancy
    requires Signed(env.boundary.traceId, env.boundary.sha256)
    ensures var d := Run(Uploaded(owner, uri), before, cfg);
            var final := Run(d, [Tick(owner, env, true, audited)] + after, cfg);
            final.Some? && (final.value.doc.totalSteps < MAX_STEPS ==> final.value.doc.status != Completed)
  {
    hide Run, RunSingleStep, HasAnalysis, Marked;
    var session := Run(Uploaded(owner, uri), before, cfg).value;
    BoundaryDecides(session.doc, env, cfg);
    var saved := RunSingleStep(session.doc, env, cfg).saved;
    RunCons(Some(session), Tick(owner, env, true, audited), after, cfg);
    assert IsHigh(saved.findings[|session.doc.findings|]) && HasHigh(saved.findings);
    RunIsLater(session.(doc := saved), after, cfg);
    var final := Run(Some(session.(doc := saved)), after, cfg).value;
    if final.doc.totalSteps < MAX_STEPS {
      HighStaysInPrefix(saved.findings, final.doc.findings);
    }
  }

  // The records.

  predicate AtRecords(d: Snapshot, cfg: Config) {
    && Proceeds(d, cfg) && !(cfg.imageAnalysisEnabled && StillToAnalyze(d))
    && PhysicalBoundaryVerified in d.checklist && AdditionalRecordsChecked !in d.checklist
  }

  function QueriesOf(context: CaseContext): seq<string>
    requires context.title.Some?
  {
    BuildRecordSearchQueries(context.title.value, context.owner, context.county)
  }

  /** A search is answered and not in dispute. */
  predicate Calm(query: string, found: ResearchResult) {
    HasProvenance(found) && !(IsGazetteQuery(query) && MentionsDispute(found.text))
  }

  predicate CalmUpTo(queries: seq<string>, env: Environment, n: nat)
    requires n <= |queries|
  {
    forall k: nat :: k < n ==> Calm(queries[k], env.Research(k))
  }

  /** The recorded actions of the first `n` searches. */
  function Searches(queries: seq<string>, n: nat, cfg: Config): seq<Action>
    requires n <= |queries|
  {
    if n == 0 then [] else Searches(queries, n - 1, cfg) + [Action(GoogleSearch, cfg.inputHash(queries[n - 1]))]
  }

  function Traces(env: Environment, n: nat): seq<string> {
    if n == 0 then []
    else Traces(env, n - 1) + [if env.Research(n - 1).ResearchFound? then env.Research(n - 1).traceId else ""]
  }

  /** The evidence of the last zoning query among the first `n`. */
  function LastZoning(queries: seq<string>, env: Environment, n: nat): Option<Evidence>
    requires n <= |queries|
  {
    if n == 0 then None
    else if IsZoningQuery(queries[n - 1]) && env.Research(n - 1).ResearchFound? then
      Some(Evidence(GeminiGoogleSearch, env.Research(n - 1).traceId, env.Research(n - 1).sha256))
    else LastZoning(queries, env, n - 1)
  }

  predicate SomeConversion(env: Environment, n: nat) {
    exists i: nat :: i < n && env.Research(i).ResearchFound? && MentionsConversion(env.Research(i).text)
  }

  /** The scan holds what the first `n` answers say. */
  ghost predicate Tells(scan: Scan, actions: seq<Action>, queries: seq<string>, env: Environment, cfg: Config, n: nat)
    requires n <= |queries|
  {
    && scan.actions == actions + Searches(queries, n, cfg)
    && scan.traces == Traces(env, n)
    && scan.zoning == LastZoning(queries, env, n)
    && (scan.conversionRisk <==> SomeConversion(env, n))
  }

  lemma TellsOneMore(scan: Scan, actions: seq<Action>, queries: seq<string>, env: Environment, cfg: Config, n: nat)
    requires n < |queries| && HasProvenance(env.Research(n)) && Tells(scan, actions, queries, env, cfg, n)
    ensures Tells(Scanning(queries[n], env.Research(n), cfg, scan), actions, queries, env, cfg, n + 1)
  {
    hide MentionsConversion, IsZoningQuery;
  }

  /** The scan over `n` calm answers, up to a missing answer, a dispute, or the end. */
  lemma {:induction false} ScanTells(queries: seq<string>, env: Environment, cfg: Config, i: nat, n: nat, acc: Scan,
                                     actions: seq<Action>)
    requires i <= n <= |queries| && Tells(acc, actions, queries, env, cfg, i)
    requires CalmUpTo(queries, env, n)
    ensures var outcome := ScanFrom(queries, env, cfg, i, acc);
            if n == |queries| then outcome.Scanned? && Tells(outcome.scan, actions, queries, env, cfg, n)
            else if !HasProvenance(env.Research(n)) then outcome == Aborted(actions + Searches(queries, n, cfg))
            else Calm(queries[n], env.Research(n)) || outcome == Disputed(actions + Searches(queries, n + 1, cfg))
    decreases n - i
  {
    hide MentionsDispute, MentionsConversion, IsGazetteQuery, IsZoningQuery, Tells;
    if i < n {
      TellsOneMore(acc, actions, queries, env, cfg, i);
      ScanTells(queries, env, cfg, i + 1, n, Scanning(queries[i], env.Research(i), cfg, acc), actions);
    } else {
      TellsActions(acc, actions, queries, env, cfg, i);
    }
  }

  lemma TellsActions(scan: Scan, actions: seq<Action>, queries: seq<string>, env: Environment, cfg: Config, n: nat)
    requires n <= |queries| && Tells(scan, actions, queries, env, cfg, n)
    ensures scan.actions == actions + Searches(queries, n, cfg)
    ensures n < |queries| ==>
              scan.actions + [Action(GoogleSearch, cfg.inputHash(queries[n]))] ==
              actions + Searches(queries, n + 1, cfg)
  {
  }

  lemma StepIsRecords(d: Snapshot, env: Environment, cfg: Config)
    requires AtRecords(d, cfg)
    ensures var s := if env.context.title.Some? then Noted(Started(d)) else Started(d);
            RunSingleStep(d, env, cfg) ==
            match RecordChecks(s, env, cfg)
            case Proceed(s') => StepResult(s', Running, 1)
            case outcome => Settle(outcome, cfg)
  {
    hide HasAnalysis, Marked, DecideAndAct, VerifyBoundary, RecordChecks;
  }

  /** Step 5 that is cut short: without a title the session fails; a search without an answer leaves
      its predecessors in the history and nothing else; a disputed Gazette answer fails the session
      with its finding. */
  lemma RecordsCutShort(d: Snapshot, env: Environment, cfg: Config, n: nat)
    requires AtRecords(d, cfg) && n < 5
    requires env.context.title.Some? ==>
               && CalmUpTo(QueriesOf(env.context), env, n)
               && !Calm(QueriesOf(env.context)[n], env.Research(n))
    ensures var r := RunSingleStep(d, env, cfg);
            && r.saved.totalSteps == d.totalSteps + 1
            && r.saved.evidence == d.evidence && r.saved.checklist == d.checklist
            && r.nextTick == (if env.context.title.Some? && !HasProvenance(env.Research(n)) then 1 else 0)
            && (if env.context.title.None? then
                  r.saved.status == r.status == Failed && r.saved.findings == d.findings && r.saved.actions == d.actions
                else if !HasProvenance(env.Research(n)) then
                  && r.saved.status == Awake(d.status) && r.status == Running && r.saved.findings == d.findings
                  && r.saved.actions == d.actions + Searches(QueriesOf(env.context), n, cfg)
                else
                  && r.saved.status == r.status == Failed && r.saved.findings == d.findings + [LegalDispute]
                  && r.saved.actions == d.actions + Searches(QueriesOf(env.context), n + 1, cfg))
  {
    hide HasAnalysis, Marked, RunSingleStep, RecordChecks, Calm, CalmUpTo, HasProvenance, BuildRecordSearchQueries;
    StepIsRecords(d, env, cfg);
    if env.context.title.Some? {
      RecordChecksCutShort(Noted(Started(d)), env, cfg, n);
    } else {
      WithoutTitle(Started(d), env, cfg);
    }
  }

  lemma WithoutTitle(s: Snapshot, env: Environment, cfg: Config)
    requires env.context.title.None?
    ensures RecordChecks(s, env, cfg) == SourceFailure(s)
  {
  }

  lemma RecordChecksCutShort(s: Snapshot, env: Environment, cfg: Config, n: nat)
    requires n < 5 && env.context.title.Some?
    requires CalmUpTo(QueriesOf(env.context), env, n) && !Calm(QueriesOf(env.context)[n], env.Research(n))
    ensures var queries := QueriesOf(env.context);
            RecordChecks(s, env, cfg) ==
            if !HasProvenance(env.Research(n)) then Proceed(Noted(s.(actions := s.actions + Searches(queries, n, cfg))))
            else
              var s' := s.(actions := s.actions + Searches(queries, n + 1, cfg));
              Return(Noted(s'.(status := Failed, findings := s.findings + [LegalDispute])), Failed, 0)
  {
    hide HasAnalysis, Marked, Calm, CalmUpTo, HasProvenance, BuildRecordSearchQueries, RegisterRecords, ScanFrom;
    var queries := QueriesOf(env.context);
    assert Tells(StartScan(s), s.actions, queries, env, cfg, 0);
    ScanTells(queries, env, cfg, 0, n, StartScan(s), s.actions);
    hide Tells, Searches;
  }

  /** What a finished Step 5 registers, with the continuity search answered. */
  predicate FullRecords(d: Snapshot, saved: Snapshot, env: Environment, cfg: Config)
    requires env.context.title.Some? && env.continuity.ResearchFound?
  {
    var queries := QueriesOf(env.context);
    var trace := Join(Traces(env, 5), "|");
    var continuity := Action(GoogleSearch, cfg.inputHash(ContinuityQuery(env.context.title.value)));
    && saved.actions == d.actions + Searches(queries, 5, cfg) + [continuity]
    && LastZoning(queries, env, 5).Some?
    && saved.evidence == d.evidence
         [TitleSearched := Evidence(GeminiGoogleSearch, trace, env.titleDigest)]
         [AdditionalRecordsChecked := Evidence(GeminiGoogleSearch, trace, env.recordsDigest)]
         [ZoningChecked := LastZoning(queries, env, 5).value]
         [HistoricalChainChecked := Evidence(GeminiGoogleSearch, env.continuity.traceId, env.continuity.sha256)]
    && saved.checklist == d.checklist + {TitleSearched, AdditionalRecordsChecked, ZoningChecked, HistoricalChainChecked}
    && saved.findings == d.findings +
         (if SomeConversion(env, 5) && !MentionsNewRegister(env.continuity.text) then [ConversionUnverified] else [])
  }

  /** What it registers when the continuity search is not answered: everything but the chain. */
  predicate RecordsWithoutChain(d: Snapshot, saved: Snapshot, env: Environment, cfg: Config)
    requires env.context.title.Some?
  {
    var queries := QueriesOf(env.context);
    var trace := Join(Traces(env, 5), "|");
    && saved.actions == d.actions + Searches(queries, 5, cfg)
    && LastZoning(queries, env, 5).Some?
    && saved.evidence == d.evidence
         [TitleSearched := Evidence(GeminiGoogleSearch, trace, env.titleDigest)]
         [AdditionalRecordsChecked := Evidence(GeminiGoogleSearch, trace, env.recordsDigest)]
         [ZoningChecked := LastZoning(queries, env, 5).value]
    && saved.checklist == d.checklist + {TitleSearched, AdditionalRecordsChecked, ZoningChecked}
    && saved.findings == d.findings
  }

  lemma RegisteredFully(s: Snapshot, scan: Scan, env: Environment, cfg: Config)
    requires env.context.title.Some? && Trustworthy(env) && ScanUsable(scan) && HasProvenance(env.continuity)
    requires Tells(scan, s.actions, QueriesOf(env.context), env, cfg, 5)
    ensures var outcome := RegisterRecords(Noted(s.(actions := scan.actions)), env.context.title.value, scan, env, cfg);
            && outcome.Proceed? && FullRecords(s, outcome.state, env, cfg)
            && outcome.state.status == s.status && outcome.state.totalSteps == s.totalSteps
  {
    hide HasAnalysis, Marked, IsValidTraceId, IsValidSha256, CallsForContinuity, Join, MentionsNewRegister,
         MentionsConversion, BuildRecordSearchQueries, Searches, Traces, LastZoning, SomeConversion, ContinuityQuery;
  }

  lemma RegisteredWithoutChain(s: Snapshot, scan: Scan, env: Environment, cfg: Config)
    requires env.context.title.Some? && Trustworthy(env) && ScanUsable(scan) && !HasProvenance(env.continuity)
    requires Tells(scan, s.actions, QueriesOf(env.context), env, cfg, 5)
    ensures var outcome := RegisterRecords(Noted(s.(actions := scan.actions)), env.context.title.value, scan, env, cfg);
            && outcome.Proceed? && RecordsWithoutChain(s, outcome.state, env, cfg)
            && outcome.state.status == s.status && outcome.state.totalSteps == s.totalSteps
  {
    hide HasAnalysis, Marked, IsValidTraceId, IsValidSha256, CallsForContinuity, Join, MentionsNewRegister,
         MentionsConversion, BuildRecordSearchQueries, Searches, Traces, LastZoning, SomeConversion, ContinuityQuery;
  }

  /** Main result of Step 5: with all five searches calm, the four record checks are registered with
      the traces and digests of their own searches, the searches are in the history in order, and an
      unverified conversion is a finding exactly if an answer mentions one and the continuity answer
      does not mention the new register. */
  lemma RecordsDecide(d: Snapshot, env: Environment, cfg: Config)
    requires AtRecords(d, cfg) && OnlySearches(d.actions) && env.context.title.Some? && Trustworthy(env)
    requires CalmUpTo(QueriesOf(env.context), env, 5)
    ensures var r := RunSingleStep(d, env, cfg);
            && r.status == Running && r.nextTick == 1
            && r.saved.status == Awake(d.status) && r.saved.totalSteps == d.totalSteps + 1
            && (if HasProvenance(env.continuity) then FullRecords(d, r.saved, env, cfg)
                else RecordsWithoutChain(d, r.saved, env, cfg))
  {
    hide HasAnalysis, Marked, RunSingleStep, RecordChecks, CalmUpTo, FullRecords, RecordsWithoutChain, Trustworthy,
         OnlySearches, BuildRecordSearchQueries;
    StepIsRecords(d, env, cfg);
    var s := Noted(Started(d));
    RecordChecksRegister(s, env, cfg);
    SameFields(d, s, RunSingleStep(d, env, cfg).saved, env, cfg);
  }

  lemma RecordChecksRegister(s: Snapshot, env: Environment, cfg: Config)
    requires OnlySearches(s.actions) && env.context.title.Some? && Trustworthy(env)
    requires CalmUpTo(QueriesOf(env.context), env, 5)
    ensures var outcome := RecordChecks(s, env, cfg);
            && outcome.Proceed? && outcome.state.status == s.status && outcome.state.totalSteps == s.totalSteps
            && (if HasProvenance(env.continuity) then FullRecords(s, outcome.state, env, cfg)
                else RecordsWithoutChain(s, outcome.state, env, cfg))
  {
    hide HasAnalysis, Marked, BuildRecordSearchQueries, RegisterRecords, ScanFrom, FullRecords, RecordsWithoutChain,
         CalmUpTo, Trustworthy, OnlySearches, ScanUsable, HasProvenance;
    var queries := QueriesOf(env.context);
    ScanOfSearches(s, env, cfg);
    hide Tells;
    var scan := ScanFrom(queries, env, cfg, 0, StartScan(s)).scan;
    if HasProvenance(env.continuity) {
      RegisteredFully(s, scan, env, cfg);
    } else {
      RegisteredWithoutChain(s, scan, env, cfg);
    }
  }

  lemma ScanOfSearches(s: Snapshot, env: Environment, cfg: Config)
    requires OnlySearches(s.actions) && env.context.title.Some? && Trustworthy(env)
    requires CalmUpTo(QueriesOf(env.context), env, 5)
    ensures var queries := QueriesOf(env.context);
            var outcome := ScanFrom(queries, env, cfg, 0, StartScan(s));
            && outcome.Scanned? && ScanUsable(outcome.scan) && Tells(outcome.scan, s.actions, queries, env, cfg, 5)
  {
    hide ScanFrom, CalmUpTo, Trustworthy, ScanUsable, BuildRecordSearchQueries;
    var queries := QueriesOf(env.context);
    assert Tells(StartScan(s), s.actions, queries, env, cfg, 0);
    ScanKeepsGood(queries, env, cfg, 0, StartScan(s));
    ScanTells(queries, env, cfg, 0, 5, StartScan(s), s.actions);
    hide Tells;
    var scan := ScanFrom(queries, env, cfg, 0, StartScan(s)).scan;
    FinishedScan(env.context.title.value, env.context.owner, env.context.county, scan);
  }

  lemma SameFields(d: Snapshot, s: Snapshot, saved: Snapshot, env: Environment, cfg: Config)
    requires env.context.title.Some?
    requires s.actions == d.actions && s.evidence == d.evidence
    requires s.checklist == d.checklist && s.findings == d.findings
    ensures env.continuity.ResearchFound? ==> (FullRecords(s, saved, env, cfg) <==> FullRecords(d, saved, env, cfg))
    ensures RecordsWithoutChain(s, saved, env, cfg) <==> RecordsWithoutChain(d, saved, env, cfg)
  {
  }

  // The counters.

  predicate CountersStay(s: Snapshot, outcome: Outcome) {
    && outcome.state.retryCount == s.retryCount && outcome.state.emptyResponses == s.emptyResponses
    && (outcome.Return? ==> outcome.nextTick != 5)
  }

  lemma RegistrationCountersStay(s: Snapshot, title: string, scan: Scan, env: Environment, cfg: Config)
    ensures CountersStay(s, RegisterRecords(s, title, scan, env, cfg))
  {
    hide HasAnalysis, Marked, ValidEvidence, CallsForContinuity, MentionsNewRegister, ContinuityQuery;
  }

  lemma RecordCountersStay(s: Snapshot, env: Environment, cfg: Config)
    ensures CountersStay(s, RecordChecks(s, env, cfg))
  {
    hide HasAnalysis, Marked, RegisterRecords, ScanFrom, BuildRecordSearchQueries;
    forall s', title, scan
      ensures CountersStay(s', RegisterRecords(s', title, scan, env, cfg))
    {
      RegistrationCountersStay(s', title, scan, env, cfg);
    }
  }

  lemma ViewCountersStay(s: Snapshot, env: Environment)
    ensures CountersStay(s, AnalyzeDocument(s, env)) && CountersStay(s, VerifyBoundary(s, env))
  {
    hide HasAnalysis, Marked, ValidEvidence;
  }

  /** Of all ends of the image, boundary and record phases only an exception counts a retry, and none
      touches the count of unparsed replies. */
  lemma OnlyExceptionsCountRetries(d: Snapshot, env: Environment, cfg: Config)
    requires AtImage(d, cfg) || AtBoundary(d, cfg) || AtRecords(d, cfg)
    ensures var r := RunSingleStep(d, env, cfg);
            && r.saved.emptyResponses == d.emptyResponses
            && r.saved.retryCount == d.retryCount + (if r.nextTick == 5 then 1 else 0)
  {
    hide HasAnalysis, Marked, RecordChecks, DecideAndAct, AnalyzeDocument, VerifyBoundary;
    var s := if env.context.title.Some? then Noted(Started(d)) else Started(d);
    ViewCountersStay(Started(d), env);
    ViewCountersStay(s, env);
    RecordCountersStay(s, env, cfg);
  }

  // The conclusion.

  /** Behind the records the step waits for the user without the historical chain. */
  lemma WithoutChainWaits(d: Snapshot, env: Environment, cfg: Config)
    requires cfg.imageAnalysisEnabled && Consistent(d) && Proceeds(d, cfg) && d.evidence.Keys == ALL_BUT_HISTORICAL
    ensures var r := RunSingleStep(d, env, cfg);
            && r.saved.status == r.status == WaitingForUser && r.nextTick == cfg.stepDelaySeconds
            && OnlyCounted(d, r.saved) && r.saved.checklist == d.checklist && r.saved.retryCount == 0
  {
    hide HasAnalysis, Marked, RecordChecks, DecideAndAct, VerifyBoundary, IsStuck, OnlySearches, ValidEvidence;
    var s := Started(d);
    GatesReadStage(s);
    var s1 := if env.context.title.Some? then Noted(s) else s;
    assert Consistent(s1);
    DecisionIsForced(s1, env, cfg);
  }

  // The free decision, for sessions that the phases do not hold back.

  predicate AtDecision(d: Snapshot, cfg: Config) {
    && Proceeds(d, cfg) && !(cfg.imageAnalysisEnabled && StillToAnalyze(d))
    && !(ImageAnalyzed in d.checklist && PhysicalBoundaryVerified !in d.checklist)
    && !(PhysicalBoundaryVerified in d.checklist && AdditionalRecordsChecked !in d.checklist)
  }

  /** The last three actions used one tool. */
  predicate Repeats(actions: seq<Action>) {
    |actions| >= 3 && forall i, j :: |actions| - 3 <= i < j < |actions| ==> actions[i].tool == actions[j].tool
  }

  lemma RepeatsIsStuck(s: Snapshot)
    ensures IsStuck(s) <==> Repeats(s.actions)
  {
  }

  lemma StepIsDecision(d: Snapshot, env: Environment, cfg: Config)
    requires AtDecision(d, cfg)
    ensures var s := if env.context.title.Some? then Noted(Started(d)) else Started(d);
            var outcome := DecideAndAct(s, env, cfg);
            !outcome.Proceed? && RunSingleStep(d, env, cfg) == Settle(outcome, cfg)
  {
    hide HasAnalysis, Marked, VerifyBoundary, RecordChecks;
    hide DecideAndAct;
    var s := if env.context.title.Some? then Noted(Started(d)) else Started(d);
    DecisionNeverProceeds(s, env, cfg);
  }

  lemma DecisionNeverProceeds(s: Snapshot, env: Environment, cfg: Config)
    ensures !DecideAndAct(s, env, cfg).Proceed?
  {
    hide ExecuteTool, GenerateDecision;
  }

  /** A decision that was made is carried out, and then the retries are forgotten. */
  lemma DecisionIsCarriedOut(s: Snapshot, decision: Decision, env: Environment, cfg: Config)
    requires !Repeats(s.actions) && env.reply == Parsed(decision)
    ensures DecideAndAct(s, env, cfg) ==
            match ExecuteTool(Noted(s.(emptyResponses := 0)), decision, env, cfg)
            case Proceed(s1) =>
              Return(s1.(retryCount := 0), s1.status,
                     if decision.requiresSleep then decision.sleepMinutes * 60 else cfg.stepDelaySeconds)
            case outcome => outcome
  {
    RepeatsIsStuck(s);
    hide IsStuck, Repeats, RecordChecksComplete, ExecuteTool;
  }

  /** A session that repeats itself finishes with the five record checks and waits without them. */
  lemma RepeatingDecides(d: Snapshot, env: Environment, cfg: Config)
    requires AtDecision(d, cfg) && Repeats(d.actions)
    ensures var r := RunSingleStep(d, env, cfg);
            var complete := forall check ::
              check in {TitleSearched, PhysicalBoundaryVerified, AdditionalRecordsChecked, ZoningChecked,
                        HistoricalChainChecked} ==>
                check in d.evidence && Provenance(d.evidence[check].traceId, d.evidence[check].sha256);
            && OnlyCounted(d, r.saved) && r.saved.retryCount == 0 && r.saved.checklist == d.checklist
            && r.saved.emptyResponses == d.emptyResponses && r.nextTick == cfg.stepDelaySeconds
            && r.saved.status == r.status ==
               (if !complete then WaitingForUser else if HasHigh(d.findings) then Flagged else Completed)
  {
    hide HasAnalysis, Marked, RunSingleStep, DecideAndAct, Repeats, RecordChecksComplete;
    StepIsDecision(d, env, cfg);
    var s := if env.context.title.Some? then Noted(Started(d)) else Started(d);
    RepeatingIsForced(s, env, cfg);
    CompleteMeansAll(s);
  }

  lemma RepeatingIsForced(s: Snapshot, env: Environment, cfg: Config)
    requires Repeats(s.actions)
    ensures DecideAndAct(s, env, cfg) ==
            var decided := Noted(Noted(s)).(retryCount := 0);
            var status :=
              if !RecordChecksComplete(s) then WaitingForUser
              else if s.status == Flagged || HasHigh(s.findings) then Flagged else Completed;
            Return(decided.(status := status), status, cfg.stepDelaySeconds)
  {
    RepeatsIsStuck(s);
    hide HasAnalysis, Marked, IsStuck, Repeats, RecordChecksComplete, SearchTool, SatelliteTool;
  }

  lemma CompleteMeansAll(s: Snapshot)
    ensures RecordChecksComplete(s) <==>
            forall check ::
              check in {TitleSearched, PhysicalBoundaryVerified, AdditionalRecordsChecked, ZoningChecked,
                        HistoricalChainChecked} ==>
                check in s.evidence && Provenance(s.evidence[check].traceId, s.evidence[check].sha256)
  {
  }

  /** A model that does not decide costs a retry, FAILED at the limit; an unparsed reply is counted. */
  lemma NoDecisionRetries(d: Snapshot, env: Environment, cfg: Config)
    requires AtDecision(d, cfg) && !Repeats(d.actions) && !env.reply.Parsed?
    ensures var r := RunSingleStep(d, env, cfg);
            && OnlyCounted(d, r.saved) && r.saved.checklist == d.checklist && r.saved.retryCount == d.retryCount + 1
            && r.saved.emptyResponses == d.emptyResponses + (if env.reply.Unparsed? then 1 else 0)
            && r.saved.status == r.status == (if d.retryCount + 1 >= cfg.maxRetries then Failed else Awake(d.status))
            && r.nextTick == (if r.status == Running then 2 else 0)
  {
    StepIsDecision(d, env, cfg);
    hide HasAnalysis, Marked, RunSingleStep, ExecuteTool;
    var s := if env.context.title.Some? then Noted(Started(d)) else Started(d);
    RepeatsIsStuck(s);
    hide IsStuck, Repeats, RecordChecksComplete;
  }

  /** After a decision that was carried out. */
  predicate CarriedOut(d: Snapshot, r: StepResult, decision: Decision, cfg: Config) {
    && r.saved.totalSteps == d.totalSteps + 1 && r.saved.retryCount == 0 && r.saved.emptyResponses == 0
    && r.status == r.saved.status
    && r.nextTick == (if decision.requiresSleep then decision.sleepMinutes * 60 else cfg.stepDelaySeconds)
  }

  /** What the tools do that end, wait, fail, or leave everything as it was. */
  lemma PlainToolsDecide(d: Snapshot, env: Environment, cfg: Config, decision: Decision)
    requires AtDecision(d, cfg) && !Repeats(d.actions) && env.reply == Parsed(decision)
    requires decision.tool in {AnalyzeImage, FinishAudit, WaitUser, EscalateError, UnknownTool}
    ensures var r := RunSingleStep(d, env, cfg);
            && OnlyCounted(d, r.saved) && r.saved.checklist == d.checklist
            && (if decision.tool == AnalyzeImage && d.hasDocument && env.image.SourceInaccessible?
                then
                  && r.saved.status == r.status == Failed && r.nextTick == 0
                  && r.saved.retryCount == d.retryCount && r.saved.emptyResponses == 0
                else
                  && CarriedOut(d, r, decision, cfg)
                  && r.saved.status ==
                     match decision.tool
                     case FinishAudit => if HasHigh(d.findings) then Flagged else Completed
                     case WaitUser => WaitingForUser
                     case EscalateError => Failed
                     case _ => Awake(d.status))
  {
    hide HasAnalysis, Marked, RunSingleStep, SearchTool, SatelliteTool, DecideAndAct, Repeats;
    StepIsDecision(d, env, cfg);
    var s := if env.context.title.Some? then Noted(Started(d)) else Started(d);
    DecisionIsCarriedOut(s, decision, env, cfg);
  }

  /** Each of the four words makes a search one about the title, in any surroundings and in any case. */
  lemma TitleWordsAreSeen(before: string, word: string, after: string)
    requires Lower(word) in ["title", "owner", "gazette", "land"]
    ensures SearchesForTitle(before + word + after)
  {
    hide ContainsAny, Lower;
    var words := ["title", "owner", "gazette", "land"];
    var k :| 0 <= k < |words| && words[k] == Lower(word);
    WordIsSeen(before, word, after, words, k);
  }

  /** The same search among the last five actions. */
  predicate SearchedLately(actions: seq<Action>, inputHash: string) {
    exists i :: 0 <= i < |actions| && i >= |actions| - 5 && actions[i] == Action(GoogleSearch, inputHash)
  }

  lemma LatelyIsPerformed(s: Snapshot, inputHash: string)
    ensures HasPerformedAction(s, GoogleSearch, inputHash) <==> SearchedLately(s.actions, inputHash)
  {
    var from := if |s.actions| > 5 then |s.actions| - 5 else 0;
    var recent := s.actions[from..];
    if SearchedLately(s.actions, inputHash) {
      var i :| 0 <= i < |s.actions| && i >= |s.actions| - 5 && s.actions[i] == Action(GoogleSearch, inputHash);
      assert recent[i - from] == s.actions[i];
    }
    if Action(GoogleSearch, inputHash) in recent {
      var i :| 0 <= i < |recent| && recent[i] == Action(GoogleSearch, inputHash);
      assert s.actions[from + i] == recent[i];
    }
  }

  /** The search tool: a repeated search is skipped; otherwise it enters the history, and registers the
      title exactly if the input is about it and the answer is signed. An answer whose signature is
      rejected enters nothing. */
  lemma SearchDecides(d: Snapshot, env: Environment, cfg: Config, decision: Decision)
    requires AtDecision(d, cfg) && !Repeats(d.actions) && env.reply == Parsed(decision) && decision.tool == GoogleSearch
    ensures var r := RunSingleStep(d, env, cfg);
            var inputHash := cfg.inputHash(decision.toolInput);
            var found := env.Research(0);
            && r.saved.totalSteps == d.totalSteps + 1 && r.saved.findings == d.findings
            && r.saved.status == Awake(d.status)
            && (if SearchedLately(d.actions, inputHash) then
                  && OnlyCounted(d, r.saved) && r.saved.checklist == d.checklist && r.saved.retryCount == d.retryCount
                  && r.saved.emptyResponses == 0 && r.status == Running && r.nextTick == 1
                else if !(SearchesForTitle(decision.toolInput) && HasProvenance(found)) then
                  && CarriedOut(d, r, decision, cfg)
                  && r.saved.evidence == d.evidence && r.saved.checklist == d.checklist
                  && r.saved.actions == d.actions + [Action(GoogleSearch, inputHash)]
                else
                  && CarriedOut(d, r, decision, cfg)
                  && (if Signed(found.traceId, found.sha256)
                      then
                        && r.saved.evidence ==
                           d.evidence[TitleSearched := Evidence(GeminiGoogleSearch, found.traceId, found.sha256)]
                        && r.saved.checklist == d.checklist + {TitleSearched}
                        && r.saved.actions == d.actions + [Action(GoogleSearch, inputHash)]
                      else OnlyCounted(d, r.saved) && r.saved.checklist == d.checklist))
  {
    hide HasAnalysis, Marked, RunSingleStep, SatelliteTool, SearchTool, DecideAndAct, Repeats, IsValidTraceId,
         IsValidSha256, SearchesForTitle, SearchedLately;
    StepIsDecision(d, env, cfg);
    var s := if env.context.title.Some? then Noted(Started(d)) else Started(d);
    DecisionIsCarriedOut(s, decision, env, cfg);
    SearchToolDecides(Noted(s.(emptyResponses := 0)), decision.toolInput, env, cfg);
  }

  lemma SearchToolDecides(s: Snapshot, input: string, env: Environment, cfg: Config)
    ensures var inputHash := cfg.inputHash(input);
            var found := env.Research(0);
            var outcome := SearchTool(s, input, env, cfg);
            var searched := s.actions + [Action(GoogleSearch, inputHash)];
            if SearchedLately(s.actions, inputHash) then
              outcome.Return? && outcome.status == Running && outcome.nextTick == 1 &&
              outcome.state == s.(memory := outcome.state.memory)
            else if !(SearchesForTitle(input) && HasProvenance(found)) then
              outcome == Proceed(Noted(s).(actions := searched))
            else if Signed(found.traceId, found.sha256) then
              outcome == Proceed(Noted(s).(
                evidence := s.evidence[TitleSearched := Evidence(GeminiGoogleSearch, found.traceId, found.sha256)],
                checklist := s.checklist + {TitleSearched}, actions := searched))
            else outcome == Proceed(Noted(s))
  {
    LatelyIsPerformed(s, cfg.inputHash(input));
    hide HasAnalysis, Marked, IsValidTraceId, IsValidSha256, SearchesForTitle, HasPerformedAction, SearchedLately;
  }

  /** The satellite tool flags exactly on a HIGH discrepancy, signed or not, unless the inspection
      fails or its signature is rejected; only a signed one is evidence. */
  lemma SatelliteDecides(d: Snapshot, env: Environment, cfg: Config, decision: Decision)
    requires AtDecision(d, cfg) && !Repeats(d.actions)
    requires env.reply == Parsed(decision) && decision.tool == InspectSatellite
    ensures var r := RunSingleStep(d, env, cfg);
            var located := env.satellite.Located? && !env.boundary.BoundaryRaised?;
            var present := located && env.boundary.BoundaryInspected? &&
              Provenance(env.boundary.traceId, env.boundary.sha256);
            var signed := present && Signed(env.boundary.traceId, env.boundary.sha256);
            var flagged :=
              located && env.boundary.BoundaryInspected? && env.boundary.highDiscrepancy && (present ==> signed);
            && r.saved.totalSteps == d.totalSteps + 1 && r.saved.actions == d.actions
            && r.saved.evidence ==
               (if signed
                then d.evidence[PhysicalBoundaryVerified :=
                                  Evidence(GeminiVision, env.boundary.traceId, env.boundary.sha256)]
                else d.evidence)
            && r.saved.checklist == d.checklist + (if located then {LocationChecked} else {}) +
                                    (if signed then {PhysicalBoundaryVerified} else {})
            && r.saved.findings == d.findings + (if flagged then [BoundaryDiscrepancy] else [])
            && (if flagged
                then
                  && r.saved.status == r.status == Flagged && r.nextTick == 0
                  && r.saved.retryCount == d.retryCount && r.saved.emptyResponses == 0
                else CarriedOut(d, r, decision, cfg) && r.saved.status == Awake(d.status))
  {
    hide HasAnalysis, Marked, RunSingleStep, SatelliteTool, SearchTool, DecideAndAct, Repeats, IsValidTraceId,
         IsValidSha256;
    StepIsDecision(d, env, cfg);
    var s := if env.context.title.Some? then Noted(Started(d)) else Started(d);
    DecisionIsCarriedOut(s, decision, env, cfg);
    SatelliteToolDecides(Noted(s.(emptyResponses := 0)), env);
  }

  lemma SatelliteToolDecides(s: Snapshot, env: Environment)
    ensures var located := env.satellite.Located? && !env.boundary.BoundaryRaised?;
            var present := located && env.boundary.BoundaryInspected? &&
              Provenance(env.boundary.traceId, env.boundary.sha256);
            var signed := present && Signed(env.boundary.traceId, env.boundary.sha256);
            var flagged :=
              located && env.boundary.BoundaryInspected? && env.boundary.highDiscrepancy && (present ==> signed);
            var outcome := SatelliteTool(s, env);
            && (if flagged then outcome.Return? && outcome.status == Flagged && outcome.nextTick == 0
                else outcome.Proceed?)
            && outcome.state == s.(
                 memory := outcome.state.memory,
                 evidence :=
                   if signed
                   then s.evidence[PhysicalBoundaryVerified :=
                                     Evidence(GeminiVision, env.boundary.traceId, env.boundary.sha256)]
                   else s.evidence,
                 checklist := s.checklist + (if located then {LocationChecked} else {}) +
                              (if signed then {PhysicalBoundaryVerified} else {}),
                 findings := s.findings + (if flagged then [BoundaryDiscrepancy] else []),
                 status := if flagged then Flagged else s.status)
  {
    hide HasAnalysis, Marked, IsValidTraceId, IsValidSha256;
  }
}
