/** One step of the agent as a function of the stored session and of what the outside answers. */
module MarathonStep {
  import opened Options
  import opened Text
  import opened RecordQueries
  import opened MarathonState

  const MAX_STEPS := 15

  /** How a phase ends: control goes on, the step returns, or an exception leaves the phase. */
  datatype Outcome =
    | Proceed(state: Snapshot)
    | Return(state: Snapshot, status: AgentStatus, nextTick: int)
    | SourceFailure(state: Snapshot)
    | Failure(state: Snapshot)

  datatype StepResult = StepResult(saved: Snapshot, status: AgentStatus, nextTick: int)

  function Remembered(s: Snapshot, entry: MemoryEntry): (s': Snapshot)
    ensures HasAnalysis(s'.memory) <==> HasAnalysis(s.memory) || Marked(entry)
  {
    OneMoreLine(s.memory, entry);
    s.(memory := s.memory + [entry])
  }

  function Noted(s: Snapshot): (s': Snapshot)
    ensures HasAnalysis(s'.memory) <==> HasAnalysis(s.memory)
  {
    MarkedLines(Note);
    Remembered(s, Note)
  }

  // Step 5: the record searches.

  datatype Scan = Scan(
    actions: seq<Action>,
    entries: seq<string>,
    traces: seq<string>,
    conversionRisk: bool,
    zoning: Option<Evidence>)

  datatype ScanOutcome = Scanned(scan: Scan) | Aborted(actions: seq<Action>) | Disputed(actions: seq<Action>)

  function Scanning(query: string, found: ResearchResult, cfg: Config, acc: Scan): Scan
    requires found.ResearchFound?
  {
    Scan(
      acc.actions + [Action(GoogleSearch, cfg.inputHash(query))],
      acc.entries + [ResultEntry(query, found.traceId, found.text)],
      acc.traces + [found.traceId],
      acc.conversionRisk || MentionsConversion(found.text),
      if IsZoningQuery(query) then Some(Evidence(GeminiGoogleSearch, found.traceId, found.sha256)) else acc.zoning)
  }

  predicate HasProvenance(result: ResearchResult) {
    result.ResearchFound? && result.traceId != "" && result.sha256 != ""
  }

  /** The query loop from position `i` on. */
  function ScanFrom(queries: seq<string>, env: Environment, cfg: Config, i: nat, acc: Scan): ScanOutcome
    requires i <= |queries|
    decreases |queries| - i
  {
    if i == |queries| then Scanned(acc)
    else
      var result := env.Research(i);
      if !HasProvenance(result) then Aborted(acc.actions)
      else
        var next := Scanning(queries[i], result, cfg, acc);
        if IsGazetteQuery(queries[i]) && MentionsDispute(result.text) then Disputed(next.actions)
        else ScanFrom(queries, env, cfg, i + 1, next)
  }

  function StartScan(s: Snapshot): Scan {
    Scan(s.actions, [], [], false, None)
  }

  function LegalDisputeFound(s: Snapshot): Snapshot {
    Noted(s.(status := Failed, findings := s.findings + [LegalDispute]))
  }

  function WithConversionRisk(s: Snapshot, scan: Scan, continuityText: string): Snapshot {
    if scan.conversionRisk && !MentionsNewRegister(continuityText)
    then s.(findings := s.findings + [ConversionUnverified])
    else s
  }

  function ContinuityQuery(title: string): string {
    "\"" + title + "\" previous owner chain conversion history Land Registration Act 2012 Kenya"
  }

  function CheckContinuity(s: Snapshot, title: string, scan: Scan, env: Environment, cfg: Config): Outcome {
    if CallsForContinuity(Join(scan.entries, "\n")) then
      if !HasProvenance(env.continuity) then Proceed(Noted(s))
      else
        var s1 := Noted(s).(actions := s.actions + [Action(GoogleSearch, cfg.inputHash(ContinuityQuery(title)))]);
        var e := Evidence(GeminiGoogleSearch, env.continuity.traceId, env.continuity.sha256);
        match WithEvidence(s1, HistoricalChainChecked, e)
        case None => Failure(s1)
        case Some(s2) => Proceed(WithConversionRisk(s2, scan, env.continuity.text))
    else
      var e := Evidence(GeminiGoogleSearch, Join(scan.traces, "|"), env.continuityDigest);
      match WithEvidence(s, HistoricalChainChecked, e)
      case None => Failure(s)
      case Some(s1) => Proceed(WithConversionRisk(s1, scan, ""))
  }

  function RegisterRecords(s: Snapshot, title: string, scan: Scan, env: Environment, cfg: Config): Outcome {
    var trace := Join(scan.traces, "|");
    match WithEvidence(s, TitleSearched, Evidence(GeminiGoogleSearch, trace, env.titleDigest))
    case None => Failure(s)
    case Some(s1) =>
      match WithEvidence(s1, AdditionalRecordsChecked, Evidence(GeminiGoogleSearch, trace, env.recordsDigest))
      case None => Failure(s1)
      case Some(s2) =>
        if scan.zoning.None? then CheckContinuity(s2, title, scan, env, cfg)
        else
          match WithEvidence(s2, ZoningChecked, scan.zoning.value)
          case None => Failure(s2)
          case Some(s3) => CheckContinuity(s3, title, scan, env, cfg)
  }

  function RunRecordQueries(s: Snapshot, title: string, queries: seq<string>, env: Environment, cfg: Config): Outcome {
    match ScanFrom(queries, env, cfg, 0, StartScan(s))
    case Aborted(actions) => Proceed(Noted(s.(actions := actions)))
    case Disputed(actions) => Return(LegalDisputeFound(s.(actions := actions)), Failed, 0)
    case Scanned(scan) => RegisterRecords(Noted(s.(actions := scan.actions)), title, scan, env, cfg)
  }

  function RecordChecks(s: Snapshot, env: Environment, cfg: Config): Outcome {
    match env.context.title
    case None => SourceFailure(s)
    case Some(title) =>
      RunRecordQueries(s, title, BuildRecordSearchQueries(title, env.context.owner, env.context.county), env, cfg)
  }

  // The phases of a step.

  function AnalyzeDocument(s: Snapshot, env: Environment): Outcome {
    match env.image
    case SourceInaccessible => SourceFailure(s)
    case ImageError(error) =>
      var s1 := Remembered(s, ImageFailure(error));
      Return(s1.(status := Running, checklist := s.checklist - {ImageAnalyzed}), Running, 1)
    case ImageRead(traceId, sha256) =>
      var s1 := Remembered(s, ImageAnalysis);
      if traceId == "" || sha256 == "" then Return(Noted(s1).(status := Running), Running, 1)
      else
        match WithEvidence(s1, ImageAnalyzed, Evidence(GeminiVision, traceId, sha256))
        case None => Failure(s1)
        case Some(s2) => Return(s2.(status := Running), Running, 1)
  }

  function WaitingForPin(s: Snapshot): Outcome {
    Return(Noted(s).(status := WaitingForUser), WaitingForUser, 0)
  }

  function FlagSession(s: Snapshot): Outcome {
    Return(Noted(s.(status := Flagged, findings := s.findings + [BoundaryDiscrepancy])), Flagged, 0)
  }

  function VerifyBoundary(s: Snapshot, env: Environment): Outcome {
    if !env.context.coordinates.Located? then WaitingForPin(s)
    else if env.boundary.BoundaryRaised? then Failure(s)
    else
      var s1 := Noted(s).(checklist := s.checklist + {LocationChecked});
      match env.boundary
      case BoundaryInspected(traceId, sha256, highDiscrepancy) =>
        if traceId == "" || sha256 == "" then Return(Noted(s1), Running, 1)
        else
          (match WithEvidence(s1, PhysicalBoundaryVerified, Evidence(GeminiVision, traceId, sha256))
           case None => Failure(s1)
           case Some(s2) => if highDiscrepancy then FlagSession(s2) else Return(s2, Running, 1))
      case _ => Return(Noted(s1), Running, 1)
  }

  /** The same tool three times in a row. */
  predicate IsStuck(s: Snapshot) {
    var n := |s.actions|;
    n >= 3 && s.actions[n - 1].tool == s.actions[n - 2].tool == s.actions[n - 3].tool
  }

  predicate RecordChecksComplete(s: Snapshot) {
    && HasVerifiedCheck(s, TitleSearched)
    && HasVerifiedCheck(s, PhysicalBoundaryVerified)
    && HasVerifiedCheck(s, AdditionalRecordsChecked)
    && HasVerifiedCheck(s, ZoningChecked)
    && HasVerifiedCheck(s, HistoricalChainChecked)
  }

  datatype Choice = Choice(state: Snapshot, decision: Option<Decision>)

  function GenerateDecision(s: Snapshot, env: Environment, cfg: Config): Choice {
    if IsStuck(s) then
      Choice(s, Some(Decision(if RecordChecksComplete(s) then FinishAudit else WaitUser, "", false, 0)))
    else
      match env.reply
      case ModelException => Choice(s, None)
      case Unparsed =>
        if s.emptyResponses < cfg.emptyResponseMaxRetries
        then Choice(s.(emptyResponses := s.emptyResponses + 1), None)
        else Choice(s, None)
      case Parsed(decision) => Choice(s.(emptyResponses := 0), Some(decision))
  }

  predicate SearchesForTitle(input: string) {
    ContainsAny(Lower(input), ["title", "owner", "gazette", "land"])
  }

  function SearchTool(s: Snapshot, input: string, env: Environment, cfg: Config): Outcome {
    var hash := cfg.inputHash(input);
    if HasPerformedAction(s, GoogleSearch, hash) then
      var s1 := Noted(s);
      Return(if TitleSearched in s.checklist then Noted(s1) else s1, Running, 1)
    else
      var found := env.Research(0);
      if SearchesForTitle(input) && HasProvenance(found) then
        match WithEvidence(s, TitleSearched, Evidence(GeminiGoogleSearch, found.traceId, found.sha256))
        case None => Proceed(Noted(s))
        case Some(s1) => Proceed(Noted(s1).(actions := s.actions + [Action(GoogleSearch, hash)]))
      else Proceed(Noted(s).(actions := s.actions + [Action(GoogleSearch, hash)]))
  }

  function SatelliteTool(s: Snapshot, env: Environment): Outcome {
    if !env.satellite.Located? then Proceed(Noted(s))
    else if env.boundary.BoundaryRaised? then Proceed(Noted(Noted(s)))
    else
      var s1 := Noted(Noted(s)).(checklist := s.checklist + {LocationChecked});
      match env.boundary
      case BoundaryInspected(traceId, sha256, highDiscrepancy) =>
        if traceId == "" || sha256 == "" then if highDiscrepancy then FlagSession(s1) else Proceed(s1)
        else
          (match WithEvidence(s1, PhysicalBoundaryVerified, Evidence(GeminiVision, traceId, sha256))
           case None => Proceed(Noted(s1))
           case Some(s2) => if highDiscrepancy then FlagSession(s2) else Proceed(s2))
      case _ => Proceed(s1)
  }

  function Concluded(s: Snapshot): Snapshot {
    var highRisk := exists i :: 0 <= i < |s.findings| && IsHigh(s.findings[i]);
    Noted(s.(status := if s.status == Flagged || highRisk then Flagged else Completed))
  }

  function ExecuteTool(s: Snapshot, d: Decision, env: Environment, cfg: Config): Outcome {
    match d.tool
    case AnalyzeImage =>
      if !s.hasDocument then Proceed(Noted(s))
      else if env.image.SourceInaccessible? then SourceFailure(s)
      else if env.image.ImageError? then Proceed(s)
      else Proceed(Noted(s))
    case GoogleSearch => SearchTool(s, d.toolInput, env, cfg)
    case InspectSatellite => SatelliteTool(s, env)
    case FinishAudit => Proceed(Concluded(s))
    case WaitUser => Proceed(Noted(s.(status := WaitingForUser)))
    case EscalateError => Proceed(Noted(s.(status := Failed)))
    case UnknownTool => Proceed(s)
  }

  function DecideAndAct(s: Snapshot, env: Environment, cfg: Config): Outcome {
    var choice := GenerateDecision(s, env, cfg);
    match choice.decision
    case None =>
      var s1 := choice.state.(retryCount := choice.state.retryCount + 1);
      var s2 := if s1.retryCount >= cfg.maxRetries then Noted(s1.(status := Failed)) else s1;
      Return(s2, s2.status, if s2.status == Running then 2 else 0)
    case Some(d) =>
      match ExecuteTool(Noted(choice.state), d, env, cfg)
      case Proceed(s1) =>
        Return(s1.(retryCount := 0), s1.status, if d.requiresSleep then d.sleepMinutes * 60 else cfg.stepDelaySeconds)
      case outcome => outcome
  }

  predicate AwaitsAnalysis(s: Snapshot, cfg: Config) {
    s.hasDocument && cfg.imageAnalysisEnabled && !HasAnalysis(s.memory)
  }

  /** The body of the `try` block: the gated phases in their order. */
  function RunPhases(s: Snapshot, env: Environment, cfg: Config): (outcome: Outcome)
    ensures !outcome.Proceed?
  {
    if AwaitsAnalysis(s, cfg) then AnalyzeDocument(s, env)
    else
      var s1 := if env.context.title.Some? then Noted(s) else s;
      if ImageAnalyzed in s1.checklist && PhysicalBoundaryVerified !in s1.checklist then VerifyBoundary(s1, env)
      else if PhysicalBoundaryVerified in s1.checklist && AdditionalRecordsChecked !in s1.checklist then
        match RecordChecks(s1, env, cfg)
        case Proceed(s2) => Return(s2, Running, 1)
        case outcome => outcome
      else DecideAndAct(s1, env, cfg)
  }

  /** The `except` clauses around the phases. */
  function Settle(outcome: Outcome, cfg: Config): StepResult
    requires !outcome.Proceed?
  {
    match outcome
    case Return(s, status, nextTick) => StepResult(s, status, nextTick)
    case SourceFailure(s) => StepResult(Noted(s.(status := Failed)), Failed, 0)
    case Failure(s) =>
      var s1 := s.(retryCount := s.retryCount + 1);
      var s2 := if s1.retryCount > cfg.maxRetries then Noted(s1.(status := Failed)) else s1;
      StepResult(s2, s2.status, 5)
  }

  predicate BudgetChecksComplete(s: Snapshot) {
    && HasVerifiedCheck(s, ImageAnalyzed)
    && HasVerifiedCheck(s, PhysicalBoundaryVerified)
    && HasVerifiedCheck(s, AdditionalRecordsChecked)
    && HasVerifiedCheck(s, ZoningChecked)
    && HasVerifiedCheck(s, HistoricalChainChecked)
  }

  function BudgetExhausted(s: Snapshot): StepResult {
    if BudgetChecksComplete(s)
    then StepResult(Noted(s).(status := Completed, findings := [AutoConcluded]), Completed, 0)
    else StepResult(Noted(s).(status := WaitingForUser), WaitingForUser, 0)
  }

  predicate HasEnded(status: AgentStatus) {
    status == Completed || status == Flagged || status == Failed
  }

  /** The loaded state with the step counted and a queued session started. */
  function Started(s: Snapshot): Snapshot {
    s.(totalSteps := s.totalSteps + 1,
       status := if s.status == Queued || s.status == Idle then Running else s.status)
  }

  function RunSingleStep(stored: Snapshot, env: Environment, cfg: Config): StepResult {
    var s := Started(stored);
    if s.totalSteps >= MAX_STEPS then BudgetExhausted(s)
    else if HasEnded(s.status) then StepResult(stored, s.status, 0)
    else if s.emptyResponses >= cfg.emptyResponseMaxRetries then
      StepResult(Noted(s).(status := WaitingForUser), WaitingForUser, 0)
    else Settle(RunPhases(s, env, cfg), cfg)
  }
}
