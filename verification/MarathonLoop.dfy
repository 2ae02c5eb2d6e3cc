/** The agent loop working in place on a loaded State object, phase by phase as the service does. */
module MarathonLoop {
  import opened Options
  import opened Text
  import opened RecordQueries
  import opened MarathonState
  import opened MarathonStep

  /** How a phase ended; the state it left behind is in the State object. */
  datatype Signal = Continue | Returned(status: AgentStatus, nextTick: int) | SourceError | Exception

  function AsOutcome(signal: Signal, s: Snapshot): Outcome {
    match signal
    case Continue => Proceed(s)
    case Returned(status, nextTick) => Return(s, status, nextTick)
    case SourceError => SourceFailure(s)
    case Exception => Failure(s)
  }

  class Loop {
    const cfg: Config
    var stored: Snapshot  // the session document

    constructor (cfg: Config, stored: Snapshot)
      ensures this.cfg == cfg && this.stored == stored
    {
      this.cfg, this.stored := cfg, stored;
    }

    method SaveState(state: State)
      modifies this
      ensures stored == state.Dump()
    {
      stored := state.Dump();
    }

    method AnalyzeImage(state: State, env: Environment) returns (signal: Signal)
      modifies this, state
      ensures AsOutcome(signal, state.Dump()) == AnalyzeDocument(old(state.Dump()), env)
      ensures !signal.Continue?
      ensures signal.Returned? ==> stored == state.Dump()
    {
      match env.image {
        case SourceInaccessible => return SourceError;
        case ImageError(error) =>
          state.Remember(ImageFailure(error));
          state.status := Running;
          state.checklist := state.checklist - {ImageAnalyzed};
        case ImageRead(traceId, sha256) =>
          state.Remember(ImageAnalysis);
          if traceId != "" && sha256 != "" {
            var ok := state.RegisterEvidence(ImageAnalyzed, GeminiVision, traceId, sha256);
            if !ok { return Exception; }
          } else {
            state.Remember(Note);
          }
          state.status := Running;
      }
      SaveState(state);
      return Returned(Running, 1);
    }

    method EnterWaitingForManualPin(state: State) returns (signal: Signal)
      modifies this, state
      ensures AsOutcome(signal, state.Dump()) == WaitingForPin(old(state.Dump()))
      ensures signal.Returned? ==> stored == state.Dump()
    {
      state.status := WaitingForUser;
      state.Remember(Note);
      SaveState(state);
      return Returned(WaitingForUser, 0);
    }

    method Flag(state: State) returns (signal: Signal)
      modifies this, state
      ensures AsOutcome(signal, state.Dump()) == FlagSession(old(state.Dump()))
      ensures signal.Returned? ==> stored == state.Dump()
    {
      state.status := Flagged;
      state.findings := state.findings + [BoundaryDiscrepancy];
      state.Remember(Note);
      SaveState(state);
      return Returned(Flagged, 0);
    }

    method InspectBoundary(state: State, env: Environment) returns (signal: Signal)
      modifies this, state
      ensures AsOutcome(signal, state.Dump()) == VerifyBoundary(old(state.Dump()), env)
      ensures !signal.Continue?
      ensures signal.Returned? ==> stored == state.Dump()
    {
      if !env.context.coordinates.Located? {
        signal := EnterWaitingForManualPin(state);
        return;
      }
      if env.boundary.BoundaryRaised? { return Exception; }
      state.Remember(Note);
      state.checklist := state.checklist + {LocationChecked};
      match env.boundary {
        case BoundaryInspected(traceId, sha256, highDiscrepancy) =>
          if traceId != "" && sha256 != "" {
            var ok := state.RegisterEvidence(PhysicalBoundaryVerified, GeminiVision, traceId, sha256);
            if !ok { return Exception; }
            SaveState(state);
            if highDiscrepancy {
              signal := Flag(state);
              return;
            }
            return Returned(Running, 1);
          }
        case _ =>
      }
      state.Remember(Note);
      SaveState(state);
      return Returned(Running, 1);
    }

    method FailLegalDispute(state: State) returns (signal: Signal)
      modifies this, state
      ensures AsOutcome(signal, state.Dump()) == Return(LegalDisputeFound(old(state.Dump())), Failed, 0)
      ensures signal.Returned? ==> stored == state.Dump()
    {
      state.status := Failed;
      state.findings := state.findings + [LegalDispute];
      state.Remember(Note);
      SaveState(state);
      return Returned(Failed, 0);
    }

    method RecordConversionRisk(state: State, scan: Scan, continuityText: string)
      modifies state
      ensures state.Dump() == WithConversionRisk(old(state.Dump()), scan, continuityText)
    {
      if scan.conversionRisk && !MentionsNewRegister(continuityText) {
        state.findings := state.findings + [ConversionUnverified];
      }
    }

    method RunContinuityCheck(state: State, title: string, scan: Scan, env: Environment) returns (signal: Signal)
      modifies state
      ensures AsOutcome(signal, state.Dump()) == CheckContinuity(old(state.Dump()), title, scan, env, cfg)
      ensures !signal.Returned?
    {
      if CallsForContinuity(Join(scan.entries, "\n")) {
        if !HasProvenance(env.continuity) {
          state.Remember(Note);
          return Continue;
        }
        state.Remember(Note);
        state.AddAction(GoogleSearch, cfg.inputHash(ContinuityQuery(title)));
        var ok := state.RegisterEvidence(
          HistoricalChainChecked, GeminiGoogleSearch, env.continuity.traceId, env.continuity.sha256);
        if !ok { return Exception; }
        RecordConversionRisk(state, scan, env.continuity.text);
      } else {
        var ok := state.RegisterEvidence(
          HistoricalChainChecked, GeminiGoogleSearch, Join(scan.traces, "|"), env.continuityDigest);
        if !ok { return Exception; }
        RecordConversionRisk(state, scan, "");
      }
      return Continue;
    }

    method RunRecordRegistrations(state: State, title: string, scan: Scan, env: Environment) returns (signal: Signal)
      modifies state
      ensures AsOutcome(signal, state.Dump()) == RegisterRecords(old(state.Dump()), title, scan, env, cfg)
      ensures !signal.Returned?
    {
      var trace := Join(scan.traces, "|");
      var ok := state.RegisterEvidence(TitleSearched, GeminiGoogleSearch, trace, env.titleDigest);
      if !ok { return Exception; }
      ok := state.RegisterEvidence(AdditionalRecordsChecked, GeminiGoogleSearch, trace, env.recordsDigest);
      if !ok { return Exception; }
      if scan.zoning.Some? {
        ok := state.RegisterEvidence(
          ZoningChecked, scan.zoning.value.provider, scan.zoning.value.traceId, scan.zoning.value.sha256);
        if !ok { return Exception; }
      }
      signal := RunContinuityCheck(state, title, scan, env);
    }

    /** The query loop of Step 5. */
    method ScanQueries(state: State, queries: seq<string>, env: Environment) returns (outcome: ScanOutcome)
      modifies state
      ensures outcome == ScanFrom(queries, env, cfg, 0, StartScan(old(state.Dump())))
      ensures state.Dump() == old(state.Dump()).(
                actions := if outcome.Scanned? then outcome.scan.actions else outcome.actions)
    {
      var entries: seq<string>, traces: seq<string> := [], [];
      var conversionRisk, zoning := false, None;
      for i := 0 to |queries|
        invariant state.Dump() == old(state.Dump()).(actions := state.actions)
        invariant ScanFrom(queries, env, cfg, 0, StartScan(old(state.Dump()))) ==
                  ScanFrom(queries, env, cfg, i, Scan(state.actions, entries, traces, conversionRisk, zoning))
      {
        var query, result := queries[i], env.Research(i);
        if !HasProvenance(result) {
          return Aborted(state.actions);
        }
        ghost var acc := Scan(state.actions, entries, traces, conversionRisk, zoning);
        entries := entries + [ResultEntry(query, result.traceId, result.text)];
        traces := traces + [result.traceId];
        state.AddAction(GoogleSearch, cfg.inputHash(query));
        if IsGazetteQuery(query) && MentionsDispute(result.text) {
          return Disputed(state.actions);
        }
        if MentionsConversion(result.text) {
          conversionRisk := true;
        }
        if IsZoningQuery(query) {
          zoning := Some(Evidence(GeminiGoogleSearch, result.traceId, result.sha256));
        }
        assert Scan(state.actions, entries, traces, conversionRisk, zoning) == Scanning(query, result, cfg, acc);
      }
      return Scanned(Scan(state.actions, entries, traces, conversionRisk, zoning));
    }

    method RunStep5RecordChecks(state: State, env: Environment) returns (signal: Signal)
      modifies this, state
      ensures AsOutcome(signal, state.Dump()) == RecordChecks(old(state.Dump()), env, cfg)
      ensures signal.Returned? ==> stored == state.Dump()
    {
      hide ScanFrom, RegisterRecords, LegalDisputeFound, BuildRecordSearchQueries;
      if env.context.title.None? { return SourceError; }
      var title := env.context.title.value;
      var queries := BuildRecordSearchQueries(title, env.context.owner, env.context.county);
      var outcome := ScanQueries(state, queries, env);
      match outcome {
        case Aborted(_) =>
          state.Remember(Note);
          return Continue;
        case Disputed(_) =>
          signal := FailLegalDispute(state);
        case Scanned(scan) =>
          state.Remember(Note);
          signal := RunRecordRegistrations(state, title, scan, env);
      }
    }

    method Decide(state: State, env: Environment) returns (decision: Option<Decision>)
      modifies state
      ensures Choice(state.Dump(), decision) == GenerateDecision(old(state.Dump()), env, cfg)
    {
      if IsStuck(state.Dump()) {
        var tool := if RecordChecksComplete(state.Dump()) then FinishAudit else WaitUser;
        return Some(Decision(tool, "", false, 0));
      }
      match env.reply {
        case ModelException => return None;
        case Unparsed =>
          if state.emptyResponses < cfg.emptyResponseMaxRetries {
            state.emptyResponses := state.emptyResponses + 1;
          }
          return None;
        case Parsed(d) =>
          state.emptyResponses := 0;
          return Some(d);
      }
    }

    method Search(state: State, input: string, env: Environment) returns (signal: Signal)
      modifies this, state
      ensures AsOutcome(signal, state.Dump()) == SearchTool(old(state.Dump()), input, env, cfg)
      ensures signal.Returned? ==> stored == state.Dump()
    {
      var hash := cfg.inputHash(input);
      if HasPerformedAction(state.Dump(), GoogleSearch, hash) {
        state.Remember(Note);
        if TitleSearched in state.checklist { state.Remember(Note); }
        SaveState(state);
        return Returned(Running, 1);
      }
      var found := env.Research(0);
      if SearchesForTitle(input) && HasProvenance(found) {
        var ok := state.RegisterEvidence(TitleSearched, GeminiGoogleSearch, found.traceId, found.sha256);
        if !ok {
          state.Remember(Note);
          SaveState(state);
          return Continue;
        }
      }
      state.Remember(Note);
      state.AddAction(GoogleSearch, hash);
      SaveState(state);
      return Continue;
    }

    method InspectSatelliteImage(state: State, env: Environment) returns (signal: Signal)
      modifies this, state
      ensures AsOutcome(signal, state.Dump()) == SatelliteTool(old(state.Dump()), env)
      ensures signal.Returned? ==> stored == state.Dump()
    {
      state.Remember(Note);
      if !env.satellite.Located? { return Continue; }
      state.Remember(Note);
      if env.boundary.BoundaryRaised? { return Continue; }
      state.checklist := state.checklist + {LocationChecked};
      match env.boundary {
        case BoundaryInspected(traceId, sha256, highDiscrepancy) =>
          if traceId != "" && sha256 != "" {
            var ok := state.RegisterEvidence(PhysicalBoundaryVerified, GeminiVision, traceId, sha256);
            if !ok {
              state.Remember(Note);
              return Continue;
            }
          }
          if highDiscrepancy {
            signal := Flag(state);
            return;
          }
        case _ =>
      }
      return Continue;
    }

    method Conclude(state: State)
      modifies state
      ensures state.Dump() == Concluded(old(state.Dump()))
    {
      var highRisk := exists i :: 0 <= i < |state.findings| && IsHigh(state.findings[i]);
      state.status := if state.status == Flagged || highRisk then Flagged else Completed;
      state.Remember(Note);
    }

    method Execute(state: State, d: Decision, env: Environment) returns (signal: Signal)
      modifies this, state
      ensures AsOutcome(signal, state.Dump()) == ExecuteTool(old(state.Dump()), d, env, cfg)
      ensures signal.Returned? ==> stored == state.Dump()
    {
      signal := Continue;
      match d.tool {
        case AnalyzeImage =>
          if !state.hasDocument { state.Remember(Note); return; }
          match env.image {
            case SourceInaccessible => return SourceError;
            case ImageError(_) =>
            case ImageRead(_, _) => state.Remember(Note);
          }
        case GoogleSearch => signal := Search(state, d.toolInput, env);
        case InspectSatellite => signal := InspectSatelliteImage(state, env);
        case FinishAudit => Conclude(state);
        case WaitUser =>
          state.status := WaitingForUser;
          state.Remember(Note);
        case EscalateError =>
          state.status := Failed;
          state.Remember(Note);
        case UnknownTool =>
      }
    }

    method RunDecision(state: State, env: Environment) returns (signal: Signal)
      modifies this, state
      ensures AsOutcome(signal, state.Dump()) == DecideAndAct(old(state.Dump()), env, cfg)
      ensures !signal.Continue?
      ensures signal.Returned? ==> stored == state.Dump()
    {
      var decision := Decide(state, env);
      if decision.None? {
        state.retryCount := state.retryCount + 1;
        if state.retryCount >= cfg.maxRetries {
          state.status := Failed;
          state.Remember(Note);
        }
        SaveState(state);
        return Returned(state.status, if state.status == Running then 2 else 0);
      }
      var d := decision.value;
      state.Remember(Note);
      signal := Execute(state, d, env);
      if signal != Continue { return; }
      state.retryCount := 0;
      SaveState(state);
      return Returned(state.status, if d.requiresSleep then d.sleepMinutes * 60 else cfg.stepDelaySeconds);
    }

    method RunTryBlock(state: State, env: Environment) returns (signal: Signal)
      modifies this, state
      ensures !signal.Continue?
      ensures AsOutcome(signal, state.Dump()) == RunPhases(old(state.Dump()), env, cfg)
      ensures signal.Returned? ==> stored == state.Dump()
    {
      hide AnalyzeDocument, VerifyBoundary, RecordChecks, DecideAndAct;
      if state.hasDocument && cfg.imageAnalysisEnabled && !HasAnalysis(state.memory) {
        signal := AnalyzeImage(state, env);
        return;
      }
      if env.context.title.Some? { state.Remember(Note); }
      if ImageAnalyzed in state.checklist && PhysicalBoundaryVerified !in state.checklist {
        signal := InspectBoundary(state, env);
      } else if PhysicalBoundaryVerified in state.checklist && AdditionalRecordsChecked !in state.checklist {
        signal := RunStep5RecordChecks(state, env);
        if signal.SourceError? || signal.Exception? { return; }
        SaveState(state);
        if signal.Continue? { signal := Returned(Running, 1); }
      } else {
        signal := RunDecision(state, env);
      }
    }

    method EnforceBudget(state: State) returns (status: AgentStatus, nextTick: int)
      modifies this, state
      ensures StepResult(stored, status, nextTick) == BudgetExhausted(old(state.Dump()))
    {
      if BudgetChecksComplete(state.Dump()) {
        state.status := Completed;
        state.Remember(Note);
        state.findings := [AutoConcluded];
      } else {
        state.status := WaitingForUser;
        state.Remember(Note);
      }
      SaveState(state);
      return state.status, 0;
    }

    /** The `except` clauses: a phase that returned has saved already, the others save here. */
    method SettleSignal(state: State, signal: Signal) returns (status: AgentStatus, nextTick: int)
      requires signal.Returned? ==> stored == state.Dump()
      requires !signal.Continue?
      modifies this, state
      ensures StepResult(stored, status, nextTick) == Settle(AsOutcome(signal, old(state.Dump())), cfg)
    {
      match signal {
        case Returned(s, t) =>
          return s, t;
        case SourceError =>
          state.status := Failed;
          state.Remember(Note);
          SaveState(state);
          return Failed, 0;
        case Exception =>
          state.retryCount := state.retryCount + 1;
          if state.retryCount > cfg.maxRetries {
            state.status := Failed;
            state.Remember(Note);
          }
          SaveState(state);
          return state.status, 5;
      }
    }

    /** One step: load, run, persist. What is stored and returned is exactly the step function. */
    method RunSingleStep(env: Environment) returns (status: AgentStatus, nextTick: int)
      modifies this
      ensures StepResult(stored, status, nextTick) == MarathonStep.RunSingleStep(old(stored), env, cfg)
    {
      hide RunPhases, Settle, BudgetExhausted;
      var state := new State(stored);
      state.totalSteps := state.totalSteps + 1;
      if state.status == Queued || state.status == Idle {
        state.status := Running;
        SaveState(state);
      }
      assert state.Dump() == Started(old(stored));
      if state.totalSteps >= MAX_STEPS {
        status, nextTick := EnforceBudget(state);
        return;
      }
      if HasEnded(state.status) {
        return state.status, 0;
      }
      if state.emptyResponses >= cfg.emptyResponseMaxRetries {
        state.status := WaitingForUser;
        state.Remember(Note);
        SaveState(state);
        return WaitingForUser, 0;
      }
      var signal := RunTryBlock(state, env);
      status, nextTick := SettleSignal(state, signal);
    }
  }
}
