/** The agent's persisted state, what the outside world may answer during one step, and the
    mutable MarathonState object a step works on. */
module MarathonState {
  import opened Options
  import opened Text

  datatype AgentStatus = Idle | Running | Sleeping | Completed | Flagged | Failed | WaitingForUser | Queued

  datatype Check =
    | ImageAnalyzed
    | TitleSearched
    | PhysicalBoundaryVerified
    | AdditionalRecordsChecked
    | ZoningChecked
    | HistoricalChainChecked
    | OwnerVerified
    | LocationChecked

  datatype Provider = GeminiVision | GeminiGoogleSearch

  datatype Evidence = Evidence(provider: Provider, traceId: string, sha256: string)

  /** Memory lines. A step looks for one marker in their texts, so the texts that are written before
      the marker has been found are kept. A Note is a line with a fixed text without the marker, or
      one that is only written once the image phase is over. */
  datatype MemoryEntry = ReceivedObject(uri: string) | ImageAnalysis | ImageFailure(error: string) | Note

  datatype Finding = BoundaryDiscrepancy | LegalDispute | ConversionUnverified | AutoConcluded

  predicate IsHigh(finding: Finding) {
    finding.BoundaryDiscrepancy? || finding.LegalDispute?
  }

  datatype Tool = AnalyzeImage | GoogleSearch | InspectSatellite | FinishAudit | WaitUser | EscalateError | UnknownTool

  datatype Action = Action(tool: Tool, inputHash: string)

  /** The stored session document, as one value; `checklist` holds the items that are true. */
  datatype Snapshot = Snapshot(
    status: AgentStatus,
    memory: seq<MemoryEntry>,
    retryCount: nat,
    emptyResponses: nat,
    hasDocument: bool,
    totalSteps: nat,
    evidence: map<Check, Evidence>,
    findings: seq<Finding>,
    actions: seq<Action>,
    checklist: set<Check>)

  datatype Config = Config(
    imageAnalysisEnabled: bool,
    maxRetries: nat,
    emptyResponseMaxRetries: nat,
    stepDelaySeconds: int,
    inputHash: string -> string)

  // What external calls answer during one step.

  datatype ImageResult = ImageRead(traceId: string, sha256: string) | ImageError(error: string) | SourceInaccessible

  datatype BoundaryResult =
    | BoundaryInspected(traceId: string, sha256: string, highDiscrepancy: bool)
    | BoundaryError
    | BoundaryRaised

  datatype ResearchResult = ResearchFound(text: string, traceId: string, sha256: string) | ResearchError

  datatype Coordinates = Located | Unlocated | ParseError

  datatype CaseContext = CaseContext(
    title: Option<string>, owner: Option<string>, county: Option<string>, coordinates: Coordinates)

  datatype Decision = Decision(tool: Tool, toolInput: string, requiresSleep: bool, sleepMinutes: int)

  datatype ModelReply = ModelException | Unparsed | Parsed(decision: Decision)

  type Sha256Hex = s: string | IsValidSha256(s) witness seq(64, _ => '0')

  datatype Environment = Environment(
    image: ImageResult,
    context: CaseContext,
    boundary: BoundaryResult,
    research: seq<ResearchResult>,
    continuity: ResearchResult,
    titleDigest: Sha256Hex,
    recordsDigest: Sha256Hex,
    continuityDigest: Sha256Hex,
    reply: ModelReply,
    satellite: Coordinates)
  {
    /** The answer to the i-th search of the step; a search nobody answers has failed. */
    function Research(i: nat): ResearchResult {
      if i < |research| then research[i] else ResearchError
    }
  }

  // The search for an image analysis in the memory.

  const IMAGE_MARKER := "Image Analysis:"

  /** The text of a line, up to where it stops mattering. */
  function Line(entry: MemoryEntry): string {
    match entry
    case ReceivedObject(uri) => "Received initial object: " + uri
    case ImageAnalysis => "\U{1F4C4} " + IMAGE_MARKER + " "
    case ImageFailure(error) => "\U{274C} Image Analysis Failed: " + error
    case Note => ""
  }

  predicate Marked(entry: MemoryEntry) {
    Contains(Line(entry), IMAGE_MARKER)
  }

  /** Does some line contain the marker? */
  predicate HasAnalysis(memory: seq<MemoryEntry>) {
    exists i :: 0 <= i < |memory| && Marked(memory[i])
  }

  /** Only the caller's part of a line can bring in the marker. */
  lemma MarkerIsInTheRest(prefix: string, rest: string)
    requires forall i :: 0 <= i < |prefix| ==> !MatchesAt(prefix + rest, IMAGE_MARKER, i)
    ensures Contains(prefix + rest, IMAGE_MARKER) <==> Contains(rest, IMAGE_MARKER)
  {
    var whole := prefix + rest;
    if Contains(whole, IMAGE_MARKER) {
      var i :| 0 <= i <= |whole| && MatchesAt(whole, IMAGE_MARKER, i);
      assert rest[i - |prefix|..i - |prefix| + |IMAGE_MARKER|] == whole[i..i + |IMAGE_MARKER|];
      assert MatchesAt(rest, IMAGE_MARKER, i - |prefix|);
    }
    if Contains(rest, IMAGE_MARKER) {
      var i :| 0 <= i <= |rest| && MatchesAt(rest, IMAGE_MARKER, i);
      assert whole[|prefix| + i..|prefix| + i + |IMAGE_MARKER|] == rest[i..i + |IMAGE_MARKER|];
      assert MatchesAt(whole, IMAGE_MARKER, |prefix| + i);
    }
  }

  /** A match shows its first and its last character. */
  lemma MatchShows(hay: string, i: nat)
    requires MatchesAt(hay, IMAGE_MARKER, i)
    ensures i + 14 < |hay| && hay[i] == 'I' && hay[i + 14] == ':'
  {
    assert hay[i..i + |IMAGE_MARKER|][0] == 'I' && hay[i..i + |IMAGE_MARKER|][14] == ':';
  }

  /** Which lines contain the marker: always the analysis, never a note, and the other two exactly
      when the object's name or the error does. */
  lemma MarkedLines(entry: MemoryEntry)
    ensures match entry
            case ReceivedObject(uri) => Marked(entry) <==> Contains(uri, IMAGE_MARKER)
            case ImageAnalysis => Marked(entry)
            case ImageFailure(error) => Marked(entry) <==> Contains(error, IMAGE_MARKER)
            case Note => !Marked(entry)
  {
    match entry {
      case ReceivedObject(uri) =>
        var prefix := "Received initial object: ";
        forall i | 0 <= i < |prefix|
          ensures !MatchesAt(prefix + uri, IMAGE_MARKER, i)
        {
          if MatchesAt(prefix + uri, IMAGE_MARKER, i) { MatchShows(prefix + uri, i); }
        }
        MarkerIsInTheRest(prefix, uri);
      case ImageAnalysis =>
        assert MatchesAt(IMAGE_MARKER, IMAGE_MARKER, 0);
        ContainsConcat("\U{1F4C4} ", IMAGE_MARKER, " ", IMAGE_MARKER);
      case ImageFailure(error) =>
        var prefix := "\U{274C} Image Analysis Failed: ";
        forall i | 0 <= i < |prefix|
          ensures !MatchesAt(prefix + error, IMAGE_MARKER, i)
        {
          if MatchesAt(prefix + error, IMAGE_MARKER, i) { MatchShows(prefix + error, i); }
        }
        MarkerIsInTheRest(prefix, error);
      case Note =>
    }
  }

  lemma OneMoreLine(memory: seq<MemoryEntry>, entry: MemoryEntry)
    ensures HasAnalysis(memory + [entry]) <==> HasAnalysis(memory) || Marked(entry)
  {
    var longer := memory + [entry];
    assert longer[|memory|] == entry;
    if HasAnalysis(memory) {
      var i :| 0 <= i < |memory| && Marked(memory[i]);
      assert longer[i] == memory[i];
    }
  }

  predicate IsHexDigit(c: char) {
    '0' <= c <= '9' || 'a' <= c <= 'f' || 'A' <= c <= 'F'
  }

  predicate IsValidSha256(value: string) {
    |value| == 64 && forall i :: 0 <= i < |value| ==> IsHexDigit(value[i])
  }

  predicate IsValidTraceId(value: string) {
    value != "" && |Strip(value)| >= 8
  }

  predicate ValidEvidence(e: Evidence) {
    IsValidTraceId(e.traceId) && IsValidSha256(e.sha256)
  }

  /** The state after registering a piece of evidence, or None where the source raises ValueError. */
  function WithEvidence(s: Snapshot, check: Check, e: Evidence): Option<Snapshot> {
    if ValidEvidence(e)
    then Some(s.(evidence := s.evidence[check := e], checklist := s.checklist + {check}))
    else None
  }

  predicate HasVerifiedCheck(s: Snapshot, check: Check) {
    check in s.evidence && s.evidence[check].traceId != "" && s.evidence[check].sha256 != ""
  }

  predicate HasPerformedAction(s: Snapshot, tool: Tool, inputHash: string) {
    var from := if |s.actions| > 5 then |s.actions| - 5 else 0;
    Action(tool, inputHash) in s.actions[from..]
  }

  class State {
    var status: AgentStatus
    var memory: seq<MemoryEntry>
    var retryCount: nat
    var emptyResponses: nat
    var hasDocument: bool
    var totalSteps: nat
    var evidence: map<Check, Evidence>
    var findings: seq<Finding>
    var actions: seq<Action>
    var checklist: set<Check>

    function Dump(): Snapshot
      reads this
    {
      Snapshot(status, memory, retryCount, emptyResponses, hasDocument, totalSteps,
               evidence, findings, actions, checklist)
    }

    constructor (data: Snapshot)
      ensures Dump() == data
    {
      status, memory, retryCount, emptyResponses := data.status, data.memory, data.retryCount, data.emptyResponses;
      hasDocument, totalSteps, evidence := data.hasDocument, data.totalSteps, data.evidence;
      findings, actions, checklist := data.findings, data.actions, data.checklist;
    }

    method RegisterEvidence(check: Check, provider: Provider, traceId: string, sha256: string) returns (ok: bool)
      modifies this
      ensures ok <==> IsValidTraceId(traceId) && IsValidSha256(sha256)
      ensures !ok ==> Dump() == old(Dump())
      ensures ok ==> Dump() == old(Dump()).(evidence := old(evidence)[check := Evidence(provider, traceId, sha256)],
                                            checklist := old(checklist) + {check})
    {
      if !IsValidTraceId(traceId) || !IsValidSha256(sha256) {
        return false;
      }
      evidence := evidence[check := Evidence(provider, traceId, sha256)];
      checklist := checklist + {check};
      return true;
    }

    method AddAction(tool: Tool, inputHash: string)
      modifies this
      ensures Dump() == old(Dump()).(actions := old(actions) + [Action(tool, inputHash)])
    {
      actions := actions + [Action(tool, inputHash)];
    }

    method Remember(entry: MemoryEntry)
      modifies this
      ensures Dump() == old(Dump()).(memory := old(memory) + [entry])
    {
      memory := memory + [entry];
    }
  }
}
