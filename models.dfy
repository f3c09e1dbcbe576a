/**
  The data model of `models.py`: the two status enums, incidents, stage results and lessons,
  with their defaults and the two incident constructors.
*/
module Models {
  import opened Wrappers
  import opened Text

  /** Status of a pipeline stage: the six members of the `StageStatus` string enum. */
  datatype StageStatus = Pending | Running | AwaitingApproval | Completed | Failed | Skipped {
    /** The enum member's string value. */
    function Value(): string {
      match this
      case Pending => "pending"
      case Running => "running"
      case AwaitingApproval => "awaiting_approval"
      case Completed => "completed"
      case Failed => "failed"
      case Skipped => "skipped"
    }
  }

  /** `StageStatus(s)`: the member whose value is `s`, or none (Python raises ValueError). */
  function ParseStageStatus(s: string): (r: Option<StageStatus>)
    ensures r.Some? ==> r.value.Value() == s
    ensures r.None? ==> forall st: StageStatus :: st.Value() != s
  {
    if s == "pending" then Some(Pending)
    else if s == "running" then Some(Running)
    else if s == "awaiting_approval" then Some(AwaitingApproval)
    else if s == "completed" then Some(Completed)
    else if s == "failed" then Some(Failed)
    else if s == "skipped" then Some(Skipped)
    else None
  }

  /** Every status is recovered from its value, so the six values are pairwise distinct. */
  lemma StageStatusRoundTrip(st: StageStatus)
    ensures ParseStageStatus(st.Value()) == Some(st)
  {
  }

  /** Severity of an incident: the five members of the `IncidentSeverity` string enum. */
  datatype IncidentSeverity = Critical | High | Medium | Low | Info {
    function Value(): string {
      match this
      case Critical => "critical"
      case High => "high"
      case Medium => "medium"
      case Low => "low"
      case Info => "info"
    }
  }

  /** `IncidentSeverity(s)`: the member whose value is `s`, or none. */
  function ParseSeverity(s: string): (r: Option<IncidentSeverity>)
    ensures r.Some? ==> r.value.Value() == s
    ensures r.None? ==> forall sv: IncidentSeverity :: sv.Value() != s
  {
    if s == "critical" then Some(Critical)
    else if s == "high" then Some(High)
    else if s == "medium" then Some(Medium)
    else if s == "low" then Some(Low)
    else if s == "info" then Some(Info)
    else None
  }

  lemma SeverityRoundTrip(sv: IncidentSeverity)
    ensures ParseSeverity(sv.Value()) == Some(sv)
  {
  }

  /** A calendar instant, as far as the source ever formats one. */
  datatype DateTime = DateTime(year: nat, month: nat, day: nat, hour: nat, minute: nat, second: nat)

  /** `n` in decimal, left-padded with zeros to at least `width` digits. */
  function Padded(n: nat, width: nat): (s: string)
    ensures |s| >= width
    ensures forall i :: 0 <= i < |s| ==> IsDigit(s[i])
    decreases width
  {
    var digits := NatToString(n);
    if |digits| >= width then digits else
      var r := "0" + Padded(n, width - 1);
      assert forall i :: 1 <= i < |r| ==> r[i] == Padded(n, width - 1)[i - 1];
      r
  }

  /** `strftime('%Y-%m-%d')`. */
  function FormatDate(d: DateTime): (s: string)
    ensures '\n' !in s
  {
    Padded(d.year, 4) + "-" + Padded(d.month, 2) + "-" + Padded(d.day, 2)
  }

  /** `strftime('%Y%m%d%H%M%S')`. */
  function FormatStamp(d: DateTime): (s: string)
    ensures forall i :: 0 <= i < |s| ==> IsDigit(s[i])
  {
    Padded(d.year, 4) + Padded(d.month, 2) + Padded(d.day, 2)
    + Padded(d.hour, 2) + Padded(d.minute, 2) + Padded(d.second, 2)
  }

  /** An incident to be investigated and resolved. */
  datatype Incident = Incident(
    id: string,
    title: string,
    description: string,
    errorMessage: Option<string>,
    stackTrace: Option<string>,
    severity: IncidentSeverity,
    source: string,
    createdAt: DateTime,
    detectedAt: Option<DateTime>,
    labels: map<string, string>,
    annotations: map<string, string>,
    affectedFiles: seq<string>,
    relatedPrs: seq<string>,
    traceId: Option<string>,
    spanId: Option<string>,
    logQuery: Option<string>)

  /** The dataclass constructor with every defaulted field left at its default. */
  function NewIncident(id: string, title: string, description: string, createdAt: DateTime): (inc: Incident)
    ensures inc.id == id && inc.title == title && inc.description == description
    ensures inc.errorMessage == None && inc.stackTrace == None
    ensures inc.severity == Medium && inc.source == "manual"
    ensures inc.createdAt == createdAt && inc.detectedAt == None
    ensures inc.labels == map[] && inc.annotations == map[]
    ensures inc.affectedFiles == [] && inc.relatedPrs == []
    ensures inc.traceId == None && inc.spanId == None && inc.logQuery == None
  {
    Incident(id, title, description, None, None, Medium, "manual", createdAt, None,
             map[], map[], [], [], None, None, None)
  }

  /** The title `from_error` derives: the first line of the message, cut to 100 characters. */
  function TitleOf(errorMessage: string): (title: string)
    ensures title <= errorMessage
    ensures '\n' !in title
    ensures |title| <= 100
    ensures |title| < 100 ==> |title| == |errorMessage| || errorMessage[|title|] == '\n'
  {
    var lines := Lines(errorMessage);
    assert lines[0] <= errorMessage && (|lines[0]| == |errorMessage| || errorMessage[|lines[0]|] == '\n') by {
      FirstLinePrefix(errorMessage);
    }
    Take(lines[0], 100)
  }

  /** The first element of `split("\n")` is the text up to the first newline. */
  lemma FirstLinePrefix(s: string)
    ensures Lines(s)[0] <= s
    ensures |Lines(s)[0]| == |s| || s[|Lines(s)[0]|] == '\n'
  {
    if '\n' in s {
      var i := FirstIndex(s, '\n');
      assert Lines(s)[0] == s[..i];
    }
  }

  /** `Incident.from_error`: `now` is the instant of the call, used for the id and both timestamps. */
  function FromError(errorMessage: string, stackTrace: Option<string> := None, source: string := "log",
                     severity: IncidentSeverity := Medium, now: DateTime := DateTime(1970, 1, 1, 0, 0, 0)): (inc: Incident)
    ensures inc.id == "INC-" + FormatStamp(now)
    ensures inc.title <= errorMessage && '\n' !in inc.title && |inc.title| <= 100
    ensures |inc.title| < 100 ==> |inc.title| == |errorMessage| || errorMessage[|inc.title|] == '\n'
    ensures inc.description == errorMessage && inc.errorMessage == Some(errorMessage)
    ensures inc.stackTrace == stackTrace && inc.source == source && inc.severity == severity
    ensures inc.createdAt == now && inc.detectedAt == Some(now)
    ensures inc.labels == map[] && inc.affectedFiles == [] && inc.relatedPrs == []
  {
    NewIncident("INC-" + FormatStamp(now), TitleOf(errorMessage), errorMessage, now).(
      errorMessage := Some(errorMessage),
      stackTrace := stackTrace,
      source := source,
      severity := severity,
      detectedAt := Some(now))
  }

  /** The parts of a GitHub issue payload the source reads: `title`, `body` and the label names. */
  datatype IssueData = IssueData(title: Option<string>, body: Option<string>, labelNames: seq<string>)

  /** Python's `str(n)` for any integer. */
  function IntToString(n: int): (s: string)
    ensures |s| >= 1
  {
    if n < 0 then "-" + NatToString(-n) else NatToString(n)
  }

  /** `Incident.from_github_issue`. */
  function FromGithubIssue(issueNumber: int, issue: IssueData, now: DateTime): (inc: Incident)
    ensures inc.id == "GH-" + IntToString(issueNumber)
    ensures inc.title == (if issue.title.Some? then issue.title.value else "Unknown")
    ensures inc.description == (if issue.body.Some? then issue.body.value else "")
    ensures inc.source == "github" && inc.severity == Medium && inc.errorMessage == None
    ensures forall k :: k in inc.labels <==> k in issue.labelNames
    ensures forall k :: k in inc.labels ==> inc.labels[k] == "true"
  {
    NewIncident("GH-" + IntToString(issueNumber), issue.title.GetOr("Unknown"), issue.body.GetOr(""), now).(
      source := "github",
      labels := map name | name in issue.labelNames :: "true")
  }

  /** A lesson learned from an incident. */
  datatype Lesson = Lesson(
    id: string,
    incidentId: string,
    category: string,
    lesson: string,
    prevention: string,
    createdAt: DateTime,
    relatedFiles: seq<string>,
    tags: seq<string>,
    confidence: real)

  /** The `Lesson` dataclass constructor, with its defaults. */
  function NewLesson(id: string, incidentId: string, category: string, lesson: string, prevention: string,
                     createdAt: DateTime, relatedFiles: seq<string> := [], tags: seq<string> := [],
                     confidence: real := 0.8): (l: Lesson)
    ensures l.id == id && l.incidentId == incidentId && l.category == category
    ensures l.lesson == lesson && l.prevention == prevention && l.createdAt == createdAt
    ensures l.relatedFiles == relatedFiles && l.tags == tags && l.confidence == confidence
  {
    Lesson(id, incidentId, category, lesson, prevention, createdAt, relatedFiles, tags, confidence)
  }

  /** The id of the `n`-th lesson of an incident, `f"{incident_id}-L{n}"`. */
  function LessonId(incidentId: string, n: nat): string {
    incidentId + "-L" + NatToString(n)
  }

  /** A value stored in a stage result's free-form `output` dictionary. */
  datatype OutputValue = Str(s: string) | Bool(b: bool) | Null | Records(records: seq<Lesson>)

  /** The outcome of one stage. Timestamps are readings of the pipeline's clock. */
  datatype StageResult = StageResult(
    stageName: string,
    status: StageStatus,
    startedAt: nat,
    completedAt: Option<nat>,
    summary: string,
    details: string,
    output: map<string, OutputValue>,
    rootCause: Option<string>,
    affectedCode: seq<string>,
    originatingPr: Option<string>,
    fixSpecification: Option<string>,
    tradeoffs: seq<string>,
    alternatives: seq<string>,
    codeChanges: map<string, string>,
    prUrl: Option<string>,
    testsPassed: Option<bool>,
    testOutput: Option<string>,
    regressionRisk: Option<string>,
    lessons: seq<string>,
    preventionSteps: seq<string>,
    error: Option<string>,
    retries: int)

  /** The `StageResult` dataclass constructor with every defaulted field at its default. */
  function NewStageResult(stageName: string, status: StageStatus, startedAt: nat): (r: StageResult)
    ensures r.stageName == stageName && r.status == status && r.startedAt == startedAt
    ensures r.completedAt == None && r.error == None && r.retries == 0
    ensures r.summary == "" && r.details == "" && r.output == map[]
    ensures r.rootCause == None && r.affectedCode == [] && r.originatingPr == None
    ensures r.fixSpecification == None && r.tradeoffs == [] && r.alternatives == []
    ensures r.codeChanges == map[] && r.prUrl == None
    ensures r.testsPassed == None && r.testOutput == None && r.regressionRisk == None
    ensures r.lessons == [] && r.preventionSteps == []
  {
    StageResult(stageName, status, startedAt, None, "", "", map[], None, [], None, None, [], [],
                map[], None, None, None, None, [], [], None, 0)
  }
}
