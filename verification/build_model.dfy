/** The `Build` record: one execution attempt of a project's pipeline. */
module BuildModel {
  import opened Outcomes
  import opened Varchar

  /** Row identifiers (UUIDs in the database). */
  type Id = string

  /** A point in time in milliseconds, as JavaScript `Date` arithmetic uses it. */
  type Timestamp = int

  /** The status enum; `Pending` is the column default. */
  datatype BuildStatus = Pending | Running | Success | Failed | Cancelled {
    /** The only states a cancel request accepts. */
    predicate IsActive() {
      this == Pending || this == Running
    }
  }

  /** Where a build request came from; `Manual` is the column default. */
  datatype TriggerSource = Manual | Webhook | Schedule

  function StatusLabel(s: BuildStatus): string {
    match s
    case Pending => "pending"
    case Running => "running"
    case Success => "success"
    case Failed => "failed"
    case Cancelled => "cancelled"
  }

  /** The enum column accepts exactly the five labels. */
  function ParseStatus(word: string): (r: Option<BuildStatus>)
    ensures r.Some? ==> StatusLabel(r.value) == word
  {
    if word == "pending" then Some(Pending)
    else if word == "running" then Some(Running)
    else if word == "success" then Some(Success)
    else if word == "failed" then Some(Failed)
    else if word == "cancelled" then Some(Cancelled)
    else None
  }

  lemma ParseStatusLabel(s: BuildStatus)
    ensures ParseStatus(StatusLabel(s)) == Some(s)
  {
  }

  function SourceLabel(t: TriggerSource): string {
    match t
    case Manual => "manual"
    case Webhook => "webhook"
    case Schedule => "schedule"
  }

  function ParseSource(word: string): (r: Option<TriggerSource>)
    ensures r.Some? ==> SourceLabel(r.value) == word
  {
    if word == "manual" then Some(Manual)
    else if word == "webhook" then Some(Webhook)
    else if word == "schedule" then Some(Schedule)
    else None
  }

  lemma ParseSourceLabel(t: TriggerSource)
    ensures ParseSource(SourceLabel(t)) == Some(t)
  {
  }

  datatype Build = Build(
    id: Id,
    projectId: Id,
    buildNumber: int,
    status: BuildStatus,
    commit: Option<string>,
    commitMessage: Option<string>,
    branch: Option<string>,
    author: Option<string>,
    authorEmail: Option<string>,
    logs: string,
    startedAt: Option<Timestamp>,
    completedAt: Option<Timestamp>,
    triggeredBy: Option<TriggerSource>)

  /** Column widths of the bounded text columns. */
  const CommitWidth: nat := 40
  const BranchWidth: nat := 100
  const AuthorWidth: nat := 255
  const EmailWidth: nat := 255

  predicate FitsColumn(v: Option<string>, width: nat) {
    v.None? || |v.value| <= width
  }

  /** Whether a bounded column takes the (possibly null) value without an error. */
  predicate ColumnAccepts(v: Option<string>, width: nat) {
    v.None? || Accepts(v.value, width)
  }

  /** What a bounded column keeps of a value it takes. */
  function ColumnValue(v: Option<string>, width: nat): (r: Option<string>)
    ensures r.None? <==> v.None?
    ensures r.Some? ==> r.value == Clip(v.value, width)
  {
    if v.None? then None else Some(Clip(v.value, width))
  }

  /** The row can be stored: every bounded column holds at most its width. */
  predicate FitsColumns(b: Build) {
    && FitsColumn(b.commit, CommitWidth)
    && FitsColumn(b.branch, BranchWidth)
    && FitsColumn(b.author, AuthorWidth)
    && FitsColumn(b.authorEmail, EmailWidth)
  }

  /** The attributes handed to the ORM's insert; `None` (or `Undefined`) means "not supplied". */
  datatype BuildValues = BuildValues(
    id: Id,
    projectId: Id,
    buildNumber: int,
    status: Option<BuildStatus>,
    commit: Option<string>,
    commitMessage: Option<string>,
    branch: Option<string>,
    author: Option<string>,
    authorEmail: Option<string>,
    logs: Option<string>,
    triggeredBy: Field)

  /** Inserting a row: attributes not supplied take their column defaults, an unknown
      trigger word or an over-long value (other than one padded with spaces) is rejected by the
      database, and a space-padded one is cut to the column's width. */
  function Insert(v: BuildValues): (r: Result<Build>)
    ensures r.Ok? <==>
      && (v.triggeredBy.Given? ==> ParseSource(v.triggeredBy.text).Some?)
      && ColumnAccepts(v.commit, CommitWidth) && ColumnAccepts(v.branch, BranchWidth)
      && ColumnAccepts(v.author, AuthorWidth) && ColumnAccepts(v.authorEmail, EmailWidth)
    ensures r.Ok? ==> FitsColumns(r.value)
    ensures r.Ok? ==>
      && r.value.id == v.id && r.value.projectId == v.projectId && r.value.buildNumber == v.buildNumber
      && r.value.commit == ColumnValue(v.commit, CommitWidth) && r.value.branch == ColumnValue(v.branch, BranchWidth)
      && r.value.author == ColumnValue(v.author, AuthorWidth)
      && r.value.authorEmail == ColumnValue(v.authorEmail, EmailWidth)
      && r.value.commitMessage == v.commitMessage
    ensures r.Ok? ==> r.value.startedAt.None? && r.value.completedAt.None?
    ensures r.Ok? ==> r.value.status == v.status.GetOr(Pending) && r.value.logs == v.logs.GetOr("")
    ensures r.Ok? && v.triggeredBy.Undefined? ==> r.value.triggeredBy == Some(Manual)
    ensures r.Ok? && v.triggeredBy.Null? ==> r.value.triggeredBy.None?
    ensures r.Ok? && v.triggeredBy.Given? ==>
      r.value.triggeredBy.Some? && SourceLabel(r.value.triggeredBy.value) == v.triggeredBy.text
  {
    var source: Option<Option<TriggerSource>> :=
      match v.triggeredBy
      case Undefined => Some(Some(Manual))
      case Null => Some(None)
      case Given(word) => if ParseSource(word).Some? then Some(ParseSource(word)) else None;
    if source.None? then
      Err(ServerError("invalid input value for enum triggeredBy"))
    else if !(&& ColumnAccepts(v.commit, CommitWidth) && ColumnAccepts(v.branch, BranchWidth)
              && ColumnAccepts(v.author, AuthorWidth) && ColumnAccepts(v.authorEmail, EmailWidth)) then
      Err(ServerError("value too long for type character varying"))
    else
      Ok(Build(v.id, v.projectId, v.buildNumber, v.status.GetOr(Pending),
               ColumnValue(v.commit, CommitWidth), v.commitMessage, ColumnValue(v.branch, BranchWidth),
               ColumnValue(v.author, AuthorWidth), ColumnValue(v.authorEmail, EmailWidth),
               v.logs.GetOr(""), None, None, source.value))
  }

  /** The virtual `duration` attribute: whole seconds between start and completion, rounded
      down, or null unless both timestamps are present. */
  function Duration(b: Build): (d: Option<int>)
    ensures d.Some? <==> b.startedAt.Some? && b.completedAt.Some?
    ensures d.Some? ==>
      d.value * 1000 <= b.completedAt.value - b.startedAt.value < d.value * 1000 + 1000
  {
    if b.startedAt.Some? && b.completedAt.Some? then
      Some((b.completedAt.value - b.startedAt.value) / 1000)
    else
      None
  }

  /** A build that did not complete before it started has a non-negative duration. */
  lemma DurationNonNegative(b: Build)
    requires b.startedAt.Some? && b.completedAt.Some?
    requires b.startedAt.value <= b.completedAt.value
    ensures Duration(b).Some? && Duration(b).value >= 0
  {
  }

  /** A build cancelled while pending never received `startedAt`, so it has no duration. */
  lemma CancelledWhilePendingHasNoDuration(b: Build)
    requires b.status == Cancelled && b.startedAt.None? && b.completedAt.Some?
    ensures Duration(b) == None
  {
  }
}
