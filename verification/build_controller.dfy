/** The build endpoints: trigger, lookup, log snapshot, cancel, delete and the paginated list. */
module BuildController {
  import opened Outcomes
  import opened BuildModel
  import opened ProjectModel
  import opened Events
  import opened Database
  import opened Pipeline
  import opened Sequences
  import opened Varchar

  const CancelLog: string := "\n[INFO] Build cancelled by user\n"
  const DefaultCommitMessage: string := "Manual trigger"
  const DefaultAuthor: string := "System"
  const DefaultAuthorEmail: string := "system@cicd-dashboard.com"

  /** The body of a trigger request. */
  datatype TriggerRequest = TriggerRequest(
    projectId: Field,
    branch: Field,
    commit: Field,
    commitMessage: Field,
    author: Field,
    authorEmail: Field,
    triggeredBy: Field)

  /** What a successful trigger leaves: the new store, the created row, the pipeline handed
      the row, and the emitted events. */
  datatype Triggered = Triggered(store: Store, build: Build, run: Run, events: seq<Event>)

  predicate OwnedBy(b: Build, projectId: Id) {
    b.projectId == projectId
  }

  /** The largest build number among the project's rows, if it has any: what the query
      ordered by `buildNumber` descending returns first. */
  function MaxNumber(builds: seq<Build>, projectId: Id): (r: Option<int>)
    ensures r.None? <==> forall i | 0 <= i < |builds| :: !OwnedBy(builds[i], projectId)
    ensures r.Some? ==> forall i | 0 <= i < |builds| && OwnedBy(builds[i], projectId) :: builds[i].buildNumber <= r.value
    ensures r.Some? ==> exists i | 0 <= i < |builds| :: OwnedBy(builds[i], projectId) && builds[i].buildNumber == r.value
  {
    if |builds| == 0 then None
    else
      var rest := MaxNumber(builds[1..], projectId);
      assert forall i | 1 <= i < |builds| :: builds[i] == builds[1..][i - 1];
      if !OwnedBy(builds[0], projectId) then
        rest
      else if rest.None? || rest.value < builds[0].buildNumber then
        Some(builds[0].buildNumber)
      else
        assert exists i | 0 <= i < |builds[1..]| :: OwnedBy(builds[1..][i], projectId) && builds[1..][i].buildNumber == rest.value;
        rest
  }

  /** The next build number: 1 for a project without rows, otherwise one more than the
      current maximum. */
  function NextBuildNumber(builds: seq<Build>, projectId: Id): (n: int)
    ensures forall i | 0 <= i < |builds| && OwnedBy(builds[i], projectId) :: builds[i].buildNumber < n
    ensures (forall i | 0 <= i < |builds| :: !OwnedBy(builds[i], projectId)) ==> n == 1
    ensures (exists i | 0 <= i < |builds| :: OwnedBy(builds[i], projectId)) ==>
      exists i | 0 <= i < |builds| :: OwnedBy(builds[i], projectId) && builds[i].buildNumber == n - 1
  {
    match MaxNumber(builds, projectId)
    case None => 1
    case Some(m) => m + 1
  }

  /** The attributes the trigger inserts, with every absent field defaulted. */
  function TriggerValues(req: TriggerRequest, project: Project, id: Id, number: int, generatedCommit: string): BuildValues
    requires !Falsy(req.projectId)
  {
    BuildValues(
      id, req.projectId.text, number, Some(Pending),
      Some(OrElse(req.commit, generatedCommit)),
      Some(OrElse(req.commitMessage, DefaultCommitMessage)),
      Some(OrElse(req.branch, project.branch)),
      Some(OrElse(req.author, DefaultAuthor)),
      Some(OrElse(req.authorEmail, DefaultAuthorEmail)),
      Some(QueuedLog),
      if req.triggeredBy.Undefined? then Given("manual") else req.triggeredBy)
  }

  /** The longest hash `Math.random().toString(36).substring(2, 9)` yields. */
  const GeneratedCommitWidth: nat := 7

  /** Whether the insert of a trigger request for `project` is accepted: the trigger word, if
      given, is one of the enum's, and every bounded column holds the value it receives. */
  predicate Storable(req: TriggerRequest, project: Project) {
    && (req.triggeredBy.Given? ==> ParseSource(req.triggeredBy.text).Some?)
    && (Falsy(req.commit) || Accepts(req.commit.text, CommitWidth))
    && Accepts(OrElse(req.branch, project.branch), BranchWidth)
    && (Falsy(req.author) || Accepts(req.author.text, AuthorWidth))
    && (Falsy(req.authorEmail) || Accepts(req.authorEmail.text, EmailWidth))
  }

  /** The row a trigger inserts for `project`: pending, the queued log, the requested values
      with every falsy one replaced by its default (the bounded ones as their column keeps
      them), and no timestamps. */
  predicate IsNewRow(b: Build, req: TriggerRequest, project: Project, id: Id, number: int, generatedCommit: string)
    requires !Falsy(req.projectId)
  {
    && b.id == id && b.projectId == req.projectId.text && b.buildNumber == number
    && b.status == Pending && b.logs == QueuedLog
    && b.startedAt.None? && b.completedAt.None?
    && b.commit == Some(Clip(OrElse(req.commit, generatedCommit), CommitWidth))
    && b.commitMessage == Some(OrElse(req.commitMessage, DefaultCommitMessage))
    && b.branch == Some(Clip(OrElse(req.branch, project.branch), BranchWidth))
    && b.author == Some(Clip(OrElse(req.author, DefaultAuthor), AuthorWidth))
    && b.authorEmail == Some(Clip(OrElse(req.authorEmail, DefaultAuthorEmail), EmailWidth))
    && (req.triggeredBy.Undefined? ==> b.triggeredBy == Some(Manual))
    && (req.triggeredBy.Null? ==> b.triggeredBy.None?)
    && (req.triggeredBy.Given? ==> b.triggeredBy == ParseSource(req.triggeredBy.text))
  }

  /** The insert of `Build.create` in `triggerBuild`. */
  function NewBuild(req: TriggerRequest, project: Project, id: Id, number: int, generatedCommit: string): (r: Result<Build>)
    requires !Falsy(req.projectId) && |generatedCommit| <= GeneratedCommitWidth
    ensures r.Ok? <==> Storable(req, project)
    ensures r.Ok? ==> IsNewRow(r.value, req, project, id, number, generatedCommit) && FitsColumns(r.value)
  {
    var v := TriggerValues(req, project, id, number, generatedCommit);
    assert |DefaultAuthor| <= AuthorWidth && |DefaultAuthorEmail| <= EmailWidth;
    var r := Insert(v);
    assert r.Ok? && req.triggeredBy.Given? ==> r.value.triggeredBy == ParseSource(req.triggeredBy.text) by {
      if r.Ok? && req.triggeredBy.Given? {
        ParseSourceLabel(r.value.triggeredBy.value);
      }
    }
    r
  }

  /** `triggerBuild`. `newId` is the fresh row id, `now` the clock reading and `generatedCommit`
      the random short hash used when no commit is given. */
  function Trigger(st: Store, req: TriggerRequest, newId: Id, now: Timestamp, generatedCommit: string): (r: Result<Triggered>)
    requires !HasBuild(st.builds, newId)
    requires |generatedCommit| <= GeneratedCommitWidth
    ensures r.Ok? <==> !Falsy(req.projectId) && req.projectId.text in st.projects
                       && Storable(req, st.projects[req.projectId.text])
    ensures Falsy(req.projectId) ==> r == Err(BadRequest("Project ID is required"))
    ensures !Falsy(req.projectId) && req.projectId.text !in st.projects ==> r == Err(NotFound("Project not found"))
    ensures r.Ok? ==>
      var pid := req.projectId.text;
      var prior := st.projects[pid];
      var t := r.value;
      && t.store.builds == st.builds + [t.build]
      && IsNewRow(t.build, req, prior, newId, NextBuildNumber(st.builds, pid), generatedCommit)
      && FitsColumns(t.build)
      && (forall i | 0 <= i < |st.builds| && OwnedBy(st.builds[i], pid) :: st.builds[i].buildNumber < t.build.buildNumber)
      && ((forall i | 0 <= i < |st.builds| :: !OwnedBy(st.builds[i], pid)) ==> t.build.buildNumber == 1)
      && t.store.projects.Keys == st.projects.Keys
      && (forall k | k in st.projects && k != pid :: t.store.projects[k] == st.projects[k])
      && t.store.projects[pid] == prior.(totalBuilds := prior.totalBuilds + 1, lastBuildAt := Some(now),
                                       lastBuildStatus := Some(LastPending))
      && t.run == Run(t.build, t.store.projects[pid], Queued)
      && t.events == [BuildCreated(newId, prior.id, prior.name, t.build.buildNumber, Pending)]
  {
    if Falsy(req.projectId) then Err(BadRequest("Project ID is required"))
    else
      var pid := req.projectId.text;
      if pid !in st.projects then Err(NotFound("Project not found"))
      else
        var project := st.projects[pid];
        var number := NextBuildNumber(st.builds, pid);
        match NewBuild(req, project, newId, number, generatedCommit)
        case Err(e) => Err(e)
        case Ok(build) => Ok(Recorded(st, pid, build, now))
  }

  /** After the insert: the row is appended, the project's total, last-build time and
      last-build status are written, and the creation is broadcast. */
  function Recorded(st: Store, pid: Id, build: Build, now: Timestamp): (t: Triggered)
    requires pid in st.projects
    ensures t.build == build && t.store.builds == st.builds + [build]
    ensures t.store.projects.Keys == st.projects.Keys
    ensures forall k | k in st.projects && k != pid :: t.store.projects[k] == st.projects[k]
    ensures var prior := st.projects[pid];
      t.store.projects[pid] == prior.(totalBuilds := prior.totalBuilds + 1, lastBuildAt := Some(now),
                                      lastBuildStatus := Some(LastPending))
    ensures t.run == Run(build, t.store.projects[pid], Queued)
    ensures t.events == [BuildCreated(build.id, st.projects[pid].id, st.projects[pid].name, build.buildNumber, Pending)]
  {
    var project := st.projects[pid];
    var updated := project.(totalBuilds := project.totalBuilds + 1, lastBuildAt := Some(now),
                            lastBuildStatus := Some(LastPending));
    Triggered(Store(st.projects[pid := updated], st.builds + [build]), build,
              Run(build, updated, Queued),
              [BuildCreated(build.id, project.id, project.name, build.buildNumber, Pending)])
  }

  /** `getBuild`. */
  function GetBuild(st: Store, id: Id): (r: Result<Build>)
    ensures r.Err? <==> !HasBuild(st.builds, id)
    ensures r.Err? ==> r.error == NotFound("Build not found")
    ensures r.Ok? ==> r.value.id == id && r.value in st.builds
  {
    match FindBuild(st, id)
    case None => Err(NotFound("Build not found"))
    case Some(b) => Ok(b)
  }

  /** The snapshot read path for observers that missed live events. */
  datatype LogSnapshot = LogSnapshot(
    buildId: Id,
    buildNumber: int,
    status: BuildStatus,
    logs: string,
    startedAt: Option<Timestamp>,
    completedAt: Option<Timestamp>)

  /** `getBuildLogs`. */
  function GetBuildLogs(st: Store, id: Id): (r: Result<LogSnapshot>)
    ensures r.Err? <==> !HasBuild(st.builds, id)
    ensures r.Err? ==> r.error == NotFound("Build not found")
    ensures r.Ok? ==> var b := FindBuild(st, id).value;
      r.value == LogSnapshot(id, b.buildNumber, b.status, b.logs, b.startedAt, b.completedAt)
  {
    match FindBuild(st, id)
    case None => Err(NotFound("Build not found"))
    case Some(b) => Ok(LogSnapshot(b.id, b.buildNumber, b.status, b.logs, b.startedAt, b.completedAt))
  }

  datatype Cancellation = Cancellation(store: Store, build: Build, events: seq<Event>)

  /** `cancelBuild`: only a pending or running build can be cancelled; it becomes `cancelled`,
      gets `completedAt`, and the cancel notice is appended to its log. */
  function Cancel(st: Store, id: Id, now: Timestamp): (r: Result<Cancellation>)
    ensures !HasBuild(st.builds, id) ==> r == Err(NotFound("Build not found"))
    ensures HasBuild(st.builds, id) && !FindBuild(st, id).value.status.IsActive() ==>
      r == Err(BadRequest("Only pending or running builds can be cancelled"))
    ensures r.Ok? <==> HasBuild(st.builds, id) && FindBuild(st, id).value.status.IsActive()
    ensures r.Ok? ==>
      var before := FindBuild(st, id).value;
      var c := r.value;
      && c.build == before.(status := Cancelled, completedAt := Some(now), logs := before.logs + CancelLog)
      && FindBuild(c.store, id) == Some(c.build)
      && c.store.projects == st.projects
      && |c.store.builds| == |st.builds|
      && (forall i | 0 <= i < |st.builds| && st.builds[i].id != id :: c.store.builds[i] == st.builds[i])
      && c.events == [BuildCancelled(id, Cancelled)]
  {
    match FindBuild(st, id)
    case None => Err(NotFound("Build not found"))
    case Some(b) =>
      if !b.status.IsActive() then Err(BadRequest("Only pending or running builds can be cancelled"))
      else
        var patch := Patch(Some(Cancelled), None, Some(now), Some(b.logs + CancelLog));
        Ok(Cancellation(SaveBuild(st, id, patch), Apply(b, patch), [BuildCancelled(id, Cancelled)]))
  }

  /** `deleteBuild`: removes the row; the project's counters are left as they are. */
  function DeleteBuild(st: Store, id: Id): (r: Result<Store>)
    ensures !HasBuild(st.builds, id) ==> r == Err(NotFound("Build not found"))
    ensures HasBuild(st.builds, id) ==> r.Ok?
    ensures r.Ok? ==> r.value.projects == st.projects
    ensures r.Ok? ==> |r.value.builds| == |st.builds| - 1
    ensures r.Ok? ==> forall b | b in r.value.builds :: b in st.builds
    ensures r.Ok? ==> Sublist(r.value.builds, st.builds)
    ensures r.Ok? && UniqueIds(st.builds) ==> !HasBuild(r.value.builds, id)
    ensures r.Ok? && UniqueIds(st.builds) ==> forall b | b in st.builds && b.id != id :: b in r.value.builds
  {
    match IndexOf(st.builds, id)
    case None => Err(NotFound("Build not found"))
    case Some(i) =>
      var rest := RemoveAt(st.builds, i);
      assert forall j | 0 <= j < |st.builds| && j != i :: st.builds[j] in rest by {
        forall j | 0 <= j < |st.builds| && j != i ensures st.builds[j] in rest {
          if j < i { assert rest[j] == st.builds[j]; } else { assert rest[j - 1] == st.builds[j]; }
        }
      }
      Ok(st.(builds := rest))
  }

  // ---- the paginated list ----

  /** The two optional filters of the list endpoint. */
  predicate Matches(b: Build, projectId: Field, status: Option<BuildStatus>) {
    && (Falsy(projectId) || b.projectId == projectId.text)
    && (status.None? || b.status == status.value)
  }

  function Filtered(builds: seq<Build>, projectId: Field, status: Option<BuildStatus>): (r: seq<Build>)
    ensures |r| <= |builds|
    ensures forall b {:trigger b in r} :: b in r <==> b in builds && Matches(b, projectId, status)
  {
    if |builds| == 0 then []
    else if Matches(builds[0], projectId, status) then [builds[0]] + Filtered(builds[1..], projectId, status)
    else Filtered(builds[1..], projectId, status)
  }

  /** The filter keeps the stored order: the rows it returns are the matching rows, none
      reordered, duplicated or invented. */
  lemma {:induction false} FilteredInOrder(builds: seq<Build>, projectId: Field, status: Option<BuildStatus>)
    ensures Sublist(Filtered(builds, projectId, status), builds)
    decreases |builds|
  {
    if |builds| > 0 {
      FilteredInOrder(builds[1..], projectId, status);
      var rest := Filtered(builds[1..], projectId, status);
      if Matches(builds[0], projectId, status) {
        assert ([builds[0]] + rest)[1..] == rest;
      }
    }
  }

  /** Filtering works row by row: the filter of a concatenation is the concatenation of the
      filters. With `FilteredSingle` this fixes the result, order and multiplicity included. */
  lemma {:induction false} FilteredAppend(a: seq<Build>, b: seq<Build>, projectId: Field, status: Option<BuildStatus>)
    ensures Filtered(a + b, projectId, status) == Filtered(a, projectId, status) + Filtered(b, projectId, status)
    decreases |a|
  {
    if |a| == 0 {
      assert a + b == b;
    } else {
      var head := if Matches(a[0], projectId, status) then [a[0]] else [];
      FilteredAppend(a[1..], b, projectId, status);
      assert (a + b)[1..] == a[1..] + b;
      FilteredCons(a + b, projectId, status);
      FilteredCons(a, projectId, status);
      SeqAssoc(head, Filtered(a[1..], projectId, status), Filtered(b, projectId, status));
    }
  }

  /** The filter of a non-empty list: its first row, if it matches, then the filter of the rest. */
  lemma FilteredCons(s: seq<Build>, projectId: Field, status: Option<BuildStatus>)
    requires |s| > 0
    ensures Filtered(s, projectId, status)
      == (if Matches(s[0], projectId, status) then [s[0]] else []) + Filtered(s[1..], projectId, status)
  {
    if !Matches(s[0], projectId, status) {
      assert [] + Filtered(s[1..], projectId, status) == Filtered(s[1..], projectId, status);
    }
  }

  lemma SeqAssoc(x: seq<Build>, y: seq<Build>, z: seq<Build>)
    ensures x + (y + z) == (x + y) + z
  {
  }

  /** A single row is kept exactly when it matches both filters. */
  lemma FilteredSingle(b: Build, projectId: Field, status: Option<BuildStatus>)
    ensures Filtered([b], projectId, status) == (if Matches(b, projectId, status) then [b] else [])
  {
    assert [b][1..] == [];
  }

  function Reverse(s: seq<Build>): (r: seq<Build>)
    ensures |r| == |s|
    ensures forall i | 0 <= i < |s| :: r[i] == s[|s| - 1 - i]
  {
    if |s| == 0 then [] else Reverse(s[1..]) + [s[0]]
  }

  /** `Math.ceil(count / limit)` for a positive limit. */
  function CeilDiv(count: nat, limit: nat): (pages: nat)
    requires limit > 0
    ensures (pages - 1) * limit < count <= pages * limit || (count == 0 && pages == 0)
  {
    (count + limit - 1) / limit
  }

  /** The `OFFSET`/`LIMIT` window of a result list. */
  function Window(rows: seq<Build>, limit: nat, offset: nat): (r: seq<Build>)
    ensures |r| == (if offset >= |rows| then 0 else if limit <= |rows| - offset then limit else |rows| - offset)
    ensures forall j | 0 <= j < |r| :: r[j] == rows[offset + j]
    ensures forall b | b in r :: b in rows
  {
    var tail := if offset >= |rows| then [] else rows[offset..];
    if limit >= |tail| then tail else tail[..limit]
  }

  datatype Page = Page(count: nat, rows: seq<Build>, limit: nat, offset: nat, pages: Option<nat>)

  /** The `status` query parameter as a filter: none when it is absent or empty. */
  function StatusFilter(status: Field): Option<BuildStatus> {
    if Falsy(status) then None else ParseStatus(status.text)
  }

  /** One page of an already filtered result list: newest first, then the window, with the
      page count of `Math.ceil(count / limit)` (`null` for a zero limit). */
  function PageOf(all: seq<Build>, limit: nat, offset: nat): (p: Page)
    ensures p.count == |all| && p.limit == limit && p.offset == offset
    ensures |p.rows| == (if offset >= |all| then 0 else if limit <= |all| - offset then limit else |all| - offset)
    ensures forall j | 0 <= j < |p.rows| :: p.rows[j] == all[|all| - 1 - (offset + j)]
    ensures forall b | b in p.rows :: b in all
    ensures limit > 0 ==>
      && p.pages.Some?
      && p.count <= p.pages.value * limit
      && (p.pages.value == 0 || (p.pages.value - 1) * limit < p.count)
    ensures limit == 0 ==> p.pages.None? && p.rows == []
  {
    var newest := Reverse(all);
    var rows := Window(newest, limit, offset);
    assert forall j | 0 <= j < |rows| :: rows[j] == newest[offset + j];
    assert forall b | b in rows :: b in newest;
    assert forall b | b in newest :: b in all;
    Page(|all|, rows, limit, offset, if limit == 0 then None else Some(CeilDiv(|all|, limit)))
  }

  /** The page size and start used when the query leaves them out. */
  const DefaultLimit: nat := 50
  const DefaultOffset: nat := 0

  /** `getAllBuilds`: filter, newest first (rows are stored in creation order), then the
      `offset`/`limit` window. `limit` and `offset` are the parsed query values, `None` when the
      query leaves them out. A negative window bound is refused by the database; with a zero
      limit the page count divides by zero and serialises as `null`. */
  function ListBuilds(st: Store, projectId: Field, status: Field, limit: Option<int>, offset: Option<int>): (r: Result<Page>)
    ensures limit.GetOr(DefaultLimit) < 0 || offset.GetOr(DefaultOffset) < 0 ==> r.Err?
    ensures !Falsy(status) && ParseStatus(status.text).None? ==> r.Err?
    ensures r.Ok? <==> limit.GetOr(DefaultLimit) >= 0 && offset.GetOr(DefaultOffset) >= 0
                       && (Falsy(status) || ParseStatus(status.text).Some?)
    ensures r.Ok? ==> r.value == PageOf(Filtered(st.builds, projectId, StatusFilter(status)),
                                        limit.GetOr(DefaultLimit), offset.GetOr(DefaultOffset))
    ensures r.Ok? && limit.None? && offset.None? ==> r.value.limit == 50 && r.value.offset == 0
    ensures r.Ok? ==> forall b | b in r.value.rows :: b in st.builds && Matches(b, projectId, StatusFilter(status))
  {
    var l := limit.GetOr(DefaultLimit);
    var o := offset.GetOr(DefaultOffset);
    if l < 0 || o < 0 then Err(ServerError("LIMIT and OFFSET must not be negative"))
    else if !Falsy(status) && ParseStatus(status.text).None? then
      Err(ServerError("invalid input value for enum status"))
    else
      Ok(PageOf(Filtered(st.builds, projectId, StatusFilter(status)), l, o))
  }
}
