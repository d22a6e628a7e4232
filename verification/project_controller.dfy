/** The project controller: create with required fields and a unique name, the update merge
    rule, delete with its cascade to builds, and the per-project statistics. */
module ProjectController {
  import opened Outcomes
  import opened Text
  import opened BuildModel
  import opened ProjectModel
  import opened Database
  import opened Varchar
  import opened Sequences
  import opened BuildController

  /** The fields a create or update request body may carry. */
  datatype ProjectBody = ProjectBody(
    name: Field,
    description: Field,
    repository: Field,
    branch: Field,
    buildCommand: Field,
    deployCommand: Field,
    status: Field)

  const RequiredMessage: string := "Name, repository, and buildCommand are required"
  const DuplicateMessage: string := "Project with this name already exists"
  const ProjectNotFoundMessage: string := "Project not found"
  const ValidationMessage: string := "Validation error"

  predicate MissingRequired(body: ProjectBody) {
    Falsy(body.name) || Falsy(body.repository) || Falsy(body.buildCommand)
  }

  /** The schema's checks on the row an insert would write: the validators of `name`,
      `repository` and `buildCommand`, and the `varchar(100)` column of `branch`. */
  predicate Insertable(p: Project, isUrl: string -> bool) {
    && ValidName(p.name) && ValidRepository(p.repository, isUrl) && Accepts(p.branch, BranchMax)
    && ValidBuildCommand(p.buildCommand)
  }

  datatype Created = Created(store: Store, project: Project)

  /** `createProject`. The body's `status` is ignored: a new project is always active. */
  function CreateProject(st: Store, body: ProjectBody, newId: Id, isUrl: string -> bool): (r: Result<Created>)
    requires newId !in st.projects
    ensures r.Ok? <==>
      !MissingRequired(body) && !NameTaken(st.projects, body.name.text) &&
      Insertable(NewProject(newId, body.name.text, Nullable(body.description), body.repository.text,
                            OrElse(body.branch, DefaultBranch), body.buildCommand.text,
                            Nullable(body.deployCommand), Active), isUrl)
    ensures MissingRequired(body) <==> r == Err(BadRequest(RequiredMessage))
    ensures !MissingRequired(body) && NameTaken(st.projects, body.name.text) <==> r == Err(Conflict(DuplicateMessage))
    ensures r.Ok? ==>
      && r.value.store.builds == st.builds
      && r.value.store.projects == st.projects[newId := r.value.project]
      && !NameTaken(st.projects, r.value.project.name)
    ensures r.Ok? ==>
      var p := r.value.project;
      && p.id == newId && p.name == body.name.text && p.repository == body.repository.text
      && p.buildCommand == body.buildCommand.text
      && p.branch == Clip(OrElse(body.branch, DefaultBranch), BranchMax)
      && p.description == Nullable(body.description) && p.deployCommand == Nullable(body.deployCommand)
      && p.status == Active
      && p.totalBuilds == 0 && p.successfulBuilds == 0 && p.failedBuilds == 0
      && p.lastBuildAt.None? && p.lastBuildStatus.None?
      && ValidProject(p, isUrl)
    ensures r.Err? && r.error.ServerError? <==>
      !MissingRequired(body) && !NameTaken(st.projects, body.name.text) &&
      !Insertable(NewProject(newId, body.name.text, Nullable(body.description), body.repository.text,
                             OrElse(body.branch, DefaultBranch), body.buildCommand.text,
                             Nullable(body.deployCommand), Active), isUrl)
  {
    if MissingRequired(body) then Err(BadRequest(RequiredMessage))
    else if NameTaken(st.projects, body.name.text) then Err(Conflict(DuplicateMessage))
    else
      var p := NewProject(newId, body.name.text, Nullable(body.description), body.repository.text,
                          OrElse(body.branch, DefaultBranch), body.buildCommand.text,
                          Nullable(body.deployCommand), Active);
      if Insertable(p, isUrl) then
        var stored := p.(branch := Clip(p.branch, BranchMax));
        Ok(Created(Store(st.projects[newId := stored], st.builds), stored))
      else Err(ServerError(ValidationMessage))
  }

  /** The merge of `updateProject`: `||` for the required columns and the status, `!== undefined`
      for the nullable ones. `None` when the status word is not one of the enum's. */
  function Merge(prior: Project, body: ProjectBody): (r: Option<Project>)
    ensures r.None? <==> !Falsy(body.status) && ParseProjectStatus(body.status.text).None?
    ensures r.Some? ==>
      var q := r.value;
      && q.id == prior.id
      && (Falsy(body.name) ==> q.name == prior.name) && (!Falsy(body.name) ==> q.name == body.name.text)
      && (Falsy(body.repository) ==> q.repository == prior.repository)
      && (!Falsy(body.repository) ==> q.repository == body.repository.text)
      && (Falsy(body.branch) ==> q.branch == prior.branch) && (!Falsy(body.branch) ==> q.branch == body.branch.text)
      && (Falsy(body.buildCommand) ==> q.buildCommand == prior.buildCommand)
      && (!Falsy(body.buildCommand) ==> q.buildCommand == body.buildCommand.text)
      && (Falsy(body.status) ==> q.status == prior.status)
      && (!Falsy(body.status) ==> q.status == ParseProjectStatus(body.status.text).value)
      && (body.description.Undefined? ==> q.description == prior.description)
      && (!body.description.Undefined? ==> q.description == Nullable(body.description))
      && (body.deployCommand.Undefined? ==> q.deployCommand == prior.deployCommand)
      && (!body.deployCommand.Undefined? ==> q.deployCommand == Nullable(body.deployCommand))
      && q.lastBuildAt == prior.lastBuildAt && q.lastBuildStatus == prior.lastBuildStatus
      && q.totalBuilds == prior.totalBuilds && q.successfulBuilds == prior.successfulBuilds
      && q.failedBuilds == prior.failedBuilds
  {
    var status := if Falsy(body.status) then Some(prior.status) else ParseProjectStatus(body.status.text);
    if status.None? then None
    else
      Some(prior.(
        name := OrElse(body.name, prior.name),
        description := if body.description.Undefined? then prior.description else Nullable(body.description),
        repository := OrElse(body.repository, prior.repository),
        branch := OrElse(body.branch, prior.branch),
        buildCommand := OrElse(body.buildCommand, prior.buildCommand),
        deployCommand := if body.deployCommand.Undefined? then prior.deployCommand else Nullable(body.deployCommand),
        status := status.value))
  }

  /** The save after an update validates, and writes, only the attributes whose value changed. */
  predicate ChangedValid(prior: Project, q: Project, isUrl: string -> bool) {
    && (q.name != prior.name ==> ValidName(q.name))
    && (q.repository != prior.repository ==> ValidRepository(q.repository, isUrl))
    && (q.branch != prior.branch ==> Accepts(q.branch, BranchMax))
    && (q.buildCommand != prior.buildCommand ==> ValidBuildCommand(q.buildCommand))
  }

  /** A truthy new name different from the current one that another project already has. */
  predicate RenameConflict(projects: map<Id, Project>, id: Id, body: ProjectBody)
    requires id in projects
  {
    !Falsy(body.name) && body.name.text != projects[id].name && NameTaken(projects, body.name.text)
  }

  /** `updateProject`. */
  function UpdateProject(st: Store, id: Id, body: ProjectBody, isUrl: string -> bool): (r: Result<Store>)
    ensures r.Ok? <==>
      id in st.projects && !RenameConflict(st.projects, id, body) && Merge(st.projects[id], body).Some? &&
      ChangedValid(st.projects[id], Merge(st.projects[id], body).value, isUrl)
    ensures id !in st.projects <==> r == Err(NotFound(ProjectNotFoundMessage))
    ensures id in st.projects && RenameConflict(st.projects, id, body) <==> r == Err(Conflict(DuplicateMessage))
    ensures r.Ok? ==>
      && id in st.projects
      && r.value.builds == st.builds
      && r.value.projects.Keys == st.projects.Keys
      && (forall k | k in st.projects && k != id :: r.value.projects[k] == st.projects[k])
      && Merge(st.projects[id], body).Some?
      && var prior := st.projects[id];
         var q := Merge(prior, body).value;
         && ChangedValid(prior, q, isUrl)
         && r.value.projects[id] == q.(branch := if q.branch == prior.branch then prior.branch else Clip(q.branch, BranchMax))
    ensures r.Err? && r.error.ServerError? <==>
      id in st.projects && !RenameConflict(st.projects, id, body) &&
      (Merge(st.projects[id], body).None? || !ChangedValid(st.projects[id], Merge(st.projects[id], body).value, isUrl))
  {
    if id !in st.projects then Err(NotFound(ProjectNotFoundMessage))
    else if RenameConflict(st.projects, id, body) then Err(Conflict(DuplicateMessage))
    else
      var prior := st.projects[id];
      match Merge(prior, body)
      case None => Err(ServerError(ValidationMessage))
      case Some(q) =>
        if ChangedValid(prior, q, isUrl) then
          var saved := q.(branch := if q.branch == prior.branch then prior.branch else Clip(q.branch, BranchMax));
          Ok(Store(st.projects[id := saved], st.builds))
        else Err(ServerError(ValidationMessage))
  }

  /** `deleteProject`: the row goes, and the foreign key's cascade takes its builds with it. */
  function DeleteProject(st: Store, id: Id): (r: Result<Store>)
    ensures id !in st.projects <==> r == Err(NotFound(ProjectNotFoundMessage))
    ensures r.Ok? <==> id in st.projects
    ensures r.Ok? ==>
      && r.value.projects == st.projects - {id}
      && (forall b :: b in r.value.builds <==> b in st.builds && b.projectId != id)
      && Sublist(r.value.builds, st.builds)
      && |r.value.builds| == |st.builds| - |BuildsOf(st.builds, id)|
  {
    if id !in st.projects then Err(NotFound(ProjectNotFoundMessage))
    else
      CascadeSplits(st.builds, id);
      Ok(Store(st.projects - {id}, WithoutProject(st.builds, id)))
  }

  // ---- statistics ----

  /** The builds of one project, in table order. */
  function BuildsOf(builds: seq<Build>, projectId: Id): (r: seq<Build>)
    ensures |r| <= |builds|
    ensures forall b :: b in r <==> b in builds && b.projectId == projectId
  {
    if |builds| == 0 then []
    else if builds[0].projectId == projectId then [builds[0]] + BuildsOf(builds[1..], projectId)
    else BuildsOf(builds[1..], projectId)
  }

  /** A project's rows and the rows its deletion leaves split the table between them. */
  lemma {:induction false} CascadeSplits(builds: seq<Build>, projectId: Id)
    ensures |WithoutProject(builds, projectId)| + |BuildsOf(builds, projectId)| == |builds|
    decreases |builds|
  {
    if |builds| > 0 {
      CascadeSplits(builds[1..], projectId);
    }
  }

  /** The statistics' rows of a project are the list endpoint's rows filtered by that project. */
  lemma {:induction false} BuildsOfIsFiltered(builds: seq<Build>, projectId: Id)
    requires projectId != ""
    ensures BuildsOf(builds, projectId) == Filtered(builds, Given(projectId), None)
    decreases |builds|
  {
    if |builds| > 0 {
      BuildsOfIsFiltered(builds[1..], projectId);
    }
  }

  function CountStatus(builds: seq<Build>, s: BuildStatus): (n: nat)
    ensures n <= |builds|
    ensures n == 0 <==> forall i | 0 <= i < |builds| :: builds[i].status != s
  {
    if |builds| == 0 then 0
    else (if builds[0].status == s then 1 else 0) + CountStatus(builds[1..], s)
  }

  /** The number of builds with a non-null duration, and the sum of those durations. */
  function TimedCount(builds: seq<Build>): (n: nat)
    ensures n <= |builds|
    ensures n == 0 <==> forall i | 0 <= i < |builds| :: Duration(builds[i]).None?
  {
    if |builds| == 0 then 0
    else (if Duration(builds[0]).Some? then 1 else 0) + TimedCount(builds[1..])
  }

  function DurationSum(builds: seq<Build>): int {
    if |builds| == 0 then 0
    else (if Duration(builds[0]).Some? then Duration(builds[0]).value else 0) + DurationSum(builds[1..])
  }

  /** `Math.round(sum / n)`, or 0 when there is nothing to average: the nearest integer to the
      mean, halves rounded up. */
  function RoundedMean(sum: int, n: nat): (r: int)
    ensures n == 0 ==> r == 0
    ensures n > 0 ==> 2 * sum - n < 2 * n * r <= 2 * sum + n
  {
    if n == 0 then 0
    else
      var q := (2 * sum + n) / (2 * n);
      assert q * (2 * n) <= 2 * sum + n < q * (2 * n) + 2 * n;
      q
  }

  datatype Stats = Stats(
    projectName: string,
    totalBuilds: nat,
    successBuilds: nat,
    failedBuilds: nat,
    runningBuilds: nat,
    pendingBuilds: nat,
    avgDuration: int,
    lastBuildAt: Option<Timestamp>,
    lastBuildStatus: Option<LastStatus>)

  /** The statistics over the builds as loaded. */
  function StatsOver(project: Project, builds: seq<Build>): Stats {
    Stats(project.name, |builds|, CountStatus(builds, Success), CountStatus(builds, Failed),
          CountStatus(builds, Running), CountStatus(builds, Pending),
          RoundedMean(DurationSum(builds), TimedCount(builds)),
          project.lastBuildAt, project.lastBuildStatus)
  }

  /** The build rows as the statistics query loads them: only `status`, `duration` and
      `createdAt` are selected, and `duration` is a virtual attribute with no declared
      dependencies, so neither timestamp it is computed from is loaded. */
  function AsSelected(b: Build): (r: Build)
    ensures r.status == b.status && r.id == b.id && r.projectId == b.projectId
    ensures r.startedAt.None? && r.completedAt.None?
  {
    b.(startedAt := None, completedAt := None)
  }

  function SelectAll(builds: seq<Build>): (r: seq<Build>)
    ensures |r| == |builds|
    ensures forall i | 0 <= i < |builds| :: r[i] == AsSelected(builds[i])
  {
    seq(|builds|, i requires 0 <= i < |builds| => AsSelected(builds[i]))
  }

  /** `getProjectStats` as written: the statistics over the rows the query actually loads. */
  function ProjectStatsAsWritten(st: Store, id: Id): (r: Result<Stats>)
    ensures id !in st.projects <==> r == Err(NotFound(ProjectNotFoundMessage))
    ensures r.Ok? <==> id in st.projects
    ensures r.Ok? ==> r.value == StatsOver(st.projects[id], SelectAll(BuildsOf(st.builds, id)))
  {
    if id !in st.projects then Err(NotFound(ProjectNotFoundMessage))
    else Ok(StatsOver(st.projects[id], SelectAll(BuildsOf(st.builds, id))))
  }

  /** `getProjectStats` with the timestamps loaded, as the average evidently intends. */
  function ProjectStats(st: Store, id: Id): (r: Result<Stats>)
    ensures id !in st.projects <==> r == Err(NotFound(ProjectNotFoundMessage))
    ensures r.Ok? <==> id in st.projects
    ensures r.Ok? ==>
      var builds := BuildsOf(st.builds, id);
      var s := r.value;
      && s.projectName == st.projects[id].name
      && s.totalBuilds == |builds|
      && s.successBuilds == CountStatus(builds, Success) && s.failedBuilds == CountStatus(builds, Failed)
      && s.runningBuilds == CountStatus(builds, Running) && s.pendingBuilds == CountStatus(builds, Pending)
      && (TimedCount(builds) == 0 ==> s.avgDuration == 0)
      && (TimedCount(builds) > 0 ==>
            2 * DurationSum(builds) - TimedCount(builds) < 2 * TimedCount(builds) * s.avgDuration
              <= 2 * DurationSum(builds) + TimedCount(builds))
      && s.lastBuildAt == st.projects[id].lastBuildAt && s.lastBuildStatus == st.projects[id].lastBuildStatus
  {
    if id !in st.projects then Err(NotFound(ProjectNotFoundMessage))
    else Ok(StatsOver(st.projects[id], BuildsOf(st.builds, id)))
  }

  /** The four counted statuses and the cancelled builds partition the project's builds. */
  lemma {:induction false} StatusCountsPartition(builds: seq<Build>)
    ensures CountStatus(builds, Success) + CountStatus(builds, Failed) + CountStatus(builds, Running)
            + CountStatus(builds, Pending) + CountStatus(builds, Cancelled) == |builds|
  {
    if |builds| > 0 {
      StatusCountsPartition(builds[1..]);
    }
  }

  lemma StatsCountCancelled(st: Store, id: Id)
    requires id in st.projects
    ensures
      var s := ProjectStats(st, id).value;
      && s.successBuilds + s.failedBuilds + s.runningBuilds + s.pendingBuilds <= s.totalBuilds
      && s.totalBuilds - (s.successBuilds + s.failedBuilds + s.runningBuilds + s.pendingBuilds)
           == CountStatus(BuildsOf(st.builds, id), Cancelled)
  {
    StatusCountsPartition(BuildsOf(st.builds, id));
  }

  /** No row the statistics query loads has a duration. */
  lemma {:induction false} SelectedUntimed(builds: seq<Build>)
    ensures TimedCount(SelectAll(builds)) == 0
  {
    var r := SelectAll(builds);
    forall i | 0 <= i < |r| ensures Duration(r[i]).None? {
      assert r[i] == AsSelected(builds[i]);
    }
  }

  /** As written, the average build duration is always reported as 0, whatever the builds'
      timestamps. */
  lemma AverageAlwaysZeroAsWritten(st: Store, id: Id)
    requires id in st.projects
    ensures ProjectStatsAsWritten(st, id).value.avgDuration == 0
  {
    SelectedUntimed(BuildsOf(st.builds, id));
  }

  /** A concrete store that shows the discrepancy: one build that ran for 5 seconds. */
  lemma AverageDiscrepancyExample()
    ensures
      var p := NewProject("p", "web", None, "https://example.com/web.git", "main", "npm run build", None, Active);
      var b := Build("b", "p", 1, Success, None, None, None, None, None, "", Some(1000), Some(6000), Some(Manual));
      var st := Store(map["p" := p], [b]);
      && ProjectStatsAsWritten(st, "p").value.avgDuration == 0
      && ProjectStats(st, "p").value.avgDuration == 5
  {
    var p := NewProject("p", "web", None, "https://example.com/web.git", "main", "npm run build", None, Active);
    var b := Build("b", "p", 1, Success, None, None, None, None, None, "", Some(1000), Some(6000), Some(Manual));
    var st := Store(map["p" := p], [b]);
    assert BuildsOf(st.builds, "p") == [b];
    AverageAlwaysZeroAsWritten(st, "p");
    assert Duration(b) == Some(5);
    assert TimedCount([b]) == 1 && DurationSum([b]) == 5;
  }

  /** When every timed build's duration lies in `[lo, hi]`, the sum over the `n` of them lies
      in `[lo * n, hi * n]`. */
  lemma {:induction false} DurationSumBounds(builds: seq<Build>, lo: int, hi: int)
    requires forall i | 0 <= i < |builds| && Duration(builds[i]).Some? :: lo <= Duration(builds[i]).value <= hi
    ensures lo * TimedCount(builds) <= DurationSum(builds) <= hi * TimedCount(builds)
  {
    if |builds| > 0 {
      var rest := builds[1..];
      assert forall i | 0 <= i < |rest| && Duration(rest[i]).Some? :: lo <= Duration(rest[i]).value <= hi by {
        forall i | 0 <= i < |rest| && Duration(rest[i]).Some? ensures lo <= Duration(rest[i]).value <= hi {
          assert rest[i] == builds[i + 1];
        }
      }
      DurationSumBounds(rest, lo, hi);
      var t := TimedCount(rest);
      var sum := DurationSum(rest);
      if Duration(builds[0]).Some? {
        var d := Duration(builds[0]).value;
        assert TimedCount(builds) == t + 1 && DurationSum(builds) == d + sum;
        assert lo <= d <= hi;
        DistributeOne(lo, t);
        DistributeOne(hi, t);
      } else {
        assert TimedCount(builds) == t && DurationSum(builds) == sum;
      }
    }
  }

  lemma DistributeOne(a: int, t: int)
    ensures a * (t + 1) == a * t + a
  {
  }

  lemma MulMono(n: nat, a: int, b: int)
    requires a <= b
    ensures n * a <= n * b
  {
    assert n * b - n * a == n * (b - a);
  }

  /** A half-up rounding of a mean of values in `[lo, hi]` stays in `[lo, hi]`. */
  lemma RoundedMeanWithin(sum: int, n: nat, r: int, lo: int, hi: int)
    requires n > 0
    requires lo * n <= sum <= hi * n
    requires 2 * sum - n < 2 * n * r <= 2 * sum + n
    ensures lo <= r <= hi
  {
    if r > hi {
      MulMono(n, hi + 1, r);
      assert false;
    }
    if r < lo {
      MulMono(n, r, lo - 1);
      assert false;
    }
  }

  /** The reported average lies within the range of the durations it averages. */
  lemma AverageWithinRange(st: Store, id: Id, lo: int, hi: int)
    requires id in st.projects
    requires var builds := BuildsOf(st.builds, id);
      forall i | 0 <= i < |builds| && Duration(builds[i]).Some? :: lo <= Duration(builds[i]).value <= hi
    requires TimedCount(BuildsOf(st.builds, id)) > 0
    ensures lo <= ProjectStats(st, id).value.avgDuration <= hi
  {
    var builds := BuildsOf(st.builds, id);
    DurationSumBounds(builds, lo, hi);
    assert lo * TimedCount(builds) == TimedCount(builds) * lo;
    assert hi * TimedCount(builds) == TimedCount(builds) * hi;
    RoundedMeanWithin(DurationSum(builds), TimedCount(builds), ProjectStats(st, id).value.avgDuration, lo, hi);
  }
}
