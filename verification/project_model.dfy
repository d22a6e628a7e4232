/** The `Project` record: a tracked repository with its build configuration and rollup counters. */
module ProjectModel {
  import opened Outcomes
  import opened BuildModel
  import opened Text

  datatype ProjectStatus = Active | Inactive | Archived

  /** The `lastBuildStatus` enum: it has no `cancelled` word. */
  datatype LastStatus = LastSuccess | LastFailed | LastRunning | LastPending

  function ParseProjectStatus(word: string): (r: Option<ProjectStatus>)
    ensures r == Some(Active) <==> word == "active"
    ensures r == Some(Inactive) <==> word == "inactive"
    ensures r == Some(Archived) <==> word == "archived"
  {
    if word == "active" then Some(Active)
    else if word == "inactive" then Some(Inactive)
    else if word == "archived" then Some(Archived)
    else None
  }

  /** The rollup mirror of a build status; `Cancelled` has no counterpart. */
  function AsLastStatus(s: BuildStatus): (r: Option<LastStatus>)
    ensures r.None? <==> s == Cancelled
  {
    match s
    case Pending => Some(LastPending)
    case Running => Some(LastRunning)
    case Success => Some(LastSuccess)
    case Failed => Some(LastFailed)
    case Cancelled => None
  }

  datatype Project = Project(
    id: Id,
    name: string,
    description: Option<string>,
    repository: string,
    branch: string,
    buildCommand: string,
    deployCommand: Option<string>,
    status: ProjectStatus,
    lastBuildAt: Option<Timestamp>,
    lastBuildStatus: Option<LastStatus>,
    totalBuilds: int,
    successfulBuilds: int,
    failedBuilds: int)

  const NameMin: nat := 3
  const NameMax: nat := 100
  const RepositoryMax: nat := 500
  const BranchMax: nat := 100
  const DefaultBranch: string := "main"

  /** The `name` validators: `notEmpty` (which refuses whitespace-only text too) and a length
      between 3 and 100 characters. */
  predicate ValidName(name: string) {
    !Blank(name) && NameMin <= |name| <= NameMax
  }

  /** The `repository` validators: not empty, a URL, and within the column width. */
  predicate ValidRepository(repository: string, isUrl: string -> bool) {
    !Blank(repository) && isUrl(repository) && |repository| <= RepositoryMax
  }

  predicate ValidBranch(branch: string) {
    |branch| <= BranchMax
  }

  predicate ValidBuildCommand(command: string) {
    !Blank(command)
  }

  /** Every column constraint of a stored project, with counters that never went below 0. */
  predicate ValidProject(p: Project, isUrl: string -> bool) {
    && ValidName(p.name)
    && ValidRepository(p.repository, isUrl)
    && ValidBranch(p.branch)
    && ValidBuildCommand(p.buildCommand)
    && p.totalBuilds >= 0 && p.successfulBuilds >= 0 && p.failedBuilds >= 0
  }

  /** A freshly inserted project: counters start at 0, no build yet. */
  function NewProject(id: Id, name: string, description: Option<string>, repository: string,
                      branch: string, buildCommand: string, deployCommand: Option<string>,
                      status: ProjectStatus): (p: Project)
    ensures p.totalBuilds == 0 && p.successfulBuilds == 0 && p.failedBuilds == 0
    ensures p.lastBuildAt.None? && p.lastBuildStatus.None?
  {
    Project(id, name, description, repository, branch, buildCommand, deployCommand, status,
            None, None, 0, 0, 0)
  }
}
