/** Every write of the model keeps the tables' invariant: projects keyed by id with unique,
    valid names and non-negative counters; builds with unique ids, per-project distinct numbers
    from 1 up, fitting columns, and an existing owner. */
module Invariants {
  import opened Outcomes
  import opened BuildModel
  import opened ProjectModel
  import opened Database
  import opened Pipeline
  import opened BuildController
  import opened ProjectController

  lemma CreateKeepsValid(st: Store, body: ProjectBody, newId: Id, isUrl: string -> bool)
    requires Valid(st, isUrl) && newId !in st.projects
    requires CreateProject(st, body, newId, isUrl).Ok?
    ensures Valid(CreateProject(st, body, newId, isUrl).value.store, isUrl)
  {
    var c := CreateProject(st, body, newId, isUrl).value;
    assert forall k | k in st.projects :: st.projects[k].name != c.project.name;
  }

  lemma UpdateKeepsValid(st: Store, id: Id, body: ProjectBody, isUrl: string -> bool)
    requires Valid(st, isUrl)
    requires UpdateProject(st, id, body, isUrl).Ok?
    ensures Valid(UpdateProject(st, id, body, isUrl).value, isUrl)
  {
    var r := UpdateProject(st, id, body, isUrl).value;
    var prior := st.projects[id];
    var q := r.projects[id];
    assert ValidProject(q, isUrl);
    forall k1, k2 | k1 in r.projects && k2 in r.projects && k1 != k2
      ensures r.projects[k1].name != r.projects[k2].name
    {
      if k1 == id || k2 == id {
        var other := if k1 == id then k2 else k1;
        if q.name != prior.name {
          assert !NameTaken(st.projects, q.name);
          assert st.projects[other].name != q.name;
        }
      }
    }
  }

  /** Every row the cascade leaves after the first comes from the rows after the first. */
  lemma FromRest(builds: seq<Build>, projectId: Id)
    requires |builds| > 0
    ensures var w := WithoutProject(builds[1..], projectId);
      forall j | 0 <= j < |w| :: exists k | 1 <= k < |builds| :: builds[k] == w[j]
  {
    var w := WithoutProject(builds[1..], projectId);
    forall j | 0 <= j < |w| ensures exists k | 1 <= k < |builds| :: builds[k] == w[j] {
      assert w[j] in builds[1..];
      var k :| 0 <= k < |builds[1..]| && builds[1..][k] == w[j];
      assert builds[k + 1] == w[j];
    }
  }

  lemma TailUnique(builds: seq<Build>)
    requires |builds| > 0
    ensures UniqueIds(builds) ==> UniqueIds(builds[1..])
    ensures DistinctNumbers(builds) ==> DistinctNumbers(builds[1..])
  {
    var rest := builds[1..];
    assert forall a | 0 <= a < |rest| :: rest[a] == builds[a + 1];
  }

  /** Putting the first row back in front of rows drawn from the later ones keeps uniqueness. */
  lemma ConsUnique(builds: seq<Build>, w: seq<Build>)
    requires |builds| > 0
    requires forall j | 0 <= j < |w| :: exists k | 1 <= k < |builds| :: builds[k] == w[j]
    ensures UniqueIds(builds) && UniqueIds(w) ==> UniqueIds([builds[0]] + w)
    ensures DistinctNumbers(builds) && DistinctNumbers(w) ==> DistinctNumbers([builds[0]] + w)
  {
    var r := [builds[0]] + w;
    assert forall a | 1 <= a < |r| :: r[a] == w[a - 1];
    if UniqueIds(builds) && UniqueIds(w) {
      forall b | 1 <= b < |r| ensures r[0].id != r[b].id {
        var k :| 1 <= k < |builds| && builds[k] == w[b - 1];
      }
    }
    if DistinctNumbers(builds) && DistinctNumbers(w) {
      forall b | 1 <= b < |r| && r[0].projectId == r[b].projectId ensures r[0].buildNumber != r[b].buildNumber {
        var k :| 1 <= k < |builds| && builds[k] == w[b - 1];
      }
    }
  }

  /** The cascade keeps the rows it leaves in their relative order, so both uniqueness
      properties survive it. */
  lemma {:induction false} WithoutProjectKeepsUnique(builds: seq<Build>, projectId: Id)
    ensures UniqueIds(builds) ==> UniqueIds(WithoutProject(builds, projectId))
    ensures DistinctNumbers(builds) ==> DistinctNumbers(WithoutProject(builds, projectId))
    decreases |builds|
  {
    if |builds| > 0 {
      TailUnique(builds);
      WithoutProjectKeepsUnique(builds[1..], projectId);
      if builds[0].projectId != projectId {
        FromRest(builds, projectId);
        ConsUnique(builds, WithoutProject(builds[1..], projectId));
      }
    }
  }

  lemma DeleteProjectKeepsValid(st: Store, id: Id, isUrl: string -> bool)
    requires Valid(st, isUrl)
    requires DeleteProject(st, id).Ok?
    ensures Valid(DeleteProject(st, id).value, isUrl)
  {
    var r := DeleteProject(st, id).value;
    WithoutProjectKeepsUnique(st.builds, id);
    forall i | 0 <= i < |r.builds|
      ensures r.builds[i].projectId in r.projects && FitsColumns(r.builds[i]) && r.builds[i].buildNumber >= 1
    {
      assert r.builds[i] in st.builds;
    }
  }

  /** Appending a row with a fresh id and a number above its project's others keeps the build
      table's part of the invariant. */
  lemma AppendKeepsRows(builds: seq<Build>, b: Build, projects: map<Id, Project>)
    requires UniqueIds(builds) && DistinctNumbers(builds) && RowsOk(builds, projects)
    requires !HasBuild(builds, b.id)
    requires forall i | 0 <= i < |builds| && builds[i].projectId == b.projectId :: builds[i].buildNumber < b.buildNumber
    requires b.projectId in projects && FitsColumns(b) && b.buildNumber >= 1
    ensures UniqueIds(builds + [b]) && DistinctNumbers(builds + [b]) && RowsOk(builds + [b], projects)
  {
    var rows := builds + [b];
    assert forall i | 0 <= i < |builds| :: rows[i] == builds[i];
  }

  /** Bumping a project's counters and last-build fields keeps the project table's part. */
  lemma BumpKeepsProjects(projects: map<Id, Project>, pid: Id, q: Project, isUrl: string -> bool)
    requires KeyedById(projects) && UniqueNames(projects) && ProjectsValid(projects, isUrl)
    requires pid in projects
    requires q.id == projects[pid].id && q.name == projects[pid].name && q.repository == projects[pid].repository
    requires q.branch == projects[pid].branch && q.buildCommand == projects[pid].buildCommand
    requires q.totalBuilds >= 0 && q.successfulBuilds >= 0 && q.failedBuilds >= 0
    ensures KeyedById(projects[pid := q]) && UniqueNames(projects[pid := q]) && ProjectsValid(projects[pid := q], isUrl)
  {
    var r := projects[pid := q];
    assert forall k | k in r :: r[k].name == projects[k].name;
  }

  /** With every stored number at least 1, so is the next one. */
  lemma NextNumberPositive(builds: seq<Build>, pid: Id, projects: map<Id, Project>)
    requires RowsOk(builds, projects)
    ensures NextBuildNumber(builds, pid) >= 1
  {
    if exists i | 0 <= i < |builds| :: OwnedBy(builds[i], pid) {
      var i :| 0 <= i < |builds| && OwnedBy(builds[i], pid);
      assert builds[i].buildNumber >= 1;
    }
  }

  lemma TriggerKeepsValid(st: Store, req: TriggerRequest, newId: Id, now: Timestamp, generatedCommit: string,
                          isUrl: string -> bool)
    requires Valid(st, isUrl) && !HasBuild(st.builds, newId)
    requires |generatedCommit| <= GeneratedCommitWidth
    requires Trigger(st, req, newId, now, generatedCommit).Ok?
    ensures Valid(Trigger(st, req, newId, now, generatedCommit).value.store, isUrl)
  {
    var t := Trigger(st, req, newId, now, generatedCommit).value;
    var pid := req.projectId.text;
    NextNumberPositive(st.builds, pid, st.projects);
    BumpKeepsProjects(st.projects, pid, t.store.projects[pid], isUrl);
    assert t.store.projects == st.projects[pid := t.store.projects[pid]];
    AppendKeepsRows(st.builds, t.build, t.store.projects);
  }

  lemma CancelKeepsValid(st: Store, id: Id, now: Timestamp, isUrl: string -> bool)
    requires Valid(st, isUrl)
    requires Cancel(st, id, now).Ok?
    ensures Valid(Cancel(st, id, now).value.store, isUrl)
  {
    var b := FindBuild(st, id).value;
    SaveBuildKeepsValid(st, id, Patch(Some(Cancelled), None, Some(now), Some(b.logs + CancelLog)), isUrl);
  }

  /** Removing a row keeps the build table's part of the invariant. */
  lemma RemoveKeepsRows(builds: seq<Build>, i: nat, projects: map<Id, Project>)
    requires i < |builds|
    requires UniqueIds(builds) && DistinctNumbers(builds) && RowsOk(builds, projects)
    ensures UniqueIds(RemoveAt(builds, i)) && DistinctNumbers(RemoveAt(builds, i)) && RowsOk(RemoveAt(builds, i), projects)
  {
    var rows := RemoveAt(builds, i);
    assert forall a | 0 <= a < |rows| :: rows[a] == builds[if a < i then a else a + 1];
  }

  lemma DeleteBuildKeepsValid(st: Store, id: Id, isUrl: string -> bool)
    requires Valid(st, isUrl)
    requires DeleteBuild(st, id).Ok?
    ensures Valid(DeleteBuild(st, id).value, isUrl)
  {
    var i := IndexOf(st.builds, id).value;
    RemoveKeepsRows(st.builds, i, st.projects);
    assert DeleteBuild(st, id).value == st.(builds := RemoveAt(st.builds, i));
  }

  lemma StartKeepsValid(st: Store, run: Run, now: Timestamp, isUrl: string -> bool)
    requires Valid(st, isUrl) && run.phase == Queued
    ensures Valid(Start(st, run, now).store, isUrl)
  {
    SaveBuildKeepsValid(st, run.build.id, Patch(Some(Running), Some(now), None, Some(run.build.logs + StartedLog)), isUrl);
  }

  lemma StepKeepsValid(st: Store, run: Run, isUrl: string -> bool)
    requires Valid(st, isUrl) && run.phase.InSteps? && run.phase.stepsDone < StepCount
    ensures Valid(Step(st, run).store, isUrl)
  {
    SaveBuildKeepsValid(st, run.build.id, Patch(None, None, None, Some(run.build.logs + StepLog(run.phase.stepsDone))), isUrl);
  }

  lemma FaultKeepsValid(st: Store, run: Run, message: string, now: Timestamp, isUrl: string -> bool)
    requires Valid(st, isUrl) && (run.phase == Queued || run.phase.InSteps? || run.phase.Concluded?)
    ensures Valid(Fault(st, run, message, now).store, isUrl)
  {
    SaveBuildKeepsValid(st, run.build.id, Patch(Some(Failed), None, Some(now), Some(run.build.logs + FaultLog(message))), isUrl);
  }

  /** Completion keeps the invariant as long as the pipeline's own project instance has
      non-negative counters, as every instance read from a valid store has. */
  lemma FinishKeepsValid(st: Store, run: Run, succeeded: bool, now: Timestamp, isUrl: string -> bool)
    requires Valid(st, isUrl) && run.phase == InSteps(StepCount)
    requires run.project.successfulBuilds >= 0 && run.project.failedBuilds >= 0
    ensures Valid(Finish(st, run, succeeded, now).store, isUrl)
  {
    var patch := Patch(Some(Outcome(succeeded)), None, Some(now), Some(run.build.logs + TerminalLog(succeeded)));
    SaveBuildKeepsValid(st, run.build.id, patch, isUrl);
    var p := Finish(st, run, succeeded, now);
    var q := Rollup(run.project, succeeded);
    assert p.store.projects == SaveRollup(st.projects, q, succeeded);
    forall k | k in p.store.projects ensures p.store.projects[k].name == st.projects[k].name
      && ValidProject(p.store.projects[k], isUrl) && p.store.projects[k].id == st.projects[k].id
    {
    }
  }
}
