/** The simulated build pipeline, one function per step: `Start`, `Step(i)`, `Finish(outcome)`
    (the terminal write `Conclude` followed by the roll-up and broadcast `Report`) and the
    catch-all `Fault(message)`. The pipeline works on its own copies of the build and
    project rows (a `Run`), as the controller's instances are, and writes through to the store
    only the attributes each step updates. It never consults the stored status, so a cancel that
    lands between two steps is overwritten by the next write. */
module Pipeline {
  import opened Outcomes
  import opened BuildModel
  import opened ProjectModel
  import opened Events
  import opened Database

  /** Where the pipeline's control flow is: before the start, after `stepsDone` of the four
      steps, after the terminal build write of the drawn outcome, after the roll-up, or after the
      fault handler. */
  datatype Phase = Queued | InSteps(stepsDone: nat) | Concluded(succeeded: bool) | Completed | Faulted

  /** The pipeline's own in-memory build and project instances. */
  datatype Run = Run(build: Build, project: Project, phase: Phase)

  datatype Progress = Progress(store: Store, run: Run, events: seq<Event>)

  const QueuedLog: string := "[INFO] Build queued...\n"
  const StartedLog: string := "[INFO] Build started...\n[INFO] Cloning repository...\n"
  const StepCount: nat := 4

  /** The log fragment of step `i` (install, test, bundle, optimise). */
  function StepLog(i: nat): string
    requires i < StepCount
  {
    if i == 0 then "[INFO] Installing dependencies...\n"
    else if i == 1 then "[INFO] Running tests...\n[TEST] \U{2713} All tests passed\n"
    else if i == 2 then "[INFO] Building production bundle...\n"
    else "[BUILD] Optimizing assets...\n"
  }
  const SuccessLog: string := "[BUILD] \U{2713} Build completed successfully\n[SUCCESS] Deployment ready!\n"
  const FailureLog: string := "[ERROR] Build failed: Module not found\n[FAILED] Build terminated\n"

  function FaultLog(message: string): string {
    "[ERROR] Internal error: " + message + "\n"
  }

  /** The log after the first `k` steps appended their fragments, in order, to `base`. */
  function AfterSteps(base: string, k: nat): string
    requires k <= StepCount
  {
    if k == 0 then base else AfterSteps(base, k - 1) + StepLog(k - 1)
  }

  function Outcome(succeeded: bool): BuildStatus {
    if succeeded then Success else Failed
  }

  function TerminalLog(succeeded: bool): string {
    if succeeded then SuccessLog else FailureLog
  }

  /** The transcript a fault-free run leaves behind, starting from the log it was queued with. */
  function FullLog(queued: string, succeeded: bool): string {
    AfterSteps(queued + StartedLog, StepCount) + TerminalLog(succeeded)
  }

  predicate IsPrefix(a: string, b: string) {
    |a| <= |b| && b[..|a|] == a
  }

  lemma PrefixOfExtension(a: string, b: string, c: string)
    requires IsPrefix(a, b)
    ensures IsPrefix(a, b + c)
  {
    assert (b + c)[..|a|] == b[..|a|];
  }

  /** `pending -> running`: stamps `startedAt`, appends the start fragment, and sends the new
      status with the whole log to the build's room. */
  function Start(st: Store, run: Run, now: Timestamp): (p: Progress)
    requires run.phase == Queued
    ensures p.run.phase == InSteps(0) && p.run.project == run.project
    ensures p.run.build.status == Running && p.run.build.startedAt == Some(now)
    ensures p.run.build.completedAt == run.build.completedAt
    ensures p.run.build.logs == run.build.logs + StartedLog
    ensures p.store.projects == st.projects
    ensures FindBuild(st, run.build.id).Some? ==>
      var b := FindBuild(st, run.build.id).value;
      FindBuild(p.store, run.build.id) == Some(b.(status := Running, startedAt := Some(now), logs := p.run.build.logs))
    ensures FindBuild(st, run.build.id).None? ==> p.store == st
    ensures p.events == [StatusChanged(run.build.id, Running, p.run.build.logs)]
  {
    var logs := run.build.logs + StartedLog;
    var patch := Patch(Some(Running), Some(now), None, Some(logs));
    var build := Apply(run.build, patch);
    Progress(SaveBuild(st, run.build.id, patch), Run(build, run.project, InSteps(0)),
             [StatusChanged(build.id, Running, logs)])
  }

  /** One of the four ordered steps: appends its fragment, saves the log, and sends the whole
      log to the build's room. */
  function Step(st: Store, run: Run): (p: Progress)
    requires run.phase.InSteps? && run.phase.stepsDone < StepCount
    ensures p.run.phase == InSteps(run.phase.stepsDone + 1) && p.run.project == run.project
    ensures p.run.build == run.build.(logs := run.build.logs + StepLog(run.phase.stepsDone))
    ensures p.store.projects == st.projects
    ensures FindBuild(st, run.build.id).Some? ==>
      var b := FindBuild(st, run.build.id).value;
      FindBuild(p.store, run.build.id) == Some(b.(logs := p.run.build.logs))
    ensures FindBuild(st, run.build.id).None? ==> p.store == st
    ensures p.events == [LogsAppended(run.build.id, p.run.build.logs)]
  {
    var logs := run.build.logs + StepLog(run.phase.stepsDone);
    var patch := Patch(None, None, None, Some(logs));
    Progress(SaveBuild(st, run.build.id, patch), Run(Apply(run.build, patch), run.project, InSteps(run.phase.stepsDone + 1)),
             [LogsAppended(run.build.id, logs)])
  }

  /** The pipeline instance's project after the rollup update for an outcome. */
  function Rollup(project: Project, succeeded: bool): (q: Project)
    ensures succeeded ==> q.successfulBuilds == project.successfulBuilds + 1 && q.failedBuilds == project.failedBuilds
    ensures !succeeded ==> q.failedBuilds == project.failedBuilds + 1 && q.successfulBuilds == project.successfulBuilds
    ensures q.lastBuildStatus == AsLastStatus(Outcome(succeeded))
    ensures q.totalBuilds == project.totalBuilds
    ensures q.(successfulBuilds := project.successfulBuilds, failedBuilds := project.failedBuilds,
               lastBuildStatus := project.lastBuildStatus) == project
  {
    if succeeded then project.(successfulBuilds := project.successfulBuilds + 1, lastBuildStatus := Some(LastSuccess))
    else project.(failedBuilds := project.failedBuilds + 1, lastBuildStatus := Some(LastFailed))
  }

  /** Writing the counter the outcome bumped, and `lastBuildStatus`, to the stored project row. */
  function SaveRollup(projects: map<Id, Project>, q: Project, succeeded: bool): (r: map<Id, Project>)
    ensures r.Keys == projects.Keys
    ensures forall k | k in projects && k != q.id :: r[k] == projects[k]
  {
    if q.id !in projects then projects
    else
      var stored := projects[q.id];
      var written :=
        if succeeded then stored.(successfulBuilds := q.successfulBuilds, lastBuildStatus := q.lastBuildStatus)
        else stored.(failedBuilds := q.failedBuilds, lastBuildStatus := q.lastBuildStatus);
      projects[q.id := written]
  }

  /** After the last step: the outcome (decided by the caller, a random draw in the source)
      becomes the status, `completedAt` is stamped, the terminal fragment is appended, the
      project's matching counter goes up by one, and the completion is broadcast before the
      final status is sent to the build's room. */
  function Finish(st: Store, run: Run, succeeded: bool, now: Timestamp): (p: Progress)
    requires run.phase == InSteps(StepCount)
    ensures p.run.phase == Completed
    ensures p.run.build.status == Outcome(succeeded) && p.run.build.completedAt == Some(now)
    ensures p.run.build.startedAt == run.build.startedAt
    ensures p.run.build.logs == run.build.logs + TerminalLog(succeeded)
    ensures p.run.project == Rollup(run.project, succeeded)
    ensures FindBuild(st, run.build.id).Some? ==>
      var b := FindBuild(st, run.build.id).value;
      FindBuild(p.store, run.build.id) == Some(b.(status := Outcome(succeeded), completedAt := Some(now), logs := p.run.build.logs))
    ensures FindBuild(st, run.build.id).None? ==> p.store.builds == st.builds
    ensures p.store.projects == SaveRollup(st.projects, p.run.project, succeeded)
    ensures p.events == [BuildCompleted(run.build.id, run.project.id, Outcome(succeeded)),
                         StatusChanged(run.build.id, Outcome(succeeded), p.run.build.logs)]
  {
    var c := Conclude(st, run, succeeded, now);
    Report(c.store, c.run)
  }

  /** The terminal build write: the outcome becomes the status, `completedAt` is stamped and the
      terminal fragment is appended; the project is not touched yet and nothing is sent. */
  function Conclude(st: Store, run: Run, succeeded: bool, now: Timestamp): (p: Progress)
    requires run.phase == InSteps(StepCount)
    ensures p.run.phase == Concluded(succeeded) && p.run.project == run.project
    ensures p.run.build.status == Outcome(succeeded) && p.run.build.completedAt == Some(now)
    ensures p.run.build.startedAt == run.build.startedAt && p.run.build.id == run.build.id
    ensures p.run.build.logs == run.build.logs + TerminalLog(succeeded)
    ensures p.store.projects == st.projects
    ensures FindBuild(st, run.build.id).Some? ==>
      var b := FindBuild(st, run.build.id).value;
      FindBuild(p.store, run.build.id) == Some(b.(status := Outcome(succeeded), completedAt := Some(now), logs := p.run.build.logs))
    ensures FindBuild(st, run.build.id).None? ==> p.store == st
    ensures p.events == []
  {
    var patch := Patch(Some(Outcome(succeeded)), None, Some(now), Some(run.build.logs + TerminalLog(succeeded)));
    Progress(SaveBuild(st, run.build.id, patch), Run(Apply(run.build, patch), run.project, Concluded(succeeded)), [])
  }

  /** After the terminal write: the project's matching counter goes up by one, and the
      completion is broadcast before the final status is sent to the build's room. */
  function Report(st: Store, run: Run): (p: Progress)
    requires run.phase.Concluded?
    ensures p.run.phase == Completed && p.run.build == run.build
    ensures p.run.project == Rollup(run.project, run.phase.succeeded)
    ensures p.store.builds == st.builds
    ensures p.store.projects == SaveRollup(st.projects, p.run.project, run.phase.succeeded)
    ensures p.events == [BuildCompleted(run.build.id, run.project.id, run.build.status),
                         StatusChanged(run.build.id, run.build.status, run.build.logs)]
  {
    var succeeded := run.phase.succeeded;
    var project := Rollup(run.project, succeeded);
    Progress(st.(projects := SaveRollup(st.projects, project, succeeded)), Run(run.build, project, Completed),
             [BuildCompleted(run.build.id, run.project.id, run.build.status),
              StatusChanged(run.build.id, run.build.status, run.build.logs)])
  }

  /** The catch-all handler: whatever step faulted, the build ends `failed` with `completedAt`
      stamped and the error appended to the log the instance held; no counter moves and
      nothing is emitted. It also catches a failed roll-up after the terminal write. */
  function Fault(st: Store, run: Run, message: string, now: Timestamp): (p: Progress)
    requires run.phase == Queued || run.phase.InSteps? || run.phase.Concluded?
    ensures p.run.phase == Faulted && p.run.project == run.project
    ensures p.run.build.status == Failed && p.run.build.completedAt == Some(now)
    ensures p.run.build.logs == run.build.logs + FaultLog(message)
    ensures p.store.projects == st.projects
    ensures FindBuild(st, run.build.id).Some? ==>
      var b := FindBuild(st, run.build.id).value;
      FindBuild(p.store, run.build.id) == Some(b.(status := Failed, completedAt := Some(now), logs := p.run.build.logs))
    ensures FindBuild(st, run.build.id).None? ==> p.store == st
    ensures p.events == []
  {
    var patch := Patch(Some(Failed), None, Some(now), Some(run.build.logs + FaultLog(message)));
    Progress(SaveBuild(st, run.build.id, patch), Run(Apply(run.build, patch), run.project, Faulted), [])
  }

  /** The four steps after a start, one after the other. */
  function Steps(st: Store, run: Run, k: nat): (p: Progress)
    requires run.phase == InSteps(0) && k <= StepCount
    ensures p.run.phase == InSteps(k) && p.run.project == run.project
    ensures p.run.build == run.build.(logs := AfterSteps(run.build.logs, k))
    ensures p.store.projects == st.projects
    ensures |p.events| == k
    decreases k
  {
    if k == 0 then Progress(st, run, [])
    else
      var before := Steps(st, run, k - 1);
      var after := Step(before.store, before.run);
      Relogged(run.build, AfterSteps(run.build.logs, k - 1), AfterSteps(run.build.logs, k));
      Progress(after.store, after.run, before.events + after.events)
  }

  /** Step `i` sends the log as it stands after fragment `i`: every `build-logs` event carries the
      whole log so far. */
  lemma {:induction false} StepsEvents(st: Store, run: Run, k: nat)
    requires run.phase == InSteps(0) && k <= StepCount
    ensures forall i | 0 <= i < k ::
      Steps(st, run, k).events[i] == LogsAppended(run.build.id, AfterSteps(run.build.logs, i + 1))
    decreases k
  {
    if k > 0 {
      StepsEvents(st, run, k - 1);
      var before := Steps(st, run, k - 1);
      var after := Step(before.store, before.run);
      var p := Steps(st, run, k);
      assert p.events == before.events + after.events;
      forall i | 0 <= i < k
        ensures p.events[i] == LogsAppended(run.build.id, AfterSteps(run.build.logs, i + 1))
      {
        if i < k - 1 {
          assert p.events[i] == before.events[i];
        } else {
          assert p.events[i] == after.events[0];
        }
      }
    }
  }

  /** After `k > 0` steps the stored row holds exactly the pipeline's log, and nothing else of
      it changed; a row that is gone stays gone. */
  lemma StepsStore(st: Store, run: Run, k: nat)
    requires run.phase == InSteps(0) && k <= StepCount
    ensures FindBuild(st, run.build.id).Some? && k > 0 ==>
      FindBuild(Steps(st, run, k).store, run.build.id)
        == Some(FindBuild(st, run.build.id).value.(logs := AfterSteps(run.build.logs, k)))
    ensures FindBuild(st, run.build.id).None? ==> Steps(st, run, k).store == st
  {
    if FindBuild(st, run.build.id).Some? {
      if k > 0 {
        StepsRewriteRow(st, run, k);
      }
    } else {
      StepsMissRow(st, run, k);
    }
  }

  lemma {:induction false} StepsRewriteRow(st: Store, run: Run, k: nat)
    requires run.phase == InSteps(0) && 0 < k <= StepCount
    requires FindBuild(st, run.build.id).Some?
    ensures FindBuild(Steps(st, run, k).store, run.build.id)
      == Some(FindBuild(st, run.build.id).value.(logs := AfterSteps(run.build.logs, k)))
    decreases k
  {
    var before := Steps(st, run, k - 1);
    var found := FindBuild(before.store, run.build.id);
    if k == 1 {
      assert before.store == st;
    } else {
      StepsRewriteRow(st, run, k - 1);
    }
    StepKeepsRow(before.store, before.run, found);
    var after := Step(before.store, before.run);
    assert Steps(st, run, k).store == after.store;
    if k > 1 {
      Relogged(FindBuild(st, run.build.id).value, AfterSteps(run.build.logs, k - 1), after.run.build.logs);
    }
  }

  lemma {:induction false} StepsMissRow(st: Store, run: Run, k: nat)
    requires run.phase == InSteps(0) && k <= StepCount
    requires FindBuild(st, run.build.id).None?
    ensures Steps(st, run, k).store == st
    decreases k
  {
    if k > 0 {
      StepsMissRow(st, run, k - 1);
      var before := Steps(st, run, k - 1);
      StepKeepsRow(before.store, before.run, FindBuild(before.store, run.build.id));
      assert Steps(st, run, k).store == Step(before.store, before.run).store;
    }
  }

  /** Rewriting a row's log twice is rewriting it once. */
  lemma Relogged(b: Build, first: string, second: string)
    ensures b.(logs := first).(logs := second) == b.(logs := second)
  {
  }

  /** One step rewrites only the log of the row it finds, and finds nothing when the row is gone. */
  lemma StepKeepsRow(st: Store, run: Run, found: Option<Build>)
    requires run.phase.InSteps? && run.phase.stepsDone < StepCount
    requires found == FindBuild(st, run.build.id)
    ensures found.Some? ==>
      FindBuild(Step(st, run).store, run.build.id) == Some(found.value.(logs := Step(st, run).run.build.logs))
    ensures found.None? ==> Step(st, run).store == st
  {
  }

  /** A fault-free run of the whole pipeline. */
  function Simulate(st: Store, run: Run, succeeded: bool, startedAt: Timestamp, completedAt: Timestamp): (p: Progress)
    requires run.phase == Queued
    ensures p.run.phase == Completed
    ensures p.run.build.status == Outcome(succeeded)
    ensures p.run.build.startedAt == Some(startedAt) && p.run.build.completedAt == Some(completedAt)
    ensures p.run.build.logs == FullLog(run.build.logs, succeeded)
    ensures p.run.project == Rollup(run.project, succeeded)
  {
    var s := Start(st, run, startedAt);
    var m := Steps(s.store, s.run, StepCount);
    var f := Finish(m.store, m.run, succeeded, completedAt);
    Progress(f.store, f.run, s.events + m.events + f.events)
  }
}
