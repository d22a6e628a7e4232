/** Properties of whole build lifecycles: a fault-free run from its trigger, the fault path,
    cancellation, build numbering and the rollup counters. */
module Lifecycle {
  import opened Outcomes
  import opened BuildModel
  import opened ProjectModel
  import opened Events
  import opened Database
  import opened Pipeline
  import opened BuildController

  /** Whether an event is sent to a build's room with the build's whole log. */
  predicate CarriesLog(e: Event) {
    e.StatusChanged? || e.LogsAppended?
  }

  /** Every log the pipeline saves is a prefix of the next one. */
  lemma {:induction false} AfterStepsGrows(base: string, i: nat, j: nat)
    requires i <= j <= StepCount
    ensures IsPrefix(AfterSteps(base, i), AfterSteps(base, j))
    decreases j
  {
    if i < j {
      AfterStepsGrows(base, i, j - 1);
      PrefixOfExtension(AfterSteps(base, i), AfterSteps(base, j - 1), StepLog(j - 1));
    }
  }

  lemma AfterStepsExtends(base: string, k: nat)
    requires k <= StepCount
    ensures IsPrefix(base, AfterSteps(base, k))
  {
    AfterStepsGrows(base, 0, k);
  }

  /** The event sequence of a fault-free run of a build queued with log `queued`, from its
      start to its final status. */
  function PipelineEvents(id: Id, projectId: Id, queued: string, succeeded: bool): seq<Event> {
    [StatusChanged(id, Running, AfterSteps(queued + StartedLog, 0))]
    + [LogsAppended(id, AfterSteps(queued + StartedLog, 1)), LogsAppended(id, AfterSteps(queued + StartedLog, 2)),
       LogsAppended(id, AfterSteps(queued + StartedLog, 3)), LogsAppended(id, AfterSteps(queued + StartedLog, 4))]
    + [BuildCompleted(id, projectId, Outcome(succeeded)), StatusChanged(id, Outcome(succeeded), FullLog(queued, succeeded))]
  }

  /** A fault-free run is its start, its four steps and its finish, one after the other. */
  lemma SimulateUnfolds(st: Store, run: Run, succeeded: bool, t1: Timestamp, t2: Timestamp)
    requires run.phase == Queued
    ensures
      var s := Start(st, run, t1);
      var m := Steps(s.store, s.run, StepCount);
      var f := Finish(m.store, m.run, succeeded, t2);
      Simulate(st, run, succeeded, t1, t2) == Progress(f.store, f.run, s.events + m.events + f.events)
  {
  }

  /** The four steps send the log after each of them, in order. */
  lemma FourStepEvents(st: Store, run: Run)
    requires run.phase == InSteps(0)
    ensures
      var id := run.build.id;
      var base := run.build.logs;
      Steps(st, run, StepCount).events
        == [LogsAppended(id, AfterSteps(base, 1)), LogsAppended(id, AfterSteps(base, 2)),
            LogsAppended(id, AfterSteps(base, 3)), LogsAppended(id, AfterSteps(base, 4))]
  {
    StepsEvents(st, run, StepCount);
  }

  /** A fault-free pipeline run sends its events in the fixed order, every build-scoped event
      carrying the whole log saved so far. */
  lemma SimulateEvents(st: Store, run: Run, succeeded: bool, t1: Timestamp, t2: Timestamp)
    requires run.phase == Queued
    ensures Simulate(st, run, succeeded, t1, t2).events == PipelineEvents(run.build.id, run.project.id, run.build.logs, succeeded)
  {
    var id := run.build.id;
    var base := run.build.logs + StartedLog;
    SimulateUnfolds(st, run, succeeded, t1, t2);
    var s := Start(st, run, t1);
    assert s.run.build.logs == base && s.run.build.id == id;
    var m := Steps(s.store, s.run, StepCount);
    FourStepEvents(s.store, s.run);
    assert m.run.build.logs == AfterSteps(base, StepCount);
  }

  /** The rooms and names of a run's event sequence, whatever logs its events carry. */
  predicate RoutedAsRun(es: seq<Event>, id: Id) {
    && |es| == 7
    && (forall i | 0 <= i < |es| :: es[i].Room() == (if es[i].BuildCompleted? then None else Some("build-" + id)))
    && es[0].Name() == "build-status"
    && (forall i | 1 <= i <= 4 :: es[i].Name() == "build-logs")
    && es[5].Name() == "build-completed"
    && es[6].Name() == "build-status"
  }

  lemma RunShapeRouted(id: Id, projectId: Id, l0: string, l1: string, l2: string, l3: string, l4: string,
                       outcome: BuildStatus, last: string)
    ensures RoutedAsRun([StatusChanged(id, Running, l0)]
                        + [LogsAppended(id, l1), LogsAppended(id, l2), LogsAppended(id, l3), LogsAppended(id, l4)]
                        + [BuildCompleted(id, projectId, outcome), StatusChanged(id, outcome, last)], id)
  {
    var es := [StatusChanged(id, Running, l0)]
              + [LogsAppended(id, l1), LogsAppended(id, l2), LogsAppended(id, l3), LogsAppended(id, l4)]
              + [BuildCompleted(id, projectId, outcome), StatusChanged(id, outcome, last)];
    assert forall i | 0 <= i < |es| :: es[i].buildId == id;
  }

  /** Where a fault-free run's events go: each is sent to the build's own room `build-<id>`
      except the completion, which is broadcast to every client; and under which socket names,
      in order. */
  lemma SimulateRooms(st: Store, run: Run, succeeded: bool, t1: Timestamp, t2: Timestamp)
    requires run.phase == Queued
    ensures RoutedAsRun(Simulate(st, run, succeeded, t1, t2).events, run.build.id)
  {
    SimulateEvents(st, run, succeeded, t1, t2);
    var base := run.build.logs + StartedLog;
    RunShapeRouted(run.build.id, run.project.id, AfterSteps(base, 0), AfterSteps(base, 1), AfterSteps(base, 2),
                   AfterSteps(base, 3), AfterSteps(base, 4), Outcome(succeeded), FullLog(run.build.logs, succeeded));
  }

  /** A trigger only broadcasts: its one event goes to every client as `build-created`. */
  lemma TriggerBroadcasts(st: Store, req: TriggerRequest, newId: Id, t0: Timestamp, generatedCommit: string)
    requires !HasBuild(st.builds, newId) && |generatedCommit| <= GeneratedCommitWidth
    requires Trigger(st, req, newId, t0, generatedCommit).Ok?
    ensures
      var es := Trigger(st, req, newId, t0, generatedCommit).value.events;
      |es| == 1 && es[0].Room().None? && es[0].Name() == "build-created"
  {
  }

  /** A cancel only broadcasts: its one event goes to every client as `build-cancelled`. */
  lemma CancelBroadcasts(st: Store, id: Id, now: Timestamp)
    requires Cancel(st, id, now).Ok?
    ensures
      var es := Cancel(st, id, now).value.events;
      |es| == 1 && es[0].Room().None? && es[0].Name() == "build-cancelled"
  {
  }

  /** A fault-free pipeline run leaves the stored row in the drawn outcome with both timestamps
      and the full transcript, and gives the stored project the rollup. */
  lemma SimulateStore(st: Store, run: Run, succeeded: bool, t1: Timestamp, t2: Timestamp)
    requires run.phase == Queued
    ensures
      var p := Simulate(st, run, succeeded, t1, t2);
      && p.store.projects == SaveRollup(st.projects, Rollup(run.project, succeeded), succeeded)
      && (FindBuild(st, run.build.id).Some? ==>
            FindBuild(p.store, run.build.id) == Some(FindBuild(st, run.build.id).value.(
              status := Outcome(succeeded), startedAt := Some(t1), completedAt := Some(t2),
              logs := FullLog(run.build.logs, succeeded))))
  {
    var s := Start(st, run, t1);
    var m := Steps(s.store, s.run, StepCount);
    StepsStore(s.store, s.run, StepCount);
  }

  /** A triggered build that runs without a fault: the created event comes first, then the
      pipeline's events for a build queued with the queued line. */
  lemma FaultFreeRunEvents(st: Store, req: TriggerRequest, newId: Id, t0: Timestamp, generatedCommit: string,
                           succeeded: bool, t1: Timestamp, t2: Timestamp)
    requires !HasBuild(st.builds, newId) && KeyedById(st.projects)
    requires |generatedCommit| <= GeneratedCommitWidth
    requires Trigger(st, req, newId, t0, generatedCommit).Ok?
    ensures
      var t := Trigger(st, req, newId, t0, generatedCommit).value;
      var p := Simulate(t.store, t.run, succeeded, t1, t2);
      var pid := req.projectId.text;
      t.events + p.events == [BuildCreated(newId, pid, st.projects[pid].name, t.build.buildNumber, Pending)]
                             + PipelineEvents(newId, pid, QueuedLog, succeeded)
  {
    var t := Trigger(st, req, newId, t0, generatedCommit).value;
    var pid := req.projectId.text;
    assert t.run.build.id == newId && t.run.project.id == pid && t.run.build.logs == QueuedLog;
    assert t.run.phase == Queued;
    SimulateEvents(t.store, t.run, succeeded, t1, t2);
    assert t.events == [BuildCreated(newId, pid, st.projects[pid].name, t.build.buildNumber, Pending)];
  }

  /** A triggered build that runs without a fault ends, in the store, in the drawn outcome with
      both timestamps and the full transcript behind the queued line. */
  lemma FaultFreeRunRow(st: Store, req: TriggerRequest, newId: Id, t0: Timestamp, generatedCommit: string,
                        succeeded: bool, t1: Timestamp, t2: Timestamp)
    requires !HasBuild(st.builds, newId)
    requires |generatedCommit| <= GeneratedCommitWidth
    requires Trigger(st, req, newId, t0, generatedCommit).Ok?
    ensures
      var t := Trigger(st, req, newId, t0, generatedCommit).value;
      var p := Simulate(t.store, t.run, succeeded, t1, t2);
      FindBuild(p.store, newId) == Some(t.build.(status := Outcome(succeeded), startedAt := Some(t1),
                                                completedAt := Some(t2), logs := FullLog(QueuedLog, succeeded)))
  {
    var t := Trigger(st, req, newId, t0, generatedCommit).value;
    IndexOfAppended(st.builds, t.build);
    SimulateStore(t.store, t.run, succeeded, t1, t2);
  }

  /** A triggered build that runs without a fault moves its project's counters by exactly one
      trigger and one completion, and no other project changes. */
  lemma FaultFreeRunCounters(st: Store, req: TriggerRequest, newId: Id, t0: Timestamp, generatedCommit: string,
                             succeeded: bool, t1: Timestamp, t2: Timestamp)
    requires !HasBuild(st.builds, newId) && KeyedById(st.projects)
    requires |generatedCommit| <= GeneratedCommitWidth
    requires Trigger(st, req, newId, t0, generatedCommit).Ok?
    ensures
      var t := Trigger(st, req, newId, t0, generatedCommit).value;
      var p := Simulate(t.store, t.run, succeeded, t1, t2);
      var pid := req.projectId.text;
      var prior := st.projects[pid];
      && p.store.projects.Keys == st.projects.Keys
      && (forall k | k in st.projects && k != pid :: p.store.projects[k] == st.projects[k])
      && p.store.projects[pid] == Rollup(prior.(totalBuilds := prior.totalBuilds + 1, lastBuildAt := Some(t0),
                                                lastBuildStatus := Some(LastPending)), succeeded)
  {
    var t := Trigger(st, req, newId, t0, generatedCommit).value;
    var pid := req.projectId.text;
    var projects := Simulate(t.store, t.run, succeeded, t1, t2).store.projects;
    SimulateStore(t.store, t.run, succeeded, t1, t2);
    assert t.run.project == t.store.projects[pid] && t.run.project.id == pid;
    SaveRollupOfStored(t.store.projects, t.run.project, succeeded);
    assert projects == t.store.projects[pid := Rollup(t.run.project, succeeded)];
  }

  /** The rollup written back to the row the pipeline's project copy was read from. */
  lemma SaveRollupOfStored(projects: map<Id, Project>, q: Project, succeeded: bool)
    requires q.id in projects && projects[q.id] == q
    ensures SaveRollup(projects, Rollup(q, succeeded), succeeded) == projects[q.id := Rollup(q, succeeded)]
  {
  }

  /** The log carried by each build-scoped event of a fault-free run. */
  lemma PipelineLogAt(id: Id, projectId: Id, queued: string, succeeded: bool, i: nat)
    requires i < 7 && i != 5
    ensures
      var e := PipelineEvents(id, projectId, queued, succeeded)[i];
      && CarriesLog(e)
      && e.logs == if i < 5 then AfterSteps(queued + StartedLog, i) else FullLog(queued, succeeded)
  {
  }

  /** The build-scoped events of a fault-free run carry logs that only ever grow. */
  lemma RunLogsOnlyGrow(id: Id, projectId: Id, queued: string, succeeded: bool)
    ensures
      var events := PipelineEvents(id, projectId, queued, succeeded);
      forall a, b | 0 <= a <= b < |events| && CarriesLog(events[a]) && CarriesLog(events[b]) ::
        IsPrefix(events[a].logs, events[b].logs)
  {
    var events := PipelineEvents(id, projectId, queued, succeeded);
    var base := queued + StartedLog;
    forall a, b | 0 <= a <= b < |events| && CarriesLog(events[a]) && CarriesLog(events[b])
      ensures IsPrefix(events[a].logs, events[b].logs)
    {
      assert a != 5 && b != 5;
      PipelineLogAt(id, projectId, queued, succeeded, a);
      PipelineLogAt(id, projectId, queued, succeeded, b);
      if b < 5 {
        AfterStepsGrows(base, a, b);
      } else if a < 5 {
        AfterStepsGrows(base, a, StepCount);
        PrefixOfExtension(AfterSteps(base, a), AfterSteps(base, StepCount), TerminalLog(succeeded));
      } else {
        assert events[a].logs == events[b].logs;
      }
    }
  }

  /** After a fault-free run the stored row reports as its duration the elapsed whole seconds
      between the start and the completion, never negative when the clock did not go back. */
  lemma RunDuration(st: Store, run: Run, succeeded: bool, t1: Timestamp, t2: Timestamp)
    requires run.phase == Queued && FindBuild(st, run.build.id).Some?
    ensures
      var row := FindBuild(Simulate(st, run, succeeded, t1, t2).store, run.build.id);
      && row.Some? && Duration(row.value) == Some((t2 - t1) / 1000)
      && (t1 <= t2 ==> Duration(row.value).value >= 0)
  {
    var p := Simulate(st, run, succeeded, t1, t2);
    SimulateStore(st, run, succeeded, t1, t2);
    var done := FindBuild(st, run.build.id).value.(status := Outcome(succeeded), startedAt := Some(t1),
                                                   completedAt := Some(t2), logs := FullLog(run.build.logs, succeeded));
    assert FindBuild(p.store, run.build.id) == Some(done);
    Elapsed(done, t1, t2);
  }

  lemma Elapsed(b: Build, t1: Timestamp, t2: Timestamp)
    requires b.startedAt == Some(t1) && b.completedAt == Some(t2)
    ensures Duration(b) == Some((t2 - t1) / 1000)
    ensures t1 <= t2 ==> Duration(b).value >= 0
  {
  }

  /** A fault after the start and `k` steps: the row ends `failed`, with `completedAt`, and its
      log is the log saved so far followed by the error line; no counter moves and nothing is
      emitted by the handler. */
  lemma FaultAfterSteps(st: Store, run: Run, k: nat, message: string, t1: Timestamp, tf: Timestamp)
    requires run.phase == Queued && k <= StepCount
    requires FindBuild(st, run.build.id).Some?
    ensures
      var s := Start(st, run, t1);
      var m := Steps(s.store, s.run, k);
      var f := Fault(m.store, m.run, message, tf);
      && f.events == []
      && f.store.projects == st.projects
      && FindBuild(f.store, run.build.id) == Some(FindBuild(st, run.build.id).value.(
           status := Failed, startedAt := Some(t1), completedAt := Some(tf),
           logs := AfterSteps(run.build.logs + StartedLog, k) + FaultLog(message)))
  {
    var s := Start(st, run, t1);
    StepsStore(s.store, s.run, k);
  }

  /** A roll-up that throws after the terminal write: the row, already stored in the drawn
      outcome, is turned to `failed` with a new completion time, its log is the full log with the
      terminal fragment followed by the error line, no counter moves, and no completion is ever
      sent. */
  lemma FaultAfterConclude(st: Store, run: Run, succeeded: bool, message: string,
                           t1: Timestamp, t2: Timestamp, tf: Timestamp)
    requires run.phase == Queued
    requires FindBuild(st, run.build.id).Some?
    ensures
      var s := Start(st, run, t1);
      var m := Steps(s.store, s.run, StepCount);
      var c := Conclude(m.store, m.run, succeeded, t2);
      var f := Fault(c.store, c.run, message, tf);
      && FindBuild(c.store, run.build.id).value.status == Outcome(succeeded)
      && c.events + f.events == []
      && f.store.projects == st.projects
      && FindBuild(f.store, run.build.id) == Some(FindBuild(st, run.build.id).value.(
           status := Failed, startedAt := Some(t1), completedAt := Some(tf),
           logs := FullLog(run.build.logs, succeeded) + FaultLog(message)))
  {
    var s := Start(st, run, t1);
    var m := Steps(s.store, s.run, StepCount);
    StepsStore(s.store, s.run, StepCount);
    ConcludeThenFault(m.store, m.run, succeeded, t2, message, tf);
  }

  /** The terminal write followed by the fault handler, on whatever row is stored. */
  lemma ConcludeThenFault(st: Store, run: Run, succeeded: bool, t2: Timestamp, message: string, tf: Timestamp)
    requires run.phase == InSteps(StepCount)
    requires FindBuild(st, run.build.id).Some?
    ensures
      var c := Conclude(st, run, succeeded, t2);
      var f := Fault(c.store, c.run, message, tf);
      && FindBuild(c.store, run.build.id).value.status == Outcome(succeeded)
      && c.events + f.events == []
      && f.store.projects == st.projects
      && FindBuild(f.store, run.build.id) == Some(FindBuild(st, run.build.id).value.(
           status := Failed, completedAt := Some(tf), logs := run.build.logs + TerminalLog(succeeded) + FaultLog(message)))
  {
    var c := Conclude(st, run, succeeded, t2);
    var b := FindBuild(st, run.build.id).value;
    assert FindBuild(c.store, run.build.id) == Some(b.(status := Outcome(succeeded), completedAt := Some(t2), logs := c.run.build.logs));
  }

  /** Two successive triggers for a project with no builds are numbered 1 and 2. */
  lemma BackToBackTriggers(st: Store, req: TriggerRequest, id1: Id, id2: Id, t0: Timestamp, t1: Timestamp, c1: string, c2: string)
    requires id1 != id2 && !HasBuild(st.builds, id1) && !HasBuild(st.builds, id2)
    requires !Falsy(req.projectId)
    requires forall i | 0 <= i < |st.builds| :: st.builds[i].projectId != req.projectId.text
    requires |c1| <= GeneratedCommitWidth && |c2| <= GeneratedCommitWidth
    requires Trigger(st, req, id1, t0, c1).Ok?
    ensures
      var first := Trigger(st, req, id1, t0, c1).value;
      && !HasBuild(first.store.builds, id2)
      && Trigger(first.store, req, id2, t1, c2).Ok?
      && first.build.buildNumber == 1
      && Trigger(first.store, req, id2, t1, c2).value.build.buildNumber == 2
  {
    var first := Trigger(st, req, id1, t0, c1).value;
    var pid := req.projectId.text;
    assert first.store.projects[pid].branch == st.projects[pid].branch;
    assert Storable(req, first.store.projects[pid]);
    assert first.store.builds == st.builds + [first.build];
    assert !HasBuild(first.store.builds, id2) by {
      forall i | 0 <= i < |first.store.builds| ensures first.store.builds[i].id != id2 {
        if i < |st.builds| { assert first.store.builds[i] == st.builds[i]; }
      }
    }
    assert OwnedBy(first.store.builds[|st.builds|], pid);
    assert forall i | 0 <= i < |first.store.builds| && OwnedBy(first.store.builds[i], pid) :: i == |st.builds|;
  }

  /** Numbers are recomputed from the current maximum: deleting the newest build lets the next
      trigger reuse its number. */
  lemma DeletedMaximumReissued(st: Store, req: TriggerRequest, id1: Id, id2: Id, t0: Timestamp, t1: Timestamp, c1: string, c2: string)
    requires !HasBuild(st.builds, id1) && !HasBuild(st.builds, id2)
    requires |c1| <= GeneratedCommitWidth && |c2| <= GeneratedCommitWidth
    requires Trigger(st, req, id1, t0, c1).Ok?
    ensures
      var first := Trigger(st, req, id1, t0, c1).value;
      var deleted := DeleteBuild(first.store, id1);
      && deleted.Ok?
      && deleted.value.builds == st.builds
      && Trigger(deleted.value, req, id2, t1, c2).Ok?
      && Trigger(deleted.value, req, id2, t1, c2).value.build.buildNumber == first.build.buildNumber
  {
    var first := Trigger(st, req, id1, t0, c1).value;
    var pid := req.projectId.text;
    assert first.store.projects[pid].branch == st.projects[pid].branch;
    assert Storable(req, first.store.projects[pid]);
    IndexOfAppended(st.builds, first.build);
    assert first.store.builds[..|st.builds|] == st.builds;
  }

  /** A cancelled build can not be cancelled again. */
  lemma CancelTwiceRejected(st: Store, id: Id, t1: Timestamp, t2: Timestamp)
    requires Cancel(st, id, t1).Ok?
    ensures Cancel(Cancel(st, id, t1).value.store, id, t2) == Err(BadRequest("Only pending or running builds can be cancelled"))
  {
  }

  /** The pipeline never looks at the stored status: a cancel accepted before the last write is
      overwritten by the outcome, and the cancel notice disappears from the log. */
  lemma FinishOverwritesCancel(st: Store, run: Run, tc: Timestamp, succeeded: bool, t2: Timestamp)
    requires run.phase == InSteps(StepCount)
    requires Cancel(st, run.build.id, tc).Ok?
    ensures
      var c := Cancel(st, run.build.id, tc).value;
      var f := Finish(c.store, run, succeeded, t2);
      && c.build.status == Cancelled
      && FindBuild(f.store, run.build.id).Some?
      && FindBuild(f.store, run.build.id).value.status == Outcome(succeeded)
      && FindBuild(f.store, run.build.id).value.logs == run.build.logs + TerminalLog(succeeded)
  {
  }

  /** A build cancelled while still pending never gets a duration. */
  lemma CancelWhilePendingHasNoDuration(st: Store, id: Id, now: Timestamp)
    requires HasBuild(st.builds, id)
    requires FindBuild(st, id).value.status == Pending && FindBuild(st, id).value.startedAt.None?
    ensures Cancel(st, id, now).Ok? && Duration(Cancel(st, id, now).value.build) == None
  {
  }

  /** When no other write reached the project between trigger and completion, completion adds
      exactly one to exactly one of the two outcome counters. */
  lemma FinishCountsOnce(st: Store, run: Run, succeeded: bool, now: Timestamp)
    requires run.phase == InSteps(StepCount)
    requires run.project.id in st.projects && st.projects[run.project.id] == run.project
    ensures
      var q := Finish(st, run, succeeded, now).store.projects[run.project.id];
      && q.totalBuilds == run.project.totalBuilds
      && q.successfulBuilds + q.failedBuilds == run.project.successfulBuilds + run.project.failedBuilds + 1
      && (succeeded <==> q.successfulBuilds == run.project.successfulBuilds + 1)
      && q.lastBuildStatus == AsLastStatus(Outcome(succeeded))
  {
  }
}
