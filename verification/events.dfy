/** The socket emissions of the build lifecycle, as immutable values appended to an output list. */
module Events {
  import opened Outcomes
  import opened BuildModel

  datatype Event =
    /** `build-created`, broadcast to every client. */
    | BuildCreated(buildId: Id, projectId: Id, projectName: string, buildNumber: int, status: BuildStatus)
    /** `build-status`, sent to the room of one build. */
    | StatusChanged(buildId: Id, status: BuildStatus, logs: string)
    /** `build-logs`, sent to the room of one build. */
    | LogsAppended(buildId: Id, logs: string)
    /** `build-completed`, broadcast to every client. */
    | BuildCompleted(buildId: Id, projectId: Id, status: BuildStatus)
    /** `build-cancelled`, broadcast to every client. */
    | BuildCancelled(buildId: Id, status: BuildStatus)
  {
    /** The socket event name. */
    function Name(): string {
      match this
      case BuildCreated(_, _, _, _, _) => "build-created"
      case StatusChanged(_, _, _) => "build-status"
      case LogsAppended(_, _) => "build-logs"
      case BuildCompleted(_, _, _) => "build-completed"
      case BuildCancelled(_, _) => "build-cancelled"
    }

    /** The room `build-<id>` a build-scoped event goes to; `None` for a broadcast. */
    function Room(): (r: Option<string>)
      ensures r.None? <==> Name() in {"build-created", "build-completed", "build-cancelled"}
      ensures r.Some? ==> r.value == "build-" + buildId
    {
      if StatusChanged? || LogsAppended? then Some("build-" + buildId) else None
    }
  }
}
