# CI/CD dashboard: build lifecycle, project rules and front-end helpers

This project is a Dafny model of the core of a small CI/CD dashboard. The backend keeps projects and
builds. A build is triggered, then simulated through a fixed pipeline that appends to its log and
pushes socket events. It can be cancelled or deleted. Projects are created, updated, deleted with
their builds, and summarised in statistics. The front end formats durations, truncates text, maps
statuses to badge and colour classes, validates the create-project form, filters the project list
and highlights the active navigation link.

The model is functional. The database is an immutable `Store`: a map from id to `Project` and a
sequence of `Build` rows in insertion order. Every request handler is a pure function from the store
(and its request fields) to a `Result` carrying the new store, or one of the errors `BadRequest`
(400), `NotFound` (404), `Conflict` (409) or `ServerError`. `ServerError` stands for an exception
passed to the error handler, which answers 500. Socket emissions are `Event` values in an output
list. The build simulator is split into separately callable steps: `Start`, `Step`, `Finish` and
`Fault`. Each step carries its own copy of the build and project, as the simulator does, and writes
only the attributes the ORM would write. Randomness, clocks and fresh ids are parameters:
- the build outcome;
- the generated commit hash;
- the new row id;
- the timestamps.

Modules:
- `Outcomes`: option, result, error and JSON field (`Undefined`, `Null`, `Given`) with JavaScript falsiness.
- `Text`: whitespace trimming, ASCII lower-casing, prefix and substring tests, decimal rendering.
- `BuildModel`: the build record, its enums, column widths, insert-time defaults and the `duration` getter.
- `ProjectModel`: the project record, its enums and field validators.
- `Events`: the socket events.
- `Database`: the store, row lookup, partial row updates and the store invariant `Valid`.
- `BuildController`: trigger, get, logs, cancel, delete and the paginated listing.
- `Pipeline`: the simulated build as a state machine.
- `Lifecycle`: whole-run properties (event order, growing logs, counters, races with cancel).
- `ProjectController`: create, update, delete and statistics.
- `Invariants`: every mutating operation preserves `Database.Valid`.
- `Helpers`: `formatDuration`, `truncate`, `getStatusBadge`, `getStatusColor`.
- `ProjectForm`: the create-project form's validator and change handler.
- `ProjectSearch`: the project-list search filter.
- `Sequences`: the order-preserving sub-list relation shared by the list filters and the deletions.
- `Varchar`: PostgreSQL's bounded `character varying(n)` column, which cuts space-padded values and refuses other over-long ones.
- `Navbar`: the active-link rule.

## Model

| member | source | states |
|---|---|---|
| BuildModel.ParseStatusLabel | backend/src/models/Build.js:15-18 | every build status is stored under its own enum word and read back as the same status |
| BuildModel.ParseSourceLabel | backend/src/models/Build.js:63-66 | every trigger source (manual, webhook, schedule) is stored under its own word and read back unchanged |
| BuildModel.Insert | backend/src/models/Build.js:5-76 | a row is stored iff the trigger word, when one is given, is an enum member and commit, branch, author and email are each taken by its varchar(40/100/255/255) column; when stored, those four hold what their columns keep (the value, or a space-padded one cut to the width), a given status, log and commit message are stored as given, status defaults to pending, logs to the empty string, an undefined triggeredBy to manual and a null one to null |
| Varchar.Clip | backend/src/models/Build.js:19-38 | what a varchar(n) column keeps is a prefix of the value, at most n long, and the whole value when that fits |
| Varchar.ClipPads | backend/src/models/Project.js:31-35 | a varchar(n) column takes a value exactly when the value is what the column keeps followed only by spaces, so storing loses trailing spaces and nothing else |
| BuildModel.Duration | backend/src/models/Build.js:52-62 | duration is absent unless both timestamps are set; otherwise it is the elapsed milliseconds divided by 1000 and rounded down |
| BuildModel.DurationNonNegative | backend/src/models/Build.js:57-58 | a build completed no earlier than it started has a non-negative duration |
| BuildModel.CancelledWhilePendingHasNoDuration | backend/src/models/Build.js:55-60 | a build with a completion time but no start time has no duration |
| ProjectModel.NewProject | backend/src/models/Project.js:51-70 | a fresh project has all three counters at 0 and no last build time or status |
| ProjectModel.AsLastStatus | backend/src/models/Project.js:55-58 | a build status has a last-build-status counterpart iff it is not cancelled |
| BuildController.MaxNumber | backend/src/controllers/buildController.js:98-101 | absent iff the project has no build; otherwise it is the number of one of its builds and no build of the project has a larger one |
| BuildController.NextBuildNumber | backend/src/controllers/buildController.js:98-103 | the next number is 1 for a project without builds, else the maximum plus one, so it exceeds every number the project has |
| BuildController.NewBuild | backend/src/controllers/buildController.js:105-117 | the insert succeeds iff the trigger word (if given) is an enum member and the chosen commit, branch, author and email are taken by their columns, a space-padded over-long value included; the row is pending with the queued log, each field taking the request's value or, when falsy, its default, the bounded ones as their columns keep them |
| BuildController.Trigger | backend/src/controllers/buildController.js:77-150 | the trigger succeeds iff the project id is given, names a stored project, and the trigger word (if given) and the chosen commit, branch, author and email are taken by the enum and the varchar(40/100/255/255) columns; a missing project id is a 400 and an unknown project a 404; on success one pending row with the queued log is appended, each of commit, message, branch, author and email being the request's value or, when falsy, its default (the generated hash of at most 7 characters, "Manual trigger", the project's branch, "System", the system address), cut to its column when space-padded, the project's total rises by exactly 1 with last status pending, and one build-created event is emitted |
| BuildController.GetBuild | backend/src/controllers/buildController.js:48-74 | a 404 iff no row has the id; otherwise the stored row with that id |
| BuildController.GetBuildLogs | backend/src/controllers/buildController.js:243-272 | a 404 iff no row has the id; otherwise the snapshot copies that row's number, status, log and timestamps |
| BuildController.Cancel | backend/src/controllers/buildController.js:275-318 | unknown id gives 404; a build not pending or running gives 400 and no change; a pending or running build is always cancelled: only that row changes, to cancelled with the completion time and the cancel note appended to its log, and one build-cancelled event is emitted |
| BuildController.DeleteBuild | backend/src/controllers/buildController.js:321-342 | unknown id gives 404; otherwise exactly that row disappears, every other row and every project stays, and the remaining rows keep their order |
| BuildController.Filtered | backend/src/controllers/buildController.js:9-17 | a row is listed iff it matches the optional project and status filters |
| BuildController.FilteredInOrder | backend/src/controllers/buildController.js:9-23 | the matching rows keep their stored order: the result is an order-preserving sub-list of the rows |
| BuildController.FilteredAppend | backend/src/controllers/buildController.js:9-23 | the filter works row by row: filtering a concatenation concatenates the filtered parts |
| BuildController.FilteredSingle | backend/src/controllers/buildController.js:9-17 | a single row is kept exactly when it matches both filters |
| BuildController.CeilDiv | backend/src/controllers/buildController.js:39 | the page count is the least number of pages of the given size that hold all rows |
| BuildController.Window | backend/src/controllers/buildController.js:21-22 | the window starts at the offset and holds the limit rows or what remains, in order |
| BuildController.PageOf | backend/src/controllers/buildController.js:19-39 | the page holds the rows newest first, skipping offset rows and holding at most limit; total counts every row; pages is the ceiling of total over limit and absent for limit 0 |
| BuildController.ListBuilds | backend/src/controllers/buildController.js:5-45 | an absent limit is 50 and an absent offset 0; a negative limit or offset or an unknown status word is an error and nothing else is; otherwise the result is the page of the rows matching the optional project and status filters |
| Pipeline.Start | backend/src/controllers/buildController.js:156-168 | the build becomes running with the start time and the started log appended; only that row is written; the event carries the new whole log |
| Pipeline.Step | backend/src/controllers/buildController.js:171-189 | step k appends the k-th fixed fragment to the log, writes only that row's log, and emits the whole new log |
| Pipeline.Rollup | backend/src/controllers/buildController.js:207-217 | success adds one to the successful count only, failure to the failed count only; the last status becomes the outcome and the total is untouched |
| Pipeline.Finish | backend/src/controllers/buildController.js:192-231 | the build gets the outcome, completion time and one terminal fragment; the project roll-up is saved; build-completed then the final status event are emitted |
| Pipeline.Conclude | backend/src/controllers/buildController.js:192-204 | the terminal build write alone: the row gets the outcome, completion time and terminal fragment, no project changes and nothing is emitted yet |
| Pipeline.Report | backend/src/controllers/buildController.js:206-231 | after the terminal write: only the roll-up counter and last status are written, no row changes, and build-completed then the final status event are emitted |
| Pipeline.Fault | backend/src/controllers/buildController.js:232-239 | from before the start, between steps, or after the terminal write (a failing roll-up), the build becomes failed with a completion time and the internal-error line appended to the log the instance holds; no counter changes and no event is emitted |
| Pipeline.Steps | backend/src/controllers/buildController.js:178-189 | after k steps the log is the start log followed by the first k fragments in order and k events were emitted |
| Pipeline.StepsEvents | backend/src/controllers/buildController.js:183-188 | the i-th step event carries the log as it stands after i+1 steps |
| Pipeline.StepsStore | backend/src/controllers/buildController.js:180-181 | after k steps the stored row's log equals the pipeline's own log |
| Pipeline.Simulate | backend/src/controllers/buildController.js:153-231 | a fault-free run ends completed with the outcome status, both timestamps, the full log and the project rolled up once |
| Lifecycle.AfterStepsGrows | backend/src/controllers/buildController.js:178-181 | the log after i steps is a prefix of the log after any later step |
| Lifecycle.SimulateEvents | backend/src/controllers/buildController.js:162-231 | a run emits running status, four log events, build-completed and the final status, in that order |
| Lifecycle.SimulateStore | backend/src/controllers/buildController.js:156-217 | after a run the row holds the outcome, both timestamps and queued + started + four fragments + one terminal fragment; the only project change is the roll-up |
| Lifecycle.FaultFreeRunEvents | backend/src/controllers/buildController.js:129-231 | trigger followed by a fault-free run emits build-created then the seven pipeline events |
| Lifecycle.FaultFreeRunRow | backend/src/controllers/buildController.js:106-204 | the new row ends with the outcome, the queued-started-steps-terminal log and its trigger-time fields unchanged |
| Lifecycle.FaultFreeRunCounters | backend/src/controllers/buildController.js:120-124 | after trigger and a run, the project's total is one more and exactly one of successful or failed is one more, matching the outcome; no other project changes |
| Lifecycle.RunLogsOnlyGrow | backend/src/controllers/buildController.js:162-230 | the log carried by every run event is a prefix of the log carried by every later one |
| Lifecycle.RunDuration | backend/src/controllers/buildController.js:156-204 | after a fault-free run the stored row's duration is the whole seconds between its start and completion, non-negative when the clock did not go back |
| Lifecycle.FaultAfterSteps | backend/src/controllers/buildController.js:232-239 | a fault after any number of steps leaves the row failed with the log so far plus the error line, and leaves all projects unchanged |
| Lifecycle.FaultAfterConclude | backend/src/controllers/buildController.js:198-239 | when the roll-up throws after the terminal write, the row, already stored with the outcome, ends failed with the full log, terminal fragment and error line, no counter moves, and no completion event is sent |
| Lifecycle.BackToBackTriggers | backend/src/controllers/buildController.js:98-117 | when the first trigger of a project without builds succeeds, the same request triggered again also succeeds, and they issue numbers 1 and 2 |
| Lifecycle.DeletedMaximumReissued | backend/src/controllers/buildController.js:98-103 | after the newest build is deleted, the same request triggered again succeeds and issues the deleted number again |
| Lifecycle.SimulateRooms | backend/src/controllers/buildController.js:160-232 | of a run's seven events, every one goes to the room `build-<id>` of its build except build-completed, which is broadcast; the names are build-status, four build-logs, build-completed, build-status |
| Lifecycle.TriggerBroadcasts | backend/src/controllers/buildController.js:126-137 | a successful trigger emits one build-created event, broadcast to every client rather than sent to a room |
| Lifecycle.CancelBroadcasts | backend/src/controllers/buildController.js:301-307 | a successful cancel emits one build-cancelled event, broadcast to every client rather than sent to a room |
| Lifecycle.CancelTwiceRejected | backend/src/controllers/buildController.js:288-293 | a build just cancelled cannot be cancelled again |
| Lifecycle.FinishOverwritesCancel | backend/src/controllers/buildController.js:198-204 | a cancel between the last step and the finish is overwritten: the row ends with the outcome status and the pipeline's own log plus the terminal fragment, whatever the cancel wrote |
| Lifecycle.CancelWhilePendingHasNoDuration | backend/src/controllers/buildController.js:295-299 | a build cancelled before it started has no duration |
| Lifecycle.FinishCountsOnce | backend/src/controllers/buildController.js:207-217 | finishing raises successful plus failed by exactly one and leaves the total alone |
| Database.SaveBuild | backend/src/controllers/buildController.js:156-160 | an update writes only the addressed row, and that row becomes its old value with the patch applied |
| Database.WithoutProject | backend/src/models/Build.js:79-83 | cascade delete keeps exactly the rows that belong to other projects, in their stored order |
| Database.SaveBuildKeepsValid | backend/src/models/Build.js:5-76 | writing status, time and log fields into a row keeps the store invariant |
| ProjectController.CreateProject | backend/src/controllers/projectController.js:77-116 | a missing name, repository or build command is a 400; otherwise a taken name is a 409; otherwise the create succeeds, and the project is stored, iff it passes the model's validators and its branch is taken by the varchar(100) column, with branch main by default (a space-padded over-long one cut to 100), status active and zero counters |
| ProjectController.Merge | backend/src/controllers/projectController.js:144-152 | an unknown status word fails the merge and a known one becomes the new status; name, repository, branch, build command and status keep their old value when the input is falsy; description and deploy command take any defined input, null included; counters and last-build fields never change |
| ProjectController.UpdateProject | backend/src/controllers/projectController.js:119-162 | an unknown id is a 404; a rename onto another project's name is a 409, keeping the current name is not; the update succeeds, and the merge is stored, iff the status word is known and the changed fields pass validation (a changed branch being taken by its varchar(100) column, which cuts a space-padded one to 100), and only that project changes |
| ProjectController.DeleteProject | backend/src/controllers/projectController.js:165-187 | an unknown id is a 404; a stored one is always deleted: the project is gone, every other project stays, and exactly its builds are removed: the rest keep their order and number the table's rows less the project's |
| ProjectController.CascadeSplits | backend/src/models/Build.js:79-83 | the rows a project deletion leaves and the rows the statistics count for that project together number every row |
| ProjectController.BuildsOfIsFiltered | backend/src/controllers/projectController.js:194-200 | the statistics' rows of a project are exactly the list endpoint's rows filtered by that project id, in the same order |
| ProjectController.CountStatus | backend/src/controllers/projectController.js:211-214 | a status count is zero iff no build has that status, and never exceeds the number of builds |
| ProjectController.StatusCountsPartition | backend/src/controllers/projectController.js:209-214 | success + failed + running + pending + cancelled counts add up to the number of builds |
| ProjectController.StatsCountCancelled | backend/src/controllers/projectController.js:209-214 | total minus the four reported counts equals the number of cancelled builds of the project |
| ProjectController.RoundedMean | backend/src/controllers/projectController.js:220-222 | the result is the mean rounded half up: within half a unit of sum/n; 0 when there is nothing to average |
| ProjectController.ProjectStats | backend/src/controllers/projectController.js:190-242 | an unknown id is a 404 and a stored one always succeeds; the counts are over exactly the project's builds and the average is the rounded mean of the defined durations, 0 if none |
| ProjectController.ProjectStatsAsWritten | backend/src/controllers/projectController.js:194-200 | an unknown id is a 404 and a stored one always succeeds, with the statistics computed from rows loaded with only status, duration and creation time |
| ProjectController.AverageAlwaysZeroAsWritten | backend/src/controllers/projectController.js:194-222 | as written, the average build duration reported is always 0 |
| ProjectController.AverageDiscrepancyExample | backend/src/controllers/projectController.js:219-222 | one build that ran 5 seconds: the as-written average is 0, the corrected one is 5 |
| ProjectController.AverageWithinRange | backend/src/controllers/projectController.js:219-222 | when every defined duration lies in [lo, hi], so does the corrected average |
| Invariants.CreateKeepsValid | backend/src/models/Project.js:10-42 | a successful create keeps the store invariant: names unique, and every project with a non-blank name of 3 to 100 characters, a non-blank URL repository of at most 500, a branch of at most 100 and a non-blank build command |
| Invariants.UpdateKeepsValid | backend/src/controllers/projectController.js:134-152 | a successful update keeps names unique and every project valid |
| Invariants.DeleteProjectKeepsValid | backend/src/models/Build.js:79-83 | deleting a project with its cascade leaves no row pointing at a missing project |
| Invariants.TriggerKeepsValid | backend/src/controllers/buildController.js:98-124 | a successful trigger keeps row ids unique, per-project build numbers distinct and every row within its columns |
| Invariants.CancelKeepsValid | backend/src/controllers/buildController.js:295-299 | a successful cancel keeps the store invariant |
| Invariants.DeleteBuildKeepsValid | backend/src/controllers/buildController.js:334 | a successful build delete keeps the store invariant |
| Invariants.StartKeepsValid | backend/src/controllers/buildController.js:156-160 | starting a run keeps the store invariant |
| Invariants.StepKeepsValid | backend/src/controllers/buildController.js:180-181 | a pipeline step keeps the store invariant |
| Invariants.FaultKeepsValid | backend/src/controllers/buildController.js:234-238 | the fault path keeps the store invariant |
| Invariants.FinishKeepsValid | backend/src/controllers/buildController.js:200-217 | finishing a run keeps the store invariant, counters included |
| Helpers.FormatDuration | frontend/src/utils/helpers.js:15-28 | an absent or zero duration renders as "0s", and the rendering is never shorter than two characters |
| Helpers.DurationPartsShape | frontend/src/utils/helpers.js:18-25 | for a positive whole number of seconds: one to three parts, in hours-minutes-seconds order, each non-zero, minutes and seconds below 60, adding back up to the input |
| Helpers.SecondsPartRule | frontend/src/utils/helpers.js:25 | the seconds part is present iff the remainder is non-zero or no other part was produced |
| Helpers.NegativeDuration | frontend/src/utils/helpers.js:16-25 | a negative duration renders only a signed seconds part, taken with truncating remainder |
| Helpers.FormatDurationRoundTrip | frontend/src/utils/helpers.js:15-28 | reading the rendered parts back gives the original number of seconds |
| Helpers.ParseRender | frontend/src/utils/helpers.js:27 | parts joined with single spaces split back into the same parts |
| Helpers.Truncate | frontend/src/utils/helpers.js:59-63 | absent or empty text gives ""; text within the limit is returned unchanged; longer text becomes its first n characters plus "..." |
| Helpers.TruncateDefault | frontend/src/utils/helpers.js:59 | with the default limit of 50 the result is at most 53 characters |
| Helpers.TruncateBounds | frontend/src/utils/helpers.js:60-62 | for a length n of at least 0, the result is at most n+3 characters; text within n comes back unchanged, and longer text comes back as a prefix of itself followed by "..." |
| Helpers.GetStatusBadge | frontend/src/utils/helpers.js:45-56 | the class always starts with "badge "; a status outside the table gets badge-gray |
| Helpers.GetStatusColor | frontend/src/utils/helpers.js:31-42 | a status outside the table gets the gray default, a listed one its own classes |
| Helpers.BadgeAndColorAgree | frontend/src/utils/helpers.js:31-56 | the gray badge and the gray colour go to the same statuses, as do the success badge and the green colour |
| ProjectForm.Validate | frontend/src/components/projects/CreateProjectModal.jsx:29-50 | valid iff there are no errors; the name gets "required" iff blank and "too short" iff non-blank and under 3 characters; the repository gets "required" iff blank and "not a URL" iff non-blank and not starting with http; the build command errs iff blank; no other field ever errs |
| ProjectForm.HandleChange | frontend/src/components/projects/CreateProjectModal.jsx:20-27 | an edit changes only its field and clears only that field's error, if it had one |
| ProjectForm.AcceptedFormHasRequiredFields | frontend/src/components/projects/CreateProjectModal.jsx:52-64 | a form the validator accepts is never refused by the server for a missing field, and its build command passes the model check |
| ProjectSearch.Filter | frontend/src/pages/Projects.jsx:27-38 | a query that is blank after trimming keeps the list as it is; otherwise a project is kept iff its lower-cased name or lower-cased description contains the lower-cased query |
| ProjectSearch.FilterIsSublist | frontend/src/pages/Projects.jsx:32-36 | the result is an order-preserving sub-list of the projects |
| ProjectSearch.FilterIgnoresCase | frontend/src/pages/Projects.jsx:33-34 | queries that differ only in letter case give the same result |
| ProjectSearch.UntrimmedQueryMatters | frontend/src/pages/Projects.jsx:29-33 | matching uses the untrimmed query: " web" misses a project named "web" that "web" finds |
| Navbar.IsActive | frontend/src/components/layout/Navbar.jsx:14-17 | the root link is active iff the path is exactly "/"; any other link iff the path starts with its own |
| Navbar.AtMostOneActive | frontend/src/components/layout/Navbar.jsx:8-17 | no path makes two of the three links active at once |
| Navbar.PrefixNotSegment | frontend/src/components/layout/Navbar.jsx:16 | any path starting "/builds", such as "/buildsX", activates the builds link and not the root link |

## Left out

- HTTP and ORM plumbing: requests, responses and queries are replaced by functions over the `Store`. Rows are kept in insertion order, which stands in for creation-time order. Ties in that order are not modelled.
- Socket transport: events are values in an output list. The server always installs the socket server, so the "io is present" branch is the only one modelled.
- Timing and randomness: the step delays are left out. The outcome, commit hash, new ids and timestamps are parameters. Timestamps are abstract integers of milliseconds.
- Concurrency: no interleavings. The stale-instance race with cancel is shown sequentially (`Lifecycle.FinishOverwritesCancel`). Lost counter updates between concurrent builds are not.
- A fault raised inside a save after the simulator already changed its in-memory copy: `Pipeline.Fault` takes the copy as it stood after the last completed step, so the fragment of the failing step is not in the modelled fault log.
- Fresh ids: the new row's UUID is a parameter required to be unused. Id text normalisation by the database is not modelled.
- Malformed ids: every id column is a UUID. For id text that is not a UUID, PostgreSQL raises an error, which the error handler answers with 500. The model treats every id text as well-formed. So `BuildController.GetBuild`, `GetBuildLogs`, `Cancel`, `DeleteBuild` and `Trigger`, and `ProjectController.UpdateProject`, `DeleteProject` and `ProjectStats`, answer 404 for such text where the server answers 500. The same holds for a malformed `projectId` filter in `BuildController.ListBuilds`.
- `limit` and `offset` in the listing are the parsed integers, or absent. `parseInt` of text that is present but not numeric (NaN, including the empty string) is not modelled.
- Column overflow of the INTEGER counters and build numbers is not modelled, since the integers are unbounded.
- `successRate`, `calculateSuccessRate` and `formatDate`: floating point and locale formatting.
- Sequelize's `isUrl` validator is an abstract predicate passed as a parameter.
- `ProjectModel.ValidRepository`: refuses every repository over 500 characters, where the varchar(500) column alone would cut a space-padded one. The model relies on `isUrl` refusing whitespace, as validator.js's `isURL` does, and the parameter is not constrained to do so.
- `ServerError` message texts are nominal; the ORM's own error messages are not modelled.
- Lower-casing and trimming are ASCII plus the JavaScript whitespace characters. Unicode case folding is not modelled. Lengths count characters, not UTF-16 code units.
- Lookups in the badge and colour tables use only the seven listed keys. Inherited object properties such as `constructor` are not modelled.
- `Helpers.FormatDuration`: takes whole seconds only. Fractional seconds are not modelled, although the JavaScript function accepts them.
- Reading projects (`getAllProjects`, `getProject`), route tables, the logger, seed scripts and all React rendering are outside the modelled core.

## Findings

| source | as written | input that shows it | evidently intended | confidence | as-written member | corrected member |
|---|---|---|---|---|---|---|
| backend/src/controllers/projectController.js:194-222 | the builds are loaded with attributes status, duration and createdAt only. `duration` is a virtual attribute without declared dependencies, so startedAt and completedAt are not selected. Every duration is then null and the average is always 0 | a project with one build started at 1000 ms and completed at 6000 ms reports an average of 0 | the average is the rounded mean of the completed builds' durations, 5 for that build | medium, not executed; depends on the ORM dropping dependency-free virtual attributes from the selected columns | ProjectController.AverageAlwaysZeroAsWritten | ProjectController.AverageWithinRange |
