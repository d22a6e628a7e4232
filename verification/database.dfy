/** The two tables as immutable values: projects keyed by id, builds as rows in insertion order. */
module Database {
  import opened Outcomes
  import opened BuildModel
  import opened ProjectModel
  import opened Sequences

  datatype Store = Store(projects: map<Id, Project>, builds: seq<Build>)

  predicate HasBuild(builds: seq<Build>, id: Id) {
    exists i | 0 <= i < |builds| :: builds[i].id == id
  }

  /** Position of the first row with the given id. */
  function IndexOf(builds: seq<Build>, id: Id): (r: Option<nat>)
    ensures r.Some? ==> r.value < |builds| && builds[r.value].id == id
    ensures r.Some? ==> forall j | 0 <= j < r.value :: builds[j].id != id
    ensures r.None? <==> !HasBuild(builds, id)
  {
    if |builds| == 0 then None
    else if builds[0].id == id then Some(0)
    else match IndexOf(builds[1..], id)
      case None => None
      case Some(k) => Some(k + 1)
  }

  /** `Build.findByPk(id)`. */
  function FindBuild(st: Store, id: Id): (r: Option<Build>)
    ensures r.Some? <==> HasBuild(st.builds, id)
    ensures r.Some? ==> r.value.id == id && r.value in st.builds
  {
    match IndexOf(st.builds, id)
    case None => None
    case Some(i) => Some(st.builds[i])
  }

  /** A row appended with a fresh id is found by that id. */
  lemma {:induction false} IndexOfAppended(builds: seq<Build>, b: Build)
    requires !HasBuild(builds, b.id)
    ensures IndexOf(builds + [b], b.id) == Some(|builds|)
    decreases |builds|
  {
    if |builds| > 0 {
      assert (builds + [b])[1..] == builds[1..] + [b];
      assert !HasBuild(builds[1..], b.id) by {
        forall i | 0 <= i < |builds[1..]| ensures builds[1..][i].id != b.id {
          assert builds[1..][i] == builds[i + 1];
        }
      }
      IndexOfAppended(builds[1..], b);
    }
  }

  /** Appending a row leaves every other id's lookup unchanged. */
  lemma {:induction false} IndexOfOther(builds: seq<Build>, b: Build, id: Id)
    requires id != b.id
    ensures IndexOf(builds + [b], id) == IndexOf(builds, id)
    decreases |builds|
  {
    if |builds| > 0 {
      assert (builds + [b])[1..] == builds[1..] + [b];
      IndexOfOther(builds[1..], b, id);
    }
  }

  /** The attributes an instance `update`/`save` writes; `None` leaves the column as stored. */
  datatype Patch = Patch(
    status: Option<BuildStatus>,
    startedAt: Option<Timestamp>,
    completedAt: Option<Timestamp>,
    logs: Option<string>)

  function Apply(b: Build, p: Patch): (r: Build)
    ensures r.id == b.id && r.projectId == b.projectId && r.buildNumber == b.buildNumber
    ensures r.commit == b.commit && r.branch == b.branch && r.author == b.author
    ensures r.authorEmail == b.authorEmail && r.commitMessage == b.commitMessage
    ensures r.triggeredBy == b.triggeredBy
  {
    b.(status := p.status.GetOr(b.status),
       startedAt := if p.startedAt.Some? then p.startedAt else b.startedAt,
       completedAt := if p.completedAt.Some? then p.completedAt else b.completedAt,
       logs := p.logs.GetOr(b.logs))
  }

  /** Writing a patch to the row with the given id; like an UPDATE that matches no row, it
      changes nothing when the row is gone. */
  function SaveBuild(st: Store, id: Id, p: Patch): (r: Store)
    ensures r.projects == st.projects
    ensures |r.builds| == |st.builds|
    ensures forall i | 0 <= i < |st.builds| :: r.builds[i].id == st.builds[i].id
    ensures forall i | 0 <= i < |st.builds| && st.builds[i].id != id :: r.builds[i] == st.builds[i]
    ensures FindBuild(st, id).None? ==> r == st
    ensures FindBuild(st, id).Some? ==> FindBuild(r, id) == Some(Apply(FindBuild(st, id).value, p))
  {
    match IndexOf(st.builds, id)
    case None => st
    case Some(i) =>
      var r := st.(builds := st.builds[i := Apply(st.builds[i], p)]);
      IndexOfKeepsIds(st.builds, r.builds, id);
      r
  }

  /** Rewriting rows without touching their ids leaves every id lookup where it was. */
  lemma {:induction false} IndexOfKeepsIds(a: seq<Build>, b: seq<Build>, id: Id)
    requires |a| == |b|
    requires forall i | 0 <= i < |a| :: a[i].id == b[i].id
    ensures IndexOf(a, id) == IndexOf(b, id)
    decreases |a|
  {
    if |a| > 0 && a[0].id != id {
      IndexOfKeepsIds(a[1..], b[1..], id);
    }
  }

  /** Removing the row at position `i`. */
  function RemoveAt(builds: seq<Build>, i: nat): (r: seq<Build>)
    requires i < |builds|
    ensures |r| == |builds| - 1
    ensures forall j | 0 <= j < i :: r[j] == builds[j]
    ensures forall j | i <= j < |r| :: r[j] == builds[j + 1]
    ensures Sublist(r, builds)
  {
    SublistRemove(builds, i);
    builds[..i] + builds[i + 1..]
  }

  /** The rows not owned by the given project, in their original order: the cascade of a
      project deletion. */
  function WithoutProject(builds: seq<Build>, projectId: Id): (r: seq<Build>)
    ensures |r| <= |builds|
    ensures forall b :: b in r <==> b in builds && b.projectId != projectId
    ensures Sublist(r, builds)
  {
    if |builds| == 0 then []
    else if builds[0].projectId == projectId then WithoutProject(builds[1..], projectId)
    else
      var rest := WithoutProject(builds[1..], projectId);
      assert ([builds[0]] + rest)[1..] == rest;
      [builds[0]] + rest
  }

  // ---- the invariant the tables keep ----

  predicate UniqueIds(builds: seq<Build>) {
    forall i, j | 0 <= i < j < |builds| :: builds[i].id != builds[j].id
  }

  /** Within one project no two rows share a build number. */
  predicate DistinctNumbers(builds: seq<Build>) {
    forall i, j | 0 <= i < j < |builds| ::
      builds[i].projectId == builds[j].projectId ==> builds[i].buildNumber != builds[j].buildNumber
  }

  predicate KeyedById(projects: map<Id, Project>) {
    forall k | k in projects :: projects[k].id == k
  }

  /** The unique constraint on `name`. */
  predicate UniqueNames(projects: map<Id, Project>) {
    forall k1, k2 | k1 in projects && k2 in projects && k1 != k2 :: projects[k1].name != projects[k2].name
  }

  predicate NameTaken(projects: map<Id, Project>, name: string) {
    exists k | k in projects :: projects[k].name == name
  }

  predicate ProjectsValid(projects: map<Id, Project>, isUrl: string -> bool) {
    forall k | k in projects :: ValidProject(projects[k], isUrl)
  }

  /** Every row has an existing owner, fits its columns and is numbered from 1. */
  predicate RowsOk(builds: seq<Build>, projects: map<Id, Project>) {
    forall i | 0 <= i < |builds| ::
      builds[i].projectId in projects && FitsColumns(builds[i]) && builds[i].buildNumber >= 1
  }

  /** Everything the schema and the controllers keep true of the stored tables. */
  predicate Valid(st: Store, isUrl: string -> bool) {
    && KeyedById(st.projects)
    && UniqueNames(st.projects)
    && ProjectsValid(st.projects, isUrl)
    && UniqueIds(st.builds)
    && DistinctNumbers(st.builds)
    && RowsOk(st.builds, st.projects)
  }

  /** Patches touch no column the invariant speaks of. */
  lemma SaveBuildKeepsValid(st: Store, id: Id, p: Patch, isUrl: string -> bool)
    requires Valid(st, isUrl)
    ensures Valid(SaveBuild(st, id, p), isUrl)
  {
    var r := SaveBuild(st, id, p);
    forall i | 0 <= i < |r.builds|
      ensures r.builds[i].projectId == st.builds[i].projectId && r.builds[i].buildNumber == st.builds[i].buildNumber
      ensures FitsColumns(r.builds[i])
    {
      if st.builds[i].id == id {
        var k := IndexOf(st.builds, id).value;
        assert k == i;
      }
    }
  }
}
