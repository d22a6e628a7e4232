/** The search box of the projects page: a case-insensitive substring filter over name and
    description. */
module ProjectSearch {
  import opened Outcomes
  import opened Text
  import opened BuildModel
  import opened ProjectModel
  import opened Sequences

  /** Whether a project matches the (lower-cased) query. */
  predicate Keeps(p: Project, query: string) {
    || Contains(Lower(p.name), Lower(query))
    || (p.description.Some? && Contains(Lower(p.description.value), Lower(query)))
  }

  /** The projects that match, in their original order. */
  function Matching(projects: seq<Project>, query: string): (r: seq<Project>)
    ensures |r| <= |projects|
    ensures forall p :: p in r <==> p in projects && Keeps(p, query)
  {
    if |projects| == 0 then []
    else if Keeps(projects[0], query) then [projects[0]] + Matching(projects[1..], query)
    else Matching(projects[1..], query)
  }

  /** The search effect: a blank query shows every project; otherwise the projects whose
      lower-cased name or description contains the lower-cased, untrimmed query. */
  function Filter(projects: seq<Project>, query: string): (r: seq<Project>)
    ensures Blank(query) ==> r == projects
    ensures !Blank(query) ==> forall p :: p in r <==> p in projects && Keeps(p, query)
  {
    TrimEmptyIffBlank(query);
    if Trim(query) == "" then projects else Matching(projects, query)
  }

  lemma {:induction false} MatchingIsSublist(projects: seq<Project>, query: string)
    ensures Sublist(Matching(projects, query), projects)
    decreases |projects|
  {
    if |projects| > 0 {
      MatchingIsSublist(projects[1..], query);
      var rest := Matching(projects[1..], query);
      if Keeps(projects[0], query) {
        assert ([projects[0]] + rest)[1..] == rest;
      }
    }
  }

  /** Filtering never reorders or invents projects. */
  lemma FilterIsSublist(projects: seq<Project>, query: string)
    ensures Sublist(Filter(projects, query), projects)
  {
    if Blank(query) {
      SublistRefl(projects);
    } else {
      MatchingIsSublist(projects, query);
    }
  }

  /** Changing the letter case of the query does not change the result. */
  lemma FilterIgnoresCase(projects: seq<Project>, q1: string, q2: string)
    requires Lower(q1) == Lower(q2)
    ensures Filter(projects, q1) == Filter(projects, q2)
  {
    LowerKeepsBlank(q1);
    LowerKeepsBlank(q2);
    if !Blank(q1) {
      MatchingIgnoresCase(projects, q1, q2);
    }
  }

  lemma {:induction false} MatchingIgnoresCase(projects: seq<Project>, q1: string, q2: string)
    requires Lower(q1) == Lower(q2)
    ensures Matching(projects, q1) == Matching(projects, q2)
    decreases |projects|
  {
    if |projects| > 0 {
      MatchingIgnoresCase(projects[1..], q1, q2);
    }
  }

  /** The query is matched untrimmed: a leading space keeps a project named exactly `web`
      without a description out, although the trimmed query keeps it. */
  lemma UntrimmedQueryMatters(p: Project)
    requires p.name == "web" && p.description.None?
    ensures Filter([p], " web") == []
    ensures Filter([p], "web") == [p]
  {
    assert !IsJsSpace(" web"[1]);
    assert !IsJsSpace("web"[0]);
    LowerWeb();
    assert OccursAt(Lower("web"), Lower("web"), 0);
    assert Keeps(p, "web");
    assert |Lower(" web")| > |Lower(p.name)|;
    assert !Keeps(p, " web");
    assert [p][1..] == [];
  }

  lemma LowerWeb()
    ensures Lower("web") == "web"
  {
    assert forall i | 0 <= i < 3 :: LowerChar("web"[i]) == "web"[i];
  }
}
