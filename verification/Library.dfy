/**
 * The roadmaps a visitor keeps side by side.
 */
module Library {
  import opened Text
  import opened Document

  const MAX_PROJECTS := 24
  const MAX_PROJECT_NAME := 48
  const UNTITLED := "Untitled roadmap"

  /** `example` is the mark: the id of the template this plan stands for. */
  datatype Project = Project(id: string, name: string, doc: RoadmapDocument, updatedAt: int, example: Option<string>)

  datatype ProjectLibrary = ProjectLibrary(activeId: string, projects: seq<Project>)

  datatype Template = Template(id: string, name: string, doc: RoadmapDocument)

  /** A template is built with today as its viewing date. */
  function Build(t: Template, today: string): RoadmapDocument {
    t.doc.(timeline := t.doc.timeline.(viewDate := today))
  }

  /** The shipped templates: the first one seeds the library, any one can be marked as an example. */
  datatype Catalog = Catalog(starter: Template, others: seq<Template>)

  function FirstById(ts: seq<Template>, id: string): (t: Option<Template>)
    ensures t.Some? ==> t.value in ts && t.value.id == id
    ensures t.None? ==> forall k :: 0 <= k < |ts| ==> ts[k].id != id
  {
    if ts == [] then None else if ts[0].id == id then Some(ts[0]) else FirstById(ts[1..], id)
  }

  function TemplateById(c: Catalog, id: string): (t: Option<Template>)
    ensures t.Some? ==> t.value.id == id
    ensures id == c.starter.id ==> t == Some(c.starter)
    ensures t.None? ==> forall k :: 0 <= k < |c.others| ==> c.others[k].id != id
  {
    if c.starter.id == id then Some(c.starter) else FirstById(c.others, id)
  }

  // ----------------------------------------------------------------- names

  function CleanName(name: string): (r: string)
    ensures 0 < |r| <= MAX_PROJECT_NAME
  {
    var cut := Take(Trim(name), MAX_PROJECT_NAME);
    if cut != "" then cut else UNTITLED
  }

  /** base, "base 2", "base 3", … */
  function Candidate(base: string, n: nat): string {
    if n < 2 then base else base + " " + Decimal(n)
  }

  function FirstFree(taken: set<string>, base: string, suffix: nat): string
    requires 2 <= suffix <= 100
    decreases 100 - suffix
  {
    if suffix == 100 then base
    else if Candidate(base, suffix) !in taken then Candidate(base, suffix)
    else FirstFree(taken, base, suffix + 1)
  }

  function UniqueName(taken: set<string>, base: string): string {
    if base !in taken then base else FirstFree(taken, base, 2)
  }

  function Names(lib: ProjectLibrary): set<string> { set p | p in lib.projects :: p.name }

  method UniqueProjectName(lib: ProjectLibrary, base: string) returns (name: string)
    ensures name == UniqueName(Names(lib), base)
  {
    var taken := set p | p in lib.projects :: p.name;
    if base !in taken { return base; }
    var suffix := 2;
    while suffix < 100
      invariant 2 <= suffix <= 100
      invariant FirstFree(taken, base, 2) == FirstFree(taken, base, suffix)
    {
      if base + " " + Decimal(suffix) !in taken { return base + " " + Decimal(suffix); }
      suffix := suffix + 1;
    }
    return base;
  }

  lemma {:induction false} FirstFreeExactly(taken: set<string>, base: string, suffix: nat)
    requires 2 <= suffix <= 100 && base in taken
    ensures FirstFree(taken, base, suffix) in taken <==> forall n :: suffix <= n < 100 ==> Candidate(base, n) in taken
    ensures exists n :: 1 <= n < 100 && FirstFree(taken, base, suffix) == Candidate(base, n)
    decreases 100 - suffix
  {
    if suffix == 100 {
      assert Candidate(base, 1) == base;
    } else if Candidate(base, suffix) in taken {
      FirstFreeExactly(taken, base, suffix + 1);
    }
  }

  lemma CandidatesDiffer(base: string, m: nat, n: nat)
    requires 1 <= m < n
    ensures Candidate(base, m) != Candidate(base, n)
  {
    assert |Candidate(base, n)| > |base| && Candidate(base, n)[|base| + 1..] == Decimal(n);
    if m >= 2 {
      assert Candidate(base, m)[|base| + 1..] == Decimal(m);
      if Decimal(m) == Decimal(n) { DecimalInjective(m, n); }
    }
  }

  lemma {:induction false} Pigeonhole(taken: set<string>, base: string, n: nat)
    requires forall k :: 1 <= k <= n ==> Candidate(base, k) in taken
    ensures |taken| >= n
  {
    if n > 0 {
      var c := Candidate(base, n);
      forall k | 1 <= k <= n - 1 ensures Candidate(base, k) in taken - {c} { CandidatesDiffer(base, k, n); }
      Pigeonhole(taken - {c}, base, n - 1);
      assert |taken - {c}| == |taken| - 1;
    }
  }

  /** The name found is taken only when the base and every suffix up to 99 are. */
  lemma UniqueNameExactly(taken: set<string>, base: string)
    ensures UniqueName(taken, base) in taken <==> forall n :: 1 <= n < 100 ==> Candidate(base, n) in taken
    ensures |taken| < 99 ==> UniqueName(taken, base) !in taken
    ensures exists n :: 1 <= n < 100 && UniqueName(taken, base) == Candidate(base, n)
  {
    assert Candidate(base, 1) == base;
    if base in taken { FirstFreeExactly(taken, base, 2); }
    if forall n :: 1 <= n < 100 ==> Candidate(base, n) in taken { Pigeonhole(taken, base, 99); }
  }

  lemma CandidateIsTrimmed(base: string, n: nat)
    requires Trimmed(base) && base != ""
    ensures Trimmed(Candidate(base, n))
    ensures n < 100 ==> |Candidate(base, n)| <= |base| + 3
  {
    var c := Candidate(base, n);
    if n >= 2 {
      assert c[|c| - 1] == Decimal(n)[|Decimal(n)| - 1] && IsDigit(c[|c| - 1]);
    }
  }

  lemma CleanOfTrimmed(s: string)
    requires Trimmed(s) && s != ""
    ensures CleanName(s) == Take(s, MAX_PROJECT_NAME)
  {
    TrimOfTrimmed(s);
  }

  /** The name a new roadmap ends up with is unused while fewer than 99 are taken. */
  ghost predicate AlwaysUnused(base: string) {
    forall taken: set<string> :: |taken| < 99 ==> CleanName(UniqueName(taken, base)) !in taken
  }

  /** Cutting to 48 keeps the name unused exactly for a trimmed base of one to 45 characters. */
  lemma CleanedNameStaysUnusedExactly(base: string)
    ensures AlwaysUnused(base) <==> Trimmed(base) && base != "" && |base| <= MAX_PROJECT_NAME - 3
  {
    if !Trimmed(base) || base == "" {
      UntrimmedCollision(base);
    } else if |base| <= MAX_PROJECT_NAME - 3 {
      ShortNameStaysUnused(base);
    } else {
      var taken := CutCollision(base);
    }
  }

  lemma ShortNameStaysUnused(base: string)
    requires Trimmed(base) && base != "" && |base| <= MAX_PROJECT_NAME - 3
    ensures AlwaysUnused(base)
  {
    forall taken: set<string> | |taken| < 99 ensures CleanName(UniqueName(taken, base)) !in taken {
      UniqueNameExactly(taken, base);
      var n :| 1 <= n < 100 && UniqueName(taken, base) == Candidate(base, n);
      CandidateIsTrimmed(base, n);
      CleanOfTrimmed(Candidate(base, n));
    }
  }

  /** A base that is not trimmed, or empty, cleans to a name that it does not itself collide with. */
  lemma UntrimmedCollision(base: string)
    requires !Trimmed(base) || base == ""
    ensures CleanName(base) != base && !AlwaysUnused(base)
  {
    if base != "" { TrimShortens(base); }
    assert Trimmed(UNTITLED);
    var taken := {CleanName(base)};
    assert UniqueName(taken, base) == base;
  }

  lemma {:induction false} FirstFreeAfterTaken(taken: set<string>, base: string, suffix: nat, n: nat)
    requires 2 <= suffix <= n < 100 && forall k :: suffix <= k < n ==> Candidate(base, k) in taken
    ensures FirstFree(taken, base, suffix) == FirstFree(taken, base, n)
    decreases n - suffix
  {
    if suffix < n { FirstFreeAfterTaken(taken, base, suffix + 1, n); }
  }

  /** Names in use that the cut name of a long base runs into. */
  lemma CutCollision(base: string) returns (taken: set<string>)
    requires Trimmed(base) && |base| > MAX_PROJECT_NAME - 3
    ensures |taken| < 99 && CleanName(UniqueName(taken, base)) in taken
  {
    if |base| == 46 {
      taken := CollisionAtTen(base);
    } else if |base| <= 48 {
      taken := CollisionAtTwo(base);
    } else {
      taken := {base[..48]};
      CleanOfTrimmed(base);
    }
  }

  lemma CollisionAtTwo(base: string) returns (taken: set<string>)
    requires Trimmed(base) && 47 <= |base| <= 48
    ensures |taken| < 99 && CleanName(UniqueName(taken, base)) in taken
  {
    var c := base + " 2";
    taken := {base, c[..48]};
    assert Decimal(2) == "2" && Candidate(base, 2) == c;
    assert |c| > 48;
    CandidateIsTrimmed(base, 2); CleanOfTrimmed(c);
    assert c !in taken;
    assert UniqueName(taken, base) == c;
  }

  lemma CollisionAtTen(base: string) returns (taken: set<string>)
    requires Trimmed(base) && |base| == 46
    ensures |taken| < 99 && CleanName(UniqueName(taken, base)) in taken
  {
    var c := base + " 10";
    taken := {Candidate(base, 1), Candidate(base, 2), Candidate(base, 3), Candidate(base, 4), Candidate(base, 5),
              Candidate(base, 6), Candidate(base, 7), Candidate(base, 8), Candidate(base, 9), c[..48]};
    assert Decimal(10) == "10" && Candidate(base, 10) == c;
    CandidateIsTrimmed(base, 10); CleanOfTrimmed(c);
    TenIsFree(base);
    hide Candidate, CleanName, Decimal;
    FirstFreeAfterTaken(taken, base, 2, 10);
    assert Candidate(base, 1) == base;
    assert c !in taken;
  }

  lemma TenIsFree(base: string)
    ensures Candidate(base, 1) == base
    ensures forall n :: 1 <= n < 10 ==> Candidate(base, n) != Candidate(base, 10)
  {
    forall n | 1 <= n < 10 ensures Candidate(base, n) != Candidate(base, 10) { CandidatesDiffer(base, n, 10); }
  }

  lemma {:induction false} NamesAreFewer(ps: seq<Project>)
    ensures |set p | p in ps :: p.name| <= |ps|
  {
    if ps != [] {
      var most, last := ps[..|ps| - 1], ps[|ps| - 1];
      NamesAreFewer(most);
      assert ps == most + [last];
      assert (set p | p in ps :: p.name) == (set p | p in most :: p.name) + {last.name};
    }
  }

  /** A plan that is added under a trimmed base of at most 45 characters has a name of its own. */
  lemma AddedNameIsUnused(lib: ProjectLibrary, base: string)
    requires !IsFull(lib) && Trimmed(base) && base != "" && |base| <= MAX_PROJECT_NAME - 3
    ensures CleanName(UniqueName(Names(lib), base)) !in Names(lib)
  {
    NamesAreFewer(lib.projects);
    CleanedNameStaysUnusedExactly(base);
    hide CleanName, UniqueName;
  }

  // ------------------------------------------------------------ operations

  function CreateProject(id: string, name: string, doc: RoadmapDocument, now: int, example: Option<string>): Project {
    Project(id, CleanName(name), doc, now, example)
  }

  /** The first project with the id, or the length of the list. */
  function Find(ps: seq<Project>, id: string): (i: nat)
    ensures i <= |ps|
    ensures i < |ps| ==> ps[i].id == id
    ensures forall k :: 0 <= k < i ==> ps[k].id != id
  {
    if ps == [] || ps[0].id == id then 0 else 1 + Find(ps[1..], id)
  }

  predicate Holds(ps: seq<Project>, id: string) { Find(ps, id) < |ps| }

  /** activeProject: the first project where the active id is not found. */
  function ActiveProject(lib: ProjectLibrary): Option<Project> {
    if lib.projects == [] then None
    else if Holds(lib.projects, lib.activeId) then Some(lib.projects[Find(lib.projects, lib.activeId)])
    else Some(lib.projects[0])
  }

  function Written(p: Project, id: string, doc: RoadmapDocument, edited: bool, now: int): Project {
    if p.id == id then p.(doc := doc, updatedAt := if edited then now else p.updatedAt) else p
  }

  /** Stores the document under the active plan; only an edit renews the stamp. */
  function WithActiveDoc(lib: ProjectLibrary, doc: RoadmapDocument, edited: bool, now: int): (r: ProjectLibrary)
    ensures |r.projects| == |lib.projects|
    ensures r.activeId == if lib.projects == [] || Holds(lib.projects, lib.activeId) then lib.activeId else lib.projects[0].id
    ensures forall k :: 0 <= k < |lib.projects| ==> r.projects[k] == Written(lib.projects[k], r.activeId, doc, edited, now)
  {
    var id := match ActiveProject(lib) case Some(p) => p.id case None => lib.activeId;
    ProjectLibrary(id, seq(|lib.projects|, k requires 0 <= k < |lib.projects| => Written(lib.projects[k], id, doc, edited, now)))
  }

  predicate IsFull(lib: ProjectLibrary) { |lib.projects| >= MAX_PROJECTS }

  /** One more plan at the end, opened, unless there is no room. */
  function AddProject(lib: ProjectLibrary, p: Project): ProjectLibrary {
    if IsFull(lib) then lib else ProjectLibrary(p.id, lib.projects + [p])
  }

  /** One plan, marked with the first template. */
  function SeedLibrary(starter: Template, id: string, today: string, now: int): ProjectLibrary {
    ProjectLibrary(id, [CreateProject(id, starter.name, Build(starter, today), now, Some(starter.id))])
  }

  function Without(ps: seq<Project>, id: string): seq<Project> {
    if ps == [] then []
    else if ps[0].id == id then Without(ps[1..], id) else [ps[0]] + Without(ps[1..], id)
  }

  lemma {:induction false} WithoutExactly(ps: seq<Project>, id: string, p: Project)
    ensures p in Without(ps, id) <==> p in ps && p.id != id
  {
    if ps != [] { WithoutExactly(ps[1..], id, p); }
  }

  /** The plan is dropped, its neighbour opens; an emptied library is seeded again. */
  function RemoveProject(lib: ProjectLibrary, id: string, seed: ProjectLibrary): ProjectLibrary
    requires Holds(lib.projects, id)
  {
    var index, left := Find(lib.projects, id), Without(lib.projects, id);
    if left == [] then seed
    else
      var fallback := left[if index < |left| then index else |left| - 1];
      ProjectLibrary(if lib.activeId == id then fallback.id else lib.activeId, left)
  }

  function Renamed(p: Project, id: string, name: string): Project {
    if p.id == id then p.(name := CleanName(name), example := None) else p
  }

  /** A new name takes the mark off. */
  function RenameProject(lib: ProjectLibrary, id: string, name: string): (r: ProjectLibrary)
    ensures r.activeId == lib.activeId && |r.projects| == |lib.projects|
    ensures forall k :: 0 <= k < |lib.projects| ==> r.projects[k] == Renamed(lib.projects[k], id, name)
  {
    ProjectLibrary(lib.activeId, seq(|lib.projects|, k requires 0 <= k < |lib.projects| => Renamed(lib.projects[k], id, name)))
  }

  const FORK_NAME := "My roadmap"

  /** An unmarked plan with the edited document, under a name not in use. */
  function ForkProject(lib: ProjectLibrary, doc: RoadmapDocument, id: string, now: int): Project {
    CreateProject(id, UniqueName(Names(lib), FORK_NAME), doc, now, None)
  }

  // -------------------------------------------------------- what they keep

  ghost predicate UniqueProjects(ps: seq<Project>) {
    forall i, j :: 0 <= i < j < |ps| ==> ps[i].id != ps[j].id
  }

  /** Something is open, and ids name projects. */
  ghost predicate ValidLibrary(lib: ProjectLibrary) {
    UniqueProjects(lib.projects) && Holds(lib.projects, lib.activeId)
  }

  lemma FindById(ps: seq<Project>, k: nat)
    requires UniqueProjects(ps) && k < |ps|
    ensures Find(ps, ps[k].id) == k
  {
  }

  lemma HoldsExactly(ps: seq<Project>, id: string)
    ensures Holds(ps, id) <==> exists p :: p in ps && p.id == id
  {
    if Holds(ps, id) { assert ps[Find(ps, id)] in ps; }
  }

  lemma {:induction false} WithoutIsCut(ps: seq<Project>, k: nat, id: string)
    requires k < |ps| && forall j :: 0 <= j < |ps| ==> (ps[j].id == id <==> j == k)
    ensures Without(ps, id) == ps[..k] + ps[k + 1..]
    decreases k
  {
    var rest := ps[1..];
    if k == 0 {
      WithoutAbsent(rest, id);
    } else {
      assert forall j :: 0 <= j < |rest| ==> rest[j] == ps[j + 1];
      WithoutIsCut(rest, k - 1, id);
      assert ps[0].id != id;
      assert ps[..k] == [ps[0]] + rest[..k - 1] && rest[k..] == ps[k + 1..];
    }
  }

  lemma {:induction false} WithoutAbsent(ps: seq<Project>, id: string)
    requires forall k :: 0 <= k < |ps| ==> ps[k].id != id
    ensures Without(ps, id) == ps
  {
    if ps != [] { WithoutAbsent(ps[1..], id); }
  }
}
