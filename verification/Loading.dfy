/**
 * Opening the stored library, and a shared plan on top of it.
 */
module Loading {
  import opened Text
  import opened Calendar
  import opened Document
  import opened Json
  import opened Normalise
  import opened NormalForm
  import opened Library
  import opened Editor
  import opened Refinement
  import opened Marks
  import opened Runs

  /** String(x), and Number(x) with the clock for what is not a number. */
  datatype Host = Host(today: string, now: int, text: Json -> string, stamp: Json -> int)

  predicate Truthy(j: Json) {
    match j
    case JNull => false
    case JBool(b) => b
    case JNumber(n) => n != Finite(0.0)
    case JString(s) => s != ""
    case JArray(_) => true
    case JObject(_) => true
  }

  /** The template an entry says it is the example of. */
  function MarkOf(c: Catalog, entry: Json, host: Host): Option<Template> {
    if Truthy(Get(entry, KExample)) then TemplateById(c, host.text(Get(entry, KExample))) else None
  }

  function NodesOf(entry: Json): nat { |Items(Get(Get(entry, KDoc), KMigrations))| }

  function PlanId(entry: Json, newId: string): string {
    if Get(entry, KId).JString? && Get(entry, KId).text != "" then Get(entry, KId).text else newId
  }

  /** A marked entry reads as its template, whatever it holds; any other one reads if its document does. */
  function ReadProject(c: Catalog, entry: Json, newId: string, nodeIds: seq<string>, host: Host): Option<Project>
    requires NodesOf(entry) <= |nodeIds|
  {
    if !entry.JObject? && !entry.JArray? then None
    else
      var mark := MarkOf(c, entry, host);
      var result := Validate(Get(entry, KDoc), host.today, nodeIds);
      var id, stamp := PlanId(entry, newId), host.stamp(Get(entry, KUpdatedAt));
      if mark.Some? then
        Some(Project(id, CleanName(mark.value.name), Library.Build(mark.value, host.today), stamp, Some(mark.value.id)))
      else if result.Refused? then None
      else Some(Project(id, CleanName(if Get(entry, KName) == JNull then "" else host.text(Get(entry, KName))), result.doc, stamp, None))
  }

  /** Ids to draw from: one for each entry, and some for the nodes of each. */
  datatype Drawn = Drawn(plans: seq<string>, nodes: seq<seq<string>>)

  ghost predicate Enough(entries: seq<Json>, ids: Drawn) {
    |entries| <= |ids.plans| && |entries| <= |ids.nodes| &&
    forall k :: 0 <= k < |entries| ==> NodesOf(entries[k]) <= |ids.nodes[k]|
  }

  /** What each entry reads as. */
  function ReadProjects(c: Catalog, entries: seq<Json>, ids: Drawn, host: Host): (rs: seq<Option<Project>>)
    requires Enough(entries, ids)
    ensures |rs| == |entries|
    ensures forall k :: 0 <= k < |rs| ==> rs[k] == ReadProject(c, entries[k], ids.plans[k], ids.nodes[k], host)
  {
    hide ReadProject, NodesOf;
    seq(|entries|, k requires 0 <= k < |entries| && Enough(entries, ids) =>
      ReadProject(c, entries[k], ids.plans[k], ids.nodes[k], host))
  }

  /** The plans read, in order. */
  function Kept(rs: seq<Option<Project>>): (ps: seq<Project>)
    ensures forall p :: p in ps <==> Some(p) in rs
  {
    if rs == [] then []
    else
      var n := |rs| - 1;
      assert rs == rs[..n] + [rs[n]];
      match rs[n]
      case Some(p) => Kept(rs[..n]) + [p]
      case None => Kept(rs[..n])
  }

  /** The stored active id where it names a plan, the first plan otherwise. */
  function Assemble(ps: seq<Project>, activeId: Json): Option<ProjectLibrary> {
    if ps == [] then None
    else if activeId.JString? && Holds(ps, activeId.text) then Some(ProjectLibrary(activeId.text, ps))
    else Some(ProjectLibrary(ps[0].id, ps))
  }

  method ReadEntry(c: Catalog, entry: Json, newId: string, nodeIds: seq<string>, host: Host) returns (r: Option<Project>)
    requires NodesOf(entry) <= |nodeIds|
    ensures r == ReadProject(c, entry, newId, nodeIds, host)
  {
    hide Validate, Library.Build, CleanName;
    if !entry.JObject? && !entry.JArray? { return None; }
    var mark := MarkOf(c, entry, host);
    var result := ValidateRoadmap(Get(entry, KDoc), host.today, nodeIds);
    if mark.None? && result.Refused? { return None; }
    var name := if mark.Some? then mark.value.name
                else if Get(entry, KName) == JNull then "" else host.text(Get(entry, KName));
    r := Some(Project(
      PlanId(entry, newId), CleanName(name),
      if mark.Some? then Library.Build(mark.value, host.today) else result.doc,
      host.stamp(Get(entry, KUpdatedAt)),
      if mark.Some? then Some(mark.value.id) else None));
  }

  lemma KeptOfNone()
    ensures Kept([]) == []
  {
  }

  lemma KeptOneMore(rs: seq<Option<Project>>, k: nat)
    requires k < |rs|
    ensures Kept(rs[..k + 1]) == Kept(rs[..k]) + if rs[k].Some? then [rs[k].value] else []
  {
    assert rs[..k + 1][..k] == rs[..k];
  }

  method ParseLibrary(c: Catalog, input: Json, ids: Drawn, host: Host) returns (r: Option<ProjectLibrary>)
    requires Enough(Items(Get(input, KProjects)), ids)
    ensures r == Assemble(Kept(ReadProjects(c, Items(Get(input, KProjects)), ids, host)), Get(input, KActiveId))
  {
    hide ReadProject, NodesOf, Holds, Items, Kept;
    assert Kept([]) == [] by { KeptOfNone(); }
    var entries := Items(Get(input, KProjects));
    ghost var rs := ReadProjects(c, entries, ids, host);
    var projects: seq<Project> := [];
    for k := 0 to |entries|
      invariant projects == Kept(rs[..k])
    {
      var project := ReadEntry(c, entries[k], ids.plans[k], ids.nodes[k], host);
      KeptOneMore(rs, k);
      if project.Some? { projects := projects + [project.value]; }
    }
    assert rs[..|entries|] == rs;
    r := Assemble(projects, Get(input, KActiveId));
  }

  // ------------------------------------------------ what a load guarantees

  ghost predicate PlanIdsFresh(ids: Drawn, entries: seq<Json>) {
    && (forall k :: 0 <= k < |ids.plans| ==> ids.plans[k] != "")
    && (forall j, k :: 0 <= j < k < |ids.plans| ==> ids.plans[j] != ids.plans[k])
    && (forall k, entry :: 0 <= k < |ids.plans| && entry in entries ==> Get(entry, KId) != JString(ids.plans[k]))
  }

  /**
   * What becomes of one stored entry. It is dropped exactly if it is no object, or stands for
   * no template and its document is refused; otherwise it keeps its id and its name, if it
   * has them, and its stamp, and takes its document from the template or from the store.
   */
  lemma EntryIsReadExactly(c: Catalog, entry: Json, newId: string, nodeIds: seq<string>, host: Host)
    requires NodesOf(entry) <= |nodeIds|
    ensures var r, outcome := ReadProject(c, entry, newId, nodeIds, host), Validate(Get(entry, KDoc), host.today, nodeIds);
      var id, name, mark := Get(entry, KId), Get(entry, KName), if Truthy(Get(entry, KExample)) then TemplateById(c, host.text(Get(entry, KExample))) else None;
      && (r.Some? <==> (entry.JObject? || entry.JArray?) && (mark.Some? || outcome.Accepted?))
      && (r.Some? ==>
            && r.value.id == (if id.JString? && id != JString("") then id.text else newId)
            && r.value.updatedAt == host.stamp(Get(entry, KUpdatedAt))
            && (mark.Some? ==> r.value.example == Some(mark.value.id) && r.value.name == CleanName(mark.value.name)
                               && r.value.doc == mark.value.doc.(timeline := mark.value.doc.timeline.(viewDate := host.today)))
            && (mark.None? ==> r.value.example == None && r.value.doc == outcome.doc
                               && r.value.name == CleanName(if name == JNull then "" else host.text(name))))
  {
    hide Validate, CleanName, NodesOf, TemplateById, Truthy, Get;
  }

  /** Two entries stored under one id. */
  predicate SharedId(first: Json, second: Json) {
    Get(first, KId).JString? && Get(first, KId).text != "" && Get(second, KId) == Get(first, KId)
  }

  /** No two of the entries that are kept were stored under one id. */
  ghost predicate NoneShared(entries: seq<Json>, rs: seq<Option<Project>>)
    requires |rs| == |entries|
  {
    forall j, k :: 0 <= j < k < |rs| && rs[j].Some? && rs[k].Some? ==> !SharedId(entries[j], entries[k])
  }

  predicate Apart(a: Option<Project>, b: Option<Project>) {
    a.Some? && b.Some? ==> a.value.id != b.value.id
  }

  lemma IdRead(c: Catalog, entry: Json, newId: string, nodeIds: seq<string>, host: Host)
    requires NodesOf(entry) <= |nodeIds|
    ensures var p := ReadProject(c, entry, newId, nodeIds, host); p.Some? ==> p.value.id == PlanId(entry, newId)
  {
    hide Validate, Library.Build, CleanName, NodesOf;
  }

  ghost predicate AllApart(rs: seq<Option<Project>>) {
    forall j, k :: 0 <= j < k < |rs| ==> Apart(rs[j], rs[k])
  }

  lemma ApartWithOneMore(rs: seq<Option<Project>>, last: Option<Project>)
    ensures AllApart(rs + [last]) <==> AllApart(rs) && forall j :: 0 <= j < |rs| ==> Apart(rs[j], last)
  {
    hide Apart;
    var all := rs + [last];
    assert (forall j :: 0 <= j < |rs| ==> all[j] == rs[j]) && all[|rs|] == last;
    if AllApart(all) {
      forall j | 0 <= j < |rs| ensures Apart(rs[j], last) { assert Apart(all[j], all[|rs|]); }
    }
  }

  lemma {:induction false} KeptIdsAreUniqueExactly(rs: seq<Option<Project>>)
    ensures UniqueProjects(Kept(rs)) <==> AllApart(rs)
  {
    if rs != [] {
      var n := |rs| - 1;
      var most, last := rs[..n], rs[n];
      hide UniqueProjects, AllApart;
      KeptIdsAreUniqueExactly(most);
      assert rs == most + [last];
      ApartWithOneMore(most, last);
      if last.Some? {
        UniqueWithOneMore(Kept(most), last.value);
        ApartFromAllKept(most, last.value);
        hide Apart;
      }
    }
  }

  lemma ApartFromAllKept(rs: seq<Option<Project>>, p: Project)
    ensures (forall q <- Kept(rs) :: q.id != p.id) <==> forall j :: 0 <= j < |rs| ==> Apart(rs[j], Some(p))
  {
    if forall q <- Kept(rs) :: q.id != p.id {
      forall j | 0 <= j < |rs| ensures Apart(rs[j], Some(p)) {
        assert rs[j] in rs;
      }
    }
    if forall j :: 0 <= j < |rs| ==> Apart(rs[j], Some(p)) {
      forall q | q in Kept(rs) ensures q.id != p.id {
        var j :| 0 <= j < |rs| && rs[j] == Some(q);
        assert Apart(rs[j], Some(p));
      }
    }
  }

  lemma UniqueWithOneMore(ps: seq<Project>, p: Project)
    ensures UniqueProjects(ps + [p]) <==> UniqueProjects(ps) && forall q <- ps :: q.id != p.id
  {
    var r := ps + [p];
    if UniqueProjects(r) {
      assert forall i :: 0 <= i < |ps| ==> r[i] == ps[i] && r[|ps|] == p;
    }
    if UniqueProjects(ps) && forall q <- ps :: q.id != p.id {
      assert forall i :: 0 <= i < |ps| ==> ps[i] in ps;
    }
  }

  lemma ReadIdsAreUniqueExactly(c: Catalog, entries: seq<Json>, ids: Drawn, host: Host)
    requires Enough(entries, ids) && PlanIdsFresh(ids, entries)
    ensures var rs := ReadProjects(c, entries, ids, host); UniqueProjects(Kept(rs)) <==> NoneShared(entries, rs)
  {
    var rs := ReadProjects(c, entries, ids, host);
    KeptIdsAreUniqueExactly(rs);
    assert AllApart(rs) <==> forall j, k :: 0 <= j < k < |rs| ==> Apart(rs[j], rs[k]);
    hide AllApart, ReadProject, NodesOf, UniqueProjects, Kept, PlanIdsFresh, Get, ReadProjects, SharedId, Apart, Enough;
    forall j, k | 0 <= j < k < |rs|
      ensures Apart(rs[j], rs[k]) <==> !(rs[j].Some? && rs[k].Some? && SharedId(entries[j], entries[k]))
    {
      ApartExactly(c, entries, ids, host, j, k);
    }
  }

  lemma ApartExactly(c: Catalog, entries: seq<Json>, ids: Drawn, host: Host, j: nat, k: nat)
    requires Enough(entries, ids) && PlanIdsFresh(ids, entries) && j < k < |entries|
    ensures var rs := ReadProjects(c, entries, ids, host);
      Apart(rs[j], rs[k]) <==> !(rs[j].Some? && rs[k].Some? && SharedId(entries[j], entries[k]))
  {
    hide ReadProject, NodesOf, Get;
    IdRead(c, entries[j], ids.plans[j], ids.nodes[j], host);
    IdRead(c, entries[k], ids.plans[k], ids.nodes[k], host);
    assert entries[j] in entries && entries[k] in entries;
    hide Enough;
  }

  /** A marked plan holds its template's document, whatever was stored. */
  ghost predicate Rebuilt(c: Catalog, p: Project, today: string) {
    p.example.Some? ==>
      TemplateById(c, p.example.value).Some? && p.doc == Library.Build(TemplateById(c, p.example.value).value, today)
  }

  lemma ReadIsRebuilt(c: Catalog, entry: Json, newId: string, nodeIds: seq<string>, host: Host)
    requires NodesOf(entry) <= |nodeIds|
    ensures var p := ReadProject(c, entry, newId, nodeIds, host); p.Some? ==> Rebuilt(c, p.value, host.today)
  {
    hide Validate, Library.Build, CleanName, NodesOf;
    var mark := MarkOf(c, entry, host);
  }

  /**
   * A stored library opens on a plan it holds, with every marked plan rebuilt from its
   * template; its plans have ids of their own exactly when no two kept entries were stored
   * under one id.
   */
  lemma ParsedLibraryExactly(c: Catalog, input: Json, ids: Drawn, host: Host)
    requires Enough(Items(Get(input, KProjects)), ids) && PlanIdsFresh(ids, Items(Get(input, KProjects)))
    ensures var entries := Items(Get(input, KProjects));
      var rs := ReadProjects(c, entries, ids, host);
      var r := Assemble(Kept(rs), Get(input, KActiveId));
      r.Some? ==>
        && Holds(r.value.projects, r.value.activeId)
        && (ValidLibrary(r.value) <==> NoneShared(entries, rs))
        && (forall p <- r.value.projects :: Rebuilt(c, p, host.today))
  {
    hide ReadProject, NodesOf, Rebuilt, NoneShared, UniqueProjects, Enough, PlanIdsFresh, Items;
    var entries := Items(Get(input, KProjects));
    var rs := ReadProjects(c, entries, ids, host);
    ReadIdsAreUniqueExactly(c, entries, ids, host);
    forall k | 0 <= k < |rs| ensures rs[k].Some? ==> Rebuilt(c, rs[k].value, host.today) {
      EnoughAt(entries, ids, k);
      ReadIsRebuilt(c, entries[k], ids.plans[k], ids.nodes[k], host);
    }
    AssembledIsHeld(Kept(rs), Get(input, KActiveId));
  }

  lemma EnoughAt(entries: seq<Json>, ids: Drawn, k: nat)
    requires Enough(entries, ids) && k < |entries|
    ensures k < |ids.plans| && k < |ids.nodes| && NodesOf(entries[k]) <= |ids.nodes[k]|
  {
  }

  lemma AssembledIsHeld(ps: seq<Project>, activeId: Json)
    ensures var r := Assemble(ps, activeId); r.Some? ==> r.value.projects == ps && Holds(ps, r.value.activeId)
  {
  }

  /**
   * There is a library to open exactly if some entry is kept. It opens on the plan of the
   * stored active id, or on the first one if that id is no string or names none that is kept.
   */
  lemma LibraryOpensExactly(c: Catalog, input: Json, ids: Drawn, host: Host)
    requires Enough(Items(Get(input, KProjects)), ids)
    ensures var rs, activeId := ReadProjects(c, Items(Get(input, KProjects)), ids, host), Get(input, KActiveId);
      var r := Parsed(c, input, ids, host);
      && (r.Some? <==> exists k :: 0 <= k < |rs| && rs[k].Some?)
      && (r.Some? ==> r.value.projects == Kept(rs) && r.value.projects != []
                      && r.value.activeId == if activeId.JString? && exists p :: p in r.value.projects && p.id == activeId.text
                                             then activeId.text else r.value.projects[0].id)
  {
    var entries, activeId := Items(Get(input, KProjects)), Get(input, KActiveId);
    var rs := ReadProjects(c, entries, ids, host);
    hide ReadProject, ReadProjects, Kept, Holds, Enough, Items, Get;
    if activeId.JString? { HoldsExactly(Kept(rs), activeId.text); }
    if k :| 0 <= k < |rs| && rs[k].Some? { assert rs[k].value in Kept(rs); }
    if Kept(rs) != [] { assert Kept(rs)[0] in Kept(rs); }
  }

  /** Under one id, writing the open plan back overwrites the other one as well. */
  lemma SharedIdLosesAPlan(lib: ProjectLibrary, k: nat, doc: RoadmapDocument, now: int)
    requires Holds(lib.projects, lib.activeId) && k < |lib.projects|
    requires k != Find(lib.projects, lib.activeId) && lib.projects[k].id == lib.activeId
    ensures WithActiveDoc(lib, doc, true, now).projects[k].doc == doc
    ensures !ValidLibrary(lib)
  {
  }

  // ------------------------------------------- the example, and a shared plan

  predicate HasExample(lib: ProjectLibrary, starter: Template) {
    exists p :: p in lib.projects && p.example == Some(starter.id)
  }

  /** Puts a plan marked with the first template in front where there is none. */
  function EnsureExample(lib: ProjectLibrary, starter: Template, newId: string, today: string, now: int): ProjectLibrary {
    if HasExample(lib, starter) then lib
    else lib.(projects := [CreateProject(newId, UniqueName(Names(lib), starter.name), Library.Build(starter, today), now, Some(starter.id))] + lib.projects)
  }

  const SHARED_NAME := "Shared roadmap"

  /** Adds and opens what a link carried, where it carried something and there is room. */
  function OpenShared(lib: ProjectLibrary, shared: Option<RoadmapDocument>, newId: string, now: int): ProjectLibrary {
    if shared.None? || IsFull(lib) then lib
    else AddProject(lib, CreateProject(newId, UniqueName(Names(lib), SHARED_NAME), shared.value, now, None))
  }

  lemma FrontedIsValid(lib: ProjectLibrary, p: Project)
    requires ValidLibrary(lib) && forall q <- lib.projects :: q.id != p.id
    ensures UniqueProjects([p] + lib.projects) && ValidLibrary(lib.(projects := [p] + lib.projects))
  {
    hide Find, UniqueProjects;
    var ps := lib.projects;
    FindBehind(p, ps, lib.activeId);
    forall k | 0 <= k < |ps| ensures ps[k].id != p.id { assert ps[k] in ps; }
    FrontedIsUnique(p, ps);
  }

  lemma FrontedIsUnique(p: Project, ps: seq<Project>)
    requires UniqueProjects(ps) && forall k :: 0 <= k < |ps| ==> ps[k].id != p.id
    ensures UniqueProjects([p] + ps)
  {
    var r := [p] + ps;
    forall i, j | 0 <= i < j < |r| ensures r[i].id != r[j].id {
      assert r[j] == ps[j - 1];
      if i > 0 { assert r[i] == ps[i - 1]; }
    }
  }

  lemma FindBehind(p: Project, ps: seq<Project>, id: string)
    ensures Find([p] + ps, id) == if p.id == id then 0 else 1 + Find(ps, id)
  {
    assert ([p] + ps)[1..] == ps;
  }

  lemma AppendedIsValid(lib: ProjectLibrary, p: Project)
    requires ValidLibrary(lib) && !IsFull(lib) && forall q <- lib.projects :: q.id != p.id
    ensures ValidLibrary(AddProject(lib, p)) && ActiveProject(AddProject(lib, p)) == Some(p)
  {
    UniqueWithOneMore(lib.projects, p);
    FindById(AddProject(lib, p).projects, |lib.projects|);
  }

  /** Every mark names a template, and the marked document has its shape. */
  ghost predicate Marked(c: Catalog, ps: seq<Project>) {
    forall p <- ps :: p.example.Some? ==> FromMark(c, p.example.value, p.doc)
  }

  lemma MarkedWithOneMore(c: Catalog, ps: seq<Project>, p: Project)
    requires Marked(c, ps) && (p.example.Some? ==> FromMark(c, p.example.value, p.doc))
    ensures Marked(c, ps + [p]) && Marked(c, [p] + ps)
  {
    hide FromMark;
  }

  lemma EnsuredExample(c: Catalog, lib: ProjectLibrary, newId: string, today: string, now: int)
    requires ValidLibrary(lib) && Marked(c, lib.projects) && forall p <- lib.projects :: p.id != newId
    ensures var full := EnsureExample(lib, c.starter, newId, today, now);
      && ValidLibrary(full) && Marked(c, full.projects) && HasExample(full, c.starter)
      && (forall p <- lib.projects :: p in full.projects)
      && (forall p <- full.projects :: p in lib.projects || p.id == newId)
  {
    StarterFromMark(c, today);
    hide FromMark, Library.Build, UniqueName, CleanName, ValidLibrary, Marked;
    var full := EnsureExample(lib, c.starter, newId, today, now);
    if !HasExample(lib, c.starter) {
      var p := full.projects[0];
      FrontedIsValid(lib, p);
      MarkedWithOneMore(c, lib.projects, p);
      assert p in full.projects && full.projects == [p] + lib.projects;
    }
  }

  lemma OpenedShared(c: Catalog, lib: ProjectLibrary, shared: Option<RoadmapDocument>, newId: string, now: int)
    requires ValidLibrary(lib) && Marked(c, lib.projects) && forall p <- lib.projects :: p.id != newId
    ensures var result := OpenShared(lib, shared, newId, now);
      && ValidLibrary(result) && Marked(c, result.projects)
      && (forall p <- lib.projects :: p in result.projects)
      && (if shared.Some? && !IsFull(lib)
          then ActiveProject(result).Some? && ActiveProject(result).value.id == newId && ActiveProject(result).value.doc == shared.value
          else result == lib)
  {
    hide FromMark, UniqueName, CleanName, ValidLibrary, Marked, ActiveProject;
    if shared.Some? && !IsFull(lib) {
      var p := CreateProject(newId, UniqueName(Names(lib), SHARED_NAME), shared.value, now, None);
      AppendedIsValid(lib, p);
      MarkedWithOneMore(c, lib.projects, p);
    }
  }

  /** What the editor starts from: the stored library or the seed, the example, a shared plan. */
  function StartLibrary(
      c: Catalog, stored: Option<ProjectLibrary>, shared: Option<RoadmapDocument>,
      exampleId: string, sharedId: string, today: string, now: int): (lib: ProjectLibrary)
    ensures lib.projects != []
  {
    var own := match stored case Some(lib) => lib case None => SeedLibrary(c.starter, exampleId, today, now);
    OpenShared(EnsureExample(own, c.starter, exampleId, today, now), shared, sharedId, now)
  }

  /**
   * A sound library with whatever marks, or none at all, starts the editor with its library
   * sound, every mark kept, the example in the list, every stored plan still there, and a
   * shared plan open as a plan of its own.
   */
  lemma LoadedLibraryStartsTheEditor(
      c: Catalog, stored: Option<ProjectLibrary>, shared: Option<RoadmapDocument>,
      exampleId: string, sharedId: string, today: string, now: int)
    requires stored.Some? ==> ValidLibrary(stored.value) && Marked(c, stored.value.projects)
    requires stored.Some? ==> forall p <- stored.value.projects :: p.id != exampleId && p.id != sharedId
    requires exampleId != sharedId
    ensures var lib := StartLibrary(c, stored, shared, exampleId, sharedId, today, now);
      && Inv(c, Loaded(lib)) && HasExample(lib, c.starter)
      && (stored.Some? ==> forall p <- stored.value.projects :: p in lib.projects)
      && (shared.Some? && !IsFull(EnsureExample(if stored.Some? then stored.value else SeedLibrary(c.starter, exampleId, today, now), c.starter, exampleId, today, now))
          ==> lib.activeId == sharedId && Loaded(lib).history == Opened(shared.value))
  {
    var lib := StartLibrary(c, stored, shared, exampleId, sharedId, today, now);
    var seed := SeedLibrary(c.starter, exampleId, today, now);
    SeedIsValid(c.starter, exampleId, today, now);
    StarterFromMark(c, today);
    hide FromMark, Library.Build, UniqueName, CleanName, ValidLibrary;
    assert Marked(c, seed.projects);
    assert HasExample(seed, c.starter) by { assert seed.projects[0] in seed.projects; }
    hide Marked;
    var full := EnsureExample(if stored.Some? then stored.value else seed, c.starter, exampleId, today, now);
    if stored.Some? { EnsuredExample(c, stored.value, exampleId, today, now); }
    OpenedShared(c, full, shared, sharedId, now);
    hide ActiveProject, EnsureExample, SeedLibrary;
    assert HasExample(lib, c.starter) by {
      var p :| p in full.projects && p.example == Some(c.starter.id);
      assert p in lib.projects;
    }
    hide HasExample, OpenShared;
    LoadedIsSound(c, lib);
    OpensItsActive(lib);
  }

  /**
   * The list the editor starts from: the example in front unless one is there, the stored
   * plans or the seed as they are, and a shared plan at the end, where there is room for it.
   * The new plans are stamped and carry names not in use.
   */
  lemma StartsWithExactly(
      c: Catalog, stored: Option<ProjectLibrary>, shared: Option<RoadmapDocument>,
      exampleId: string, sharedId: string, today: string, now: int)
    ensures var own := if stored.Some? then stored.value
                       else ProjectLibrary(exampleId, [NewExample(c.starter, CleanName(c.starter.name), exampleId, today, now)]);
      var front := if exists p :: p in own.projects && p.example == Some(c.starter.id) then []
                   else [NewExample(c.starter, CleanName(UniqueName(Names(own), c.starter.name)), exampleId, today, now)];
      var full := ProjectLibrary(own.activeId, front + own.projects);
      StartLibrary(c, stored, shared, exampleId, sharedId, today, now)
      == if shared.None? || |full.projects| >= 24 then full
         else ProjectLibrary(sharedId, full.projects
           + [Project(sharedId, CleanName(UniqueName(Names(full), "Shared roadmap")), shared.value, now, None)])
  {
    hide CleanName, UniqueName, Names;
    var own := if stored.Some? then stored.value
               else ProjectLibrary(exampleId, [NewExample(c.starter, CleanName(c.starter.name), exampleId, today, now)]);
    assert [] + own.projects == own.projects;
  }

  /** The example as it is put into a library. */
  function NewExample(t: Template, name: string, id: string, today: string, now: int): Project {
    Project(id, name, t.doc.(timeline := t.doc.timeline.(viewDate := today)), now, Some(t.id))
  }

  lemma OpensItsActive(lib: ProjectLibrary)
    requires ValidLibrary(lib)
    ensures ActiveProject(lib).Some? && ActiveProject(lib).value.id == lib.activeId
  {
  }

  /** The editor starts with its invariant exactly where every mark is kept. */
  lemma LoadedIsSound(c: Catalog, lib: ProjectLibrary)
    requires ValidLibrary(lib) && Marked(c, lib.projects)
    ensures lib.projects != [] && Inv(c, Loaded(lib))
  {
    var s := Loaded(lib);
    ActiveFacts(s);
    hide FromMark;
    var open := ActiveOf(s);
    if open.example.Some? { OpenedFromMark(c, open.example.value, open.doc); }
    hide HistoryFromMark;
    forall p | p in lib.projects ensures MarkIsKept(c, s, p) {
      SameIdSameProject(lib.projects, p, open);
    }
  }

  // ------------------------------------------------- from storage to every run

  lemma RebuiltIsFromMark(c: Catalog, p: Project, today: string)
    requires Rebuilt(c, p, today) && p.example.Some?
    ensures FromMark(c, p.example.value, p.doc)
  {
    ShapeOfBuilt(TemplateById(c, p.example.value).value, today);
  }

  /** Entries as an import of them would name them: the ids in store and the new ones. */
  ghost predicate NotAPlan(entries: seq<Json>, ids: Drawn, id: string)
    requires |entries| <= |ids.plans|
  {
    forall k :: 0 <= k < |entries| ==> PlanId(entries[k], ids.plans[k]) != id
  }

  function Parsed(c: Catalog, input: Json, ids: Drawn, host: Host): Option<ProjectLibrary>
    requires Enough(Items(Get(input, KProjects)), ids)
  {
    Assemble(Kept(ReadProjects(c, Items(Get(input, KProjects)), ids, host)), Get(input, KActiveId))
  }

  lemma ParsedIsSound(c: Catalog, input: Json, ids: Drawn, host: Host, id: string)
    requires var entries := Items(Get(input, KProjects));
      Enough(entries, ids) && PlanIdsFresh(ids, entries) && NotAPlan(entries, ids, id) && NoneShared(entries, ReadProjects(c, entries, ids, host))
    ensures var r := Parsed(c, input, ids, host);
      r.Some? ==> ValidLibrary(r.value) && Marked(c, r.value.projects) && forall p <- r.value.projects :: p.id != id
  {
    var entries := Items(Get(input, KProjects));
    var rs, r := ReadProjects(c, entries, ids, host), Parsed(c, input, ids, host);
    ParsedLibraryExactly(c, input, ids, host);
    if r.Some? {
      AssembledIsHeld(Kept(rs), Get(input, KActiveId));
      assert r.value.projects == Kept(rs);
      hide ReadProject, NodesOf, Enough, PlanIdsFresh, NoneShared, Items, Rebuilt, FromMark, ValidLibrary, Get, PlanId, Parsed;
      forall p | p in r.value.projects ensures p.id != id {
        var k :| 0 <= k < |rs| && rs[k] == Some(p);
        EnoughAt(entries, ids, k);
        IdRead(c, entries[k], ids.plans[k], ids.nodes[k], host);
      }
      forall p | p in r.value.projects && p.example.Some? ensures FromMark(c, p.example.value, p.doc) {
        RebuiltIsFromMark(c, p, host.today);
      }
    }
  }

  /**
   * From whatever is stored, as long as no two kept plans share an id: over every run that
   * resets no example of another shape, examples stay as their templates have them, and the
   * run is one of the plain editor.
   */
  lemma StoredExamplesStay(
      c: Catalog, input: Json, ids: Drawn, host: Host, shared: Option<RoadmapDocument>,
      exampleId: string, sharedId: string, es: seq<Event>, p: Project)
    requires var entries := Items(Get(input, KProjects));
      && Enough(entries, ids) && PlanIdsFresh(ids, entries) && NoneShared(entries, ReadProjects(c, entries, ids, host))
      && NotAPlan(entries, ids, exampleId) && NotAPlan(entries, ids, sharedId) && exampleId != sharedId
    requires var s := Loaded(StartLibrary(c, Parsed(c, input, ids, host), shared, exampleId, sharedId, host.today, host.now));
      && LegalRun(c.starter, s, es) && Unspoiled(c, s, es)
      && p in Run(c.starter, s, es).library.projects
    ensures var s := Loaded(StartLibrary(c, Parsed(c, input, ids, host), shared, exampleId, sharedId, host.today, host.now));
      && DeskRun(c.starter, Abstract(s), es, Abstract(Run(c.starter, s, es)))
      && (p.example.Some? ==> FromMark(c, p.example.value, p.doc))
  {
    var stored := Parsed(c, input, ids, host);
    ParsedIsSound(c, input, ids, host, exampleId); ParsedIsSound(c, input, ids, host, sharedId);
    LoadedLibraryStartsTheEditor(c, stored, shared, exampleId, sharedId, host.today, host.now);
    var s := Loaded(StartLibrary(c, stored, shared, exampleId, sharedId, host.today, host.now));
    assert Inv(c, s) && Valid(s);
    hide *;
    UnspoiledRunsForkPlainly(c, s, es);
    RunRefines(c.starter, s, es);
    if p.example.Some? { ExampleKept(c, s, es, p); }
  }

  lemma ExampleKept(c: Catalog, s: State, es: seq<Event>, p: Project)
    requires Inv(c, s) && LegalRun(c.starter, s, es) && Unspoiled(c, s, es)
    requires p in Run(c.starter, s, es).library.projects && p.example.Some?
    ensures FromMark(c, p.example.value, p.doc)
  {
    ExampleIsNeverEdited(c, s, es, p);
    hide Run, Inv, Unspoiled, LegalRun, Shape, TemplateById;
  }

  // ------------------------------------------- a stored mark that is spoiled

  /** A store that holds one plan, marked as the example of that template. */
  function MarkedStore(t: Template): Json {
    JObject(map[KProjects := JArray([JObject(map[KId := JString("plan"), KExample := JString(t.id)])])])
  }

  lemma MarkedStoreReads(c: Catalog, t: Template, host: Host, ids: Drawn)
    requires TemplateById(c, t.id) == Some(t) && t.id != "" && host.text(JString(t.id)) == t.id && |ids.plans| == |ids.nodes| == 1
    ensures Enough(Items(Get(MarkedStore(t), KProjects)), ids)
    ensures Parsed(c, MarkedStore(t), ids, host) == Some(ProjectLibrary("plan",
      [Project("plan", CleanName(t.name), Library.Build(t, host.today), host.stamp(JNull), Some(t.id))]))
  {
    hide Validate, CleanName, Library.Build;
    var entries := Items(Get(MarkedStore(t), KProjects));
    var entry := entries[0];
    assert Get(entry, KExample) == JString(t.id) && Get(entry, KId) == JString("plan");
    assert Get(entry, KDoc) == JNull && NodesOf(entry) == 0 && Get(entry, KUpdatedAt) == JNull;
    var p := Project("plan", CleanName(t.name), Library.Build(t, host.today), host.stamp(JNull), Some(t.id));
    assert ReadProject(c, entry, ids.plans[0], ids.nodes[0], host) == Some(p);
    hide ReadProject;
    var rs := ReadProjects(c, entries, ids, host);
    assert rs == [Some(p)] && rs[..0] == [];
    assert Kept(rs[..0]) == [] && Kept(rs) == [p];
    assert Get(MarkedStore(t), KActiveId) == JNull;
    hide Kept, ReadProjects;
  }

  /**
   * For any template of the catalog whose shape is not the first one's: a store that marks it
   * loads, and a reset with the autosave after it puts the first one's document under that mark.
   */
  lemma StoredMarkIsOverwritten(c: Catalog, t: Template, host: Host, ids: Drawn)
    requires TemplateById(c, t.id) == Some(t) && t.id != c.starter.id && t.id != "" && Shape(t.doc) != Shape(c.starter.doc)
    requires host.text(JString(t.id)) == t.id && |ids.plans| == |ids.nodes| == 1
    ensures var input := MarkedStore(t);
      && Enough(Items(Get(input, KProjects)), ids)
      && var s := Loaded(StartLibrary(c, Parsed(c, input, ids, host), None, "example", "shared", host.today, host.now));
         var es := ResetAndSave(c, s, host.today, host.now);
         && LegalRun(c.starter, s, es) && Ready(Run(c.starter, s, es))
         && var p := ActiveOf(Run(c.starter, s, es));
            p.id == "plan" && p.example == Some(t.id) && p.doc == Library.Build(c.starter, host.today) && Shape(p.doc) != Shape(t.doc)
  {
    MarkedStoreReads(c, t, host, ids);
    var stored := Parsed(c, MarkedStore(t), ids, host);
    hide Parsed, MarkedStore, ReadProjects, Enough, Shape, Library.Build, CleanName, TemplateById;
    MarkedPlanIsSpoilable(c, t, stored.value, host.today, host.now);
    var s := Loaded(StartLibrary(c, stored, None, "example", "shared", host.today, host.now));
    hide Inv, Loaded, StartLibrary, LegalRun, Run, ResetAndSave, SpoilsMark;
    SpoiledMarkIsStored(c, s, host.today, host.now);
  }

  lemma MarkedPlanIsSpoilable(c: Catalog, t: Template, stored: ProjectLibrary, today: string, now: int)
    requires TemplateById(c, t.id) == Some(t) && t.id != c.starter.id && Shape(t.doc) != Shape(c.starter.doc)
    requires |stored.projects| == 1 && stored.activeId == "plan"
    requires var p := stored.projects[0]; p.id == "plan" && p.example == Some(t.id) && p.doc == Library.Build(t, today)
    ensures var s := Loaded(StartLibrary(c, Some(stored), None, "example", "shared", today, now));
      && Inv(c, s) && s.library.activeId == "plan" && ActiveOf(s) == stored.projects[0]
      && SpoilsMark(c, s, Reset(today))
  {
    var p := stored.projects[0];
    ShapeOfBuilt(t, today);
    hide Shape, Library.Build, CleanName, UniqueName, TemplateById;
    FindById(stored.projects, 0);
    assert Marked(c, stored.projects) && ValidLibrary(stored);
    hide FromMark, Marked;
    MarkedStoreOpens(c, t, stored, p, today, now);
    LoadedLibraryStartsTheEditor(c, Some(stored), None, "example", "shared", today, now);
    hide Inv, Loaded, StartLibrary, ValidLibrary;
    assert !FromMark(c, t.id, c.starter.doc) by { NotFromMark(c, t, c.starter.doc); }
  }

  lemma NotFromMark(c: Catalog, t: Template, d: RoadmapDocument)
    requires TemplateById(c, t.id) == Some(t)
    ensures FromMark(c, t.id, d) <==> Shape(d) == Shape(t.doc)
  {
    hide Shape;
  }

  lemma MarkedStoreOpens(c: Catalog, t: Template, stored: ProjectLibrary, p: Project, today: string, now: int)
    requires stored.activeId == "plan" && stored.projects == [p] && p.id == "plan" && p.example == Some(t.id) && t.id != c.starter.id
    ensures var s := Loaded(StartLibrary(c, Some(stored), None, "example", "shared", today, now));
      s.library.projects != [] && s.library.activeId == "plan" && ActiveOf(s) == p
  {
    hide CleanName, UniqueName, Library.Build;
    var lib := StartLibrary(c, Some(stored), None, "example", "shared", today, now);
    assert lib.projects[1..] == [p] && lib.projects[0].id == "example";
    assert Find(lib.projects, "plan") == 1 + Find(lib.projects[1..], "plan");
  }
}
