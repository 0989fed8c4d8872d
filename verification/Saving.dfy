/**
 * A library written to storage, and read again.
 */
module Saving {
  import opened Text
  import opened Document
  import opened Json
  import opened Normalise
  import opened NormalForm
  import opened Calendar
  import opened Library
  import opened Editor
  import opened Refinement
  import opened Marks
  import opened Runs
  import opened Loading

  function StampJson(n: int): Json { JNumber(Finite(n as real)) }

  function ProjectJson(p: Project): Json {
    var m := map[KId := JString(p.id), KName := JString(p.name), KDoc := ToJson(p.doc), KUpdatedAt := StampJson(p.updatedAt)];
    JObject(match p.example case Some(mark) => m[KExample := JString(mark)] case None => m)
  }

  function ProjectsJson(ps: seq<Project>): (r: seq<Json>)
    ensures |r| == |ps| && forall k :: 0 <= k < |ps| ==> r[k] == ProjectJson(ps[k])
  {
    seq(|ps|, k requires 0 <= k < |ps| => ProjectJson(ps[k]))
  }

  /** What is written to storage. */
  function LibraryJson(lib: ProjectLibrary): Json {
    JObject(map[KActiveId := JString(lib.activeId), KProjects := JArray(ProjectsJson(lib.projects))])
  }

  /** String(x) of a string. */
  ghost predicate ReadsText(host: Host) { forall s :: host.text(JString(s)) == s }

  /** Number(x) of a number other than zero. */
  ghost predicate ReadsStamps(host: Host) { forall n: int :: n != 0 ==> host.stamp(StampJson(n)) == n }

  /** The template a plan is still the example of. */
  function MarkedBy(c: Catalog, p: Project): (t: Option<Template>)
    ensures t.Some? ==> p.example == Some(t.value.id)
  {
    if p.example.Some? && p.example.value != "" then TemplateById(c, p.example.value) else None
  }

  /** A plan after a reload: an example is built anew, any other one has to pass the validator. */
  function Reloaded(c: Catalog, p: Project, newId: string, nodeIds: seq<string>, host: Host): Option<Project>
    requires |Items(Get(ToJson(p.doc), KMigrations))| <= |nodeIds|
  {
    var id, stamp := if p.id != "" then p.id else newId, host.stamp(StampJson(p.updatedAt));
    match MarkedBy(c, p)
    case Some(t) => Some(Project(id, CleanName(t.name), Library.Build(t, host.today), stamp, Some(t.id)))
    case None =>
      match Validate(ToJson(p.doc), host.today, nodeIds)
      case Accepted(doc) => Some(Project(id, CleanName(p.name), doc, stamp, None))
      case Refused(_) => None
  }

  lemma PartsOfProject(p: Project)
    ensures var j := ProjectJson(p);
      && j.JObject? && Get(j, KId) == JString(p.id) && Get(j, KName) == JString(p.name) && Get(j, KDoc) == ToJson(p.doc)
      && Get(j, KUpdatedAt) == StampJson(p.updatedAt)
      && Get(j, KExample) == (match p.example case Some(mark) => JString(mark) case None => JNull)
  {
    hide ToJson;
  }

  lemma MarkComesBack(c: Catalog, p: Project, host: Host)
    requires ReadsText(host)
    ensures MarkOf(c, ProjectJson(p), host) == MarkedBy(c, p)
  {
    PartsOfProject(p);
    hide ProjectJson, TemplateById;
  }

  lemma NodesOfProject(p: Project)
    ensures NodesOf(ProjectJson(p)) == |p.doc.migrations| == |Items(Get(ToJson(p.doc), KMigrations))|
  {
    PartsOfProject(p); PartsOfJson(p.doc);
    hide ProjectJson, ToJson, Get;
  }

  lemma ProjectComesBack(c: Catalog, p: Project, newId: string, nodeIds: seq<string>, host: Host)
    requires ReadsText(host) && |p.doc.migrations| <= |nodeIds|
    ensures NodesOf(ProjectJson(p)) == |p.doc.migrations| == |Items(Get(ToJson(p.doc), KMigrations))|
    ensures ReadProject(c, ProjectJson(p), newId, nodeIds, host) == Reloaded(c, p, newId, nodeIds, host)
  {
    hide ProjectJson, ToJson, Get, Validate, MarkOf, MarkedBy, CleanName, Library.Build, NodesOf, StampJson, Items;
    PartsOfProject(p);
    MarkComesBack(c, p, host);
    NodesOfProject(p);
  }

  // ------------------------------------------------------ what a plan keeps

  /** An example, or a plan of no more nodes than the validator allows. */
  predicate Survives(c: Catalog, p: Project) {
    MarkedBy(c, p).Some? || |p.doc.migrations| <= MAX_MIGRATIONS
  }

  /** A saved plan is there after a reload exactly when it survives, under its id. */
  lemma PlanSurvivesExactly(c: Catalog, p: Project, newId: string, nodeIds: seq<string>, host: Host)
    requires |p.doc.migrations| <= |nodeIds|
    ensures |Items(Get(ToJson(p.doc), KMigrations))| == |p.doc.migrations|
    ensures var r := Reloaded(c, p, newId, nodeIds, host);
      && (r.Some? <==> Survives(c, p))
      && (r.Some? ==> r.value.id == if p.id != "" then p.id else newId)
  {
    NodesOfProject(p);
    WrittenIsAcceptedExactly(p.doc, host.today, nodeIds);
    hide Validate, MarkedBy, CleanName, Library.Build, ToJson, Items, Get;
  }

  /** The document of a plan that is no example comes back as it was exactly when it is in normal form. */
  lemma DocumentStaysExactly(c: Catalog, p: Project, newId: string, nodeIds: seq<string>, host: Host)
    requires MarkedBy(c, p).None? && |p.doc.migrations| <= |nodeIds|
    requires RealDay(host.today) && FreshFor(nodeIds, MigrationsJson(p.doc.migrations))
    ensures |Items(Get(ToJson(p.doc), KMigrations))| == |p.doc.migrations|
    ensures var r := Reloaded(c, p, newId, nodeIds, host);
      r.Some? && r.value.doc == p.doc <==> Normal(p.doc)
  {
    NodesOfProject(p);
    WrittenIsFixedExactly(p.doc, host.today, nodeIds);
    hide Validate, MarkedBy, CleanName, Library.Build, ToJson, Items, Get, Normal, FreshFor, MigrationsJson, RealDay;
  }

  /** addMigration: an empty node at the end. Nothing bounds how many there are. */
  function AddNode(d: RoadmapDocument, id: string): RoadmapDocument {
    d.(migrations := d.migrations + [Migration(id, "", "tag",
      ServiceEntry("", Proprietary, []), ServiceEntry("", Independent, []), "", ByDay, ByQuarter)])
  }

  // ------------------------------------------------------- a whole library

  /** What each plan of the list reads as. */
  function Back(c: Catalog, ps: seq<Project>, ids: Drawn, host: Host): (rs: seq<Option<Project>>)
    requires Enough(ProjectsJson(ps), ids)
    ensures |rs| == |ps|
    ensures forall k :: 0 <= k < |ps| ==>
      && |Items(Get(ToJson(ps[k].doc), KMigrations))| == |ps[k].doc.migrations| <= |ids.nodes[k]|
      && rs[k] == Reloaded(c, ps[k], ids.plans[k], ids.nodes[k], host)
  {
    hide ToJson, ProjectJson, Reloaded, NodesOf, Items, Get;
    assert forall k :: 0 <= k < |ps| ==>
      |Items(Get(ToJson(ps[k].doc), KMigrations))| == |ps[k].doc.migrations| <= |ids.nodes[k]| by {
      forall k | 0 <= k < |ps|
        ensures |Items(Get(ToJson(ps[k].doc), KMigrations))| == |ps[k].doc.migrations| <= |ids.nodes[k]|
      {
        EnoughAt(ProjectsJson(ps), ids, k);
        NodesOfProject(ps[k]);
      }
    }
    seq(|ps|, k requires 0 <= k < |ps| && |Items(Get(ToJson(ps[k].doc), KMigrations))| <= |ids.nodes[k]| && k < |ids.plans| =>
      Reloaded(c, ps[k], ids.plans[k], ids.nodes[k], host))
  }

  lemma PartsOfLibrary(lib: ProjectLibrary)
    ensures var j := LibraryJson(lib);
      Items(Get(j, KProjects)) == ProjectsJson(lib.projects) && Get(j, KActiveId) == JString(lib.activeId)
  {
    hide ProjectsJson;
  }

  /** What is left of a library after a reload. */
  function Reload(c: Catalog, lib: ProjectLibrary, ids: Drawn, host: Host): Option<ProjectLibrary>
    requires Enough(ProjectsJson(lib.projects), ids)
  {
    Assemble(Kept(Back(c, lib.projects, ids, host)), JString(lib.activeId))
  }

  /** A library that was saved is read back plan by plan, in order. */
  lemma SavedLibraryComesBack(c: Catalog, lib: ProjectLibrary, ids: Drawn, host: Host)
    requires ReadsText(host) && Enough(ProjectsJson(lib.projects), ids)
    ensures Items(Get(LibraryJson(lib), KProjects)) == ProjectsJson(lib.projects)
    ensures Parsed(c, LibraryJson(lib), ids, host) == Reload(c, lib, ids, host)
  {
    hide ReadProject, ProjectJson, ProjectsJson, ReadProjects, Back, ReadsText, NodesOf, Kept, Reloaded, Enough, LibraryJson, ToJson, Items, Get, Assemble;
    var ps, entries := lib.projects, ProjectsJson(lib.projects);
    PartsOfLibrary(lib);
    var rs, back := ReadProjects(c, entries, ids, host), Back(c, ps, ids, host);
    forall k | 0 <= k < |ps| ensures rs[k] == back[k] {
      EnoughAt(entries, ids, k);
      ProjectComesBack(c, ps[k], ids.plans[k], ids.nodes[k], host);
    }
    assert rs == back;
  }

  lemma BackAt(c: Catalog, ps: seq<Project>, ids: Drawn, host: Host, k: nat)
    requires Enough(ProjectsJson(ps), ids) && k < |ps| && ps[k].id != ""
    ensures var r := Back(c, ps, ids, host)[k];
      (r.Some? <==> Survives(c, ps[k])) && (r.Some? ==> r.value.id == ps[k].id)
  {
    hide Reloaded, Survives, ProjectsJson, ToJson, Items, Get, Enough, NodesOf, ProjectJson;
    EnoughAt(ProjectsJson(ps), ids, k);
    NodesOfProject(ps[k]);
    PlanSurvivesExactly(c, ps[k], ids.plans[k], ids.nodes[k], host);
  }

  /** Some plan of that id survives. */
  predicate SurvivorOf(c: Catalog, ps: seq<Project>, id: string) {
    exists p :: p in ps && p.id == id && Survives(c, p)
  }

  lemma KeptAreSurvivors(c: Catalog, ps: seq<Project>, ids: Drawn, host: Host, q: Project)
    requires Enough(ProjectsJson(ps), ids) && (forall p <- ps :: p.id != "") && q in Kept(Back(c, ps, ids, host))
    ensures SurvivorOf(c, ps, q.id)
  {
    hide Back, Kept, Enough, ProjectsJson, Survives;
    var rs := Back(c, ps, ids, host);
    var k :| 0 <= k < |rs| && rs[k] == Some(q);
    assert ps[k] in ps;
    BackAt(c, ps, ids, host, k);
  }

  lemma SurvivorsAreKept(c: Catalog, ps: seq<Project>, ids: Drawn, host: Host, k: nat)
    requires Enough(ProjectsJson(ps), ids) && k < |ps| && ps[k].id != "" && Survives(c, ps[k])
    ensures var r := Back(c, ps, ids, host)[k]; r.Some? && r.value.id == ps[k].id && r.value in Kept(Back(c, ps, ids, host))
  {
    hide Back, Kept, Enough, ProjectsJson, Survives;
    var rs := Back(c, ps, ids, host);
    BackAt(c, ps, ids, host, k);
    assert rs[k] in rs && rs[k] == Some(rs[k].value);
  }

  lemma KeptHoldsExactly(c: Catalog, ps: seq<Project>, ids: Drawn, host: Host, id: string)
    requires Enough(ProjectsJson(ps), ids) && forall p <- ps :: p.id != ""
    ensures Holds(Kept(Back(c, ps, ids, host)), id) <==> SurvivorOf(c, ps, id)
  {
    hide Back, Holds, Kept, Enough, ProjectsJson, Survives;
    var kept := Kept(Back(c, ps, ids, host));
    HoldsExactly(kept, id);
    if SurvivorOf(c, ps, id) {
      var p :| p in ps && p.id == id && Survives(c, p);
      var k :| 0 <= k < |ps| && ps[k] == p;
      SurvivorsAreKept(c, ps, ids, host, k);
    }
    if q :| q in kept && q.id == id { KeptAreSurvivors(c, ps, ids, host, q); }
  }

  /**
   * After a reload a plan is there exactly when it survives, and the one that was open is
   * open again exactly when it does; a library none of whose plans survives is gone.
   */
  lemma SavedLibraryKeepsExactly(c: Catalog, lib: ProjectLibrary, ids: Drawn, host: Host)
    requires Enough(ProjectsJson(lib.projects), ids) && forall p <- lib.projects :: p.id != ""
    ensures var r := Reload(c, lib, ids, host);
      && (r.Some? <==> exists p :: p in lib.projects && Survives(c, p))
      && (r.Some? ==> forall id :: Holds(r.value.projects, id) <==> SurvivorOf(c, lib.projects, id))
      && (r.Some? ==> (r.value.activeId == lib.activeId <==> SurvivorOf(c, lib.projects, lib.activeId)))
  {
    var ps, kept := lib.projects, Kept(Back(c, lib.projects, ids, host));
    assert Reload(c, lib, ids, host) == Assemble(kept, JString(lib.activeId));
    hide *;
    forall id ensures Holds(kept, id) <==> SurvivorOf(c, ps, id) { KeptHoldsExactly(c, ps, ids, host, id); }
    KeepsSomethingExactly(c, ps, ids, host);
    AssembledExactly(kept, lib.activeId);
  }

  lemma AssembledExactly(ps: seq<Project>, active: string)
    ensures var r := Assemble(ps, JString(active));
      && (r.Some? <==> ps != [])
      && (r.Some? ==> r.value.projects == ps && (r.value.activeId == active <==> Holds(ps, active)))
  {
    if ps != [] {
      assert ps[0] in ps;
      HoldsExactly(ps, ps[0].id);
      hide Holds;
    }
  }

  lemma KeepsSomethingExactly(c: Catalog, ps: seq<Project>, ids: Drawn, host: Host)
    requires Enough(ProjectsJson(ps), ids) && forall p <- ps :: p.id != ""
    ensures Kept(Back(c, ps, ids, host)) != [] <==> exists p :: p in ps && Survives(c, p)
  {
    hide Back, Kept, Enough, ProjectsJson, Survives;
    var kept := Kept(Back(c, ps, ids, host));
    if kept != [] {
      assert kept[0] in kept;
      KeptAreSurvivors(c, ps, ids, host, kept[0]);
    }
    if p :| p in ps && Survives(c, p) {
      var k :| 0 <= k < |ps| && ps[k] == p;
      SurvivorsAreKept(c, ps, ids, host, k);
    }
  }

  /** One node more than the validator allows: the only plan of a library is gone after a reload. */
  lemma OneNodeTooMany(c: Catalog, p: Project, id: string, ids: Drawn, host: Host)
    requires MarkedBy(c, p).None? && p.id != "" && |p.doc.migrations| == MAX_MIGRATIONS
    requires Enough(ProjectsJson([p.(doc := AddNode(p.doc, id))]), ids)
    ensures Survives(c, p)
    ensures Reload(c, ProjectLibrary(p.id, [p.(doc := AddNode(p.doc, id))]), ids, host) == None
  {
    var lib := ProjectLibrary(p.id, [p.(doc := AddNode(p.doc, id))]);
    assert !Survives(c, lib.projects[0]);
    hide Survives, Reload, Enough, ProjectsJson;
    SavedLibraryKeepsExactly(c, lib, ids, host);
  }

  // ----------------------------------------------- libraries that come back whole

  lemma {:induction false} AllAreKept(rs: seq<Option<Project>>, ps: seq<Project>)
    requires |rs| == |ps| && forall k :: 0 <= k < |rs| ==> rs[k] == Some(ps[k])
    ensures Kept(rs) == ps
    decreases |rs|
  {
    if rs != [] {
      var n := |rs| - 1;
      AllAreKept(rs[..n], ps[..n]);
      assert ps == ps[..n] + [ps[n]];
    }
  }

  /** With names as they are kept, and normal documents, a save and a reload give back the library. */
  lemma NormalLibraryIsStored(c: Catalog, lib: ProjectLibrary, ids: Drawn, host: Host)
    requires ReadsText(host) && ReadsStamps(host) && Holds(lib.projects, lib.activeId) && Enough(ProjectsJson(lib.projects), ids)
    requires forall p <- lib.projects ::
      p.id != "" && p.updatedAt != 0 && p.example.None? && Normal(p.doc) && CleanName(p.name) == p.name
    ensures Items(Get(LibraryJson(lib), KProjects)) == ProjectsJson(lib.projects)
    ensures Parsed(c, LibraryJson(lib), ids, host) == Some(lib)
  {
    SavedLibraryComesBack(c, lib, ids, host);
    hide Reloaded, Parsed, Enough, ReadsText, ReadsStamps, LibraryJson, Normal, CleanName, Back, ProjectsJson, Kept, Items, Get, ToJson, Holds;
    var ps := lib.projects;
    var rs := Back(c, ps, ids, host);
    forall k | 0 <= k < |ps| ensures rs[k] == Some(ps[k]) {
      assert ps[k] in ps;
      NormalIsStored(c, ps[k], ids.plans[k], ids.nodes[k], host);
    }
    AllAreKept(rs, ps);
    assert ps != [] by { HoldsExactly(ps, lib.activeId); }
  }

  lemma NormalIsStored(c: Catalog, p: Project, newId: string, nodeIds: seq<string>, host: Host)
    requires ReadsStamps(host) && |p.doc.migrations| <= |nodeIds|
    requires p.id != "" && p.updatedAt != 0 && p.example.None? && Normal(p.doc) && CleanName(p.name) == p.name
    ensures |Items(Get(ToJson(p.doc), KMigrations))| == |p.doc.migrations|
    ensures Reloaded(c, p, newId, nodeIds, host) == Some(p)
  {
    hide Normal, CleanName, Validate, ToJson, Items, Get, StampJson, TemplateById;
    NormalIsFixed(p.doc, host.today, nodeIds);
    assert host.stamp(StampJson(p.updatedAt)) == p.updatedAt;
  }

  // --------------------------------------------- as the visitor sees it

  lemma LoadedShowsStored(lib: ProjectLibrary, p: Project)
    requires ValidLibrary(lib) && p in lib.projects
    ensures Visible(Abstract(Loaded(lib)), p.id) == Some(p.doc)
  {
    var ps := lib.projects;
    var k :| 0 <= k < |ps| && ps[k] == p;
    ActiveFacts(Loaded(lib));
    FindById(ps, k);
    SlotIndexIsFind(ps, lib.activeId, ActiveProject(lib).value.doc, p.id);
    ActiveByIndex(Loaded(lib), p);
  }

  /** Reading ids back keeps them apart. */
  lemma ReloadIsValid(c: Catalog, lib: ProjectLibrary, ids: Drawn, host: Host)
    requires Enough(ProjectsJson(lib.projects), ids) && ValidLibrary(lib) && forall p <- lib.projects :: p.id != ""
    ensures var r := Reload(c, lib, ids, host);
      r.Some? ==> ValidLibrary(r.value) && r.value.projects == Kept(Back(c, lib.projects, ids, host))
  {
    var ps := lib.projects;
    assert UniqueProjects(ps);
    hide Back, Kept, Enough, ProjectsJson, Survives, Find, Assemble, UniqueProjects;
    var rs := Back(c, ps, ids, host);
    forall j, k | 0 <= j < k < |rs| ensures Apart(rs[j], rs[k]) {
      assert ps[j] in ps && ps[k] in ps;
      BackAt(c, ps, ids, host, j); BackAt(c, ps, ids, host, k);
      DifferentIds(ps, j, k);
    }
    KeptIdsAreUniqueExactly(rs);
    AssembledIsHeld(Kept(rs), JString(lib.activeId));
  }

  lemma DifferentIds(ps: seq<Project>, j: nat, k: nat)
    requires UniqueProjects(ps) && j < k < |ps|
    ensures ps[j].id != ps[k].id
  {
  }

  /** What a surviving plan shows after the reload. */
  lemma ReloadShows(c: Catalog, lib: ProjectLibrary, ids: Drawn, host: Host, k: nat)
    requires Enough(ProjectsJson(lib.projects), ids)
    requires ValidLibrary(lib) && (forall p <- lib.projects :: p.id != "") && k < |lib.projects| && Survives(c, lib.projects[k])
    ensures var p, r, b := lib.projects[k], Reload(c, lib, ids, host), Back(c, lib.projects, ids, host)[k];
      && r.Some? && r.value.projects != [] && b.Some?
      && Visible(Abstract(Loaded(r.value)), p.id) == Some(b.value.doc)
  {
    hide Back, Kept, Enough, ProjectsJson, Survives, Reload, ValidLibrary, Abstract, Visible, Loaded, SurvivorOf;
    assert lib.projects[k] in lib.projects;
    ReloadIsValid(c, lib, ids, host);
    SavedLibraryKeepsExactly(c, lib, ids, host);
    SurvivorsAreKept(c, lib.projects, ids, host, k);
    LoadedShowsStored(Reload(c, lib, ids, host).value, Back(c, lib.projects, ids, host)[k].value);
  }

  lemma BackDocument(c: Catalog, p: Project, newId: string, nodeIds: seq<string>, host: Host)
    requires |p.doc.migrations| <= |nodeIds|
    ensures |Items(Get(ToJson(p.doc), KMigrations))| == |p.doc.migrations|
    ensures var r := Reloaded(c, p, newId, nodeIds, host);
      && (MarkedBy(c, p).None? && Normal(p.doc) ==> r.Some? && r.value.doc == p.doc)
      && (MarkedBy(c, p).Some? ==> r.Some? && FromMark(c, p.example.value, r.value.doc))
  {
    NodesOfProject(p);
    if Normal(p.doc) { NormalIsFixed(p.doc, host.today, nodeIds); }
    if MarkedBy(c, p).Some? { ShapeOfBuilt(MarkedBy(c, p).value, host.today); }
    hide Normal, CleanName, Validate, ToJson, Items, Get, StampJson, Shape, Library.Build;
  }

  /** What is visible of a plan once the library was reloaded. */
  function AfterReload(c: Catalog, lib: ProjectLibrary, ids: Drawn, host: Host, id: string): Option<RoadmapDocument>
    requires Enough(ProjectsJson(lib.projects), ids)
  {
    match Reload(c, lib, ids, host)
    case Some(r) => if r.projects == [] then None else Visible(Abstract(Loaded(r)), id)
    case None => None
  }

  /**
   * An autosave in time, a reload: each plan shows what it showed. One that is no example
   * does so if its document is normal, an example up to artwork and viewing date.
   */
  lemma ReloadShowsWhatWasVisible(c: Catalog, s: State, now: int, ids: Drawn, host: Host, k: nat)
    requires Inv(c, s) && TemplateById(c, "").None? && (forall p <- s.library.projects :: p.id != "") && k < |s.library.projects|
    requires Enough(ProjectsJson(WithActiveDoc(s.library, s.history.present, s.edited, now).projects), ids)
    ensures Ready(s) && Autosaved(c.starter, s, now).library == WithActiveDoc(s.library, s.history.present, s.edited, now)
    ensures var slot := Abstract(s).slots[k];
      var after := AfterReload(c, Autosaved(c.starter, s, now).library, ids, host, slot.id);
      && (!slot.example && Normal(slot.doc) ==> after == Some(slot.doc))
      && (slot.example ==> after.Some? && Shape(after.value) == Shape(slot.doc))
  {
    var saved := WithActiveDoc(s.library, s.history.present, s.edited, now);
    AutosaveStoresWhatIsVisible(c.starter, s, now);
    SavedPart(c, s, now, k);
    hide Inv, Autosaved, WithActiveDoc, Abstract, Enough, ProjectsJson, Normal, Shape, FromMark, MarkedBy, Survives, AfterReload, ValidLibrary, TemplateById;
    var p, slot := saved.projects[k], Abstract(s).slots[k];
    if Survives(c, p) { SavedPlanShows(c, saved, ids, host, k); }
    if slot.example { SameMarkSameShape(c, p.example.value, AfterReload(c, saved, ids, host, slot.id).value, slot.doc); }
  }

  lemma SavedPlanShows(c: Catalog, lib: ProjectLibrary, ids: Drawn, host: Host, k: nat)
    requires Enough(ProjectsJson(lib.projects), ids)
    requires ValidLibrary(lib) && (forall p <- lib.projects :: p.id != "") && k < |lib.projects| && Survives(c, lib.projects[k])
    ensures var p := lib.projects[k]; var after := AfterReload(c, lib, ids, host, p.id);
      && after.Some?
      && (MarkedBy(c, p).None? && Normal(p.doc) ==> after.value == p.doc)
      && (MarkedBy(c, p).Some? ==> FromMark(c, p.example.value, after.value))
  {
    hide Reload, Back, Enough, ProjectsJson, Normal, FromMark, MarkedBy, Survives, ValidLibrary, Abstract, Visible, Loaded, Reloaded, ToJson, Items, Get, NodesOf, ProjectJson;
    ReloadShows(c, lib, ids, host, k);
    NodesOfProject(lib.projects[k]);
    EnoughAt(ProjectsJson(lib.projects), ids, k);
    BackDocument(c, lib.projects[k], ids.plans[k], ids.nodes[k], host);
  }

  lemma SameMarkSameShape(c: Catalog, mark: string, d: RoadmapDocument, e: RoadmapDocument)
    requires FromMark(c, mark, d) && FromMark(c, mark, e)
    ensures Shape(d) == Shape(e)
  {
    hide Shape;
  }

  /** What the autosave wrote at k is what is visible there, mark and all. */
  lemma SavedPart(c: Catalog, s: State, now: int, k: nat)
    requires Inv(c, s) && TemplateById(c, "").None? && (forall p <- s.library.projects :: p.id != "") && k < |s.library.projects|
    ensures var saved := WithActiveDoc(s.library, s.history.present, s.edited, now);
      var p, slot := saved.projects[k], Abstract(s).slots[k];
      && ValidLibrary(saved) && (forall q <- saved.projects :: q.id != "")
      && p.doc == slot.doc && p.id == slot.id && p.example.Some? == slot.example
      && (slot.example ==> MarkedBy(c, p).Some? && FromMark(c, p.example.value, slot.doc))
      && (!slot.example ==> MarkedBy(c, p).None?)
      && (slot.example || Normal(slot.doc) ==> Survives(c, p))
  {
    var saved := WithActiveDoc(s.library, s.history.present, s.edited, now);
    var p := saved.projects[k];
    WriteBackIsInvisible(s.library, s.history.present, s.history.present, s.edited, now);
    SavedIdsAreGiven(s.library, s.history.present, s.edited, now);
    if ActiveOf(s).example.Some? { ActiveMark(c, s); }
    WrittenBackKeepsMark(c, s, s.history.present, s.edited, now, p);
    hide Shape, Inv, ValidLibrary, HistoryFromMark;
  }

  lemma SavedIdsAreGiven(lib: ProjectLibrary, doc: RoadmapDocument, edited: bool, now: int)
    requires forall p <- lib.projects :: p.id != ""
    ensures forall p <- WithActiveDoc(lib, doc, edited, now).projects :: p.id != ""
  {
    var saved := WithActiveDoc(lib, doc, edited, now);
    forall p | p in saved.projects ensures p.id != "" {
      var j :| 0 <= j < |saved.projects| && saved.projects[j] == p;
      assert lib.projects[j] in lib.projects;
    }
  }
}
