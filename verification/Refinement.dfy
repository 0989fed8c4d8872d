/**
 * What every step of the editor keeps of the library, and what it looks like from outside.
 */
module Refinement {
  import opened Document
  import opened Artwork
  import opened Library
  import opened Editor

  // ----------------------------------------------------- the library is sound

  lemma ActiveByIndex(s: State, p: Project)
    requires ValidLibrary(s.library) && p in s.library.projects
    ensures p.id == s.library.activeId ==> p == ActiveOf(s)
  {
    ActiveFacts(s);
    var k :| 0 <= k < |s.library.projects| && s.library.projects[k] == p;
    FindById(s.library.projects, k);
  }

  lemma AddedIsValid(lib: ProjectLibrary, p: Project, used: set<string>)
    requires ValidLibrary(lib) && !IsFull(lib) && p.id !in used && forall q <- lib.projects :: q.id in used
    ensures ValidLibrary(AddProject(lib, p))
  {
    var r := AddProject(lib, p);
    FindById(r.projects, |lib.projects|);
  }

  lemma SameIdSameProject(ps: seq<Project>, p: Project, q: Project)
    requires UniqueProjects(ps) && p in ps && q in ps
    ensures p.id == q.id ==> p == q
  {
    var i :| 0 <= i < |ps| && ps[i] == p;
    var j :| 0 <= j < |ps| && ps[j] == q;
  }

  /** Saving the open document keeps the library sound, with the same ids in it. */
  lemma WrittenBackIsValid(s: State, doc: RoadmapDocument, edited: bool, now: int)
    requires Valid(s)
    ensures var saved := WithActiveDoc(s.library, doc, edited, now);
      ValidLibrary(saved) && saved.activeId == s.library.activeId && forall p <- saved.projects :: p.id in s.used
  {
    WriteBackIsInvisible(s.library, doc, doc, edited, now);
    var saved := WithActiveDoc(s.library, doc, edited, now);
    hide Valid, ValidLibrary, WithActiveDoc, Holds;
    assert forall p <- s.library.projects :: p.id in s.used by { IdsAreUsed(s); }
    forall p | p in saved.projects ensures p.id in s.used {
      var k :| 0 <= k < |saved.projects| && saved.projects[k] == p;
      assert s.library.projects[k] in s.library.projects;
    }
  }

  lemma IdsAreUsed(s: State)
    requires Valid(s)
    ensures forall p <- s.library.projects :: p.id in s.used
  {
  }

  lemma CommitKeepsValid(s: State, recipe: RoadmapDocument -> RoadmapDocument, newId: string, now: int)
    requires Valid(s) && newId !in s.used
    ensures Valid(DoCommit(s, recipe, newId, now))
  {
    ActiveFacts(s);
    if ActiveOf(s).example.Some? && !IsFull(s.library) {
      AddedIsValid(s.library, ForkProject(s.library, recipe(s.history.present), newId, now), s.used);
    }
  }

  lemma OpenKeepsValid(s: State, id: string, now: int)
    requires Valid(s)
    ensures Valid(DoOpen(s, id, now))
  {
    WrittenBackIsValid(s, s.history.present, true, now);
  }

  lemma StartKeepsValid(s: State, name: string, source: RoadmapDocument, newId: string, now: int)
    requires Valid(s) && newId !in s.used
    ensures Valid(DoStart(s, name, source, newId, now))
  {
    WrittenBackIsValid(s, s.history.present, true, now);
    var saved := WithActiveDoc(s.library, s.history.present, true, now);
    if !IsFull(saved) {
      AddedIsValid(saved, CreateProject(newId, UniqueName(Names(saved), name), source, now, None), s.used);
    }
  }

  lemma CutIsUnique(ps: seq<Project>, i: nat)
    requires UniqueProjects(ps) && i < |ps|
    ensures UniqueProjects(ps[..i] + ps[i + 1..])
  {
    var left := ps[..i] + ps[i + 1..];
    assert forall k :: 0 <= k < |left| ==> left[k] == ps[if k < i then k else k + 1];
  }

  /** The plan that takes the place of the one at i. */
  function Successor(ps: seq<Project>, i: nat): Project
    requires i < |ps| && |ps| > 1
  {
    var left := ps[..i] + ps[i + 1..];
    left[if i < |left| then i else |left| - 1]
  }

  lemma SuccessorOpens(ps: seq<Project>, i: nat)
    requires UniqueProjects(ps) && i < |ps| && |ps| > 1
    ensures var r := ProjectLibrary(Successor(ps, i).id, ps[..i] + ps[i + 1..]);
      ValidLibrary(r) && ActiveProject(r) == Some(Successor(ps, i))
  {
    var left := ps[..i] + ps[i + 1..];
    CutIsUnique(ps, i);
    hide UniqueProjects, Find;
    FindById(left, if i < |left| then i else |left| - 1);
  }

  lemma RemovedExactly(lib: ProjectLibrary, i: nat, seed: ProjectLibrary)
    requires UniqueProjects(lib.projects) && i < |lib.projects| && lib.projects[i].id == lib.activeId
    requires Find(lib.projects, lib.activeId) == i
    ensures RemoveProject(lib, lib.activeId, seed)
         == if |lib.projects| == 1 then seed
            else ProjectLibrary(Successor(lib.projects, i).id, lib.projects[..i] + lib.projects[i + 1..])
  {
    WithoutIsCut(lib.projects, i, lib.activeId);
    hide UniqueProjects, Without, Find;
  }

  /** Dropping the open plan leaves the others, and opens the one that takes its place. */
  lemma RemovedParts(lib: ProjectLibrary, seed: ProjectLibrary)
    requires ValidLibrary(lib)
    ensures Holds(lib.projects, lib.activeId) && ActiveProject(lib).Some? && ActiveProject(lib).value.id == lib.activeId
    ensures var ps, i, r := lib.projects, Find(lib.projects, lib.activeId), RemoveProject(lib, lib.activeId, seed);
      if |ps| == 1 then r == seed
      else
        && r == ProjectLibrary(Successor(ps, i).id, ps[..i] + ps[i + 1..])
        && ValidLibrary(r) && ActiveProject(r) == Some(Successor(ps, i))
  {
    var i := Find(lib.projects, lib.activeId);
    hide UniqueProjects, Without, RemoveProject, Successor, Find;
    if |lib.projects| > 1 { SuccessorOpens(lib.projects, i); }
    RemovedExactly(lib, i, seed);
  }

  lemma SeedIsValid(starter: Template, newId: string, today: string, now: int)
    ensures var seed := SeedLibrary(starter, newId, today, now);
      ValidLibrary(seed) && ActiveProject(seed) == Some(seed.projects[0])
  {
    FindById(SeedLibrary(starter, newId, today, now).projects, 0);
  }

  lemma LeftAreIn(ps: seq<Project>, i: nat)
    requires i < |ps|
    ensures forall p <- ps[..i] + ps[i + 1..] :: p in ps
  {
  }

  lemma DeleteKeepsValid(starter: Template, s: State, newId: string, today: string, now: int)
    requires Valid(s) && newId !in s.used
    ensures Valid(DoDelete(s, starter, newId, today, now))
  {
    DeletedState(starter, s, newId, today, now);
    var s', i := DoDelete(s, starter, newId, today, now), Find(s.library.projects, s.library.activeId);
    hide DoDelete, UniqueProjects, Find, Build, CleanName, Successor;
    assert ValidLibrary(s'.library) by { DeletedIsValid(starter, s, newId, today, now); }
    hide ValidLibrary;
    if |s.library.projects| > 1 { LeftAreIn(s.library.projects, i); }
  }

  lemma DeletedIsValid(starter: Template, s: State, newId: string, today: string, now: int)
    requires ValidLibrary(s.library)
    ensures Holds(s.library.projects, s.library.activeId)
    ensures ValidLibrary(DoDelete(s, starter, newId, today, now).library)
  {
    DeletedState(starter, s, newId, today, now);
    hide DoDelete, UniqueProjects, Find, Build, CleanName, Successor;
    if |s.library.projects| == 1 {
      SeedIsValid(starter, newId, today, now);
    } else {
      SuccessorOpens(s.library.projects, Find(s.library.projects, s.library.activeId));
    }
  }

  lemma RenameKeepsValid(s: State, name: string)
    requires Valid(s)
    ensures Valid(DoRename(s, name))
  {
    ActiveFacts(s);
    var s' := DoRename(s, name);
    SameIdsSameFind(s'.library.projects, s.library.projects, s.library.activeId);
    forall p | p in s'.library.projects ensures p.id in s.used {
      var k :| 0 <= k < |s'.library.projects| && s'.library.projects[k] == p;
      assert s.library.projects[k] in s.library.projects;
    }
  }

  lemma ScheduleKeepsValid(s: State)
    requires Valid(s)
    ensures Valid(s.(timers := s.timers + {Timer(s.history.present, s.library.activeId)}))
  {
    ActiveFacts(s);
  }

  /** Every step keeps ids unique and something open, whatever is marked as an example. */
  lemma StepKeepsValid(starter: Template, s: State, e: Event)
    requires Valid(s) && Legal(s, e)
    ensures Valid(Step(starter, s, e))
  {
    match e {
      case Commit(recipe, newId, now) => CommitKeepsValid(s, recipe, newId, now);
      case Undo =>
      case Redo =>
      case Open(id, now) => OpenKeepsValid(s, id, now);
      case Start(name, source, newId, now) => StartKeepsValid(s, name, source, newId, now);
      case Delete(newId, today, now) => DeleteKeepsValid(starter, s, newId, today, now);
      case Rename(name) => RenameKeepsValid(s, name);
      case Reset(today) =>
      case Embed(art) =>
      case Schedule => ScheduleKeepsValid(s);
      case Cancel(timer) =>
      case Autosave(timer, now) => WrittenBackIsValid(s, timer.doc, s.edited, now);
    }
  }

  // --------------------------------------------------------- the refinement

  lemma EditRefines(s: State, h: History, edited: bool)
    requires ValidLibrary(s.library)
    ensures Abstract(s.(history := h, edited := edited)) == Edit(Abstract(s), h)
  {
    assert Abstract(s.(history := h, edited := edited)).slots == Edit(Abstract(s), h).slots;
  }

  /** An edit that forks an example whose stored document has another shape than the one on screen. */
  predicate ForksAnother(s: State, e: Event)
    requires s.library.projects != []
  {
    e.Commit? && ActiveOf(s).example.Some? && !IsFull(s.library) && Shape(ActiveOf(s).doc) != Shape(s.history.present)
  }

  /** What a fork looks like: the example shows its stored record again, and a copy opens. */
  lemma ForkedDesk(s: State, recipe: RoadmapDocument -> RoadmapDocument, newId: string, now: int)
    requires Valid(s) && newId !in s.used && ActiveOf(s).example.Some? && !IsFull(s.library)
    ensures var k, next := Abstract(s), recipe(s.history.present);
      Abstract(DoCommit(s, recipe, newId, now))
      == Desk(Put(k.slots, k.active, ActiveOf(s).doc) + [Slot(newId, next, false)], newId, History([s.history.present], next, []))
  {
    ActiveFacts(s);
    hide Shape, UniqueName, CleanName;
    var k, s', kept := Abstract(s), DoCommit(s, recipe, newId, now), ActiveOf(s).doc;
    var k' := Abstract(s');
    forall j | 0 <= j < |k.slots| ensures k'.slots[j] == Put(k.slots, k.active, kept)[j] {
      assert s'.library.projects[j] == s.library.projects[j] && s.library.projects[j] in s.library.projects;
      ActiveByIndex(s, s.library.projects[j]);
    }
    assert k'.slots == Put(k.slots, k.active, kept) + [Slot(newId, recipe(s.history.present), false)];
  }

  /** A plain fork keeps some document in the example's slot; it is the one stored there. */
  lemma ForkedKeepsTheStored(s: State, recipe: RoadmapDocument -> RoadmapDocument, newId: string, now: int, kept: RoadmapDocument)
    requires Valid(s) && newId !in s.used && ActiveOf(s).example.Some? && !IsFull(s.library)
    requires Forked(Abstract(s), recipe, newId, Abstract(DoCommit(s, recipe, newId, now)), kept)
    ensures kept == ActiveOf(s).doc
  {
    ForkedDesk(s, recipe, newId, now);
    ActiveFacts(s);
    hide Shape, DoCommit, UniqueName, CleanName;
    var k, i := Abstract(s), Find(s.library.projects, s.library.activeId);
    var next := recipe(s.history.present);
    assert (Put(k.slots, k.active, kept) + [Slot(newId, next, false)])[i] == Put(k.slots, k.active, kept)[i];
    assert (Put(k.slots, k.active, ActiveOf(s).doc) + [Slot(newId, next, false)])[i] == Put(k.slots, k.active, ActiveOf(s).doc)[i];
  }

  /** An edit is a plain edit exactly unless it forks an example that was stored otherwise. */
  lemma CommitRefinesExactly(starter: Template, s: State, recipe: RoadmapDocument -> RoadmapDocument, newId: string, now: int)
    requires Valid(s) && newId !in s.used
    ensures SlotIndex(Abstract(s).slots, s.library.activeId) < |Abstract(s).slots|
    ensures DeskNext(starter, Abstract(s), Commit(recipe, newId, now), Abstract(DoCommit(s, recipe, newId, now)))
       <==> !ForksAnother(s, Commit(recipe, newId, now))
  {
    ActiveFacts(s);
    hide Shape, UniqueName, CleanName;
    var k, k' := Abstract(s), Abstract(DoCommit(s, recipe, newId, now));
    if !ActiveOf(s).example.Some? {
      EditRefines(s, Committed(s.history, recipe(s.history.present)), true);
    } else if !IsFull(s.library) {
      ForkedDesk(s, recipe, newId, now);
      if Shape(ActiveOf(s).doc) == Shape(s.history.present) {
        assert Forked(k, recipe, newId, k', ActiveOf(s).doc);
      }
      forall kept | Forked(k, recipe, newId, k', kept) ensures kept == ActiveOf(s).doc {
        ForkedKeepsTheStored(s, recipe, newId, now, kept);
      }
    }
  }

  lemma OpenRefines(starter: Template, s: State, id: string, now: int)
    requires Valid(s)
    ensures SlotIndex(Abstract(s).slots, s.library.activeId) < |Abstract(s).slots|
    ensures DeskNext(starter, Abstract(s), Open(id, now), Abstract(DoOpen(s, id, now)))
  {
    ActiveFacts(s);
    var k, s', saved := Abstract(s), DoOpen(s, id, now), WithActiveDoc(s.library, s.history.present, true, now);
    WriteBackIsInvisible(s.library, s.history.present, s.history.present, true, now);
    SlotIndexIsFind(s.library.projects, s.library.activeId, s.history.present, id);
    if Holds(saved.projects, id) {
      var k' := Abstract(s');
      forall j | 0 <= j < |k.slots| ensures k'.slots[j] == k.slots[j] {
        SameIdSameProject(saved.projects, saved.projects[j], saved.projects[Find(saved.projects, id)]);
      }
      assert k'.slots == k.slots;
    }
  }

  lemma StartRefines(starter: Template, s: State, name: string, source: RoadmapDocument, newId: string, now: int)
    requires Valid(s) && newId !in s.used
    ensures SlotIndex(Abstract(s).slots, s.library.activeId) < |Abstract(s).slots|
    ensures DeskNext(starter, Abstract(s), Start(name, source, newId, now), Abstract(DoStart(s, name, source, newId, now)))
  {
    ActiveFacts(s);
    var k, s', saved := Abstract(s), DoStart(s, name, source, newId, now), WithActiveDoc(s.library, s.history.present, true, now);
    WriteBackIsInvisible(s.library, s.history.present, s.history.present, true, now);
    if !IsFull(saved) {
      var k' := Abstract(s');
      forall j | 0 <= j < |k.slots| ensures k'.slots[j] == k.slots[j] {
        assert s.library.projects[j] in s.library.projects;
      }
      assert k'.slots == k.slots + [Slot(newId, source, false)];
    }
  }

  /** Deletion in full: the seed alone, or the others with the successor open. */
  lemma DeletedState(starter: Template, s: State, newId: string, today: string, now: int)
    requires ValidLibrary(s.library)
    ensures Holds(s.library.projects, s.library.activeId)
    ensures var ps, i, s' := s.library.projects, Find(s.library.projects, s.library.activeId), DoDelete(s, starter, newId, today, now);
      if |ps| == 1 then
        s' == s.(history := Opened(Build(starter, today)), library := SeedLibrary(starter, newId, today, now), used := s.used + {newId})
      else
        s' == s.(history := Opened(Successor(ps, i).doc),
                 library := ProjectLibrary(Successor(ps, i).id, ps[..i] + ps[i + 1..]), used := s.used + {newId})
  {
    ActiveFacts(s);
    RemovedParts(s.library, SeedLibrary(starter, newId, today, now));
    SeedIsValid(starter, newId, today, now);
    hide RemoveProject, Without, UniqueProjects, Find, CleanName, Build, ValidLibrary;
  }

  lemma DeleteRefines(starter: Template, s: State, newId: string, today: string, now: int)
    requires Valid(s) && newId !in s.used
    ensures SlotIndex(Abstract(s).slots, s.library.activeId) < |Abstract(s).slots|
    ensures DeskNext(starter, Abstract(s), Delete(newId, today, now), Abstract(DoDelete(s, starter, newId, today, now)))
  {
    ActiveFacts(s);
    DeletedState(starter, s, newId, today, now);
    DroppedDesk(starter, s, newId, today, now);
    hide DoDelete, Dropped, Build, Valid, Find, SlotIndex, ValidLibrary;
  }

  lemma DroppedDesk(starter: Template, s: State, newId: string, today: string, now: int)
    requires ValidLibrary(s.library)
    ensures Holds(s.library.projects, s.library.activeId)
    ensures Abstract(DoDelete(s, starter, newId, today, now))
         == Dropped(Abstract(s), Find(s.library.projects, s.library.activeId), newId, Build(starter, today))
  {
    DeletedState(starter, s, newId, today, now);
    var ps, i := s.library.projects, Find(s.library.projects, s.library.activeId);
    hide DoDelete, UniqueProjects, CleanName, Build, Find, Successor, Dropped;
    if |ps| == 1 {
      hide Slots;
      DroppedLast(Abstract(s), newId, Build(starter, today));
      SeedSlots(starter, newId, today, now);
    } else {
      DroppedOther(ps, i, s.history, newId, Build(starter, today));
      hide Slots;
    }
  }

  lemma DroppedLast(k: Desk, newId: string, example: RoadmapDocument)
    requires |k.slots| == 1
    ensures Dropped(k, 0, newId, example) == Desk([Slot(newId, example, true)], newId, Opened(example))
  {
    assert k.slots[..0] + k.slots[1..] == [];
  }

  lemma SeedSlots(starter: Template, newId: string, today: string, now: int)
    ensures var seed := SeedLibrary(starter, newId, today, now);
      seed.activeId == newId && Slots(seed.projects, newId, Build(starter, today)) == [Slot(newId, Build(starter, today), true)]
  {
    hide Build, CleanName;
  }

  lemma DroppedOther(ps: seq<Project>, i: nat, h: History, newId: string, example: RoadmapDocument)
    requires UniqueProjects(ps) && i < |ps| && |ps| > 1
    ensures var open := Successor(ps, i);
      Dropped(Desk(Slots(ps, ps[i].id, h.present), ps[i].id, h), i, newId, example)
      == Desk(Slots(ps[..i] + ps[i + 1..], open.id, open.doc), open.id, Opened(open.doc))
  {
    DroppedSlots(ps, i, h.present); SuccessorSlot(ps, i, h.present);
    hide UniqueProjects, Successor;
    var slots := Slots(ps, ps[i].id, h.present);
    assert |slots[..i] + slots[i + 1..]| == |ps| - 1;
    hide Slots;
  }

  lemma SuccessorSlot(ps: seq<Project>, i: nat, present: RoadmapDocument)
    requires UniqueProjects(ps) && i < |ps| && |ps| > 1
    ensures var left := Slots(ps, ps[i].id, present)[..i] + Slots(ps, ps[i].id, present)[i + 1..];
      var open := left[if i < |left| then i else |left| - 1];
      open.id == Successor(ps, i).id && open.doc == Successor(ps, i).doc
  {
    var j := if i < |ps| - 1 then i else |ps| - 2;
    NotTheDropped(ps, i, j);
    hide UniqueProjects;
  }

  /** What is left of the slots is the slots of what is left. */
  lemma DroppedSlots(ps: seq<Project>, i: nat, present: RoadmapDocument)
    requires UniqueProjects(ps) && i < |ps|
    ensures var left, slots := ps[..i] + ps[i + 1..], Slots(ps, ps[i].id, present);
      |ps| > 1 ==> Slots(left, Successor(ps, i).id, Successor(ps, i).doc) == slots[..i] + slots[i + 1..]
  {
    var left, slots := ps[..i] + ps[i + 1..], Slots(ps, ps[i].id, present);
    if |ps| > 1 {
      var open := Successor(ps, i);
      forall j | 0 <= j < |left| ensures Slots(left, open.id, open.doc)[j] == (slots[..i] + slots[i + 1..])[j] {
        NotTheDropped(ps, i, j);
        CutIsUnique(ps, i);
      }
    }
  }

  lemma NotTheDropped(ps: seq<Project>, i: nat, j: nat)
    requires UniqueProjects(ps) && i < |ps| && j < |ps| - 1
    ensures (ps[..i] + ps[i + 1..])[j].id != ps[i].id
  {
  }

  lemma RenameRefines(s: State, name: string)
    requires ValidLibrary(s.library)
    ensures Abstract(DoRename(s, name)) == Abstract(s).(slots := Unmark(Abstract(s).slots, s.library.activeId))
  {
    ActiveFacts(s);
    assert Abstract(DoRename(s, name)).slots == Unmark(Abstract(s).slots, s.library.activeId);
  }

  /**
   * From outside, a step of the editor is a step of the plain one exactly unless it forks an
   * example that was stored otherwise. Write-backs, timers and autosaves are nothing at all,
   * however late they come.
   */
  lemma StepRefinesExactly(starter: Template, s: State, e: Event)
    requires Valid(s) && Legal(s, e)
    ensures SlotIndex(Abstract(s).slots, Abstract(s).active) < |Abstract(s).slots|
    ensures DeskNext(starter, Abstract(s), e, Abstract(Step(starter, s, e))) <==> !ForksAnother(s, e)
  {
    ActiveFacts(s);
    assert ValidLibrary(s.library);
    hide Shape, Valid, ValidLibrary, DoCommit, DoOpen, DoStart, DoDelete, DoRename, DoAutosave, Committed, Undone, Redone, ResetTo, Embedded, Build, Put, Edit;
    match e {
      case Commit(recipe, newId, now) => CommitRefinesExactly(starter, s, recipe, newId, now);
      case Undo => EditRefines(s, Undone(s.history), true);
      case Redo => EditRefines(s, Redone(s.history), true);
      case Open(id, now) => OpenRefines(starter, s, id, now);
      case Start(name, source, newId, now) => StartRefines(starter, s, name, source, newId, now);
      case Delete(newId, today, now) => DeleteRefines(starter, s, newId, today, now);
      case Rename(name) => RenameRefines(s, name);
      case Reset(today) => EditRefines(s, ResetTo(s.history, Build(starter, today)), true);
      case Embed(art) => EditRefines(s, Embedded(s.history, art), s.edited);
      case Schedule =>
      case Cancel(timer) =>
      case Autosave(timer, now) => AutosaveRefines(s, timer, now);
    }
  }

  lemma AutosaveRefines(s: State, timer: Timer, now: int)
    requires ValidLibrary(s.library)
    ensures Abstract(DoAutosave(s, timer, now)) == Abstract(s)
  {
    WriteBackIsInvisible(s.library, timer.doc, s.history.present, s.edited, now);
  }
}
