/**
 * The editor as the component holds it: fields that the handlers, timers and effects assign.
 */
module EditorObject {
  import opened Document
  import opened Artwork
  import opened Library
  import opened Editor
  import opened Refinement

  /** forkExample: the copy, under a name of its own. */
  method Fork(library: ProjectLibrary, doc: RoadmapDocument, newId: string, now: int) returns (copy: Project)
    ensures copy == ForkProject(library, doc, newId, now)
  {
    var name := UniqueProjectName(library, FORK_NAME);
    copy := CreateProject(newId, name, doc, now, None);
  }

  /** The three ways an edit can go. */
  lemma CommitParts(starter: Template, s: State, recipe: RoadmapDocument -> RoadmapDocument, newId: string, now: int)
    requires ValidLibrary(s.library)
    ensures s.library.projects != [] && Holds(s.library.projects, s.library.activeId)
    ensures Step(starter, s, Event.Commit(recipe, newId, now)) == DoCommit(s, recipe, newId, now)
    ensures var open, next, h, s' := ActiveOf(s), recipe(s.history.present), s.history, DoCommit(s, recipe, newId, now);
      if open.example.Some? && IsFull(s.library) then s' == s
      else if open.example.Some? then
        var copy := ForkProject(s.library, next, newId, now);
        s' == Editor.State(History([h.present], copy.doc, []), AddProject(s.library, copy), true, s.timers, s.used + {newId})
      else s' == Editor.State(History(Last(h.past, HISTORY_CAP - 1) + [h.present], next, []), s.library, true, s.timers, s.used)
  {
  }

  class PlannerEditor {
    const starter: Template
    var past: seq<RoadmapDocument>
    var present: RoadmapDocument
    var future: seq<RoadmapDocument>
    var library: ProjectLibrary
    var edited: bool
    var timers: set<Timer>
    ghost var used: set<string>

    /** The abstract value of the fields. */
    ghost function State(): State
      reads this
    {
      Editor.State(History(past, present, future), library, edited, timers, used)
    }

    ghost predicate Valid()
      reads this
    {
      Editor.Valid(State())
    }

    /** The component starts from a loaded library, whatever plans in it are marked. */
    constructor (starter: Template, loaded: ProjectLibrary)
      requires ValidLibrary(loaded)
      ensures Valid() && this.starter == starter
      ensures loaded.projects != [] && State() == Loaded(loaded)
    {
      this.starter := starter;
      past, present, future := [], ActiveProject(loaded).value.doc, [];
      library, edited, timers := loaded, false, {};
      used := set p | p in loaded.projects :: p.id;
      new;
    }

    method Commit(recipe: RoadmapDocument -> RoadmapDocument, newId: string, now: int)
      requires Valid() && newId !in used
      modifies this
      ensures Valid() && State() == Step(starter, old(State()), Event.Commit(recipe, newId, now))
    {
      ghost var s := State();
      CommitKeepsValid(s, recipe, newId, now);
      ActiveFacts(s);
      CommitParts(starter, s, recipe, newId, now);
      var open := ActiveProject(library).value;
      hide Step, Editor.Valid, DoCommit, ValidLibrary, Find, Holds, ActiveProject, AddProject, ForkProject, IsFull;
      if open.example.Some? && IsFull(library) { return; }
      var next := recipe(present);
      if open.example.Some? {
        OpenFork(next, newId, now);
      } else {
        edited := true;
        past, present, future := Last(past, HISTORY_CAP - 1) + [present], next, [];
      }
    }

    /** The copy is added and opened, with the example's document as the one state to undo to. */
    method OpenFork(next: RoadmapDocument, newId: string, now: int)
      modifies this
      ensures var copy := ForkProject(old(library), next, newId, now);
        State() == Editor.State(History([old(present)], copy.doc, []), AddProject(old(library), copy), true, old(timers), old(used) + {newId})
    {
      hide AddProject, ForkProject;
      var copy := Fork(library, next, newId, now);
      edited, library := true, AddProject(library, copy);
      past, present, future := [present], copy.doc, [];
      used := used + {newId};
    }

    method Undo()
      requires Valid()
      modifies this
      ensures Valid() && State() == Step(starter, old(State()), Event.Undo)
    {
      StepKeepsValid(starter, State(), Event.Undo);
      edited := true;
      if past == [] { return; }
      past, present, future := past[..|past| - 1], past[|past| - 1], [present] + future;
    }

    method Redo()
      requires Valid()
      modifies this
      ensures Valid() && State() == Step(starter, old(State()), Event.Redo)
    {
      StepKeepsValid(starter, State(), Event.Redo);
      edited := true;
      if future == [] { return; }
      past, present, future := past + [present], future[0], future[1..];
    }

    method Open(id: string, now: int)
      requires Valid()
      modifies this
      ensures Valid() && State() == Step(starter, old(State()), Event.Open(id, now))
    {
      OpenKeepsValid(State(), id, now);
      var saved := WithActiveDoc(library, present, true, now);
      if !Holds(saved.projects, id) { return; }
      var target := saved.projects[Find(saved.projects, id)];
      library := saved.(activeId := id);
      past, present, future := [], target.doc, [];
    }

    method Start(name: string, source: RoadmapDocument, newId: string, now: int)
      requires Valid() && newId !in used
      modifies this
      ensures Valid() && State() == Step(starter, old(State()), Event.Start(name, source, newId, now))
    {
      StartKeepsValid(State(), name, source, newId, now);
      var saved := WithActiveDoc(library, present, true, now);
      if IsFull(saved) { return; }
      var unique := UniqueProjectName(saved, name);
      var created := CreateProject(newId, unique, source, now, None);
      library := AddProject(saved, created);
      past, present, future := [], created.doc, [];
      used := used + {newId};
    }

    method Delete(newId: string, today: string, now: int)
      requires Valid() && newId !in used
      modifies this
      ensures Valid() && State() == Step(starter, old(State()), Event.Delete(newId, today, now))
    {
      DeleteKeepsValid(starter, State(), newId, today, now);
      ActiveFacts(State());
      RemovedParts(library, SeedLibrary(starter, newId, today, now));
      SeedIsValid(starter, newId, today, now);
      var next := RemoveProject(library, ActiveProject(library).value.id, SeedLibrary(starter, newId, today, now));
      library := next;
      past, present, future := [], ActiveProject(next).value.doc, [];
      used := used + {newId};
    }

    method Rename(name: string)
      requires Valid()
      modifies this
      ensures Valid() && State() == Step(starter, old(State()), Event.Rename(name))
    {
      RenameKeepsValid(State(), name);
      ActiveFacts(State());
      library := RenameProject(library, ActiveProject(library).value.id, name);
    }

    method Reset(today: string)
      requires Valid()
      modifies this
      ensures Valid() && State() == Step(starter, old(State()), Event.Reset(today))
    {
      StepKeepsValid(starter, State(), Event.Reset(today));
      edited := true;
      past, present, future := past + [present], Build(starter, today), [];
    }

    /** Late artwork replaces the present document and leaves past and future as they are. */
    method Embed(art: ArtworkMap)
      requires Valid()
      modifies this
      ensures Valid() && State() == Step(starter, old(State()), Event.Embed(art))
    {
      StepKeepsValid(starter, State(), Event.Embed(art));
      var next := ApplyIconArtwork(present, art);
      if next.Some? { present := next.value; }
    }

    /** The effect that follows a change of document or plan sets an autosave up. */
    method Schedule()
      requires Valid()
      modifies this
      ensures Valid() && State() == Step(starter, old(State()), Event.Schedule)
    {
      StepKeepsValid(starter, State(), Event.Schedule);
      timers := timers + {Timer(present, library.activeId)};
    }

    method Cancel(timer: Timer)
      requires Valid() && timer in timers
      modifies this
      ensures Valid() && State() == Step(starter, old(State()), Event.Cancel(timer))
    {
      StepKeepsValid(starter, State(), Event.Cancel(timer));
      timers := timers - {timer};
    }

    /** A timer goes off, in time or late; a plan that is no longer open is left alone. */
    method Autosave(timer: Timer, now: int)
      requires Valid() && timer in timers
      modifies this
      ensures Valid() && State() == Step(starter, old(State()), Event.Autosave(timer, now))
    {
      StepKeepsValid(starter, State(), Event.Autosave(timer, now));
      timers := timers - {timer};
      if library.activeId != timer.projectId { return; }
      library := WithActiveDoc(library, timer.doc, edited, now);
      edited := false;
    }
  }
}
