/**
 * Plans marked as the example of a template: what a mark promises, and the one step that
 * breaks the promise.
 */
module Marks {
  import opened Document
  import opened Artwork
  import opened Library
  import opened Editor
  import opened Refinement

  /** The document is the marked template's, up to artwork and viewing date. */
  ghost predicate FromMark(c: Catalog, mark: string, d: RoadmapDocument) {
    TemplateById(c, mark).Some? && Shape(d) == Shape(TemplateById(c, mark).value.doc)
  }

  ghost predicate HistoryFromMark(c: Catalog, mark: string, h: History) {
    forall d <- Entries(h) :: FromMark(c, mark, d)
  }

  /** A marked plan has its template's shape in the store, in pending saves, and all along its history. */
  ghost predicate MarkIsKept(c: Catalog, s: State, p: Project) {
    p.example.Some? ==>
      && FromMark(c, p.example.value, p.doc)
      && (forall t <- s.timers :: t.projectId == p.id ==> FromMark(c, p.example.value, t.doc))
      && (p.id == s.library.activeId ==> HistoryFromMark(c, p.example.value, s.history))
  }

  ghost predicate Inv(c: Catalog, s: State) {
    Valid(s) && forall p <- s.library.projects :: MarkIsKept(c, s, p)
  }

  /** A reset of an open example whose template has another shape than the first one. */
  ghost predicate SpoilsMark(c: Catalog, s: State, e: Event)
    requires s.library.projects != []
  {
    e.Reset? && ActiveOf(s).example.Some? && !FromMark(c, ActiveOf(s).example.value, c.starter.doc)
  }

  // ---------------------------------------------------------------- history

  lemma HistoryStays(c: Catalog, mark: string, h: History, art: ArtworkMap)
    requires HistoryFromMark(c, mark, h)
    ensures HistoryFromMark(c, mark, Undone(h)) && HistoryFromMark(c, mark, Redone(h))
    ensures HistoryFromMark(c, mark, Embedded(h, art)) && FromMark(c, mark, h.present)
  {
    ShapeOfHydrated(h.present, art);
    hide Shape, Hydrate;
    assert h.present in Entries(h);
    UndoRedoMoveTheCursor(h);
    forall d | d in Entries(Embedded(h, art)) ensures FromMark(c, mark, d) { }
  }

  lemma ResetStaysExactly(c: Catalog, mark: string, h: History, today: string)
    requires HistoryFromMark(c, mark, h)
    ensures HistoryFromMark(c, mark, ResetTo(h, Build(c.starter, today))) <==> FromMark(c, mark, c.starter.doc)
  {
    ShapeOfBuilt(c.starter, today);
    hide Shape, Build;
    var h' := ResetTo(h, Build(c.starter, today));
    assert Build(c.starter, today) in Entries(h');
    if FromMark(c, mark, c.starter.doc) {
      forall d | d in Entries(h') ensures FromMark(c, mark, d) { assert d in Entries(h) || d == Build(c.starter, today); }
    }
  }

  lemma OpenedFromMark(c: Catalog, mark: string, d: RoadmapDocument)
    requires FromMark(c, mark, d)
    ensures HistoryFromMark(c, mark, Opened(d))
  {
  }

  lemma StarterFromMark(c: Catalog, today: string)
    ensures FromMark(c, c.starter.id, Build(c.starter, today))
  {
    ShapeOfBuilt(c.starter, today);
  }

  // ----------------------------------------------- the invariant, step by step

  lemma ActiveMark(c: Catalog, s: State)
    requires Inv(c, s) && ActiveOf(s).example.Some?
    ensures var mark := ActiveOf(s).example.value;
      HistoryFromMark(c, mark, s.history) && FromMark(c, mark, s.history.present) && FromMark(c, mark, ActiveOf(s).doc)
  {
    ActiveFacts(s);
    hide HistoryFromMark, FromMark;
    assert MarkIsKept(c, s, ActiveOf(s));
    HistoryStays(c, ActiveOf(s).example.value, s.history, map[]);
  }

  /** With the library and the timers untouched, all depends on the history of the open plan. */
  lemma EditKeepsMarksExactly(c: Catalog, s: State, s': State)
    requires Inv(c, s) && s'.library == s.library && s'.timers == s.timers && s'.used == s.used
    ensures Inv(c, s') <==> (ActiveOf(s).example.Some? ==> HistoryFromMark(c, ActiveOf(s).example.value, s'.history))
  {
    ActiveFacts(s);
    hide HistoryFromMark, FromMark, ValidLibrary;
    var open := ActiveOf(s);
    if open.example.Some? ==> HistoryFromMark(c, open.example.value, s'.history) {
      forall p | p in s'.library.projects ensures MarkIsKept(c, s', p) {
        assert MarkIsKept(c, s, p);
        ActiveByIndex(s, p) by { assert ValidLibrary(s.library); }
      }
    }
    if Inv(c, s') { assert MarkIsKept(c, s', open); }
  }

  lemma CommitKeepsMarks(c: Catalog, s: State, recipe: RoadmapDocument -> RoadmapDocument, newId: string, now: int)
    requires Inv(c, s) && newId !in s.used
    ensures Inv(c, DoCommit(s, recipe, newId, now))
  {
    ActiveFacts(s);
    CommitKeepsValid(s, recipe, newId, now);
    hide HistoryFromMark, FromMark;
    var s' := DoCommit(s, recipe, newId, now);
    forall p | p in s'.library.projects ensures MarkIsKept(c, s', p) {
      if p in s.library.projects {
        assert MarkIsKept(c, s, p);
        ActiveByIndex(s, p);
      }
    }
  }

  /** A saved copy of the open document keeps the mark if the document does. */
  lemma WrittenBackKeepsMark(c: Catalog, s: State, doc: RoadmapDocument, edited: bool, now: int, p: Project)
    requires Inv(c, s) && p in WithActiveDoc(s.library, doc, edited, now).projects
    requires ActiveOf(s).example.Some? ==> FromMark(c, ActiveOf(s).example.value, doc)
    ensures p.id in s.used
    ensures p.example.Some? ==>
      && FromMark(c, p.example.value, p.doc)
      && (forall t <- s.timers :: t.projectId == p.id ==> FromMark(c, p.example.value, t.doc))
      && (p.id == s.library.activeId ==> p.example == ActiveOf(s).example)
  {
    ActiveFacts(s);
    hide HistoryFromMark, FromMark;
    var saved := WithActiveDoc(s.library, doc, edited, now);
    WriteBackIsInvisible(s.library, doc, doc, edited, now);
    var k :| 0 <= k < |saved.projects| && saved.projects[k] == p;
    var q := s.library.projects[k];
    assert MarkIsKept(c, s, q);
    ActiveByIndex(s, q);
  }

  lemma OpenKeepsMarks(c: Catalog, s: State, id: string, now: int)
    requires Inv(c, s)
    ensures Inv(c, DoOpen(s, id, now))
  {
    OpenKeepsValid(s, id, now);
    hide FromMark;
    var s', saved := DoOpen(s, id, now), WithActiveDoc(s.library, s.history.present, true, now);
    WriteBackIsInvisible(s.library, s.history.present, s.history.present, true, now);
    if ActiveOf(s).example.Some? { ActiveMark(c, s); }
    if Holds(saved.projects, id) {
      var target := saved.projects[Find(saved.projects, id)];
      if target.example.Some? {
        WrittenBackKeepsMark(c, s, s.history.present, true, now, target);
        OpenedFromMark(c, target.example.value, target.doc);
      }
      hide HistoryFromMark;
      forall p | p in s'.library.projects ensures MarkIsKept(c, s', p) {
        WrittenBackKeepsMark(c, s, s.history.present, true, now, p);
        SameIdSameProject(saved.projects, p, target);
      }
    }
  }

  lemma StartKeepsMarks(c: Catalog, s: State, name: string, source: RoadmapDocument, newId: string, now: int)
    requires Inv(c, s) && newId !in s.used
    ensures Inv(c, DoStart(s, name, source, newId, now))
  {
    StartKeepsValid(s, name, source, newId, now);
    if ActiveOf(s).example.Some? { ActiveMark(c, s); }
    hide FromMark, HistoryFromMark, CleanName, UniqueName;
    var s', saved := DoStart(s, name, source, newId, now), WithActiveDoc(s.library, s.history.present, true, now);
    if !IsFull(saved) {
      forall p | p in s'.library.projects ensures MarkIsKept(c, s', p) {
        if p in saved.projects { WrittenBackKeepsMark(c, s, s.history.present, true, now, p); }
      }
    }
  }

  lemma DeleteKeepsMarks(c: Catalog, s: State, newId: string, today: string, now: int)
    requires Inv(c, s) && newId !in s.used
    ensures Inv(c, DoDelete(s, c.starter, newId, today, now))
  {
    DeleteKeepsValid(c.starter, s, newId, today, now);
    DeletedState(c.starter, s, newId, today, now);
    var ps, i, s' := s.library.projects, Find(s.library.projects, s.library.activeId), DoDelete(s, c.starter, newId, today, now);
    if |ps| == 1 {
      StarterFromMark(c, today);
      OpenedFromMark(c, c.starter.id, Build(c.starter, today));
      hide DoDelete, FromMark, HistoryFromMark, Find, CleanName, Build, Valid;
    } else {
      hide DoDelete, FromMark, Find;
      var open := Successor(ps, i);
      assert open in ps && MarkIsKept(c, s, open);
      if open.example.Some? { OpenedFromMark(c, open.example.value, open.doc); }
      hide HistoryFromMark, Successor;
      forall p | p in s'.library.projects ensures MarkIsKept(c, s', p) {
        assert p in ps && MarkIsKept(c, s, p);
        SameIdSameProject(ps, p, open);
      }
    }
  }

  lemma RenameKeepsMarks(c: Catalog, s: State, name: string)
    requires Inv(c, s)
    ensures Inv(c, DoRename(s, name))
  {
    RenameKeepsValid(s, name);
    hide HistoryFromMark, FromMark, CleanName;
    ActiveFacts(s);
    var s' := DoRename(s, name);
    forall p | p in s'.library.projects ensures MarkIsKept(c, s', p) {
      var k :| 0 <= k < |s'.library.projects| && s'.library.projects[k] == p;
      assert s.library.projects[k] in s.library.projects;
      assert MarkIsKept(c, s, s.library.projects[k]);
    }
  }

  lemma AutosaveKeepsMarks(c: Catalog, s: State, timer: Timer, now: int)
    requires Inv(c, s) && timer in s.timers
    ensures Inv(c, DoAutosave(s, timer, now))
  {
    if s.library.activeId == timer.projectId { WrittenBackIsValid(s, timer.doc, s.edited, now); }
    ActiveFacts(s);
    hide HistoryFromMark, FromMark, ValidLibrary;
    var s' := DoAutosave(s, timer, now);
    if s.library.activeId == timer.projectId {
      assert MarkIsKept(c, s, ActiveOf(s));
      forall p | p in s'.library.projects ensures MarkIsKept(c, s', p) {
        WrittenBackKeepsMark(c, s, timer.doc, s.edited, now, p);
      }
    } else {
      forall p | p in s'.library.projects ensures MarkIsKept(c, s', p) {
        assert MarkIsKept(c, s, p);
      }
    }
  }

  lemma TimersKeepMarks(c: Catalog, s: State, timer: Timer)
    requires Inv(c, s)
    ensures Inv(c, s.(timers := s.timers - {timer}))
    ensures Inv(c, s.(timers := s.timers + {Timer(s.history.present, s.library.activeId)}))
  {
    ScheduleKeepsValid(s);
    if ActiveOf(s).example.Some? { ActiveMark(c, s); }
    hide HistoryFromMark, FromMark, ValidLibrary;
    forall p | p in s.library.projects
      ensures MarkIsKept(c, s.(timers := s.timers - {timer}), p)
      ensures MarkIsKept(c, s.(timers := s.timers + {Timer(s.history.present, s.library.activeId)}), p)
    {
      assert MarkIsKept(c, s, p);
      ActiveByIndex(s, p);
    }
  }

  lemma HistoryEventKeepsMarksExactly(c: Catalog, s: State, e: Event)
    requires Inv(c, s) && (e.Undo? || e.Redo? || e.Embed? || e.Reset?)
    ensures Inv(c, Step(c.starter, s, e)) <==> !SpoilsMark(c, s, e)
  {
    EditKeepsMarksExactly(c, s, Step(c.starter, s, e));
    if ActiveOf(s).example.Some? {
      var mark := ActiveOf(s).example.value;
      ActiveMark(c, s);
      hide Inv, HistoryFromMark, FromMark;
      match e {
        case Embed(art) => HistoryStays(c, mark, s.history, art);
        case Reset(today) => ResetStaysExactly(c, mark, s.history, today);
        case _ => HistoryStays(c, mark, s.history, map[]);
      }
    }
  }

  /**
   * Every step leaves marked plans as their templates have them, exactly unless it resets an
   * open example of another shape.
   */
  lemma StepKeepsMarksExactly(c: Catalog, s: State, e: Event)
    requires Inv(c, s) && Legal(s, e)
    ensures s.library.projects != []
    ensures Inv(c, Step(c.starter, s, e)) <==> !SpoilsMark(c, s, e)
  {
    ActiveFacts(s);
    hide HistoryFromMark, FromMark, MarkIsKept;
    match e {
      case Commit(recipe, newId, now) => CommitKeepsMarks(c, s, recipe, newId, now);
      case Open(id, now) => OpenKeepsMarks(c, s, id, now);
      case Start(name, source, newId, now) => StartKeepsMarks(c, s, name, source, newId, now);
      case Delete(newId, today, now) => DeleteKeepsMarks(c, s, newId, today, now);
      case Rename(name) => RenameKeepsMarks(c, s, name);
      case Schedule => TimersKeepMarks(c, s, Timer(s.history.present, s.library.activeId));
      case Cancel(timer) => TimersKeepMarks(c, s, timer);
      case Autosave(timer, now) => AutosaveKeepsMarks(c, s, timer, now);
      case _ => HistoryEventKeepsMarksExactly(c, s, e);
    }
  }

  // -------------------------------------------------------- what marks are for

  /** Where marks are kept, no edit forks an example that was stored otherwise. */
  lemma KeptMarksForkPlainly(c: Catalog, s: State, e: Event)
    requires Inv(c, s)
    ensures s.library.projects != [] && !ForksAnother(s, e)
  {
    ActiveFacts(s);
    if ActiveOf(s).example.Some? { ActiveMark(c, s); }
    hide HistoryFromMark, MarkIsKept, Shape;
  }

  /** A fork leaves every record of the library as it is, the example's among them, and adds one. */
  lemma ForkLeavesTheRecords(s: State, recipe: RoadmapDocument -> RoadmapDocument, newId: string, now: int)
    requires Valid(s) && ActiveOf(s).example.Some? && !IsFull(s.library)
    ensures var ps, ps' := s.library.projects, DoCommit(s, recipe, newId, now).library.projects;
      && |ps'| == |ps| + 1 && ps'[..|ps|] == ps
      && ps'[|ps|].id == newId && ps'[|ps|].example.None? && ps'[|ps|].doc == recipe(s.history.present)
      && ps'[|ps|].name !in Names(s.library)
  {
    AddedNameIsUnused(s.library, FORK_NAME);
    hide CleanName, UniqueName;
  }
}
