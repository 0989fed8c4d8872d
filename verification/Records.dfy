/**
 * What the steps of the editor write into the library: names, marks and time stamps.
 */
module Records {
  import opened Text
  import opened Document
  import opened Library
  import opened Editor
  import opened Refinement

  /** A name loses the white space around it and what exceeds 48 characters; a blank one is replaced. */
  lemma CleanNameIs(name: string) returns (trimmed: string)
    ensures IsTrimmedFrom(name, trimmed) && (AllSpace(name) <==> trimmed == "")
    ensures trimmed == "" ==> CleanName(name) == "Untitled roadmap"
    ensures trimmed != "" ==> CleanName(name) <= trimmed && |CleanName(name)| == if |trimmed| <= 48 then |trimmed| else 48
  {
    hide IsSpace, TrimStart, TrimEnd;
    TrimIs(name);
    trimmed := Trim(name);
    var a, b :| a + trimmed + b == name && AllSpace(a) && AllSpace(b);
    if trimmed != "" { assert trimmed[0] in name; }
  }

  /** The unused name with the smallest suffix, where the base itself counts as the first. */
  lemma {:induction false} FirstFreeIsLeast(taken: set<string>, base: string, suffix: nat) returns (n: nat)
    requires 2 <= suffix <= 100 && FirstFree(taken, base, suffix) !in taken && base in taken
    ensures suffix <= n < 100 && FirstFree(taken, base, suffix) == base + " " + Decimal(n)
    ensures forall m :: suffix <= m < n ==> base + " " + Decimal(m) in taken
    decreases 100 - suffix
  {
    if Candidate(base, suffix) !in taken {
      n := suffix;
    } else {
      n := FirstFreeIsLeast(taken, base, suffix + 1);
    }
  }

  /** With fewer than 99 names in use: the base if it is free, or else its first free numbering. */
  lemma UniqueNameIsLeast(taken: set<string>, base: string) returns (n: nat)
    requires |taken| < 99
    ensures UniqueName(taken, base) !in taken
    ensures base !in taken ==> UniqueName(taken, base) == base
    ensures base in taken ==> 2 <= n < 100 && UniqueName(taken, base) == base + " " + Decimal(n)
    ensures base in taken ==> forall m :: 2 <= m < n ==> base + " " + Decimal(m) in taken
  {
    UniqueNameExactly(taken, base);
    n := 1;
    if base in taken { n := FirstFreeIsLeast(taken, base, 2); }
  }

  /** Renaming gives the open plan its new name and takes its mark off; nothing else changes. */
  lemma RenameWrites(starter: Template, s: State, name: string)
    requires ValidLibrary(s.library)
    ensures var ps, t := s.library.projects, Step(starter, s, Rename(name));
      && t == s.(library := ProjectLibrary(s.library.activeId, t.library.projects))
      && |t.library.projects| == |ps|
      && forall k :: 0 <= k < |ps| ==>
           t.library.projects[k] == if ps[k].id != s.library.activeId then ps[k]
                                    else Project(ps[k].id, CleanName(name), ps[k].doc, ps[k].updatedAt, None)
  {
    ActiveFacts(s);
    hide CleanName;
  }

  /**
   * The first edit of an example adds one plan at the end and opens it: unmarked, stamped,
   * with the edited document, and named `My roadmap` or its first free numbering. Undoing
   * once shows the example's document.
   */
  lemma ForkWrites(starter: Template, s: State, recipe: RoadmapDocument -> RoadmapDocument, newId: string, now: int)
    requires ValidLibrary(s.library) && ActiveOf(s).example.Some? && |s.library.projects| < 24
    ensures var next, t := recipe(s.history.present), Step(starter, s, Commit(recipe, newId, now));
      var copy := Project(newId, UniqueName(Names(s.library), "My roadmap"), next, now, None);
      && copy.name !in Names(s.library)
      && t.library == ProjectLibrary(newId, s.library.projects + [copy])
      && t.history == History([s.history.present], next, []) && UndoMany(t.history, 1).present == s.history.present
      && t.edited && t.timers == s.timers && t.used == s.used + {newId}
  {
    hide ActiveOf, ValidLibrary;
    NamesAreFewer(s.library.projects);
    UniqueNameExactly(Names(s.library), "My roadmap");
    var n :| 1 <= n < 100 && UniqueName(Names(s.library), "My roadmap") == Candidate("My roadmap", n);
    CandidateIsTrimmed("My roadmap", n);
    CleanOfTrimmed(Candidate("My roadmap", n));
    assert UndoMany(Undone(History([s.history.present], recipe(s.history.present), [])), 0).present == s.history.present;
    hide UniqueName, CleanName, Trimmed, Candidate, Names;
  }

  /** In a full library an example is not edited at all. */
  lemma FullLibraryKeepsExamples(starter: Template, s: State, recipe: RoadmapDocument -> RoadmapDocument, newId: string, now: int)
    requires ValidLibrary(s.library) && ActiveOf(s).example.Some?
    ensures Step(starter, s, Commit(recipe, newId, now)) == s <==> |s.library.projects| >= 24
  {
    var t := Step(starter, s, Commit(recipe, newId, now));
    hide ActiveOf, ValidLibrary, CleanName, UniqueName;
    if |s.library.projects| < 24 { assert |t.library.projects| == |s.library.projects| + 1; }
  }

  /**
   * Starting a plan writes the open one back, stamped, and adds the new one at the end,
   * unmarked, stamped and opened; a full library changes nothing.
   */
  lemma StartWrites(starter: Template, s: State, name: string, source: RoadmapDocument, newId: string, now: int)
    requires ValidLibrary(s.library)
    ensures var ps, t := s.library.projects, Step(starter, s, Start(name, source, newId, now));
      if |ps| >= 24 then t == s
      else && |t.library.projects| == |ps| + 1 && t.library.activeId == newId
           && t == s.(history := History([], source, []), library := t.library, used := s.used + {newId})
           && t.library.projects[|ps|] == Project(newId, CleanName(UniqueName(Names(s.library), name)), source, now, None)
           && forall k :: 0 <= k < |ps| ==>
                t.library.projects[k] == if ps[k].id != s.library.activeId then ps[k]
                                         else ps[k].(doc := s.history.present, updatedAt := now)
  {
    ActiveFacts(s);
    var saved := WithActiveDoc(s.library, s.history.present, true, now);
    NamesOfWritten(s.library, s.history.present, now);
    hide CleanName, UniqueName, ValidLibrary, Find, WithActiveDoc, Names;
  }

  lemma NamesOfWritten(lib: ProjectLibrary, doc: RoadmapDocument, now: int)
    ensures Names(WithActiveDoc(lib, doc, true, now)) == Names(lib)
  {
    var ps, qs := lib.projects, WithActiveDoc(lib, doc, true, now).projects;
    hide WithActiveDoc;
    forall p | p in ps ensures p.name in Names(ProjectLibrary(lib.activeId, qs)) {
      var k :| 0 <= k < |ps| && ps[k] == p;
      assert qs[k].name == p.name && qs[k] in qs;
    }
    forall q | q in qs ensures q.name in Names(lib) {
      var k :| 0 <= k < |qs| && qs[k] == q;
      assert ps[k].name == q.name && ps[k] in ps;
    }
  }

  /**
   * Deleting the open plan leaves the others as they are and opens the next one, or the one
   * before where it was the last; the only plan is followed by the example, marked and stamped.
   */
  lemma DeleteWrites(starter: Template, s: State, newId: string, today: string, now: int)
    requires ValidLibrary(s.library)
    ensures var ps, i, t := s.library.projects, Find(s.library.projects, s.library.activeId), Step(starter, s, Delete(newId, today, now));
      && t == s.(history := t.history, library := t.library, used := s.used + {newId})
      && t.history.past == [] && t.history.future == []
      && (|ps| == 1 ==>
            var example := starter.doc.(timeline := starter.doc.timeline.(viewDate := today));
            t.history.present == example
            && t.library == ProjectLibrary(newId, [Project(newId, CleanName(starter.name), example, now, Some(starter.id))]))
      && (|ps| > 1 ==>
            var open := if i + 1 < |ps| then ps[i + 1] else ps[i - 1];
            t.history.present == open.doc && t.library == ProjectLibrary(open.id, ps[..i] + ps[i + 1..]))
  {
    DeletedState(starter, s, newId, today, now);
    hide CleanName, DoDelete, ValidLibrary, Find;
  }

  /** An undone, redone, reset or committed document is an edit to be stamped; an autosave settles it. */
  lemma PendingEditExactly(starter: Template, s: State, e: Event)
    requires ValidLibrary(s.library)
    ensures Step(starter, s, e).edited
       <==> if e.Undo? || e.Redo? || e.Reset? then true
            else if e.Commit? then s.edited || ActiveOf(s).example.None? || |s.library.projects| < 24
            else if e.Autosave? then s.edited && e.timer.projectId != s.library.activeId
            else s.edited
  {
    hide ActiveOf, ValidLibrary, CleanName, UniqueName, WithActiveDoc, Find, RemoveProject, Build, RenameProject;
  }

  /** Opening another plan writes the one that is left back, stamped, and starts a clean history. */
  lemma OpenWrites(starter: Template, s: State, id: string, now: int)
    requires ValidLibrary(s.library)
    ensures var ps, t, i := s.library.projects, Step(starter, s, Open(id, now)), Find(s.library.projects, id);
      if i == |ps| then t == s
      else && t == s.(history := t.history, library := t.library)
           && t.history == History([], if id == s.library.activeId then s.history.present else ps[i].doc, [])
           && t.library.activeId == id && |t.library.projects| == |ps|
           && forall k :: 0 <= k < |ps| ==>
                t.library.projects[k] == if ps[k].id != s.library.activeId then ps[k]
                                         else ps[k].(doc := s.history.present, updatedAt := now)
  {
    ActiveFacts(s);
    WriteBackIsInvisible(s.library, s.history.present, s.history.present, true, now);
    hide ValidLibrary, Slots, Find;
  }

  /**
   * An autosave stores the document it was set up with under the plan that was open then, as
   * long as that is still the open one, and stamps it for a pending edit. Otherwise it is
   * only taken off the list of timers.
   */
  lemma AutosaveWrites(starter: Template, s: State, timer: Timer, now: int)
    requires ValidLibrary(s.library)
    ensures var ps, t := s.library.projects, Step(starter, s, Autosave(timer, now));
      && t == s.(library := t.library, edited := t.edited, timers := s.timers - {timer})
      && (timer.projectId != s.library.activeId ==> t.library == s.library && t.edited == s.edited)
      && (timer.projectId == s.library.activeId ==>
            && !t.edited && t.library.activeId == s.library.activeId && |t.library.projects| == |ps|
            && forall k :: 0 <= k < |ps| ==>
                 t.library.projects[k] == if ps[k].id != timer.projectId then ps[k]
                                          else Project(ps[k].id, ps[k].name, timer.doc, if s.edited then now else ps[k].updatedAt, ps[k].example))
  {
    ActiveFacts(s);
    hide ValidLibrary, Find;
  }
}
