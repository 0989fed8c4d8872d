/**
 * Whole runs of the editor.
 */
module Runs {
  import opened Document
  import opened Library
  import opened Editor
  import opened Refinement
  import opened Marks

  /** Something is open, so that the next event has something to act on. */
  predicate Ready(s: State) { Holds(s.library.projects, s.library.activeId) }

  /** Every event of the run is one the editor can receive where it receives it. */
  ghost predicate LegalRun(starter: Template, s: State, es: seq<Event>)
    decreases |es|
  {
    es == [] || (Ready(s) && Legal(s, es[0]) && LegalRun(starter, Step(starter, s, es[0]), es[1..]))
  }

  ghost function Run(starter: Template, s: State, es: seq<Event>): State
    requires LegalRun(starter, s, es)
    decreases |es|
  {
    if es == [] then s else Run(starter, Step(starter, s, es[0]), es[1..])
  }

  /** Each step leaves the editor ready and the library sound, so every run does. */
  lemma {:induction false} RunKeepsValid(starter: Template, s: State, es: seq<Event>)
    requires Valid(s) && LegalRun(starter, s, es)
    ensures Valid(Run(starter, s, es)) && Ready(Run(starter, s, es))
    decreases |es|
  {
    if es != [] {
      StepKeepsValid(starter, s, es[0]);
      hide Valid, Step;
      RunKeepsValid(starter, Step(starter, s, es[0]), es[1..]);
    }
  }

  /** A run goes on with any event that is legal where it stands. */
  lemma {:induction false} RunsGoOn(starter: Template, s: State, es: seq<Event>, e: Event)
    requires Valid(s) && LegalRun(starter, s, es) && Legal(Run(starter, s, es), e)
    ensures LegalRun(starter, s, es + [e])
    decreases |es|
  {
    if es == [] {
      assert [e][1..] == [];
      assert LegalRun(starter, Step(starter, s, e), []);
    } else {
      StepKeepsValid(starter, s, es[0]);
      RunsGoOn(starter, Step(starter, s, es[0]), es[1..], e);
      assert (es + [e])[1..] == es[1..] + [e];
    }
  }

  // ------------------------------------------------------------ the examples

  /** No step of the run resets an open example whose template has another shape than the first. */
  ghost predicate Unspoiled(c: Catalog, s: State, es: seq<Event>)
    requires LegalRun(c.starter, s, es)
    decreases |es|
  {
    es == [] || (!SpoilsMark(c, s, es[0]) && Unspoiled(c, Step(c.starter, s, es[0]), es[1..]))
  }

  lemma {:induction false} RunKeepsMarks(c: Catalog, s: State, es: seq<Event>)
    requires Inv(c, s) && LegalRun(c.starter, s, es) && Unspoiled(c, s, es)
    ensures Inv(c, Run(c.starter, s, es))
    decreases |es|
  {
    if es != [] {
      StepKeepsMarksExactly(c, s, es[0]);
      hide Inv, Step, SpoilsMark;
      RunKeepsMarks(c, Step(c.starter, s, es[0]), es[1..]);
    }
  }

  /** In every state such a run reaches, an example is as its template, up to artwork and viewing date. */
  lemma ExampleIsNeverEdited(c: Catalog, s: State, es: seq<Event>, p: Project)
    requires Inv(c, s) && LegalRun(c.starter, s, es) && Unspoiled(c, s, es)
    requires p in Run(c.starter, s, es).library.projects && p.example.Some?
    ensures var t := TemplateById(c, p.example.value);
      && t.Some? && Shape(p.doc) == Shape(t.value.doc)
      && (p.id == Run(c.starter, s, es).library.activeId ==>
            forall d <- Entries(Run(c.starter, s, es).history) :: Shape(d) == Shape(t.value.doc))
  {
    RunKeepsMarks(c, s, es);
    hide Shape, Run, TemplateById;
    assert MarkIsKept(c, Run(c.starter, s, es), p);
  }

  /** Marks of the first template alone, as a library that was never written by hand has them. */
  ghost predicate OnlyStarterMarked(c: Catalog, s: State) {
    forall p <- s.library.projects :: p.example.Some? ==> p.example == Some(c.starter.id)
  }

  lemma WritingKeepsMarks(c: Catalog, s: State, doc: RoadmapDocument, edited: bool, now: int)
    requires OnlyStarterMarked(c, s)
    ensures forall p <- WithActiveDoc(s.library, doc, edited, now).projects :: p.example.Some? ==> p.example == Some(c.starter.id)
  {
    var saved := WithActiveDoc(s.library, doc, edited, now);
    forall p | p in saved.projects && p.example.Some? ensures p.example == Some(c.starter.id) {
      var k :| 0 <= k < |saved.projects| && saved.projects[k] == p;
      hide WithActiveDoc;
      assert s.library.projects[k] in s.library.projects;
    }
  }

  lemma DeletingMarksOnlyStarter(c: Catalog, s: State, newId: string, today: string, now: int)
    requires ValidLibrary(s.library) && OnlyStarterMarked(c, s)
    ensures Holds(s.library.projects, s.library.activeId)
    ensures OnlyStarterMarked(c, DoDelete(s, c.starter, newId, today, now))
  {
    DeletedState(c.starter, s, newId, today, now);
    var ps, i := s.library.projects, Find(s.library.projects, s.library.activeId);
    hide DoDelete, ValidLibrary, Find, Successor, Build, CleanName;
    assert forall p <- ps[..i] + ps[i + 1..] :: p in ps;
  }

  lemma StepMarksOnlyStarter(c: Catalog, s: State, e: Event)
    requires Valid(s) && Legal(s, e) && OnlyStarterMarked(c, s)
    ensures Ready(s) && OnlyStarterMarked(c, Step(c.starter, s, e)) && !SpoilsMark(c, s, e)
  {
    ActiveFacts(s);
    assert ValidLibrary(s.library);
    hide Valid, Legal, Shape, CleanName, UniqueName, Build, ValidLibrary, Find, WithActiveDoc;
    match e {
      case Open(id, now) => WritingKeepsMarks(c, s, s.history.present, true, now);
      case Start(name, source, newId, now) => WritingKeepsMarks(c, s, s.history.present, true, now);
      case Autosave(timer, now) => WritingKeepsMarks(c, s, timer.doc, s.edited, now);
      case Delete(newId, today, now) => DeletingMarksOnlyStarter(c, s, newId, today, now);
      case Rename(name) =>
        var ps' := DoRename(s, name).library.projects;
        forall p | p in ps' && p.example.Some? ensures p.example == Some(c.starter.id) {
          var k :| 0 <= k < |ps'| && ps'[k] == p;
          assert s.library.projects[k] in s.library.projects;
        }
      case _ =>
    }
  }

  /** From a library that marks the first template alone, no run spoils a mark. */
  lemma {:induction false} StarterMarksAreNeverSpoiled(c: Catalog, s: State, es: seq<Event>)
    requires Valid(s) && LegalRun(c.starter, s, es) && OnlyStarterMarked(c, s)
    ensures Unspoiled(c, s, es)
    decreases |es|
  {
    if es != [] {
      StepKeepsValid(c.starter, s, es[0]);
      StepMarksOnlyStarter(c, s, es[0]);
      hide Valid, Step, SpoilsMark, OnlyStarterMarked;
      StarterMarksAreNeverSpoiled(c, Step(c.starter, s, es[0]), es[1..]);
    }
  }

  // -------------------------------------------------------- the plain run

  ghost predicate DeskRun(starter: Template, k: Desk, es: seq<Event>, k': Desk)
    decreases |es|
  {
    if es == [] then k' == k
    else
      SlotIndex(k.slots, k.active) < |k.slots| &&
      exists m :: DeskNext(starter, k, es[0], m) && DeskRun(starter, m, es[1..], k')
  }

  /** No step of the run forks an example that was stored in another shape than it is shown. */
  ghost predicate ForksPlainly(starter: Template, s: State, es: seq<Event>)
    requires LegalRun(starter, s, es)
    decreases |es|
  {
    es == [] || (!ForksAnother(s, es[0]) && ForksPlainly(starter, Step(starter, s, es[0]), es[1..]))
  }

  lemma {:induction false} UnspoiledRunsForkPlainly(c: Catalog, s: State, es: seq<Event>)
    requires Inv(c, s) && LegalRun(c.starter, s, es) && Unspoiled(c, s, es)
    ensures ForksPlainly(c.starter, s, es)
    decreases |es|
  {
    if es != [] {
      StepKeepsMarksExactly(c, s, es[0]);
      KeptMarksForkPlainly(c, s, es[0]);
      hide Inv, Step, SpoilsMark, ForksAnother;
      UnspoiledRunsForkPlainly(c, Step(c.starter, s, es[0]), es[1..]);
    }
  }

  /** Every such run of the editor is, from outside, a run of the plain one. */
  lemma {:induction false} RunRefines(starter: Template, s: State, es: seq<Event>)
    requires Valid(s) && LegalRun(starter, s, es) && ForksPlainly(starter, s, es)
    ensures DeskRun(starter, Abstract(s), es, Abstract(Run(starter, s, es)))
    decreases |es|
  {
    hide DeskNext, Abstract, Valid, Legal, Step, ForksAnother;
    if es != [] {
      StepRefinesExactly(starter, s, es[0]);
      StepKeepsValid(starter, s, es[0]);
      RunRefines(starter, Step(starter, s, es[0]), es[1..]);
    }
  }

  // ------------------------------------------------ other plans are left alone

  /** What the visitor would see on opening the plan. */
  function Visible(k: Desk, id: string): Option<RoadmapDocument> {
    var i := SlotIndex(k.slots, id);
    if i < |k.slots| then Some(k.slots[i].doc) else None
  }

  /** The event is aimed at this plan: an edit of it, late artwork for it, or its deletion. */
  predicate Touches(k: Desk, e: Event, id: string) {
    k.active == id && (e.Commit? || e.Undo? || e.Redo? || e.Reset? || e.Embed? || e.Delete?)
  }

  ghost predicate UniqueSlots(slots: seq<Slot>) {
    forall i, j :: 0 <= i < j < |slots| ==> slots[i].id != slots[j].id
  }

  lemma SlotAt(slots: seq<Slot>, id: string, k: nat)
    requires UniqueSlots(slots) && k < |slots| && slots[k].id == id
    ensures SlotIndex(slots, id) == k
  {
  }

  /** A step changes no plan it is not aimed at. */
  lemma StepLeavesOthersAlone(starter: Template, k: Desk, e: Event, k': Desk, id: string)
    requires UniqueSlots(k.slots) && SlotIndex(k.slots, k.active) < |k.slots| && UniqueSlots(k'.slots)
    requires DeskNext(starter, k, e, k') && !Touches(k, e, id) && Visible(k, id).Some?
    ensures Visible(k', id) == Visible(k, id)
  {
    var i, j := SlotIndex(k.slots, k.active), SlotIndex(k.slots, id);
    hide Shape;
    if e.Delete? && |k.slots| > 1 {
      var left := k.slots[..i] + k.slots[i + 1..];
      assert left != [];
      assert left[if j < i then j else j - 1] == k.slots[j];
      SlotAt(k'.slots, id, if j < i then j else j - 1);
    } else if !e.Delete? && k' != k {
      SlotAt(k'.slots, id, j);
    }
  }

  ghost predicate NeverAimedAt(starter: Template, s: State, es: seq<Event>, id: string)
    requires LegalRun(starter, s, es)
    decreases |es|
  {
    es == [] || (!Touches(Abstract(s), es[0], id) && NeverAimedAt(starter, Step(starter, s, es[0]), es[1..], id))
  }

  lemma SlotsAreUnique(s: State)
    requires UniqueProjects(s.library.projects)
    ensures UniqueSlots(Abstract(s).slots)
  {
  }

  /** A fork, whatever was stored, changes the example it forks from and no other plan. */
  lemma ForkLeavesOthersAlone(starter: Template, s: State, e: Event, id: string)
    requires Valid(s) && Legal(s, e) && s.library.projects != [] && ForksAnother(s, e)
    requires id != s.library.activeId && Visible(Abstract(s), id).Some?
    ensures Visible(Abstract(Step(starter, s, e)), id) == Visible(Abstract(s), id)
  {
    var k := Abstract(s);
    ForkedDesk(s, e.recipe, e.newId, e.now);
    StepKeepsValid(starter, s, e);
    SlotsAreUnique(Step(starter, s, e));
    hide Shape, Valid, Legal;
    SlotAt(Abstract(Step(starter, s, e)).slots, id, SlotIndex(k.slots, id));
  }

  /**
   * Over any run, with switches back and forth, stale timers, autosaves, late artwork and
   * whatever marks, a plan that no edit is aimed at shows the same document at the end.
   */
  lemma {:induction false} RunLeavesOthersAlone(starter: Template, s: State, es: seq<Event>, id: string)
    requires Valid(s) && LegalRun(starter, s, es) && NeverAimedAt(starter, s, es, id)
    requires Visible(Abstract(s), id).Some?
    ensures Visible(Abstract(Run(starter, s, es)), id) == Visible(Abstract(s), id)
    decreases |es|
  {
    if es != [] {
      AStepLeavesOthersAlone(starter, s, es[0], id);
      StepKeepsValid(starter, s, es[0]);
      hide DeskNext, Abstract, Legal, Step, Visible, Touches, Ready, Valid;
      RunLeavesOthersAlone(starter, Step(starter, s, es[0]), es[1..], id);
    }
  }

  lemma AStepLeavesOthersAlone(starter: Template, s: State, e: Event, id: string)
    requires Valid(s) && Legal(s, e) && Ready(s) && !Touches(Abstract(s), e, id) && Visible(Abstract(s), id).Some?
    ensures Visible(Abstract(Step(starter, s, e)), id) == Visible(Abstract(s), id)
  {
    var next := Step(starter, s, e);
    StepRefinesExactly(starter, s, e);
    StepKeepsValid(starter, s, e);
    SlotsAreUnique(s); SlotsAreUnique(next);
    if ForksAnother(s, e) { ForkLeavesOthersAlone(starter, s, e, id); }
    else {
      hide DeskNext, Visible, Touches, Legal, Step, Valid, Shape;
      StepLeavesOthersAlone(starter, Abstract(s), e, Abstract(next), id);
    }
  }

  /** Opening a plan shows exactly what is visible of it, with nothing to undo or redo. */
  lemma OpeningShowsThePlan(starter: Template, s: State, id: string, now: int)
    requires Valid(s) && Visible(Abstract(s), id).Some?
    ensures Step(starter, s, Open(id, now)).history == Opened(Visible(Abstract(s), id).value)
    ensures Step(starter, s, Open(id, now)).library.activeId == id
  {
    OpenRefines(starter, s, id, now);
    hide DoOpen;
    assert Abstract(DoOpen(s, id, now)) == Desk(Abstract(s).slots, id, Opened(Visible(Abstract(s), id).value));
  }

  /** The state after an autosave that is set up and goes off in time. */
  function Autosaved(starter: Template, s: State, now: int): State
    requires Ready(s)
  {
    Step(starter, Step(starter, s, Schedule), Autosave(Timer(s.history.present, s.library.activeId), now))
  }

  /** An autosave in time stores every plan just as it is visible, and nothing looks different. */
  lemma AutosaveStoresWhatIsVisible(starter: Template, s: State, now: int)
    requires Valid(s)
    ensures Ready(s) && Legal(Step(starter, s, Schedule), Autosave(Timer(s.history.present, s.library.activeId), now))
    ensures var b := Autosaved(starter, s, now);
      && b.library == WithActiveDoc(s.library, s.history.present, s.edited, now)
      && Abstract(b) == Abstract(s) && |b.library.projects| == |s.library.projects|
      && forall k :: 0 <= k < |b.library.projects| ==> b.library.projects[k].doc == Abstract(s).slots[k].doc
  {
    ScheduleKeepsValid(s);
    WriteBackIsInvisible(s.library, s.history.present, s.history.present, s.edited, now);
    ActiveFacts(s);
  }

  // --------------------------------------------------- the length of history

  function Resets(es: seq<Event>): nat {
    if es == [] then 0 else (if es[0].Reset? then 1 else 0) + Resets(es[1..])
  }

  function Steps(h: History): nat { |h.past| + |h.future| }

  predicate InCap(s: State) { Steps(s.history) <= HISTORY_CAP }

  /** A reset where the past is full already: unlike an edit it drops nothing. */
  predicate ResetsFullPast(s: State, e: Event) { e.Reset? && |s.history.past| == HISTORY_CAP }

  /** From within the cap, a step leaves it exactly when it resets at a full past, and then by one. */
  lemma StepKeepsCapExactly(starter: Template, s: State, e: Event)
    requires Ready(s) && InCap(s)
    ensures InCap(Step(starter, s, e)) <==> !ResetsFullPast(s, e)
    ensures ResetsFullPast(s, e) ==> Steps(Step(starter, s, e).history) == HISTORY_CAP + 1
  {
    hide Build;
  }

  /** Every state of the run is within the cap. */
  ghost predicate StaysInCap(starter: Template, s: State, es: seq<Event>)
    requires LegalRun(starter, s, es)
    decreases |es|
  {
    InCap(s) && (es == [] || StaysInCap(starter, Step(starter, s, es[0]), es[1..]))
  }

  ghost predicate NeverResetsFullPast(starter: Template, s: State, es: seq<Event>)
    requires LegalRun(starter, s, es)
    decreases |es|
  {
    es == [] || (!ResetsFullPast(s, es[0]) && NeverResetsFullPast(starter, Step(starter, s, es[0]), es[1..]))
  }

  /** A run that starts within the cap stays there exactly when none of its steps resets at a full past. */
  lemma {:induction false} RunStaysInCapExactly(starter: Template, s: State, es: seq<Event>)
    requires LegalRun(starter, s, es) && InCap(s)
    ensures StaysInCap(starter, s, es) <==> NeverResetsFullPast(starter, s, es)
    decreases |es|
  {
    if es != [] {
      StepKeepsCapExactly(starter, s, es[0]);
      hide Step, Legal, Ready, InCap, ResetsFullPast;
      if !ResetsFullPast(s, es[0]) {
        RunStaysInCapExactly(starter, Step(starter, s, es[0]), es[1..]);
      } else {
        OutOfCap(starter, Step(starter, s, es[0]), es[1..]);
      }
    }
  }

  lemma OutOfCap(starter: Template, s: State, es: seq<Event>)
    requires LegalRun(starter, s, es) && !InCap(s)
    ensures !StaysInCap(starter, s, es)
  {
  }

  /** Eighty edits of a plan that is no example, and a reset: the input that leaves the cap. */
  function EditsThenReset(recipe: RoadmapDocument -> RoadmapDocument, newIds: seq<string>, today: string, now: int): seq<Event> {
    seq(|newIds|, k requires 0 <= k < |newIds| => Commit(recipe, newIds[k], now)) + [Reset(today)]
  }

  lemma {:induction false} EditsFillThePast(
      starter: Template, s: State, recipe: RoadmapDocument -> RoadmapDocument, newIds: seq<string>, today: string, now: int)
    requires Valid(s) && ActiveOf(s).example.None? && s.history.future == [] && |s.history.past| + |newIds| == HISTORY_CAP
    requires forall id <- newIds :: id !in s.used
    ensures var es := EditsThenReset(recipe, newIds, today, now);
      LegalRun(starter, s, es) && Steps(Run(starter, s, es).history) == HISTORY_CAP + 1
    decreases |newIds|
  {
    ActiveFacts(s);
    hide Build, Find;
    var es := EditsThenReset(recipe, newIds, today, now);
    var next := Step(starter, s, es[0]);
    StepKeepsValid(starter, s, es[0]);
    if newIds == [] {
      assert es == [Reset(today)] && es[1..] == [];
      assert LegalRun(starter, next, es[1..]) && Run(starter, next, es[1..]) == next;
    } else {
      assert newIds[0] in newIds && forall id <- newIds[1..] :: id in newIds;
      assert es[1..] == EditsThenReset(recipe, newIds[1..], today, now);
      assert next == s.(history := Committed(s.history, recipe(s.history.present)), edited := true);
      hide Valid, EditsThenReset;
      EditsFillThePast(starter, next, recipe, newIds[1..], today, now);
    }
  }

  /** No step but a reset, which keeps all of the past, makes the line longer than the cap. */
  lemma StepBoundsHistory(starter: Template, s: State, e: Event)
    requires Ready(s)
    ensures var n, m := Steps(s.history), Steps(Step(starter, s, e).history);
      m <= (if n < HISTORY_CAP then HISTORY_CAP else n) + if e.Reset? then 1 else 0
  {
    hide Build;
  }

  /** Over any run the line grows past 80 by at most one entry a reset. */
  lemma {:induction false} RunBoundsHistory(starter: Template, s: State, es: seq<Event>)
    requires LegalRun(starter, s, es)
    ensures var n := Steps(s.history);
      Steps(Run(starter, s, es).history) <= (if n < HISTORY_CAP then HISTORY_CAP else n) + Resets(es)
    decreases |es|
  {
    if es != [] {
      StepBoundsHistory(starter, s, es[0]);
      hide Step, Legal, Ready;
      RunBoundsHistory(starter, Step(starter, s, es[0]), es[1..]);
    }
  }

  // ------------------------------------------------------------ time stamps

  function StampOf(lib: ProjectLibrary, id: string): Option<int> {
    var i := Find(lib.projects, id);
    if i < |lib.projects| then Some(lib.projects[i].updatedAt) else None
  }

  /** Opening another plan stamps the one that is left, edited or not, and no other. */
  lemma OpeningStampsThePlanLeft(starter: Template, s: State, id: string, now: int, other: string)
    requires ValidLibrary(s.library) && Holds(s.library.projects, id)
    ensures StampOf(Step(starter, s, Open(id, now)).library, other)
         == if other == s.library.activeId then Some(now) else StampOf(s.library, other)
  {
    StampOfWritten(s.library, s.history.present, true, now, other);
    WriteBackIsInvisible(s.library, s.history.present, s.history.present, true, now);
    hide ValidLibrary, WithActiveDoc;
  }

  lemma StampOfWritten(lib: ProjectLibrary, doc: RoadmapDocument, edited: bool, now: int, id: string)
    requires ValidLibrary(lib)
    ensures StampOf(WithActiveDoc(lib, doc, edited, now), id)
         == if id == lib.activeId && edited then Some(now) else StampOf(lib, id)
  {
    WriteBackIsInvisible(lib, doc, doc, edited, now);
  }

  /**
   * The edit flag outlives the plan it was set for: the first autosave of a plan that was
   * only opened stamps it exactly when an edit of the plan before was still pending.
   */
  lemma PendingEditStampsTheNextPlan(starter: Template, s: State, id: string, openedAt: int, saved: int)
    requires Valid(s) && Holds(s.library.projects, id) && id != s.library.activeId
    ensures var a := Step(starter, s, Open(id, openedAt));
      && Valid(a)
      && var b := Step(starter, a, Schedule);
         var timer := Timer(a.history.present, id);
         && Valid(b) && Legal(b, Autosave(timer, saved))
         && StampOf(Step(starter, b, Autosave(timer, saved)).library, id)
            == if s.edited then Some(saved) else StampOf(s.library, id)
  {
    var a := Step(starter, s, Open(id, openedAt));
    OpenKeepsValid(s, id, openedAt);
    OpeningStampsThePlanLeft(starter, s, id, openedAt, id);
    OpenedIsActive(s, id, openedAt);
    ScheduleKeepsValid(a);
    var b := Step(starter, a, Schedule);
    var timer := Timer(a.history.present, id);
    hide DoOpen, StampOf, WithActiveDoc;
    assert ValidLibrary(b.library);
    hide Valid, ValidLibrary;
    StampOfWritten(b.library, timer.doc, b.edited, saved, id);
  }

  lemma OpenedIsActive(s: State, id: string, now: int)
    requires ValidLibrary(s.library) && Holds(s.library.projects, id)
    ensures DoOpen(s, id, now).library.activeId == id && DoOpen(s, id, now).edited == s.edited
  {
    WriteBackIsInvisible(s.library, s.history.present, s.history.present, true, now);
  }

  // -------------------------------------------------- a mark that is spoiled

  /**
   * A reset of an open example of another shape, and the autosave that follows it, put the
   * first template's document under the mark of the other one.
   */
  lemma SpoiledMarkIsStored(c: Catalog, s: State, today: string, now: int)
    requires Inv(c, s) && s.library.projects != [] && SpoilsMark(c, s, Reset(today))
    ensures var es := ResetAndSave(c, s, today, now);
      && LegalRun(c.starter, s, es) && Ready(Run(c.starter, s, es))
      && var p := ActiveOf(Run(c.starter, s, es));
         && p.id == s.library.activeId && p.example == ActiveOf(s).example && p.doc == Build(c.starter, today)
         && TemplateById(c, p.example.value).Some? && Shape(p.doc) != Shape(TemplateById(c, p.example.value).value.doc)
  {
    ActiveMark(c, s); ShapeOfBuilt(c.starter, today);
    assert Valid(s);
    ResetAndSaveRuns(c, s, today, now);
    hide Shape, Build, TemplateById, Valid, Inv, Run, ResetAndSave;
  }

  function ResetAndSave(c: Catalog, s: State, today: string, now: int): seq<Event> {
    [Reset(today), Schedule, Autosave(Timer(Build(c.starter, today), s.library.activeId), now)]
  }

  lemma ResetAndSaveRuns(c: Catalog, s: State, today: string, now: int)
    requires Valid(s)
    ensures s.library.projects != [] && LegalRun(c.starter, s, ResetAndSave(c, s, today, now))
    ensures var s' := Run(c.starter, s, ResetAndSave(c, s, today, now));
      && Ready(s') && s'.library == WithActiveDoc(s.library, Build(c.starter, today), true, now)
      && ActiveOf(s') == Written(ActiveOf(s), s.library.activeId, Build(c.starter, today), true, now)
  {
    var es, doc := ResetAndSave(c, s, today, now), Build(c.starter, today);
    ActiveFacts(s);
    assert ValidLibrary(s.library);
    WriteBackIsInvisible(s.library, doc, doc, true, now);
    WrittenActive(s, doc, now);
    hide Valid, WithActiveDoc, ValidLibrary, Find, Build, ActiveProject, Written;
    var s1 := Step(c.starter, s, es[0]);
    assert s1 == s.(history := ResetTo(s.history, doc), edited := true);
    var s2 := Step(c.starter, s1, es[1]);
    assert s2 == s1.(timers := s.timers + {Timer(doc, s.library.activeId)});
    var s3 := Step(c.starter, s2, es[2]);
    assert s3.library == WithActiveDoc(s.library, doc, true, now);
    hide Step;
    ThreeSteps(c.starter, s, es);
    hide Run, LegalRun, ResetAndSave;
  }

  lemma WrittenActive(s: State, doc: RoadmapDocument, now: int)
    requires ValidLibrary(s.library)
    ensures var saved := WithActiveDoc(s.library, doc, true, now);
      && s.library.projects != [] && ActiveProject(saved).Some?
      && ActiveProject(saved).value == Written(ActiveOf(s), s.library.activeId, doc, true, now)
  {
    WriteBackIsInvisible(s.library, doc, doc, true, now);
    ActiveFacts(s);
  }

  lemma ThreeSteps(starter: Template, s: State, es: seq<Event>)
    requires |es| == 3 && Ready(s) && Legal(s, es[0])
    requires var s1 := Step(starter, s, es[0]); Ready(s1) && Legal(s1, es[1])
    requires var s2 := Step(starter, Step(starter, s, es[0]), es[1]); Ready(s2) && Legal(s2, es[2])
    ensures LegalRun(starter, s, es)
    ensures Run(starter, s, es) == Step(starter, Step(starter, Step(starter, s, es[0]), es[1]), es[2])
  {
    hide Step, Legal, Find;
    assert es[1..] == [es[1], es[2]] && es[1..][1..] == [es[2]] && es[1..][1..][1..] == [];
    var s1 := Step(starter, s, es[0]);
    var s2 := Step(starter, s1, es[1]);
    assert LegalRun(starter, Step(starter, s2, es[2]), []);
    assert LegalRun(starter, s2, [es[2]]) && Run(starter, s2, [es[2]]) == Step(starter, s2, es[2]);
    assert LegalRun(starter, s1, es[1..]) && Run(starter, s1, es[1..]) == Step(starter, s2, es[2]);
  }
}
