/**
 * The editor: an undo history over the open plan, the library around it, delayed
 * autosaves and late artwork. Each handler, timer and fetch result is one atomic step.
 */
module Editor {
  import opened Document
  import opened Artwork
  import opened Library

  const HISTORY_CAP := 80

  datatype History = History(past: seq<RoadmapDocument>, present: RoadmapDocument, future: seq<RoadmapDocument>)

  /** A pending autosave: the document and the active id its effect was set up with. */
  datatype Timer = Timer(doc: RoadmapDocument, projectId: string)

  /**
   * `edited` is the flag the next autosave reads and clears; `used` holds every id that was
   * ever handed out.
   */
  datatype State = State(
    history: History, library: ProjectLibrary, edited: bool, timers: set<Timer>, used: set<string>)

  // --------------------------------------------------------------- history

  function Opened(doc: RoadmapDocument): History { History([], doc, []) }

  /** The last n documents. */
  function Last(xs: seq<RoadmapDocument>, n: nat): (r: seq<RoadmapDocument>)
    ensures |r| == if |xs| <= n then |xs| else n
    ensures forall x <- r :: x in xs
  {
    if |xs| <= n then xs else xs[|xs| - n..]
  }

  function Committed(h: History, next: RoadmapDocument): History {
    History(Last(h.past, HISTORY_CAP - 1) + [h.present], next, [])
  }

  function Undone(h: History): History {
    if h.past == [] then h
    else History(h.past[..|h.past| - 1], h.past[|h.past| - 1], [h.present] + h.future)
  }

  function Redone(h: History): History {
    if h.future == [] then h
    else History(h.past + [h.present], h.future[0], h.future[1..])
  }

  function ResetTo(h: History, doc: RoadmapDocument): History {
    History(h.past + [h.present], doc, [])
  }

  function Embedded(h: History, art: ArtworkMap): History {
    match Apply(h.present, art) case Some(next) => h.(present := next) case None => h
  }

  /** One line of documents, with the present as a cursor in it. */
  function Entries(h: History): seq<RoadmapDocument> { h.past + [h.present] + h.future }

  function UndoMany(h: History, n: nat): History
    decreases n
  {
    if n == 0 then h else UndoMany(Undone(h), n - 1)
  }

  function RedoMany(h: History, n: nat): History
    decreases n
  {
    if n == 0 then h else RedoMany(Redone(h), n - 1)
  }

  /** Undo and redo move the cursor along the line and leave the line alone. */
  lemma UndoRedoMoveTheCursor(h: History)
    ensures Entries(Undone(h)) == Entries(h) && |Undone(h).past| == if h.past == [] then 0 else |h.past| - 1
    ensures Entries(Redone(h)) == Entries(h) && |Redone(h).past| == |h.past| + if h.future == [] then 0 else 1
    ensures h.past != [] ==> Redone(Undone(h)) == h
    ensures h.future != [] ==> Undone(Redone(h)) == h
  {
  }

  /** n undos and n redos bring the history back, as far as there is something to undo. */
  lemma {:induction false} UndosThenRedos(h: History, n: nat)
    requires n <= |h.past|
    ensures |UndoMany(h, n).future| == |h.future| + n
    ensures RedoMany(UndoMany(h, n), n) == h
    decreases n
  {
    if n > 0 {
      UndoRedoMoveTheCursor(h);
      UndosThenRedos(Undone(h), n - 1);
      RedoOnceMore(UndoMany(h, n), n - 1);
    }
  }

  lemma {:induction false} RedoOnceMore(h: History, n: nat)
    ensures RedoMany(h, n + 1) == Redone(RedoMany(h, n))
    decreases n
  {
    if n > 0 { RedoOnceMore(Redone(h), n - 1); }
  }

  /** A commit drops what lay ahead and appends; embedding artwork alters the cursor's entry alone. */
  lemma CommitAndEmbedOnTheLine(h: History, next: RoadmapDocument, art: ArtworkMap)
    ensures Entries(Committed(h, next)) == Last(h.past, HISTORY_CAP - 1) + [h.present, next]
    ensures |Committed(h, next).past| <= HISTORY_CAP
    ensures Entries(Embedded(h, art)) == Entries(h)[|h.past| := Hydrate(h.present, art)]
    ensures |Embedded(h, art).past| == |h.past|
    ensures Undone(Committed(h, next)).present == h.present
  {
  }

  // ----------------------------------------------------------------- steps

  datatype Event =
    | Commit(recipe: RoadmapDocument -> RoadmapDocument, newId: string, now: int)
    | Undo
    | Redo
    | Open(id: string, now: int)
    | Start(name: string, source: RoadmapDocument, newId: string, now: int)
    | Delete(newId: string, today: string, now: int)
    | Rename(name: string)
    | Reset(today: string)
    | Embed(art: ArtworkMap)
    | Schedule
    | Cancel(timer: Timer)
    | Autosave(timer: Timer, now: int)

  function ActiveOf(s: State): Project
    requires s.library.projects != []
  {
    ActiveProject(s.library).value
  }

  /** An edit of a marked plan opens a copy of it, if there is room; any other is one more entry in the history. */
  function DoCommit(s: State, recipe: RoadmapDocument -> RoadmapDocument, newId: string, now: int): State
    requires s.library.projects != []
  {
    var open := ActiveOf(s);
    if open.example.Some? && IsFull(s.library) then s
    else if open.example.Some? then
      var copy := ForkProject(s.library, recipe(s.history.present), newId, now);
      s.(history := History([s.history.present], copy.doc, []),
         library := AddProject(s.library, copy), edited := true, used := s.used + {newId})
    else s.(history := Committed(s.history, recipe(s.history.present)), edited := true)
  }

  /** Saves what is open, then sets the history to the stored document of the other plan alone. */
  function DoOpen(s: State, id: string, now: int): State {
    var saved := WithActiveDoc(s.library, s.history.present, true, now);
    if !Holds(saved.projects, id) then s
    else
      var target := saved.projects[Find(saved.projects, id)];
      s.(history := Opened(target.doc), library := saved.(activeId := id))
  }

  function DoStart(s: State, name: string, source: RoadmapDocument, newId: string, now: int): State {
    var saved := WithActiveDoc(s.library, s.history.present, true, now);
    if IsFull(saved) then s
    else
      var created := CreateProject(newId, UniqueName(Names(saved), name), source, now, None);
      s.(history := Opened(created.doc), library := AddProject(saved, created), used := s.used + {newId})
  }

  function DoDelete(s: State, starter: Template, newId: string, today: string, now: int): State
    requires Holds(s.library.projects, s.library.activeId)
  {
    var next := RemoveProject(s.library, ActiveOf(s).id, SeedLibrary(starter, newId, today, now));
    var open := ActiveProject(next);
    s.(history := Opened(if open.Some? then open.value.doc else s.history.present), library := next,
       used := s.used + {newId})
  }

  function DoRename(s: State, name: string): State
    requires s.library.projects != []
  {
    s.(library := RenameProject(s.library, ActiveOf(s).id, name))
  }

  function DoAutosave(s: State, timer: Timer, now: int): State {
    if s.library.activeId != timer.projectId then s.(timers := s.timers - {timer})
    else s.(library := WithActiveDoc(s.library, timer.doc, s.edited, now), edited := false, timers := s.timers - {timer})
  }

  ghost predicate Legal(s: State, e: Event) {
    && (e.Commit? || e.Start? || e.Delete? ==> e.newId !in s.used)
    && (e.Autosave? || e.Cancel? ==> e.timer in s.timers)
  }

  ghost predicate Valid(s: State) {
    && ValidLibrary(s.library)
    && (forall p <- s.library.projects :: p.id in s.used)
    && (forall t <- s.timers :: t.projectId in s.used)
  }

  function Step(starter: Template, s: State, e: Event): State
    requires Holds(s.library.projects, s.library.activeId)
  {
    match e
    case Commit(recipe, newId, now) => DoCommit(s, recipe, newId, now)
    case Undo => s.(history := Undone(s.history), edited := true)
    case Redo => s.(history := Redone(s.history), edited := true)
    case Open(id, now) => DoOpen(s, id, now)
    case Start(name, source, newId, now) => DoStart(s, name, source, newId, now)
    case Delete(newId, today, now) => DoDelete(s, starter, newId, today, now)
    case Rename(name) => DoRename(s, name)
    case Reset(today) => s.(history := ResetTo(s.history, Build(starter, today)), edited := true)
    case Embed(art) => s.(history := Embedded(s.history, art))
    case Schedule => s.(timers := s.timers + {Timer(s.history.present, s.library.activeId)})
    case Cancel(timer) => s.(timers := s.timers - {timer})
    case Autosave(timer, now) => DoAutosave(s, timer, now)
  }

  // --------------------------------------- the same, without the machinery

  /** A roadmap as the visitor sees it: one document, wherever it is stored. */
  datatype Slot = Slot(id: string, doc: RoadmapDocument, example: bool)

  /** The editor without stored copies, write-backs and timers. */
  datatype Desk = Desk(slots: seq<Slot>, active: string, history: History)

  function SlotOf(p: Project, active: string, present: RoadmapDocument): Slot {
    Slot(p.id, if p.id == active then present else p.doc, p.example.Some?)
  }

  function Slots(ps: seq<Project>, active: string, present: RoadmapDocument): (r: seq<Slot>)
    ensures |r| == |ps| && forall k :: 0 <= k < |ps| ==> r[k] == SlotOf(ps[k], active, present)
  {
    seq(|ps|, k requires 0 <= k < |ps| => SlotOf(ps[k], active, present))
  }

  function Abstract(s: State): Desk {
    Desk(Slots(s.library.projects, s.library.activeId, s.history.present), s.library.activeId, s.history)
  }

  function SlotIndex(slots: seq<Slot>, id: string): (i: nat)
    ensures i <= |slots|
    ensures i < |slots| ==> slots[i].id == id
    ensures forall k :: 0 <= k < i ==> slots[k].id != id
  {
    if slots == [] || slots[0].id == id then 0 else 1 + SlotIndex(slots[1..], id)
  }

  function Put(slots: seq<Slot>, id: string, doc: RoadmapDocument): (r: seq<Slot>)
    ensures |r| == |slots|
    ensures forall k :: 0 <= k < |slots| ==> r[k] == if slots[k].id == id then slots[k].(doc := doc) else slots[k]
  {
    seq(|slots|, k requires 0 <= k < |slots| => if slots[k].id == id then slots[k].(doc := doc) else slots[k])
  }

  function Unmark(slots: seq<Slot>, id: string): (r: seq<Slot>)
    ensures |r| == |slots|
    ensures forall k :: 0 <= k < |slots| ==> r[k] == if slots[k].id == id then slots[k].(example := false) else slots[k]
  {
    seq(|slots|, k requires 0 <= k < |slots| => if slots[k].id == id then slots[k].(example := false) else slots[k])
  }

  /** A document up to dashboard artwork and viewing date. */
  function Shape(d: RoadmapDocument): RoadmapDocument {
    Strip(d).(timeline := d.timeline.(viewDate := ""))
  }

  /** The open plan gets a new history, and with it its document. */
  function Edit(k: Desk, h: History): Desk {
    Desk(Put(k.slots, k.active, h.present), k.active, h)
  }

  /** The plan at i goes, its neighbour opens; where it was the only one, the example takes its place. */
  function Dropped(k: Desk, i: nat, newId: string, example: RoadmapDocument): Desk
    requires i < |k.slots|
  {
    var left := k.slots[..i] + k.slots[i + 1..];
    if left == [] then Desk([Slot(newId, example, true)], newId, Opened(example))
    else var open := left[if i < |left| then i else |left| - 1]; Desk(left, open.id, Opened(open.doc))
  }

  ghost predicate Forked(k: Desk, recipe: RoadmapDocument -> RoadmapDocument, newId: string, k': Desk, kept: RoadmapDocument) {
    && Shape(kept) == Shape(k.history.present)
    && var next := recipe(k.history.present);
       k' == Desk(Put(k.slots, k.active, kept) + [Slot(newId, next, false)], newId, History([k.history.present], next, []))
  }

  /**
   * One step of the plain editor. It is determined but for the example an edit forks from,
   * which keeps its document up to artwork and viewing date.
   */
  ghost predicate DeskNext(starter: Template, k: Desk, e: Event, k': Desk)
    requires SlotIndex(k.slots, k.active) < |k.slots|
  {
    var i := SlotIndex(k.slots, k.active);
    match e
    case Commit(recipe, newId, now) =>
      if k.slots[i].example && |k.slots| >= MAX_PROJECTS then k' == k
      else if k.slots[i].example then exists kept :: Forked(k, recipe, newId, k', kept)
      else k' == Edit(k, Committed(k.history, recipe(k.history.present)))
    case Undo => k' == Edit(k, Undone(k.history))
    case Redo => k' == Edit(k, Redone(k.history))
    case Reset(today) => k' == Edit(k, ResetTo(k.history, Build(starter, today)))
    case Embed(art) => k' == Edit(k, Embedded(k.history, art))
    case Open(id, now) =>
      var j := SlotIndex(k.slots, id);
      if j == |k.slots| then k' == k else k' == Desk(k.slots, id, Opened(k.slots[j].doc))
    case Start(name, source, newId, now) =>
      if |k.slots| >= MAX_PROJECTS then k' == k
      else k' == Desk(k.slots + [Slot(newId, source, false)], newId, Opened(source))
    case Delete(newId, today, now) => k' == Dropped(k, i, newId, Build(starter, today))
    case Rename(name) => k' == k.(slots := Unmark(k.slots, k.active))
    case Schedule => k' == k
    case Cancel(timer) => k' == k
    case Autosave(timer, now) => k' == k
  }

  /** A loaded library opens on its active plan, with an empty history and nothing pending. */
  function Loaded(lib: ProjectLibrary): State
    requires lib.projects != []
  {
    State(Opened(ActiveProject(lib).value.doc), lib, false, {}, set p | p in lib.projects :: p.id)
  }

  // ------------------------------------------------------------ shared facts

  lemma ShapeOfHydrated(d: RoadmapDocument, art: ArtworkMap)
    ensures Shape(Hydrate(d, art)) == Shape(d)
  {
    StripForgetsHydration(d, art);
  }

  lemma ShapeOfBuilt(t: Template, today: string)
    ensures Shape(Build(t, today)) == Shape(t.doc)
  {
  }

  lemma ActiveFacts(s: State)
    requires ValidLibrary(s.library)
    ensures var ps, i := s.library.projects, Find(s.library.projects, s.library.activeId);
      && i < |ps| && ActiveOf(s) == ps[i] && ps[i].id == s.library.activeId && ActiveOf(s) in ps
      && SlotIndex(Abstract(s).slots, s.library.activeId) == i
  {
    SlotIndexIsFind(s.library.projects, s.library.activeId, s.history.present, s.library.activeId);
  }

  lemma {:induction false} SlotIndexIsFind(ps: seq<Project>, active: string, present: RoadmapDocument, id: string)
    ensures SlotIndex(Slots(ps, active, present), id) == Find(ps, id)
  {
    if ps != [] && ps[0].id != id {
      SlotIndexIsFind(ps[1..], active, present, id);
      assert Slots(ps, active, present)[1..] == Slots(ps[1..], active, present);
    }
  }

  /** Writing the open document back moves nothing the visitor can see. */
  lemma WriteBackIsInvisible(lib: ProjectLibrary, doc: RoadmapDocument, present: RoadmapDocument, edited: bool, now: int)
    requires ValidLibrary(lib)
    ensures var saved := WithActiveDoc(lib, doc, edited, now);
      && saved.activeId == lib.activeId && ValidLibrary(saved)
      && Slots(saved.projects, lib.activeId, present) == Slots(lib.projects, lib.activeId, present)
      && (forall k :: 0 <= k < |lib.projects| ==> saved.projects[k].id == lib.projects[k].id)
      && (forall id :: Find(saved.projects, id) == Find(lib.projects, id))
  {
    var saved := WithActiveDoc(lib, doc, edited, now);
    forall id ensures Find(saved.projects, id) == Find(lib.projects, id) {
      SameIdsSameFind(saved.projects, lib.projects, id);
    }
    assert Slots(saved.projects, lib.activeId, present) == Slots(lib.projects, lib.activeId, present);
  }

  lemma {:induction false} SameIdsSameFind(ps: seq<Project>, qs: seq<Project>, id: string)
    requires |ps| == |qs| && forall k :: 0 <= k < |ps| ==> ps[k].id == qs[k].id
    ensures Find(ps, id) == Find(qs, id)
  {
    if ps != [] { SameIdsSameFind(ps[1..], qs[1..], id); }
  }
}
