/**
 * What undoing brings back, edit by edit.
 */
module Undoing {
  import opened Document
  import opened Library
  import opened Editor
  import opened Refinement
  import opened Runs

  /** Undoing j times shows the document j places before the present. */
  lemma {:induction false} UndosShow(h: History, j: nat)
    requires j <= |h.past|
    ensures UndoMany(h, j).present == (h.past + [h.present])[|h.past| - j]
    ensures UndoMany(h, j).past == h.past[..|h.past| - j]
    decreases j
  {
    if j > 0 {
      var u := Undone(h);
      UndosShow(u, j - 1);
      assert u.past + [u.present] == h.past;
      assert u.past[..|u.past| - (j - 1)] == h.past[..|h.past| - j];
    }
  }

  /**
   * An edit of a plan that is no example shows the edited document with nothing to redo. For
   * 80 undos after it, one more undo shows what one fewer showed before it; that is as far
   * as undoing goes.
   */
  lemma OneMoreUndo(starter: Template, s: State, recipe: RoadmapDocument -> RoadmapDocument, newId: string, now: int, j: nat)
    requires Ready(s) && ActiveOf(s).example.None? && j < 80 && j <= |s.history.past|
    ensures var t := Step(starter, s, Commit(recipe, newId, now));
      && t == s.(history := t.history, edited := true)
      && t.history.present == recipe(s.history.present) && t.history.future == []
      && UndoMany(t.history, j + 1).present == UndoMany(s.history, j).present
      && |t.history.past| == if |s.history.past| < 80 then |s.history.past| + 1 else 80
  {
    hide ActiveOf, UndoMany, Committed;
    var h, next := s.history, recipe(s.history.present);
    assert Step(starter, s, Commit(recipe, newId, now)) == s.(history := Committed(h, next), edited := true);
    hide Step;
    CommittedIsUndone(h, next, j);
  }

  lemma CommittedIsUndone(h: History, next: RoadmapDocument, j: nat)
    requires j < 80 && j <= |h.past|
    ensures var t := Committed(h, next);
      && t.present == next && t.future == [] && |t.past| == (if |h.past| < 80 then |h.past| + 1 else 80)
      && UndoMany(t, j + 1).present == UndoMany(h, j).present
  {
    hide UndoMany;
    assert Committed(h, next).present == next && Committed(h, next).future == [];
    CommittedLine(h, next, j);
    hide Committed;
    UndosShow(h, j);
    UndosShow(Committed(h, next), j + 1);
  }

  lemma CommittedLine(h: History, next: RoadmapDocument, j: nat)
    requires j < 80 && j <= |h.past|
    ensures var t := Committed(h, next);
      && |t.past| == (if |h.past| < 80 then |h.past| + 1 else 80)
      && (t.past + [next])[|t.past| - (j + 1)] == (h.past + [h.present])[|h.past| - j]
  {
  }

  /** A reset keeps the whole way back: one more undo shows what one fewer showed before it. */
  lemma ResetIsUndone(starter: Template, s: State, today: string, j: nat)
    requires Ready(s) && j <= |s.history.past|
    ensures var t := Step(starter, s, Reset(today));
      && t == s.(history := t.history, edited := true)
      && t.history.present == starter.doc.(timeline := starter.doc.timeline.(viewDate := today)) && t.history.future == []
      && UndoMany(t.history, j + 1).present == UndoMany(s.history, j).present
      && |t.history.past| == |s.history.past| + 1
  {
    var t := Step(starter, s, Reset(today));
    UndosShow(s.history, j);
    UndosShow(t.history, j + 1);
  }

  // ------------------------------------------------------- one event after another

  function Undos(n: nat): (es: seq<Event>)
    ensures |es| == n && forall k :: 0 <= k < n ==> es[k] == Undo
  {
    seq(n, _ => Undo)
  }

  lemma {:induction false} UndosRun(starter: Template, s: State, n: nat)
    requires Ready(s)
    ensures LegalRun(starter, s, Undos(n)) && Run(starter, s, Undos(n)).history == UndoMany(s.history, n)
    decreases n
  {
    if n > 0 {
      assert Undos(n)[1..] == Undos(n - 1);
      UndosRun(starter, Step(starter, s, Undo), n - 1);
    }
  }

  predicate OnlyEdits(es: seq<Event>) { forall k :: 0 <= k < |es| ==> es[k].Commit? }

  lemma {:induction false} BeginningsAreLegal(starter: Template, s: State, es: seq<Event>, n: nat)
    requires LegalRun(starter, s, es) && n <= |es|
    ensures LegalRun(starter, s, es[..n])
    decreases n
  {
    hide Legal, Step;
    if n > 0 {
      BeginningsAreLegal(starter, Step(starter, s, es[0]), es[1..], n - 1);
      assert es[..n][1..] == es[1..][..n - 1];
    } else {
      assert es[..n] == [];
    }
  }

  /** What j undos show after the edits: an earlier state of the run, or of the way back before it. */
  ghost function ShownBefore(starter: Template, s: State, es: seq<Event>, j: nat): RoadmapDocument
    requires LegalRun(starter, s, es)
  {
    if j <= |es| then BeginningsAreLegal(starter, s, es, |es| - j); Run(starter, s, es[..|es| - j]).history.present
    else UndoMany(s.history, j - |es|).present
  }

  /**
   * After any number of edits of a plan that is no example, each undo shows the state one edit
   * earlier, up to 80 of them, and past the first edit the way back there was before.
   */
  lemma {:induction false} EditsAreUndoneOneByOne(starter: Template, s: State, es: seq<Event>, j: nat)
    requires Ready(s) && ActiveOf(s).example.None? && LegalRun(starter, s, es) && OnlyEdits(es)
    requires j <= 80 && j <= |es| + |s.history.past|
    ensures var t := Run(starter, s, es);
      && Ready(t) && LegalRun(starter, t, Undos(j))
      && j <= |t.history.past|
      && Run(starter, t, Undos(j)).history.present == ShownBefore(starter, s, es, j)
    decreases |es|
  {
    if es == [] {
      UndosRun(starter, s, j);
    } else {
      var s1 := Step(starter, s, es[0]);
      assert OnlyEdits(es[1..]);
      FirstEdit(starter, s, es[0]);
      EditsAreUndoneOneByOne(starter, s1, es[1..], j);
      ShownAfterFirst(starter, s, es, j);
    }
  }

  lemma FirstEdit(starter: Template, s: State, e: Event)
    requires Ready(s) && ActiveOf(s).example.None? && e.Commit?
    ensures var t := Step(starter, s, e);
      && t.library == s.library && t.history.future == []
      && |t.history.past| == if |s.history.past| < 80 then |s.history.past| + 1 else 80
  {
    OneMoreUndo(starter, s, e.recipe, e.newId, e.now, 0);
  }

  lemma ShownAfterFirst(starter: Template, s: State, es: seq<Event>, j: nat)
    requires Ready(s) && ActiveOf(s).example.None? && LegalRun(starter, s, es) && OnlyEdits(es) && es != []
    requires j <= 80 && j <= |es| + |s.history.past|
    ensures ShownBefore(starter, Step(starter, s, es[0]), es[1..], j) == ShownBefore(starter, s, es, j)
  {
    var s1, n := Step(starter, s, es[0]), |es|;
    if j < n {
      BeginningsAreLegal(starter, s, es, n - j);
      assert es[..n - j][1..] == es[1..][..n - 1 - j] && es[..n - j][0] == es[0];
    } else {
      OneMoreUndo(starter, s, es[0].recipe, es[0].newId, es[0].now, j - n);
      assert es[..0] == [];
    }
  }
}
