/**
 * The two category paths: lines between the plates, and a pair of curves where the lanes
 * change places.
 */
module LanePaths {
  import opened Document
  import opened Measure
  import opened Curves
  import opened Layout

  datatype Segment = Line(x0: real, x1: real, y: real) | Curve(cubic: Cubic)

  /** What the paths are drawn between. */
  datatype Scene = Scene(
    row: Row, cols: seq<Column>, outer: real, topY: real, bottomY: real, tension: real, rounded: bool)

  ghost predicate WellFormed(s: Scene) {
    |s.row.nodes| == |s.cols| && forall i :: 0 <= i < |s.cols| ==>
      s.row.nodes[i].topWidth == s.cols[i].top && s.row.nodes[i].bottomWidth == s.cols[i].bottom
  }

  /** The display rounding to a tenth, which the drawn path has and the exact one does not. */
  function Show(s: Scene, x: real): (r: real)
    ensures x - 0.05 <= r <= x + 0.05
  {
    if s.rounded then Round(x * 10.0) / 10.0 else x
  }

  lemma ShowGrows(s: Scene, x: real, y: real)
    requires x <= y
    ensures Show(s, x) <= Show(s, y)
  {
    RoundGrows(x * 10.0, y * 10.0);
  }

  predicate OnTop(s: Scene, c: Category, i: nat)
    requires i < |s.cols|
  {
    s.cols[i].topCategory == c
  }

  function LaneY(s: Scene, c: Category, i: nat): real
    requires i < |s.cols|
  {
    if OnTop(s, c, i) then s.topY else s.bottomY
  }

  function Plate(s: Scene, c: Category, i: nat): real
    requires i < |s.cols| == |s.row.nodes|
  {
    if OnTop(s, c, i) then s.row.nodes[i].topWidth else s.row.nodes[i].bottomWidth
  }

  /** Where the path meets the plate of node i, and where it leaves it. */
  function Enter(s: Scene, c: Category, i: nat): real
    requires i < |s.cols| == |s.row.nodes|
  {
    s.row.nodes[i].x - Plate(s, c, i) / 2.0
  }

  function Leave(s: Scene, c: Category, i: nat): real
    requires i < |s.cols| == |s.row.nodes|
  {
    s.row.nodes[i].x + Plate(s, c, i) / 2.0
  }

  function CurveStart(n: Node): real { Max(n.x + n.topWidth / 2.0, n.x + n.bottomWidth / 2.0) }
  function CurveEnd(n: Node): real { Min(n.x - n.topWidth / 2.0, n.x - n.bottomWidth / 2.0) }

  function Pull(s: Scene, run: real): real {
    Min(run * 0.48, Max(44.0, run * Clamp(s.tension, 0.2, 0.8)))
  }

  /** The curve of a crossover after node i, from one lane to the other. */
  function CrossCurve(s: Scene, i: nat, fromY: real, toY: real): Cubic
    requires i + 1 < |s.row.nodes|
  {
    var a, b := CurveStart(s.row.nodes[i]), CurveEnd(s.row.nodes[i + 1]);
    var pull := Pull(s, b - a);
    Cubic(Show(s, a), Show(s, a + pull), Show(s, b - pull), Show(s, b), fromY, toY)
  }

  /** From node i to the next one. */
  function Connect(s: Scene, c: Category, i: nat): (r: seq<Segment>)
    requires i + 1 < |s.cols| == |s.row.nodes|
  {
    var fromY, toY := LaneY(s, c, i), LaneY(s, c, i + 1);
    var start, end := Show(s, Leave(s, c, i)), Show(s, Enter(s, c, i + 1));
    if fromY == toY then [Line(start, end, fromY)]
    else
      var cubic := CrossCurve(s, i, fromY, toY);
      [Line(start, cubic.x0, fromY), Curve(cubic), Line(cubic.x3, end, toY)]
  }

  /** The path from the left margin up to the plate of node i. */
  function PathTo(s: Scene, c: Category, i: nat): seq<Segment>
    requires i < |s.cols| == |s.row.nodes|
  {
    if i == 0 then [Line(s.outer, Show(s, Enter(s, c, 0)), LaneY(s, c, 0))]
    else PathTo(s, c, i - 1) + Connect(s, c, i - 1)
  }

  function Path(s: Scene, c: Category): seq<Segment>
    requires |s.cols| == |s.row.nodes|
  {
    if s.cols == [] then []
    else
      var n := |s.cols| - 1;
      PathTo(s, c, n) + [Line(Show(s, Leave(s, c, n)), Show(s, s.row.width - s.outer), LaneY(s, c, n))]
  }

  method PathFor(s: Scene, c: Category) returns (d: seq<Segment>)
    requires |s.cols| == |s.row.nodes|
    ensures d == Path(s, c)
  {
    hide Show, Pull, CurveStart, CurveEnd, Plate;
    if s.cols == [] { return []; }
    var nodes, count := s.row.nodes, |s.cols|;
    d := [Line(s.outer, Show(s, Enter(s, c, 0)), LaneY(s, c, 0))];
    for i := 0 to count - 1
      invariant d == PathTo(s, c, i)
    {
      var fromY, toY := LaneY(s, c, i), LaneY(s, c, i + 1);
      var startX, endX := Leave(s, c, i), Enter(s, c, i + 1);
      if fromY == toY {
        d := d + [Line(Show(s, startX), Show(s, endX), fromY)];
      } else {
        var curveStartX, curveEndX := CurveStart(nodes[i]), CurveEnd(nodes[i + 1]);
        var run := curveEndX - curveStartX;
        var pull := Pull(s, run);
        d := d + [
          Line(Show(s, startX), Show(s, curveStartX), fromY),
          Curve(Cubic(Show(s, curveStartX), Show(s, curveStartX + pull),
                      Show(s, curveEndX - pull), Show(s, curveEndX), fromY, toY)),
          Line(Show(s, curveEndX), Show(s, endX), toY)];
      }
    }
    d := d + [Line(Show(s, Leave(s, c, count - 1)), Show(s, s.row.width - s.outer), LaneY(s, c, count - 1))];
  }

  // ------------------------------------------------------- the point sets

  ghost predicate On(g: Segment, x: real, y: real) {
    match g
    case Line(x0, x1, h) => y == h && Min(x0, x1) <= x <= Max(x0, x1)
    case Curve(c) => exists t :: OnCurveAt(c, t, x, y)
  }

  ghost predicate OnCurveAt(c: Cubic, t: real, x: real, y: real) {
    0.0 <= t <= 1.0 && x == X(c, t) && y == Y(c, t)
  }

  ghost predicate OnPath(path: seq<Segment>, x: real, y: real) {
    exists g :: g in path && On(g, x, y)
  }

  lemma OnConcat(a: seq<Segment>, b: seq<Segment>, x: real, y: real)
    ensures OnPath(a + b, x, y) <==> OnPath(a, x, y) || OnPath(b, x, y)
  {
    if OnPath(a, x, y) {
      var g :| g in a && On(g, x, y);
      assert g in a + b;
    }
    if OnPath(b, x, y) {
      var g :| g in b && On(g, x, y);
      assert g in a + b;
    }
  }

  // ------------------------------------------------- what a scene promises

  /** A scene as the engine builds it: columns measured, gaps resolved. */
  ghost predicate Laid(s: Scene) {
    && WellFormed(s)
    && s.topY < s.bottomY
    && (forall i :: 0 <= i < |s.cols| ==> s.cols[i].top >= 54.0 && s.cols[i].bottom >= 54.0)
    && (forall i :: 0 <= i < |s.cols| ==> s.outer <= EnterFirst(s, i) && LeaveLast(s, i) <= s.row.width - s.outer)
    && (forall i :: 0 <= i < |s.cols| - 1 ==> LeaveLast(s, i) + 4.0 <= EnterFirst(s, i + 1))
    && (forall i :: 0 <= i < |s.cols| - 1 && CrossesAt(s.cols, i) ==> LeaveLast(s, i) + 120.0 <= EnterFirst(s, i + 1))
  }

  /** The outer edges of the wider plate of node i. */
  function EnterFirst(s: Scene, i: nat): real
    requires i < |s.row.nodes|
  {
    CurveEnd(s.row.nodes[i])
  }

  function LeaveLast(s: Scene, i: nat): real
    requires i < |s.row.nodes|
  {
    CurveStart(s.row.nodes[i])
  }

  lemma PlatesHaveWidth(s: Scene, i: nat)
    requires Laid(s) && i < |s.cols|
    ensures |s.cols| == |s.row.nodes| && EnterFirst(s, i) < LeaveLast(s, i)
    ensures i + 1 < |s.cols| ==> LeaveLast(s, i) + 4.0 <= EnterFirst(s, i + 1)
  {
  }

  lemma {:induction false} PlatesAdvance(s: Scene, i: nat, j: nat)
    requires Laid(s) && i < j < |s.cols|
    ensures LeaveLast(s, i) + 4.0 <= EnterFirst(s, j)
    decreases j
  {
    PlatesHaveWidth(s, j - 1);
    hide Laid, LeaveLast, EnterFirst;
    if i < j - 1 { PlatesAdvance(s, i, j - 1); }
  }

  /** Control points of a crossover never fold back, before and after display rounding. */
  lemma CurveRunsForward(s: Scene, i: nat, fromY: real, toY: real)
    requires Laid(s) && i + 1 < |s.cols| && CrossesAt(s.cols, i)
    ensures var run := EnterFirst(s, i + 1) - LeaveLast(s, i);
      run >= 120.0 && 44.0 <= Pull(s, run) <= 0.48 * run
    ensures Forward(CrossCurve(s, i, fromY, toY))
  {
    var a, b := LeaveLast(s, i), EnterFirst(s, i + 1);
    var pull := Pull(s, b - a);
    ShowGrows(s, a + pull, b - pull);
  }

  /** What the horizontal layout gives is laid out in this sense. */
  lemma RowIsLaid(s: Scene, f: Frame)
    requires s.row == RowOf(f, s.cols) && s.outer == f.outer && s.topY < s.bottomY
    requires WellMeasured(s.cols) && f.spacing >= 4.0 && f.run >= 120.0
    requires forall i :: 0 <= i < |s.cols| ==> s.cols[i].top >= 54.0 && s.cols[i].bottom >= 54.0
    ensures Laid(s)
  {
    forall i | 0 <= i < |s.cols|
      ensures s.outer <= EnterFirst(s, i) && LeaveLast(s, i) <= s.row.width - s.outer
    {
      StaysInside(s, f, i);
    }
    forall i | 0 <= i < |s.cols| - 1
      ensures LeaveLast(s, i) + 4.0 <= EnterFirst(s, i + 1)
      ensures CrossesAt(s.cols, i) ==> LeaveLast(s, i) + 120.0 <= EnterFirst(s, i + 1)
    {
      KeepsApart(s, f, i);
    }
    assert WellFormed(s);
    hide RowOf, EnterFirst, LeaveLast, WellMeasured, CrossesAt, WellFormed;
  }

  lemma StaysInside(s: Scene, f: Frame, i: nat)
    requires s.row == RowOf(f, s.cols) && s.outer == f.outer && i < |s.cols|
    requires WellMeasured(s.cols) && f.spacing >= 4.0
    ensures s.outer <= EnterFirst(s, i) && LeaveLast(s, i) <= s.row.width - s.outer
  {
    assert s.row.nodes[i].topWidth == s.cols[i].top && s.row.nodes[i].bottomWidth == s.cols[i].bottom;
    ColumnsStayInside(f, s.cols, i);
    hide RowOf;
  }

  lemma KeepsApart(s: Scene, f: Frame, i: nat)
    requires s.row == RowOf(f, s.cols) && i + 1 < |s.cols|
    requires WellMeasured(s.cols) && f.spacing >= 4.0 && f.run >= 120.0
    ensures LeaveLast(s, i) + 4.0 <= EnterFirst(s, i + 1)
    ensures CrossesAt(s.cols, i) ==> LeaveLast(s, i) + 120.0 <= EnterFirst(s, i + 1)
  {
    assert forall k :: 0 <= k < |s.cols| ==>
      s.row.nodes[k].topWidth == s.cols[k].top && s.row.nodes[k].bottomWidth == s.cols[k].bottom && s.row.nodes[k].width == s.cols[k].width;
    assert s.row.spread >= 0.0;
    ColumnsNeverCollide(f, s.cols, i);
    NodeStep(f, s.cols, i);
    hide RowOf;
  }

  // -------------------------------------------------- level stretches

  function Center(s: Scene, i: nat): real
    requires i < |s.row.nodes|
  {
    s.row.nodes[i].x
  }

  lemma PlateSpan(s: Scene, c: Category, i: nat)
    requires Laid(s) && i < |s.cols|
    ensures EnterFirst(s, i) <= Enter(s, c, i) <= Center(s, i) - 27.0
    ensures Center(s, i) + 27.0 <= Leave(s, c, i) <= LeaveLast(s, i)
  {
  }

  lemma CentersAdvance(s: Scene, i: nat, j: nat)
    requires Laid(s) && i <= j < |s.cols|
    ensures Center(s, i) <= Center(s, j)
  {
    if i < j { PlatesAdvance(s, i, j); PlateSpan(s, Independent, i); PlateSpan(s, Independent, j); }
  }

  /** Without a crossover the path runs on its lane from one plate to the next. */
  lemma ConnectLevel(s: Scene, c: Category, i: nat, x: real, y: real)
    requires Laid(s) && i + 1 < |s.cols| && !CrossesAt(s.cols, i)
    requires OnPath(Connect(s, c, i), x, y)
    ensures y == LaneY(s, c, i) == LaneY(s, c, i + 1)
    ensures Show(s, Center(s, i)) <= x <= Show(s, Center(s, i + 1))
  {
    var g :| g in Connect(s, c, i) && On(g, x, y);
    assert g == Line(Show(s, Leave(s, c, i)), Show(s, Enter(s, c, i + 1)), LaneY(s, c, i));
    PlateSpan(s, c, i); PlateSpan(s, c, i + 1);
    ShowGrows(s, Center(s, i), Leave(s, c, i));
    ShowGrows(s, Leave(s, c, i), Enter(s, c, i + 1));
    ShowGrows(s, Enter(s, c, i + 1), Center(s, i + 1));
  }

  lemma FirstLevel(s: Scene, c: Category, x: real, y: real)
    requires Laid(s) && s.cols != [] && OnPath(PathTo(s, c, 0), x, y)
    ensures y == LaneY(s, c, 0) && x <= Show(s, Center(s, 0))
  {
    assert |s.cols| == |s.row.nodes|;
    hide Laid, Show, LaneY, Enter, Center;
    var g :| g in PathTo(s, c, 0) && On(g, x, y);
    MarginShown(s, c, x);
  }

  /** The margin is left of the first plate, shown or not. */
  lemma MarginShown(s: Scene, c: Category, x: real)
    requires Laid(s) && s.cols != [] && x <= Max(s.outer, Show(s, Enter(s, c, 0)))
    ensures x <= Show(s, Center(s, 0))
  {
    PlateSpan(s, c, 0);
    ShowGrows(s, Enter(s, c, 0), Center(s, 0));
  }

  lemma {:induction false} PathToLevel(s: Scene, c: Category, i: nat, x: real, y: real)
    requires Laid(s) && i < |s.cols|
    requires forall k :: 0 <= k < i ==> !CrossesAt(s.cols, k)
    requires OnPath(PathTo(s, c, i), x, y)
    ensures y == LaneY(s, c, 0) == LaneY(s, c, i) && x <= Show(s, Center(s, i))
  {
    assert |s.cols| == |s.row.nodes|;
    hide Laid, Show, LaneY, Center, OnPath, Connect, CrossesAt;
    LevelLane(s, c, i);
    if i == 0 {
      FirstLevel(s, c, x, y);
    } else {
      assert PathTo(s, c, i) == PathTo(s, c, i - 1) + Connect(s, c, i - 1);
      hide PathTo;
      OnConcat(PathTo(s, c, i - 1), Connect(s, c, i - 1), x, y);
      if OnPath(PathTo(s, c, i - 1), x, y) {
        PathToLevel(s, c, i - 1, x, y);
        CentersAdvance(s, i - 1, i);
        ShowGrows(s, Center(s, i - 1), Center(s, i));
      } else {
        ConnectLevel(s, c, i - 1, x, y);
      }
    }
  }

  lemma {:induction false} LevelLane(s: Scene, c: Category, i: nat)
    requires i < |s.cols| && forall k :: 0 <= k < i ==> !CrossesAt(s.cols, k)
    ensures LaneY(s, c, i) == LaneY(s, c, 0)
  {
    if i > 0 { LevelLane(s, c, i - 1); assert !CrossesAt(s.cols, i - 1); }
  }

  // --------------------------------------------------------- one crossover

  /** On its first lane up to the curve, on the curve, or on its second lane after it. */
  ghost predicate Trace(c: Cubic, x: real, y: real) {
    || (y == c.y0 && x <= c.x0)
    || (y == c.y3 && x >= c.x3)
    || exists t :: OnCurveAt(c, t, x, y)
  }

  lemma ConnectCross(s: Scene, c: Category, i: nat, x: real, y: real)
    requires Laid(s) && i + 1 < |s.cols| && CrossesAt(s.cols, i)
    requires OnPath(Connect(s, c, i), x, y)
    ensures Trace(CrossCurve(s, i, LaneY(s, c, i), LaneY(s, c, i + 1)), x, y)
  {
    var g :| g in Connect(s, c, i) && On(g, x, y);
    PlateSpan(s, c, i); PlateSpan(s, c, i + 1);
    ShowGrows(s, Leave(s, c, i), LeaveLast(s, i));
    ShowGrows(s, EnterFirst(s, i + 1), Enter(s, c, i + 1));
    if g.Curve? {
      var t :| OnCurveAt(g.cubic, t, x, y);
    }
  }

  ghost predicate OnlyCrossing(cols: seq<Column>, k: nat) {
    k + 1 < |cols| && forall i :: 0 <= i < |cols| - 1 ==> (CrossesAt(cols, i) <==> i == k)
  }

  /** Where a crossover's curve starts and ends. */
  lemma CrossCurveEnds(s: Scene, i: nat, fromY: real, toY: real)
    requires i + 1 < |s.row.nodes|
    ensures var c := CrossCurve(s, i, fromY, toY);
      c.x0 == Show(s, LeaveLast(s, i)) && c.x3 == Show(s, EnterFirst(s, i + 1)) && c.y0 == fromY && c.y3 == toY
  {
    hide Show, Pull;
  }

  lemma BesideTheCurve(c: Cubic, x: real, y: real)
    requires (y == c.y0 && x <= c.x0) || (y == c.y3 && x >= c.x3)
    ensures Trace(c, x, y)
  {
  }

  /** The first path up to the curve, and its level stretches after it. */
  lemma LevelTraces(s: Scene, c: Category, k: nat, i: nat, x: real, y: real)
    requires Laid(s) && OnlyCrossing(s.cols, k) && k <= i < |s.cols|
    requires if i == k then y == LaneY(s, c, k) && x <= Show(s, Center(s, k))
             else y == LaneY(s, c, k + 1) && Show(s, Center(s, i)) <= x
    ensures Trace(CrossCurve(s, k, LaneY(s, c, k), LaneY(s, c, k + 1)), x, y)
  {
    assert |s.cols| == |s.row.nodes|;
    hide Show, Laid, LaneY, Center, LeaveLast, EnterFirst, CrossCurve, Trace;
    CrossCurveEnds(s, k, LaneY(s, c, k), LaneY(s, c, k + 1));
    if i == k {
      PlateSpan(s, c, k);
      ShowGrows(s, Center(s, k), LeaveLast(s, k));
    } else {
      CentersAdvance(s, k + 1, i);
      PlateSpan(s, c, k + 1);
      ShowGrows(s, EnterFirst(s, k + 1), Center(s, i));
    }
    BesideTheCurve(CrossCurve(s, k, LaneY(s, c, k), LaneY(s, c, k + 1)), x, y);
  }

  lemma {:induction false} PathToTraces(s: Scene, c: Category, k: nat, i: nat, x: real, y: real)
    requires Laid(s) && OnlyCrossing(s.cols, k) && k < i < |s.cols|
    requires OnPath(PathTo(s, c, i), x, y)
    ensures Trace(CrossCurve(s, k, LaneY(s, c, k), LaneY(s, c, k + 1)), x, y)
    decreases i
  {
    assert |s.cols| == |s.row.nodes|;
    hide Show, Connect, LaneY, Laid, OnPath, Trace, CrossCurve, Center, CrossesAt;
    assert PathTo(s, c, i) == PathTo(s, c, i - 1) + Connect(s, c, i - 1);
    hide PathTo;
    OnConcat(PathTo(s, c, i - 1), Connect(s, c, i - 1), x, y);
    if i == k + 1 {
      if OnPath(PathTo(s, c, k), x, y) {
        PathToLevel(s, c, k, x, y);
        LevelTraces(s, c, k, k, x, y);
      } else {
        ConnectCross(s, c, k, x, y);
      }
    } else if OnPath(PathTo(s, c, i - 1), x, y) {
      PathToTraces(s, c, k, i - 1, x, y);
    } else {
      ConnectLevel(s, c, i - 1, x, y);
      LaneAfter(s, c, k, i - 1);
      LevelTraces(s, c, k, i - 1, x, y);
    }
  }

  lemma {:induction false} LaneAfter(s: Scene, c: Category, k: nat, i: nat)
    requires OnlyCrossing(s.cols, k) && k < i < |s.cols|
    ensures LaneY(s, c, i) == LaneY(s, c, k + 1)
    decreases i
  {
    if i > k + 1 { LaneAfter(s, c, k, i - 1); assert !CrossesAt(s.cols, i - 1); }
  }

  lemma PathTraces(s: Scene, c: Category, k: nat, x: real, y: real)
    requires Laid(s) && OnlyCrossing(s.cols, k)
    requires OnPath(Path(s, c), x, y)
    ensures Trace(CrossCurve(s, k, LaneY(s, c, k), LaneY(s, c, k + 1)), x, y)
  {
    var n := |s.cols| - 1;
    assert |s.cols| == |s.row.nodes|;
    hide Show, LaneY, PathTo, Laid, Trace, CrossCurve, OnPath, On, CrossesAt;
    var tail := Line(Show(s, Leave(s, c, n)), Show(s, s.row.width - s.outer), LaneY(s, c, n));
    OnConcat(PathTo(s, c, n), [tail], x, y);
    if OnPath(PathTo(s, c, n), x, y) {
      PathToTraces(s, c, k, n, x, y);
    } else {
      OnTail(s, c, x, y);
      LaneAfter(s, c, k, n);
      LevelTraces(s, c, k, n, x, y);
    }
  }

  lemma OnTail(s: Scene, c: Category, x: real, y: real)
    requires Laid(s) && s.cols != []
    requires var n := |s.cols| - 1;
      OnPath([Line(Show(s, Leave(s, c, n)), Show(s, s.row.width - s.outer), LaneY(s, c, n))], x, y)
    ensures y == LaneY(s, c, |s.cols| - 1) && Show(s, Center(s, |s.cols| - 1)) <= x
  {
    var n := |s.cols| - 1;
    assert |s.cols| == |s.row.nodes| && LeaveLast(s, n) <= s.row.width - s.outer;
    hide Laid, Show, LaneY;
    PlateSpan(s, c, n);
    ShowGrows(s, Center(s, n), Leave(s, c, n));
    ShowGrows(s, Leave(s, c, n), s.row.width - s.outer);
  }

  /** Two mirrored traces have one point in common, the middle of their curves. */
  lemma MirroredTracesMeetOnce(c: Cubic, x: real, y: real)
    requires Forward(c) && c.y0 != c.y3 && Trace(c, x, y) && Trace(Mirror(c), x, y)
    ensures x == X(c, 0.5) && y == Y(c, 0.5)
  {
    hide X, Y, Bezier;
    assert Forward(Mirror(c));
    XEnds(c, 0.0); XEnds(Mirror(c), 0.0);
    forall t | OnCurveAt(c, t, x, y) ensures (y == c.y0 ==> x == c.x0) && (y == c.y3 ==> x == c.x3) {
      YMeetsLaneOnlyAtEnds(c, t);
    }
    forall t | OnCurveAt(Mirror(c), t, x, y) ensures (y == c.y3 ==> x == c.x0) && (y == c.y0 ==> x == c.x3) {
      YMeetsLaneOnlyAtEnds(Mirror(c), t);
      SameRun(c, 0.0); SameRun(c, 1.0);
    }
    var t :| OnCurveAt(c, t, x, y);
    var u :| OnCurveAt(Mirror(c), u, x, y);
    MirrorMeetsOnce(c, t, u);
  }

  lemma SameRun(c: Cubic, t: real)
    ensures X(Mirror(c), t) == X(c, t)
  {
  }

  lemma CurveIsOnPath(s: Scene, c: Category, k: nat, x: real, y: real)
    requires Laid(s) && k + 1 < |s.cols| && CrossesAt(s.cols, k)
    requires On(Curve(CrossCurve(s, k, LaneY(s, c, k), LaneY(s, c, k + 1))), x, y)
    ensures OnPath(Path(s, c), x, y)
  {
    var n := |s.cols| - 1;
    var g := Curve(CrossCurve(s, k, LaneY(s, c, k), LaneY(s, c, k + 1)));
    assert LaneY(s, c, k) != LaneY(s, c, k + 1);
    assert Connect(s, c, k)[1] == g;
    StaysOnPath(s, c, k + 1, n, g);
    assert g in Path(s, c);
  }

  lemma {:induction false} StaysOnPath(s: Scene, c: Category, i: nat, n: nat, g: Segment)
    requires |s.cols| == |s.row.nodes| && i <= n < |s.cols| && g in PathTo(s, c, i)
    ensures g in PathTo(s, c, n)
    decreases n
  {
    if i < n { StaysOnPath(s, c, i, n - 1, g); }
  }

  lemma {:induction false} PathLevel(s: Scene, c: Category, x: real, y: real)
    requires Laid(s) && s.cols != [] && forall i :: 0 <= i < |s.cols| - 1 ==> !CrossesAt(s.cols, i)
    requires OnPath(Path(s, c), x, y)
    ensures y == LaneY(s, c, 0)
  {
    var n := |s.cols| - 1;
    LevelLane(s, c, n);
    var tail := Line(Show(s, Leave(s, c, n)), Show(s, s.row.width - s.outer), LaneY(s, c, n));
    OnConcat(PathTo(s, c, n), [tail], x, y);
    if OnPath(PathTo(s, c, n), x, y) { PathToLevel(s, c, n, x, y); }
  }

  /** Without a crossover the two paths have no point in common. */
  lemma LevelPathsNeverMeet(s: Scene, x: real, y: real)
    requires Laid(s) && forall i :: 0 <= i < |s.cols| - 1 ==> !CrossesAt(s.cols, i)
    ensures !(OnPath(Path(s, Independent), x, y) && OnPath(Path(s, Proprietary), x, y))
  {
    if s.cols != [] && OnPath(Path(s, Independent), x, y) && OnPath(Path(s, Proprietary), x, y) {
      PathLevel(s, Independent, x, y);
      PathLevel(s, Proprietary, x, y);
    }
  }

  /** With one crossover they have exactly one: the middle of its curves. */
  lemma CrossingPathsMeetOnce(s: Scene, k: nat, x: real, y: real)
    requires Laid(s) && OnlyCrossing(s.cols, k)
    ensures var c := CrossCurve(s, k, s.topY, s.bottomY);
      OnPath(Path(s, Independent), x, y) && OnPath(Path(s, Proprietary), x, y)
      <==> x == X(c, 0.5) && y == Y(c, 0.5)
  {
    hide X, Y, Bezier, Path, PathTo, Show, Pull;
    var c := CrossCurve(s, k, LaneY(s, Independent, k), LaneY(s, Independent, k + 1));
    assert CrossesAt(s.cols, k);
    assert Mirror(c) == CrossCurve(s, k, LaneY(s, Proprietary, k), LaneY(s, Proprietary, k + 1));
    CurveRunsForward(s, k, c.y0, c.y3);
    MidPoint(c); MidPoint(Mirror(c));
    MidPoint(CrossCurve(s, k, s.topY, s.bottomY));
    if OnPath(Path(s, Independent), x, y) && OnPath(Path(s, Proprietary), x, y) {
      PathTraces(s, Independent, k, x, y);
      PathTraces(s, Proprietary, k, x, y);
      MirroredTracesMeetOnce(c, x, y);
    }
    if x == X(c, 0.5) && y == Y(c, 0.5) {
      assert OnCurveAt(c, 0.5, x, y) && OnCurveAt(Mirror(c), 0.5, x, y);
      CurveIsOnPath(s, Independent, k, x, y);
      CurveIsOnPath(s, Proprietary, k, x, y);
    }
  }

  /** The two paths of a row whose lanes change places after `done` nodes, and only there. */
  lemma PathsMeet(s: Scene, done: nat, x: real, y: real)
    requires Laid(s) && forall i :: 0 <= i < |s.cols| - 1 ==> (CrossesAt(s.cols, i) <==> i + 1 == done)
    ensures OnPath(Path(s, Independent), x, y) && OnPath(Path(s, Proprietary), x, y)
       <==> 0 < done < |s.cols| && (x, y) == Meeting(s, done - 1)
  {
    hide Path, X, Y, CrossCurve;
    if 0 < done < |s.cols| {
      CrossingPathsMeetOnce(s, done - 1, x, y);
    } else {
      LevelPathsNeverMeet(s, x, y);
    }
  }

  /** Half way along the curves after node k. */
  function Meeting(s: Scene, k: nat): (real, real)
    requires k + 1 < |s.row.nodes|
  {
    var c := CrossCurve(s, k, s.topY, s.bottomY);
    (X(c, 0.5), Y(c, 0.5))
  }

  // ------------------------------------------- left to right, plate by plate

  function Start(g: Segment): real { if g.Line? then g.x0 else g.cubic.x0 }
  function End(g: Segment): real { if g.Line? then g.x1 else g.cubic.x3 }

  /** Segment after segment, no x coordinate lies left of the one before it. */
  ghost predicate LeftToRight(path: seq<Segment>) {
    && (forall g <- path :: Start(g) <= End(g) && (g.Curve? ==> Forward(g.cubic)))
    && (forall k :: 0 <= k < |path| - 1 ==> End(path[k]) <= Start(path[k + 1]))
  }

  ghost predicate Covers(path: seq<Segment>, x: real) {
    exists g :: g in path && Start(g) <= x <= End(g)
  }

  ghost predicate UnderPlate(s: Scene, c: Category, i: nat, x: real)
    requires i < |s.cols| == |s.row.nodes|
  {
    Show(s, Enter(s, c, i)) < x < Show(s, Leave(s, c, i))
  }

  /** The abscissa lies under none of the first n plates. */
  ghost predicate ClearOf(s: Scene, c: Category, n: nat, x: real)
    requires n <= |s.cols| == |s.row.nodes|
  {
    forall i :: 0 <= i < n ==> !UnderPlate(s, c, i, x)
  }

  lemma CoversConcat(a: seq<Segment>, b: seq<Segment>, x: real)
    ensures Covers(a + b, x) <==> Covers(a, x) || Covers(b, x)
  {
    if Covers(a, x) {
      var g :| g in a && Start(g) <= x <= End(g);
      assert g in a + b;
    }
    if Covers(b, x) {
      var g :| g in b && Start(g) <= x <= End(g);
      assert g in a + b;
    }
  }

  /** No point of a path lies where the path leaves a gap. */
  lemma PointsAreCovered(path: seq<Segment>, x: real, y: real)
    requires LeftToRight(path) && OnPath(path, x, y)
    ensures Covers(path, x)
  {
    var g :| g in path && On(g, x, y);
    if g.Curve? {
      hide X, Y;
      var t :| OnCurveAt(g.cubic, t, x, y);
      XEnds(g.cubic, t);
    }
  }

  /** Where it leaves none, the path has points as near as one likes. */
  lemma CoveredIsApproached(path: seq<Segment>, x: real, eps: real) returns (x': real, y': real)
    requires LeftToRight(path) && Covers(path, x) && eps > 0.0
    ensures OnPath(path, x', y') && x - eps < x' <= x
  {
    var g :| g in path && Start(g) <= x <= End(g);
    match g {
      case Line(x0, x1, h) =>
        x', y' := x, h;
        assert On(g, x', y');
      case Curve(cubic) =>
        hide X, Y, Forward;
        var t := CurveComesNear(cubic, x, eps);
        x', y' := X(cubic, t), Y(cubic, t);
        assert OnCurveAt(cubic, t, x', y');
        assert On(g, x', y');
    }
  }

  lemma ShownPlate(s: Scene, c: Category, i: nat)
    requires Laid(s) && i < |s.cols| && Show(s, s.outer) == s.outer
    ensures s.outer <= Show(s, Enter(s, c, i)) < Show(s, Leave(s, c, i)) <= Show(s, s.row.width - s.outer)
    ensures i + 1 < |s.cols| ==> Show(s, Leave(s, c, i)) <= Show(s, Enter(s, c, i + 1))
  {
    PlateSpan(s, c, i);
    ShowGrows(s, s.outer, Enter(s, c, i));
    ShowGrows(s, Leave(s, c, i), s.row.width - s.outer);
    if i + 1 < |s.cols| {
      PlateSpan(s, c, i + 1);
      ShowGrows(s, Leave(s, c, i), Enter(s, c, i + 1));
    }
  }

  /** One connection runs from plate to plate without a break. */
  lemma ConnectCovers(s: Scene, c: Category, i: nat, x: real)
    requires Laid(s) && i + 1 < |s.cols|
    ensures Covers(Connect(s, c, i), x) <==> Show(s, Leave(s, c, i)) <= x <= Show(s, Enter(s, c, i + 1))
    ensures LeftToRight(Connect(s, c, i))
    ensures Connect(s, c, i) != [] && Start(Connect(s, c, i)[0]) == Show(s, Leave(s, c, i))
    ensures End(Connect(s, c, i)[|Connect(s, c, i)| - 1]) == Show(s, Enter(s, c, i + 1))
  {
    assert |s.cols| == |s.row.nodes|;
    hide Bezier, Pull, Laid, Show;
    var d := Connect(s, c, i);
    PlateSpan(s, c, i); PlateSpan(s, c, i + 1);
    if LaneY(s, c, i) == LaneY(s, c, i + 1) {
      assert LeaveLast(s, i) + 4.0 <= EnterFirst(s, i + 1) by { PlatesAdvance(s, i, i + 1); }
      ShowGrows(s, Leave(s, c, i), Enter(s, c, i + 1));
      assert d[0] in d;
    } else {
      var cubic := CrossCurve(s, i, LaneY(s, c, i), LaneY(s, c, i + 1));
      CurveRunsForward(s, i, LaneY(s, c, i), LaneY(s, c, i + 1));
      ShowGrows(s, Leave(s, c, i), LeaveLast(s, i));
      ShowGrows(s, EnterFirst(s, i + 1), Enter(s, c, i + 1));
      assert d[0] in d && d[1] in d && d[2] in d;
    }
  }

  /** The path runs left to right from one abscissa to another. */
  ghost predicate Runs(path: seq<Segment>, start: real, end: real) {
    path != [] && LeftToRight(path) && Start(path[0]) == start && End(path[|path| - 1]) == end
  }

  lemma RunsOn(a: seq<Segment>, b: seq<Segment>, start: real, pause: real, resume: real, end: real)
    requires Runs(a, start, pause) && Runs(b, resume, end) && pause <= resume
    ensures Runs(a + b, start, end)
  {
  }

  lemma FirstRuns(s: Scene, c: Category)
    requires |s.cols| == |s.row.nodes| && s.cols != [] && s.outer <= Show(s, Enter(s, c, 0))
    ensures Runs(PathTo(s, c, 0), s.outer, Show(s, Enter(s, c, 0)))
  {
    hide Show, Enter, LaneY;
  }

  lemma ConnectRuns(s: Scene, c: Category, i: nat)
    requires Laid(s) && i + 1 < |s.cols|
    ensures |s.cols| == |s.row.nodes| && Runs(Connect(s, c, i), Show(s, Leave(s, c, i)), Show(s, Enter(s, c, i + 1)))
  {
    ConnectCovers(s, c, i, 0.0);
    assert |s.cols| == |s.row.nodes|;
    hide Laid, Show, Connect, Leave, Enter, LeftToRight, Covers;
  }

  lemma {:induction false} PathToRuns(s: Scene, c: Category, i: nat)
    requires Laid(s) && i < |s.cols| && Show(s, s.outer) == s.outer
    ensures |s.cols| == |s.row.nodes| && Runs(PathTo(s, c, i), s.outer, Show(s, Enter(s, c, i)))
  {
    assert |s.cols| == |s.row.nodes|;
    hide Laid, Show, Connect, Enter, Leave, LaneY, Runs;
    if i == 0 {
      ShownPlate(s, c, 0);
      FirstRuns(s, c);
    } else {
      PathToRuns(s, c, i - 1);
      ShownPlate(s, c, i - 1);
      ConnectRuns(s, c, i - 1);
      RunsOn(PathTo(s, c, i - 1), Connect(s, c, i - 1), s.outer, Show(s, Enter(s, c, i - 1)), Show(s, Leave(s, c, i - 1)), Show(s, Enter(s, c, i)));
    }
  }

  lemma {:induction false} PathToTiles(s: Scene, c: Category, i: nat, x: real)
    requires Laid(s) && i < |s.cols| && Show(s, s.outer) == s.outer
    ensures Covers(PathTo(s, c, i), x)
       <==> s.outer <= x <= Show(s, Enter(s, c, i)) && ClearOf(s, c, i, x)
  {
    hide Laid, Show, Enter, Leave, LaneY, Connect, LeftToRight, ClearOf;
    if i == 0 {
      ShownPlate(s, c, 0);
      FirstTile(s, c, x);
    } else {
      PathToTiles(s, c, i - 1, x);
      hide Covers, PathTo;
      NextTile(s, c, i - 1, x);
    }
  }

  lemma FirstTile(s: Scene, c: Category, x: real)
    requires Laid(s) && s.cols != [] && s.outer <= Show(s, Enter(s, c, 0))
    ensures Covers(PathTo(s, c, 0), x) <==> s.outer <= x <= Show(s, Enter(s, c, 0)) && ClearOf(s, c, 0, x)
  {
    assert |s.cols| == |s.row.nodes|;
    hide Laid, Show, Enter, LaneY;
    assert PathTo(s, c, 0)[0] in PathTo(s, c, 0);
  }

  lemma NextTile(s: Scene, c: Category, i: nat, x: real)
    requires Laid(s) && i + 1 < |s.cols| && Show(s, s.outer) == s.outer
    ensures Covers(PathTo(s, c, i + 1), x) <==> Covers(PathTo(s, c, i), x) || Show(s, Leave(s, c, i)) <= x <= Show(s, Enter(s, c, i + 1))
    ensures ClearOf(s, c, i + 1, x) <==> ClearOf(s, c, i, x) && !(Show(s, Enter(s, c, i)) < x < Show(s, Leave(s, c, i)))
    ensures s.outer <= Show(s, Enter(s, c, i)) < Show(s, Leave(s, c, i)) <= Show(s, Enter(s, c, i + 1))
    ensures x >= Show(s, Leave(s, c, i)) ==> ClearOf(s, c, i + 1, x)
  {
    assert PathTo(s, c, i + 1) == PathTo(s, c, i) + Connect(s, c, i);
    ClearOfOneMore(s, c, i, x);
    hide Laid, Show, Connect, Enter, Leave, LaneY, LeftToRight, Covers, ClearOf, PathTo;
    ShownPlate(s, c, i);
    ConnectCovers(s, c, i, x);
    CoversConcat(PathTo(s, c, i), Connect(s, c, i), x);
    if x >= Show(s, Leave(s, c, i)) { PlatesBefore(s, c, i, x); }
  }

  lemma ClearOfOneMore(s: Scene, c: Category, n: nat, x: real)
    requires n < |s.cols| == |s.row.nodes|
    ensures ClearOf(s, c, n + 1, x) <==> ClearOf(s, c, n, x) && !UnderPlate(s, c, n, x)
  {
  }

  lemma {:induction false} PlatesBefore(s: Scene, c: Category, i: nat, x: real)
    requires Laid(s) && i < |s.cols| && Show(s, s.outer) == s.outer
    requires x >= Show(s, Leave(s, c, i))
    ensures ClearOf(s, c, i + 1, x)
    decreases i
  {
    if i > 0 {
      ShownPlate(s, c, i - 1); ShownPlate(s, c, i);
      PlatesBefore(s, c, i - 1, x);
    }
  }

  /**
   * A path runs left to right from one margin to the other, and is broken exactly by the
   * plates it passes under. That holds of the drawn path too when the margin is a multiple
   * of the display tenth.
   */
  lemma PathBreaksAtItsPlates(s: Scene, c: Category, x: real)
    requires Laid(s) && s.cols != [] && Show(s, s.outer) == s.outer
    ensures LeftToRight(Path(s, c))
    ensures Covers(Path(s, c), x)
       <==> s.outer <= x <= Show(s, s.row.width - s.outer) && ClearOf(s, c, |s.cols|, x)
    ensures forall y :: OnPath(Path(s, c), x, y) ==> Covers(Path(s, c), x)
  {
    var n := |s.cols| - 1;
    var tail := [Line(Show(s, Leave(s, c, n)), Show(s, s.row.width - s.outer), LaneY(s, c, n))];
    var most := PathTo(s, c, n);
    assert Path(s, c) == most + tail;
    ShownPlate(s, c, n);
    assert tail[0] in tail;
    hide Laid, Show, Enter, Leave, LaneY, PathTo, Path;
    assert Covers(tail, x) <==> Show(s, Leave(s, c, n)) <= x <= Show(s, s.row.width - s.outer);
    assert Runs(tail, Show(s, Leave(s, c, n)), Show(s, s.row.width - s.outer));
    PathToRuns(s, c, n);
    RunsOn(most, tail, s.outer, Show(s, Enter(s, c, n)), Show(s, Leave(s, c, n)), Show(s, s.row.width - s.outer));
    PathToTiles(s, c, n, x);
    CoversConcat(most, tail, x);
    ClearOfOneMore(s, c, n, x);
    hide ClearOf, Covers, LeftToRight;
    if x >= Show(s, Leave(s, c, n)) { PlatesBefore(s, c, n, x); }
    assert LeftToRight(Path(s, c)) by { hide LeftToRight; assert Path(s, c) == most + tail; }
    forall y | OnPath(Path(s, c), x, y) ensures Covers(Path(s, c), x) { PointsAreCovered(Path(s, c), x, y); }
  }
}
