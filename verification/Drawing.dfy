/**
 * What the two paths of a document look like: their lanes, their breaks and their bend.
 */
module Drawing {
  import opened Document
  import opened Ordering
  import opened Measure
  import opened Curves
  import opened Layout
  import opened LanePaths
  import opened Roadmap

  /** Every abscissa is drawn at the nearest tenth, a half upwards; the exact path keeps it. */
  lemma ShownIsNearest(s: Scene, x: real)
    ensures !s.rounded ==> Show(s, x) == x
    ensures s.rounded ==>
      Show(s, x) * 10.0 == (Show(s, x) * 10.0).Floor as real && 10.0 * x - 0.5 < Show(s, x) * 10.0 <= 10.0 * x + 0.5
  {
    hide Round;
    assert s.rounded ==> Show(s, x) * 10.0 == Round(x * 10.0);
  }

  /** The side of a category at node i: on top where the switch is done and it is the independent one, or neither. */
  predicate Above(done: nat, c: Category, i: nat) { (c == Independent) == (i < done) }

  lemma LanesOfDocument(doc: RoadmapDocument, rounded: bool, c: Category, i: nat)
    requires AllPlaceable(doc.migrations) && TwoSided(doc) && i < |doc.migrations|
    ensures var s, l := SceneOf(doc, rounded), LayoutOf(doc);
      && |s.cols| == |s.row.nodes| == |l.nodes| == |doc.migrations|
      && LaneY(s, c, i) == (if Above(Done(doc), c, i) then l.bands.topY else l.bands.bottomY)
      && Plate(s, c, i) == (if Above(Done(doc), c, i) then l.nodes[i].topWidth else l.nodes[i].bottomWidth)
      && s.row.nodes == l.nodes && s.topY == l.bands.topY && s.bottomY == l.bands.bottomY
  {
    IndependentIsOnTopOfDone(doc, i);
    LayoutParts(doc, rounded);
    SceneLanes(doc, rounded);
    hide LayoutOf, SceneOf, AllPlaceable, Done, ColumnsOf;
  }

  lemma SceneLanes(doc: RoadmapDocument, rounded: bool)
    requires AllPlaceable(doc.migrations)
    ensures var s, l := SceneOf(doc, rounded), LayoutOf(doc);
      s.topY == l.bands.topY && s.bottomY == l.bands.bottomY && s.tension == doc.layout.curveTension && s.rounded == rounded
  {
    hide ReachedOn, Placeable, Chronological, ColumnsOf, DocBands, DocRow, MetricsOf, Path, Crossovers, Done, Social, RequestedHeight;
  }

  /** The scene shows the layout: its nodes, its lanes, and one crossover after the finished nodes. */
  ghost predicate Shows(s: Scene, l: RoadmapLayout, done: nat) {
    && Laid(s) && !s.rounded && s.cols != [] && |s.cols| == |s.row.nodes|
    && s.row.nodes == l.nodes && s.topY == l.bands.topY && s.bottomY == l.bands.bottomY && done <= |s.cols|
    && (forall i :: 0 <= i < |s.cols| - 1 ==> (CrossesAt(s.cols, i) <==> i + 1 == done))
    && (forall c, i :: 0 <= i < |s.cols| ==>
          && LaneY(s, c, i) == (if Above(done, c, i) then l.bands.topY else l.bands.bottomY)
          && Plate(s, c, i) == (if Above(done, c, i) then l.nodes[i].topWidth else l.nodes[i].bottomWidth))
  }

  lemma SceneShowsLayout(doc: RoadmapDocument)
    requires Drawable(doc) && doc.migrations != []
    ensures var s, l := SceneOf(doc, false), LayoutOf(doc);
      && Shows(s, l, Done(doc)) && |l.nodes| == |doc.migrations| && s.tension == doc.layout.curveTension
      && s.row.width == l.width && s.outer == doc.layout.outerMargin
  {
    hide LayoutOf, Laid, AllPlaceable, TwoSided, InRange, Done, ColumnsOf, LaneY, Plate, Above, CrossesAt, DocBands, DocRow;
    var s := SceneOf(doc, false);
    SceneIsLaid(doc, false);
    OnlyGapOfDone(doc);
    LayoutParts(doc, false); SceneLanes(doc, false);
    assert s.cols == ColumnsOf(doc);
    forall c, i | 0 <= i < |s.cols|
      ensures LaneY(s, c, i) == (if Above(Done(doc), c, i) then LayoutOf(doc).bands.topY else LayoutOf(doc).bands.bottomY)
      ensures Plate(s, c, i) == (if Above(Done(doc), c, i) then LayoutOf(doc).nodes[i].topWidth else LayoutOf(doc).nodes[i].bottomWidth)
    {
      LanesOfDocument(doc, false, c, i);
    }
  }

  // ---------------------------------------------------------------- lanes

  lemma TraceBeside(c: Cubic, x: real, y: real)
    requires Forward(c) && Trace(c, x, y)
    ensures x <= c.x0 ==> y == c.y0
    ensures x >= c.x3 ==> y == c.y3
  {
    hide X, Y, Bezier;
    if t :| OnCurveAt(c, t, x, y) {
      XEnds(c, t);
      if t > 0.0 { XAdvances(c, 0.0, t); }
      if t < 1.0 { XAdvances(c, t, 1.0); }
      YEnds(c);
    }
  }

  lemma YEnds(c: Cubic)
    ensures Y(c, 0.0) == c.y0 && Y(c, 1.0) == c.y3
  {
  }

  lemma SceneKeepsLanes(s: Scene, c: Category, done: nat, x: real, y: real)
    requires Laid(s) && s.cols != [] && OnPath(Path(s, c), x, y)
    requires forall i :: 0 <= i < |s.cols| - 1 ==> (CrossesAt(s.cols, i) <==> i + 1 == done)
    ensures |s.cols| == |s.row.nodes|
    ensures done == 0 || done >= |s.cols| ==> y == LaneY(s, c, 0)
    ensures 0 < done < |s.cols| ==>
      && (x <= Show(s, LeaveLast(s, done - 1)) ==> y == LaneY(s, c, done - 1))
      && (Show(s, EnterFirst(s, done)) <= x ==> y == LaneY(s, c, done))
  {
    assert |s.cols| == |s.row.nodes|;
    hide Path, Show, Trace, CrossCurve, LaneY, Laid, LeaveLast, EnterFirst, Forward;
    if 0 < done < |s.cols| {
      var k := done - 1;
      assert CrossesAt(s.cols, k) && OnlyCrossing(s.cols, k);
      PathTraces(s, c, k, x, y);
      CurveRunsForward(s, k, LaneY(s, c, k), LaneY(s, c, k + 1));
      CrossCurveEnds(s, k, LaneY(s, c, k), LaneY(s, c, k + 1));
      TraceBeside(CrossCurve(s, k, LaneY(s, c, k), LaneY(s, c, k + 1)), x, y);
    } else {
      PathLevel(s, c, x, y);
    }
  }

  /** The outer edge of the wider plate of a node, on its right and on its left. */
  function RightEdge(n: Node): real { n.x + Max(n.topWidth, n.bottomWidth) / 2.0 }
  function LeftEdge(n: Node): real { n.x - Max(n.topWidth, n.bottomWidth) / 2.0 }

  /**
   * The independent path runs on the top lane as far as the last finished node and on the
   * bottom lane from the next one on, and the proprietary path the other way round; with all
   * finished, or none, neither leaves its lane.
   */
  lemma PathsKeepTheirLanes(doc: RoadmapDocument, c: Category, x: real, y: real)
    requires Drawable(doc) && doc.migrations != [] && OnPath(Path(SceneOf(doc, false), c), x, y)
    ensures var l, done, n := LayoutOf(doc), Done(doc), |doc.migrations|;
      && (done == n || (0 < done && x <= RightEdge(l.nodes[done - 1])) ==> y == if c == Independent then l.bands.topY else l.bands.bottomY)
      && (done == 0 || (done < n && LeftEdge(l.nodes[done]) <= x) ==> y == if c == Independent then l.bands.bottomY else l.bands.topY)
  {
    hide AllPlaceable, TwoSided, InRange, LayoutOf, SceneOf, Done, Path, OnPath, Covers, ClearOf, Shows, RightEdge, LeftEdge, HalfPlate, Away, ShareOf, LeftToRight;
    SceneShowsLayout(doc);
    ShownLanes(SceneOf(doc, false), LayoutOf(doc), Done(doc), c, x, y);
  }

  lemma ShownLanes(s: Scene, l: RoadmapLayout, done: nat, c: Category, x: real, y: real)
    requires Shows(s, l, done) && OnPath(Path(s, c), x, y)
    ensures (done == |l.nodes| || (0 < done && x <= RightEdge(l.nodes[done - 1])) ==> y == if c == Independent then l.bands.topY else l.bands.bottomY)
    ensures (done == 0 || (done < |l.nodes| && LeftEdge(l.nodes[done]) <= x) ==> y == if c == Independent then l.bands.bottomY else l.bands.topY)
  {
    hide Laid, Path, LaneY, OnPath, CrossesAt, LeaveLast, EnterFirst, Show, Plate, RightEdge, LeftEdge;
    SceneKeepsLanes(s, c, done, x, y);
    if 0 < done { EdgesOf(s, done - 1); }
    if done < |s.cols| { EdgesOf(s, done); }
  }

  lemma EdgesOf(s: Scene, i: nat)
    requires i < |s.row.nodes| && !s.rounded
    ensures Show(s, LeaveLast(s, i)) == LeaveLast(s, i) == RightEdge(s.row.nodes[i])
    ensures Show(s, EnterFirst(s, i)) == EnterFirst(s, i) == LeftEdge(s.row.nodes[i])
  {
  }

  // --------------------------------------------------------------- breaks

  /** Half the width of the plate a path has to spare at node i. */
  function HalfPlate(l: RoadmapLayout, done: nat, c: Category, i: nat): real
    requires i < |l.nodes|
  {
    (if Above(done, c, i) then l.nodes[i].topWidth else l.nodes[i].bottomWidth) / 2.0
  }

  /**
   * Between the margins a path is drawn everywhere but under its own plates: the top plates of
   * the nodes where it is above, the bottom plates of the others.
   */
  lemma PathsBreakUnderTheirPlates(doc: RoadmapDocument, c: Category, x: real)
    requires Drawable(doc) && doc.migrations != []
    ensures var l, margin := LayoutOf(doc), doc.layout.outerMargin;
      Covers(Path(SceneOf(doc, false), c), x)
      <==> margin <= x <= l.width - margin
           && forall i :: 0 <= i < |l.nodes| ==> Away(l.nodes[i].x, HalfPlate(l, Done(doc), c, i), x)
  {
    hide AllPlaceable, TwoSided, InRange, LayoutOf, SceneOf, Done, Path, OnPath, Covers, ClearOf, Shows, RightEdge, LeftEdge, HalfPlate, Away, ShareOf, LeftToRight;
    PathsBreakAtTheirPlates(doc, c, x);
    SceneShowsLayout(doc);
    ClearIsAway(SceneOf(doc, false), LayoutOf(doc), Done(doc), c, x);
  }

  lemma ClearIsAway(s: Scene, l: RoadmapLayout, done: nat, c: Category, x: real)
    requires Shows(s, l, done)
    ensures ClearOf(s, c, |s.cols|, x) <==> forall i :: 0 <= i < |l.nodes| ==> Away(l.nodes[i].x, HalfPlate(l, done, c, i), x)
  {
    hide Laid, UnderPlate, HalfPlate, Away, LaneY, Plate, CrossesAt;
    forall i | 0 <= i < |l.nodes| ensures UnderPlate(s, c, i, x) <==> !Away(l.nodes[i].x, HalfPlate(l, done, c, i), x) {
      UnderIsNear(s, l, done, c, i, x);
    }
  }

  predicate Away(centre: real, half: real, x: real) { x <= centre - half || centre + half <= x }

  lemma UnderIsNear(s: Scene, l: RoadmapLayout, done: nat, c: Category, i: nat, x: real)
    requires i < |s.cols| == |s.row.nodes| && s.row.nodes == l.nodes && !s.rounded
    requires Plate(s, c, i) == (if Above(done, c, i) then l.nodes[i].topWidth else l.nodes[i].bottomWidth)
    ensures UnderPlate(s, c, i, x) <==> !Away(l.nodes[i].x, HalfPlate(l, done, c, i), x)
  {
    hide Plate, Above;
  }

  // ----------------------------------------------------------------- bend

  /** The tension's share of a run, at most 0.8 of it. */
  function ShareOf(tension: real, run: real): real { (if tension > 0.8 then 0.8 else tension) * run }

  lemma CurveInPath(s: Scene, c: Category, k: nat)
    requires Laid(s) && k + 1 < |s.cols| && CrossesAt(s.cols, k)
    ensures |s.cols| == |s.row.nodes| && Curve(CrossCurve(s, k, LaneY(s, c, k), LaneY(s, c, k + 1))) in Path(s, c)
  {
    var g, n := Curve(CrossCurve(s, k, LaneY(s, c, k), LaneY(s, c, k + 1))), |s.cols| - 1;
    assert LaneY(s, c, k) != LaneY(s, c, k + 1);
    hide CrossCurve, Show, Plate;
    assert Connect(s, c, k)[1] == g;
    assert g in PathTo(s, c, k + 1);
    StaysOnPath(s, c, k + 1, n, g);
  }

  /**
   * The crossover bends from the wider plate of the last finished node to that of the next:
   * its control points lie in by the tension's share of the run, at most 0.8 of it, but never
   * by less than 44 nor by more than 0.48 of the run.
   */
  lemma CurveBendsExactly(doc: RoadmapDocument) returns (bend: Cubic)
    requires Drawable(doc) && 0 < Done(doc) < |doc.migrations|
    ensures var s, l, k := SceneOf(doc, false), LayoutOf(doc), Done(doc) - 1;
      var run, pull := bend.x3 - bend.x0, bend.x1 - bend.x0;
      var share := ShareOf(doc.layout.curveTension, run);
      && Curve(bend) in Path(s, Independent) && Curve(Mirror(bend)) in Path(s, Proprietary)
      && bend.x0 == RightEdge(l.nodes[k]) && bend.x3 == LeftEdge(l.nodes[k + 1])
      && bend.y0 == l.bands.topY && bend.y3 == l.bands.bottomY
      && bend.x3 - bend.x2 == pull && 44.0 <= pull <= 0.48 * run
      && (44.0 <= share <= 0.48 * run ==> pull == share)
      && (share < 44.0 ==> pull == 44.0) && (share > 0.48 * run ==> pull == 0.48 * run)
  {
    hide AllPlaceable, TwoSided, InRange, LayoutOf, SceneOf, Done, Path, OnPath, Covers, ClearOf, Shows, RightEdge, LeftEdge, HalfPlate, Away, ShareOf, LeftToRight;
    SceneShowsLayout(doc);
    TensionInRange(doc);
    bend := ShownBend(SceneOf(doc, false), LayoutOf(doc), Done(doc));
  }

  lemma TensionInRange(doc: RoadmapDocument)
    requires Drawable(doc)
    ensures 0.35 <= doc.layout.curveTension
  {
    hide AllPlaceable, TwoSided;
  }

  lemma ShownBend(s: Scene, l: RoadmapLayout, done: nat) returns (bend: Cubic)
    requires Shows(s, l, done) && 0 < done < |s.cols| && 0.35 <= s.tension
    ensures var run, pull := bend.x3 - bend.x0, bend.x1 - bend.x0;
      var share := ShareOf(s.tension, run);
      && Curve(bend) in Path(s, Independent) && Curve(Mirror(bend)) in Path(s, Proprietary)
      && bend.x0 == RightEdge(l.nodes[done - 1]) && bend.x3 == LeftEdge(l.nodes[done])
      && bend.y0 == l.bands.topY && bend.y3 == l.bands.bottomY
      && bend.x3 - bend.x2 == pull && 44.0 <= pull <= 0.48 * run
      && (44.0 <= share <= 0.48 * run ==> pull == share)
      && (share < 44.0 ==> pull == 44.0) && (share > 0.48 * run ==> pull == 0.48 * run)
  {
    hide Laid, LaneY, Plate, CrossesAt, CrossCurve, Forward, Pull, Show, LeaveLast, EnterFirst, RightEdge, LeftEdge, Path, ShareOf;
    var k := done - 1;
    assert CrossesAt(s.cols, k);
    bend := CrossCurve(s, k, s.topY, s.bottomY);
    CurveInPath(s, Independent, k); CurveInPath(s, Proprietary, k);
    CurveRunsForward(s, k, s.topY, s.bottomY);
    EdgesOf(s, k); EdgesOf(s, k + 1);
    BendOf(s, k);
    assert LaneY(s, Independent, k) == s.topY && LaneY(s, Independent, k + 1) == s.bottomY;
    assert LaneY(s, Proprietary, k) == s.bottomY && LaneY(s, Proprietary, k + 1) == s.topY;
  }

  lemma BendOf(s: Scene, k: nat)
    requires k + 1 < |s.row.nodes| && !s.rounded && 0.35 <= s.tension
    ensures var c := CrossCurve(s, k, s.topY, s.bottomY);
      var run, pull := c.x3 - c.x0, c.x1 - c.x0;
      var share := ShareOf(s.tension, run);
      && Mirror(c) == CrossCurve(s, k, s.bottomY, s.topY)
      && c.x0 == LeaveLast(s, k) && c.x3 == EnterFirst(s, k + 1) && c.y0 == s.topY && c.y3 == s.bottomY
      && pull == Pull(s, run) && c.x3 - c.x2 == pull
      && (run >= 120.0 && 44.0 <= share <= 0.48 * run ==> pull == share)
      && (run >= 120.0 && share < 44.0 ==> pull == 44.0) && (run >= 120.0 && share > 0.48 * run ==> pull == 0.48 * run)
  {
    hide CurveStart, CurveEnd;
    var c := CrossCurve(s, k, s.topY, s.bottomY);
    var run, t := c.x3 - c.x0, if s.tension > 0.8 then 0.8 else s.tension;
    assert Clamp(s.tension, 0.2, 0.8) == t;
    assert run * t == t * run;
  }
}
