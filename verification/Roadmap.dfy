/**
 * computeLayout: the document put through the order, the measures, the bands, the columns
 * and the paths.
 */
module Roadmap {
  import opened Document
  import opened Ordering
  import opened Measure
  import opened Curves
  import opened Layout
  import opened LanePaths

  datatype RoadmapLayout = RoadmapLayout(
    width: real, height: real, requestedWidth: real, requestedHeight: real,
    contentStart: real, contentEnd: real,
    titleY: real, subtitleY: real, bands: Bands, social: bool, metrics: Metrics,
    nodes: seq<Node>, order: seq<string>, crossovers: seq<nat>,
    viewMarkerX: Option<real>,
    independent: seq<Segment>, proprietary: seq<Segment>,
    grew: bool, spread: real)

  /** What validation and the editor's controls guarantee of a document. */
  ghost predicate Drawable(doc: RoadmapDocument) {
    AllPlaceable(doc.migrations) && TwoSided(doc) && InRange(doc.layout)
  }

  function Tops(row: seq<Migration>, viewDate: string): (r: seq<ServiceEntry>)
    requires AllPlaceable(row)
    ensures |r| == |row|
  {
    seq(|row|, i requires 0 <= i < |row| => LaneEntries(row[i], viewDate).top)
  }

  function Bottoms(row: seq<Migration>, viewDate: string): (r: seq<ServiceEntry>)
    requires AllPlaceable(row)
    ensures |r| == |row|
  {
    seq(|row|, i requires 0 <= i < |row| => LaneEntries(row[i], viewDate).bottom)
  }

  function DocBands(doc: RoadmapDocument): Bands
    requires AllPlaceable(doc.migrations)
  {
    var row, view := Chronological(doc.migrations), doc.timeline.viewDate;
    BandsOf(doc, MostLines(Tops(row, view)), MostLines(Bottoms(row, view)))
  }

  function DocFrame(doc: RoadmapDocument): Frame
    requires AllPlaceable(doc.migrations)
  {
    FrameOf(doc, DocBands(doc).laneSeparation)
  }

  function DocRow(doc: RoadmapDocument): (r: Row)
    requires AllPlaceable(doc.migrations)
    ensures |r.nodes| == |doc.migrations|
  {
    RowOf(DocFrame(doc), ColumnsOf(doc))
  }

  /** How many switches are done as of the document's viewing date. */
  function Done(doc: RoadmapDocument): (n: nat)
    requires AllPlaceable(doc.migrations)
    ensures n <= |doc.migrations|
  {
    ReachedCount(Chronological(doc.migrations), doc.timeline.viewDate)
  }

  function ViewMarkerX(nodes: seq<Node>, done: nat): Option<real> {
    if nodes == [] then None
    else if done == 0 then Some(nodes[0].x)
    else if done >= |nodes| then Some(nodes[|nodes| - 1].x)
    else Some((nodes[done - 1].x + nodes[done].x) / 2.0)
  }

  function SceneOf(doc: RoadmapDocument, rounded: bool): (s: Scene)
    requires AllPlaceable(doc.migrations)
    ensures |s.cols| == |s.row.nodes| == |doc.migrations|
  {
    var b := DocBands(doc);
    Scene(DocRow(doc), ColumnsOf(doc), doc.layout.outerMargin, b.topY, b.bottomY, doc.layout.curveTension, rounded)
  }

  function Ids(row: seq<Migration>): (r: seq<string>)
    ensures |r| == |row|
  {
    seq(|row|, i requires 0 <= i < |row| => row[i].id)
  }

  function LayoutOf(doc: RoadmapDocument): RoadmapLayout
    requires AllPlaceable(doc.migrations)
  {
    var b, r, s := DocBands(doc), DocRow(doc), SceneOf(doc, true);
    var outer, nodes := doc.layout.outerMargin, r.nodes;
    var requestedWidth, requestedHeight := Max(760.0, doc.layout.width), RequestedHeight(doc);
    RoadmapLayout(
      r.width, b.height, requestedWidth, requestedHeight,
      if nodes == [] then outer else Max(outer, nodes[0].x - nodes[0].topWidth / 2.0),
      if nodes == [] then r.width - outer
      else Min(r.width - outer, nodes[|nodes| - 1].x + nodes[|nodes| - 1].topWidth / 2.0),
      TitleY(doc), SubtitleY(doc), b, Social(doc), MetricsOf(doc),
      nodes, Ids(Chronological(doc.migrations)), Crossovers(ColumnsOf(doc)),
      ViewMarkerX(nodes, Done(doc)),
      Path(s, Independent), Path(s, Proprietary),
      !Fits(doc) && (r.width > requestedWidth || b.height > requestedHeight),
      r.spread)
  }

  // ------------------------------------------------------------- the loops

  method FindCrossovers(cols: seq<Column>) returns (r: seq<nat>)
    ensures r == Crossovers(cols)
  {
    r := [];
    var i := 0;
    while i < |cols| - 1
      invariant 0 <= i && (cols == [] ==> i == 0) && (cols != [] ==> i < |cols|)
      invariant r == CrossoversBelow(cols, i)
    {
      if cols[i].topCategory != cols[i + 1].topCategory { r := r + [i]; }
      i := i + 1;
    }
  }

  method PlaceNodes(start: real, gaps: seq<real>, cols: seq<Column>) returns (nodes: seq<Node>)
    requires |gaps| + 1 == |cols| || (cols == [] && gaps == [])
    ensures nodes == NodesAt(start, gaps, cols)
  {
    nodes := [];
    var cursor := start;
    for i := 0 to |cols|
      invariant |nodes| == i
      invariant cursor == start + Sum(gaps[..if i < |gaps| then i else |gaps|])
      invariant forall k :: 0 <= k < i ==> nodes[k] == NodesAt(start, gaps, cols)[k]
    {
      nodes := nodes + [Node(cursor, cols[i].width, cols[i].top, cols[i].bottom)];
      if i < |gaps| {
        SumStep(gaps, i);
        cursor := cursor + gaps[i];
      }
    }
  }

  /** The row and the crossovers, by the loops over the columns. */
  method BuildRow(f: Frame, cols: seq<Column>) returns (r: Row)
    ensures r == RowOf(f, cols)
  {
    var gaps := CenterGaps(cols, f.spacing, f.run);
    var gapSum := Sum(gaps);
    var spread := Spread(f, cols, gapSum);
    var nodes := PlaceNodes(f.outer + FirstHalf(cols), ResolvedGaps(gaps, spread), cols);
    r := Row(CanvasWidth(f, cols, gapSum), spread, nodes);
  }

  method ComputeLayout(doc: RoadmapDocument) returns (layout: RoadmapLayout)
    requires AllPlaceable(doc.migrations)
    ensures layout == LayoutOf(doc)
  {
    hide ReachedOn, Placeable, Chronological, ColumnsOf, DocBands, DocFrame, RowOf, MetricsOf, Path, Crossovers, Done, ReachedCount;
    var b, f, cols := DocBands(doc), DocFrame(doc), ColumnsOf(doc);
    var crossovers := FindCrossovers(cols);
    var r := BuildRow(f, cols);
    var s := Scene(r, cols, doc.layout.outerMargin, b.topY, b.bottomY, doc.layout.curveTension, true);
    assert s == SceneOf(doc, true);
    var independent := PathFor(s, Independent);
    var proprietary := PathFor(s, Proprietary);
    var outer, nodes := doc.layout.outerMargin, r.nodes;
    var requestedWidth, requestedHeight := Max(760.0, doc.layout.width), RequestedHeight(doc);
    layout := RoadmapLayout(
      r.width, b.height, requestedWidth, requestedHeight,
      if nodes == [] then outer else Max(outer, nodes[0].x - nodes[0].topWidth / 2.0),
      if nodes == [] then r.width - outer
      else Min(r.width - outer, nodes[|nodes| - 1].x + nodes[|nodes| - 1].topWidth / 2.0),
      TitleY(doc), SubtitleY(doc), b, Social(doc), MetricsOf(doc),
      nodes, Ids(Chronological(doc.migrations)), crossovers,
      ViewMarkerX(nodes, Done(doc)),
      independent, proprietary,
      !Fits(doc) && (r.width > requestedWidth || b.height > requestedHeight),
      r.spread);
  }

  // -------------------------------------------------------- one crossover

  /** The finished switches have their independent side on top, and they come first. */
  lemma IndependentIsOnTopOfDone(doc: RoadmapDocument, i: nat)
    requires AllPlaceable(doc.migrations) && TwoSided(doc) && i < |doc.migrations|
    ensures ColumnsOf(doc)[i].topCategory == if i < Done(doc) then Independent else Proprietary
  {
    hide ReachedOn, Placeable, ColumnWidth, PlateWidth;
    var row := Chronological(doc.migrations);
    ReachedIsAPrefix(doc.migrations, doc.timeline.viewDate);
    assert row[i] in doc.migrations;
    assert ColumnsOf(doc)[i] == ColumnOf(doc, row[i]);
  }

  lemma OnlyGapOfDone(doc: RoadmapDocument)
    requires AllPlaceable(doc.migrations) && TwoSided(doc)
    ensures forall i :: 0 <= i < |doc.migrations| - 1 ==> (CrossesAt(ColumnsOf(doc), i) <==> i + 1 == Done(doc))
  {
    hide ReachedOn, Placeable, ColumnsOf, Done;
    forall i | 0 <= i < |doc.migrations| - 1 ensures CrossesAt(ColumnsOf(doc), i) <==> i + 1 == Done(doc) {
      IndependentIsOnTopOfDone(doc, i); IndependentIsOnTopOfDone(doc, i + 1);
    }
  }

  lemma {:induction false} CrossoversOfOne(cols: seq<Column>, k: int, n: nat)
    requires n == 0 || n < |cols|
    requires forall i :: 0 <= i < n ==> (CrossesAt(cols, i) <==> i == k)
    ensures CrossoversBelow(cols, n) == if 0 <= k < n then [k] else []
  {
    if n > 0 { CrossoversOfOne(cols, k, n - 1); }
  }

  /** The lanes change places exactly once, after the last finished switch, or not at all. */
  lemma CrossoverFollowsDone(doc: RoadmapDocument)
    requires AllPlaceable(doc.migrations) && TwoSided(doc)
    ensures LayoutOf(doc).crossovers == if 0 < Done(doc) < |doc.migrations| then [Done(doc) - 1] else []
  {
    hide ReachedOn, Placeable, Chronological, ColumnOf, DocBands, DocRow, Path, SceneOf, MetricsOf, Done;
    OnlyGapOfDone(doc);
    CrossoversOfOne(ColumnsOf(doc), Done(doc) - 1, if doc.migrations == [] then 0 else |doc.migrations| - 1);
  }

  // ------------------------------------------------------ the scene is laid

  lemma PlatesAreWide(doc: RoadmapDocument, m: Migration)
    requires Placeable(m) && InRange(doc.layout)
    ensures ColumnOf(doc, m).top >= 54.0 && ColumnOf(doc, m).bottom >= 54.0
  {
    hide ReachedOn, Placeable, ColumnWidth;
  }

  lemma LanesAreApart(doc: RoadmapDocument)
    requires AllPlaceable(doc.migrations) && InRange(doc.layout)
    ensures DocBands(doc).topY < DocBands(doc).bottomY
  {
    hide ReachedOn, Placeable, Chronological, MetricsOf, TopY, MostLines;
  }

  lemma ColumnsAreWide(doc: RoadmapDocument, i: nat)
    requires AllPlaceable(doc.migrations) && InRange(doc.layout) && i < |doc.migrations|
    ensures ColumnsOf(doc)[i].top >= 54.0 && ColumnsOf(doc)[i].bottom >= 54.0
  {
    hide ReachedOn, Placeable, ColumnOf, InRange;
    var row := Chronological(doc.migrations);
    PlatesAreWide(doc, row[i]);
    assert ColumnsOf(doc)[i] == ColumnOf(doc, row[i]);
  }

  lemma SceneIsLaid(doc: RoadmapDocument, rounded: bool)
    requires AllPlaceable(doc.migrations) && InRange(doc.layout)
    ensures Laid(SceneOf(doc, rounded))
  {
    var s, f := SceneOf(doc, rounded), DocFrame(doc);
    assert s.row == RowOf(f, s.cols) && s.outer == f.outer && f.spacing >= 4.0 && f.run >= 120.0;
    assert s.topY < s.bottomY by { LanesAreApart(doc); }
    assert s.cols == ColumnsOf(doc);
    hide *;
    forall i | 0 <= i < |s.cols| ensures s.cols[i].top >= 54.0 && s.cols[i].bottom >= 54.0 {
      ColumnsAreWide(doc, i);
    }
    RowIsLaid(s, f);
  }

  // ------------------------------------------------------------ the results

  /**
   * The two category paths, as sets of points, have at most one point in common; they have
   * one exactly when some switches are finished and some are not. It holds of the exact
   * paths and of the paths as displayed.
   */
  lemma PathsMeetAtMostOnce(doc: RoadmapDocument, rounded: bool, x: real, y: real)
    requires Drawable(doc)
    ensures var s := SceneOf(doc, rounded);
      OnPath(Path(s, Independent), x, y) && OnPath(Path(s, Proprietary), x, y)
      <==> 0 < Done(doc) < |doc.migrations| && (x, y) == Meeting(s, Done(doc) - 1)
  {
    var s := SceneOf(doc, rounded);
    SceneIsLaid(doc, rounded);
    assert s.cols == ColumnsOf(doc);
    OnlyGapOfDone(doc);
    hide *;
    PathsMeet(s, Done(doc), x, y);
  }

  /** Before display rounding the meeting point is the middle of the gap, between the lanes. */
  lemma MeetingPointIsTheGapMiddle(doc: RoadmapDocument)
    requires Drawable(doc) && 0 < Done(doc) < |doc.migrations|
    ensures var s, k := SceneOf(doc, false), Done(doc) - 1;
      Meeting(s, k) == ((LeaveLast(s, k) + EnterFirst(s, k + 1)) / 2.0, (s.topY + s.bottomY) / 2.0)
  {
    hide ReachedOn, Placeable, Chronological, ColumnsOf, DocBands, DocRow, Done, X, Y;
    var s, k := SceneOf(doc, false), Done(doc) - 1;
    MidPoint(CrossCurve(s, k, s.topY, s.bottomY));
  }

  /** The viewing marker stands right of every finished node and left of every other. */
  lemma MarkerSplitsTheRow(doc: RoadmapDocument)
    requires AllPlaceable(doc.migrations) && InRange(doc.layout) && 0 < Done(doc) < |doc.migrations|
    ensures var l, done := LayoutOf(doc), Done(doc);
      && l.viewMarkerX.Some?
      && forall i :: 0 <= i < |l.nodes| ==>
           if i < done then l.nodes[i].x < l.viewMarkerX.value else l.viewMarkerX.value < l.nodes[i].x
  {
    hide *;
    SceneIsLaid(doc, true);
    LayoutParts(doc, true);
    MarkerBetween(SceneOf(doc, true), Done(doc));
  }

  lemma LayoutParts(doc: RoadmapDocument, rounded: bool)
    requires AllPlaceable(doc.migrations)
    ensures var s, l := SceneOf(doc, rounded), LayoutOf(doc);
      && s.row == DocRow(doc) && s.cols == ColumnsOf(doc) && s.outer == doc.layout.outerMargin
      && l.nodes == s.row.nodes && l.width == s.row.width
      && l.viewMarkerX == ViewMarkerX(s.row.nodes, Done(doc))
  {
    hide ReachedOn, Placeable, Chronological, ColumnsOf, DocBands, DocFrame, RowOf, MetricsOf, Path, Crossovers, Done, ReachedCount, Social, RequestedHeight, ViewMarkerX;
  }

  lemma MarkerBetween(s: Scene, done: nat)
    requires Laid(s) && 0 < done < |s.cols|
    ensures var m := ViewMarkerX(s.row.nodes, done);
      && m.Some?
      && forall i :: 0 <= i < |s.row.nodes| ==> if i < done then s.row.nodes[i].x < m.value else m.value < s.row.nodes[i].x
  {
    PlateSpan(s, Independent, done - 1); PlateSpan(s, Independent, done);
    PlatesAdvance(s, done - 1, done);
    hide Laid, LeaveLast, EnterFirst, Leave, Enter;
    forall i | 0 <= i < |s.row.nodes|
      ensures if i < done then Center(s, i) <= Center(s, done - 1) else Center(s, done) <= Center(s, i)
    {
      if i < done { CentersAdvance(s, i, done - 1); } else { CentersAdvance(s, done, i); }
    }
    assert forall i :: 0 <= i < |s.row.nodes| ==> s.row.nodes[i].x == Center(s, i);
  }

  /** Each category path runs from margin to margin and is broken by exactly its own plates. */
  lemma PathsBreakAtTheirPlates(doc: RoadmapDocument, c: Category, x: real)
    requires Drawable(doc) && doc.migrations != []
    ensures var s := SceneOf(doc, false);
      && LeftToRight(Path(s, c))
      && (Covers(Path(s, c), x) <==> s.outer <= x <= s.row.width - s.outer && ClearOf(s, c, |doc.migrations|, x))
      && (forall y :: OnPath(Path(s, c), x, y) ==> Covers(Path(s, c), x))
  {
    SceneIsLaid(doc, false);
    hide ReachedOn, Placeable, Chronological, ColumnsOf, DocBands, DocRow, Path, Laid;
    PathBreaksAtItsPlates(SceneOf(doc, false), c, x);
  }

  /** As laid out: how long the legend's labels may be on a social canvas. */
  lemma LegendStaysInsideExactly(doc: RoadmapDocument)
    requires AllPlaceable(doc.migrations) && Social(doc)
    ensures var l, outer := LayoutOf(doc), doc.layout.outerMargin;
      var first, second, s := Length(doc.labels.independent), Length(doc.labels.proprietary), l.metrics.scale;
      var x, printed := l.width / 2.0 - 215.0 * s, Max(13.64 * first, 120.0) + 13.64 * second;
      && outer <= x - l.metrics.legendDot
      && (x + LegendWidth(doc, l.metrics) <= l.width - outer <==> (printed - 139.0) * s <= l.width / 2.0 - outer)
      && (first + second <= 57.0 ==> x + LegendWidth(doc, l.metrics) <= l.width - outer)
  {
    hide LayoutOf, SceneOf, DocBands, ColumnsOf, RowOf, FrameOf, MetricsOf, LegendWidth, Length, Social, Max, ReachedOn, Placeable, Chronological, Done, ViewMarkerX;
    LayoutParts(doc, true); LayoutHeader(doc);
    SocialLegendStaysInsideExactly(doc, ColumnsOf(doc), DocBands(doc).laneSeparation);
  }

  /** Wherever no plate of its own covers it, the path has points as near as one likes. */
  lemma PathsLeaveNoOtherGap(doc: RoadmapDocument, c: Category, x: real, eps: real) returns (x': real, y': real)
    requires Drawable(doc) && doc.migrations != [] && eps > 0.0
    requires var s := SceneOf(doc, false); s.outer <= x <= s.row.width - s.outer && ClearOf(s, c, |doc.migrations|, x)
    ensures OnPath(Path(SceneOf(doc, false), c), x', y') && x - eps < x' <= x
  {
    PathsBreakAtTheirPlates(doc, c, x);
    hide *;
    x', y' := CoveredIsApproached(Path(SceneOf(doc, false), c), x, eps);
  }

  /** Columns as computeLayout returns them: apart by the spacing, inside the margins. */
  lemma ColumnsHaveTheirRoom(doc: RoadmapDocument, i: nat)
    requires AllPlaceable(doc.migrations) && i < |doc.migrations|
    ensures var l, spacing, last := LayoutOf(doc), Clamp(doc.layout.nodeSpacing, 4.0, 600.0), |doc.migrations| - 1;
      && doc.layout.outerMargin <= l.nodes[i].x - l.nodes[i].width / 2.0
      && l.nodes[i].x + l.nodes[i].width / 2.0 <= l.width - doc.layout.outerMargin
      && (i < last ==> l.nodes[i].x + l.nodes[i].width / 2.0 + spacing <= l.nodes[i + 1].x - l.nodes[i + 1].width / 2.0)
      && (!Fits(doc) && last > 0 ==> l.nodes[last].x + l.nodes[last].width / 2.0 == l.width - doc.layout.outerMargin)
  {
    var f, cols := DocFrame(doc), ColumnsOf(doc);
    assert f.outer == doc.layout.outerMargin && f.spacing == Clamp(doc.layout.nodeSpacing, 4.0, 600.0) && f.fits == Fits(doc);
    assert LayoutOf(doc).nodes == RowOf(f, cols).nodes && LayoutOf(doc).width == RowOf(f, cols).width;
    hide ReachedOn, Placeable, Chronological, ColumnsOf, DocBands, DocFrame, LayoutOf, RowOf;
    ColumnsStayInside(f, cols, i);
    LastColumn(f, cols);
    if i + 1 < |cols| { ColumnsNeverCollide(f, cols, i); }
  }

  // ---------------------------------------------------------- up and down

  lemma HiddenBands(doc: RoadmapDocument)
    requires AllPlaceable(doc.migrations)
    ensures var row, view, hidden := Chronological(doc.migrations), doc.timeline.viewDate, doc.(metadata := doc.metadata.(showTitle := false));
      && DocBands(doc) == BandsOf(doc, MostLines(Tops(row, view)), MostLines(Bottoms(row, view)))
      && DocBands(hidden) == BandsOf(hidden, MostLines(Tops(row, view)), MostLines(Bottoms(row, view)))
      && LayoutOf(doc).height == DocBands(doc).height && LayoutOf(hidden).height == DocBands(hidden).height
      && LayoutOf(doc).bands == DocBands(doc) && LayoutOf(hidden).bands == DocBands(hidden)
  {
    hide ReachedOn, Placeable, Chronological, Tops, Bottoms, MostLines, BandsOf, DocRow, SceneOf, Path, Crossovers, ColumnsOf, Done, MetricsOf;
  }

  /** As laid out: with the subtitle shown, hiding the title never makes the canvas taller. */
  lemma HidingTitleNeverTallens(doc: RoadmapDocument)
    requires AllPlaceable(doc.migrations) && doc.metadata.showSubtitle
    ensures LayoutOf(doc.(metadata := doc.metadata.(showTitle := false))).height <= LayoutOf(doc).height
  {
    HiddenBands(doc);
    var row, view := Chronological(doc.migrations), doc.timeline.viewDate;
    hide LayoutOf, DocBands, Chronological, Placeable, ReachedOn, BandsOf, Tops, Bottoms, MostLines;
    HidingTitleNeverGrows(doc, MostLines(Tops(row, view)), MostLines(Bottoms(row, view)));
  }

  /** As laid out: without the subtitle, the exact condition on which hiding the title lowers no lane. */
  lemma HidingOnlyTitleLowersExactly(doc: RoadmapDocument)
    requires AllPlaceable(doc.migrations) && doc.metadata.showTitle && !doc.metadata.showSubtitle
    ensures var l, hidden := LayoutOf(doc), LayoutOf(doc.(metadata := doc.metadata.(showTitle := false)));
      hidden.bands.topY <= l.bands.topY
      <==> || doc.layout.outerMargin <= l.titleY + 0.4 * l.metrics.subtitle + 18.0 * l.metrics.scale
           || (doc.layout.widthMode == Fixed
               && doc.layout.outerMargin + Headroom(doc) <= Round(l.requestedHeight * (if l.social then 0.38 else 0.39)))
  {
    hide LayoutOf, DocBands, Chronological, Placeable, ReachedOn, Tops, Bottoms, MostLines, BandsOf, TopY, Headroom, Round, Social, MetricsOf, TitleY, RequestedHeight;
    var hidden, row, view := doc.(metadata := doc.metadata.(showTitle := false)), Chronological(doc.migrations), doc.timeline.viewDate;
    HiddenBands(doc);
    LayoutHeader(doc);
    TopOfBands(doc, MostLines(Tops(row, view)), MostLines(Bottoms(row, view)));
    TopOfBands(hidden, MostLines(Tops(row, view)), MostLines(Bottoms(row, view)));
    HidingOnlyTitleExactly(doc);
  }

  lemma LayoutHeader(doc: RoadmapDocument)
    requires AllPlaceable(doc.migrations)
    ensures var l := LayoutOf(doc);
      l.titleY == TitleY(doc) && l.metrics == MetricsOf(doc) && l.social == Social(doc) && l.requestedHeight == RequestedHeight(doc)
  {
    hide ReachedOn, Placeable, Chronological, DocBands, DocRow, SceneOf, Path, Crossovers, ColumnsOf, Done, MetricsOf, TitleY, Social, RequestedHeight;
  }

  /**
   * As laid out and drawn: for every node the label of the top plate ends above the lower
   * lane's own label, and the label of the bottom plate above the timeline's.
   */
  lemma LabelsEndAboveTheNextBand(doc: RoadmapDocument, i: nat)
    requires AllPlaceable(doc.migrations) && i < |doc.migrations|
    ensures var l, lanes := LayoutOf(doc), LaneEntries(Chronological(doc.migrations)[i], doc.timeline.viewDate);
      && LabelEnd(l.bands.topY, lanes.top, l.metrics) <= l.bands.bottomY - l.metrics.laneLabelOffset - 1.3 * l.metrics.lane
      && LabelEnd(l.bands.bottomY, lanes.bottom, l.metrics) + 10.0 <= l.bands.timelineY - l.metrics.timelineLabelOffset - 1.4 * l.metrics.lane
  {
    HiddenBands(doc); LayoutHeader(doc);
    hide LayoutOf, DocBands, Chronological, Placeable, ReachedOn, MostLines, MetricsOf, LaneEntries, BandsOf, LabelEnd, Social;
    var row, view := Chronological(doc.migrations), doc.timeline.viewDate;
    var tops, bottoms, lanes := Tops(row, view), Bottoms(row, view), LaneEntries(row[i], view);
    assert tops[i] == lanes.top && bottoms[i] == lanes.bottom;
    LabelsClear(doc, tops, bottoms, lanes.top, lanes.bottom);
  }

  /** The content begins and ends with the outer plates of the top lane, inside the margins. */
  lemma ContentSpansTheTopPlates(doc: RoadmapDocument)
    requires AllPlaceable(doc.migrations) && InRange(doc.layout) && doc.migrations != []
    ensures var l, last := LayoutOf(doc), |doc.migrations| - 1;
      && l.contentStart == l.nodes[0].x - l.nodes[0].topWidth / 2.0
      && l.contentEnd == l.nodes[last].x + l.nodes[last].topWidth / 2.0
      && doc.layout.outerMargin <= l.contentStart < l.contentEnd <= l.width - doc.layout.outerMargin
  {
    var s, last := SceneOf(doc, false), |doc.migrations| - 1;
    SceneIsLaid(doc, false);
    LayoutParts(doc, false);
    LayoutEnds(doc);
    assert |s.cols| == last + 1;
    hide LayoutOf, SceneOf, Laid, DocRow, ColumnsOf, AllPlaceable, InRange;
    SpanOfScene(s, last);
  }

  lemma LayoutEnds(doc: RoadmapDocument)
    requires AllPlaceable(doc.migrations) && doc.migrations != []
    ensures var l, last := LayoutOf(doc), |doc.migrations| - 1;
      && l.contentStart == Max(doc.layout.outerMargin, l.nodes[0].x - l.nodes[0].topWidth / 2.0)
      && l.contentEnd == Min(l.width - doc.layout.outerMargin, l.nodes[last].x + l.nodes[last].topWidth / 2.0)
  {
    hide ReachedOn, Placeable, Chronological, ColumnsOf, DocBands, DocFrame, RowOf, MetricsOf, Path, Crossovers, Done, ReachedCount, Social, RequestedHeight, ViewMarkerX, Max, Min;
  }

  lemma SpanOfScene(s: Scene, last: nat)
    requires Laid(s) && last + 1 == |s.cols|
    ensures var n := s.row.nodes;
      s.outer <= n[0].x - n[0].topWidth / 2.0 < n[last].x + n[last].topWidth / 2.0 <= s.row.width - s.outer
  {
    CentersAdvance(s, 0, last);
    assert s.outer <= EnterFirst(s, 0) && LeaveLast(s, last) <= s.row.width - s.outer;
  }

  /** Documents of automatic width that differ in nothing but the spacing of their nodes. */
  lemma WiderSpacingOnlyMovesRight(doc: RoadmapDocument, spacing: real)
    requires AllPlaceable(doc.migrations) && Fits(doc) && doc.layout.nodeSpacing <= spacing
    ensures var wide := doc.(layout := doc.layout.(nodeSpacing := spacing));
      && LayoutOf(doc).width <= LayoutOf(wide).width
      && forall i :: 0 <= i < |doc.migrations| ==> LayoutOf(doc).nodes[i].x <= LayoutOf(wide).nodes[i].x
  {
    var wide := doc.(layout := doc.layout.(nodeSpacing := spacing));
    SpacingChangesNothingElse(doc, spacing);
    hide ReachedOn, Placeable, Chronological, ColumnsOf, DocBands, RowOf, Path, MetricsOf;
    WiderSpacingNeverShrinks(DocFrame(doc), DocFrame(wide), ColumnsOf(doc));
  }

  lemma SpacingChangesNothingElse(doc: RoadmapDocument, spacing: real)
    requires AllPlaceable(doc.migrations)
    ensures var wide := doc.(layout := doc.layout.(nodeSpacing := spacing));
      && ColumnsOf(wide) == ColumnsOf(doc)
      && DocFrame(wide) == DocFrame(doc).(spacing := Clamp(spacing, 4.0, 600.0))
  {
    hide ReachedOn, Placeable, Chronological, ColumnOf, MetricsFor, LegendWidth, BrandWidth, DocBands, CrossoverRun;
    var wide := doc.(layout := doc.layout.(nodeSpacing := spacing));
    var row := Chronological(doc.migrations);
    forall m | Placeable(m) ensures ColumnOf(wide, m) == ColumnOf(doc, m) { SpacingKeepsColumn(doc, spacing, m); }
    SpacingKeepsBands(doc, spacing);
    assert MetricsOf(wide) == MetricsOf(doc);
    assert forall i :: 0 <= i < |row| ==> ColumnsOf(wide)[i] == ColumnOf(wide, row[i]) == ColumnsOf(doc)[i];
    assert LegendWidth(wide, MetricsOf(wide)) == LegendWidth(doc, MetricsOf(doc)) by { LegendIgnoresSpacing(doc, spacing, MetricsOf(doc)); }
  }

  lemma LegendIgnoresSpacing(doc: RoadmapDocument, spacing: real, m: Metrics)
    ensures LegendWidth(doc.(layout := doc.layout.(nodeSpacing := spacing)), m) == LegendWidth(doc, m)
  {
  }

  lemma SpacingKeepsColumn(doc: RoadmapDocument, spacing: real, m: Migration)
    requires Placeable(m)
    ensures ColumnOf(doc.(layout := doc.layout.(nodeSpacing := spacing)), m) == ColumnOf(doc, m)
  {
    hide MetricsFor, LaneEntries, DisplayLabel, Placeable, LabelWidth, PlateFor, TextScale, Social, DateWidth, CategoryWidth;
    var wide := doc.(layout := doc.layout.(nodeSpacing := spacing));
    assert TextScale(wide) == TextScale(doc) && Social(wide) == Social(doc) by { SpacingKeepsScale(doc, spacing); }
    assert MetricsOf(wide) == MetricsOf(doc);
    assert wide.timeline == doc.timeline && wide.metadata == doc.metadata;
  }

  lemma SpacingKeepsScale(doc: RoadmapDocument, spacing: real)
    ensures var wide := doc.(layout := doc.layout.(nodeSpacing := spacing));
      TextScale(wide) == TextScale(doc) && Social(wide) == Social(doc)
  {
  }

  lemma SpacingKeepsBands(doc: RoadmapDocument, spacing: real)
    requires AllPlaceable(doc.migrations)
    ensures DocBands(doc.(layout := doc.layout.(nodeSpacing := spacing))) == DocBands(doc)
  {
    hide ReachedOn, Placeable, Chronological, Tops, Bottoms, MostLines, MetricsFor, LabelReach, Round, Ceil;
    var wide := doc.(layout := doc.layout.(nodeSpacing := spacing));
    assert MetricsOf(wide) == MetricsOf(doc) && Social(wide) == Social(doc) && TextScale(wide) == TextScale(doc);
    hide MetricsOf, Social, TextScale;
  }
}
