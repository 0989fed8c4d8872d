/**
 * How close everything stands: the distances the layout keeps are the least that are allowed.
 */
module Spacing {
  import opened Document
  import opened Ordering
  import opened Wrapping
  import opened Measure
  import opened Layout
  import opened Roadmap

  // ------------------------------------------------------------- across

  /** What the layout is made of, part by part. */
  lemma LayoutOfRow(doc: RoadmapDocument)
    requires AllPlaceable(doc.migrations)
    ensures var l, f, cols := LayoutOf(doc), DocFrame(doc), ColumnsOf(doc);
      && l.nodes == RowOf(f, cols).nodes && l.width == RowOf(f, cols).width && l.spread == RowOf(f, cols).spread
      && |l.nodes| == |cols| == |doc.migrations|
      && l.bands == DocBands(doc) && l.metrics == MetricsOf(doc)
      && f == FrameOf(doc, l.bands.laneSeparation)
  {
    hide ReachedOn, Placeable, Chronological, ColumnsOf, DocBands, RowOf, MetricsOf, FrameOf, TitleY, Social, RequestedHeight, Done, Crossovers;
  }

  /** The set spacing, and the run of a crossover: the lane distance by the tension, or 120. */
  function SpacingOf(doc: RoadmapDocument): real { Clamp(doc.layout.nodeSpacing, 4.0, 600.0) }

  function RunOf(doc: RoadmapDocument, laneSeparation: real): real {
    Max(120.0, laneSeparation * Clamp(doc.layout.curveTension, 0.35, 1.4))
  }

  lemma FrameParts(doc: RoadmapDocument, laneSeparation: real)
    ensures var f := FrameOf(doc, laneSeparation);
      && f.fits == (doc.layout.widthMode == Auto) && f.outer == doc.layout.outerMargin && f.settingWidth == doc.layout.width
      && f.spacing == SpacingOf(doc) && f.run == RunOf(doc, laneSeparation) && f.bottomRow == BottomRow(doc)
  {
    hide MetricsOf, LegendWidth, BrandWidth;
  }

  lemma ColumnAt(doc: RoadmapDocument, i: nat)
    requires AllPlaceable(doc.migrations) && i < |doc.migrations|
    ensures var m := Chronological(doc.migrations)[i];
      && Placeable(m)
      && var lanes := LaneEntries(m, doc.timeline.viewDate);
         ColumnsOf(doc)[i] == Column(ColumnWidth(doc, m), PlateWidth(lanes.top, doc), PlateWidth(lanes.bottom, doc), lanes.top.category)
  {
    hide Placeable, Chronological, ColumnWidth, PlateWidth, LaneEntries;
    var row := Chronological(doc.migrations);
    assert row[i] in row;
    assert ColumnsOf(doc)[i] == ColumnOf(doc, row[i]);
  }

  /** The two gaps between neighbouring nodes, of their columns and of their wider plates. */
  function BetweenColumns(a: Node, b: Node): real { (b.x - b.width / 2.0) - (a.x + a.width / 2.0) }

  function BetweenPlates(a: Node, b: Node): real {
    (b.x - Max(b.topWidth, b.bottomWidth) / 2.0) - (a.x + Max(a.topWidth, a.bottomWidth) / 2.0)
  }

  lemma GapOfRow(f: Frame, cols: seq<Column>, i: nat)
    requires i + 1 < |cols|
    ensures var r := RowOf(f, cols);
      var columns, plates := BetweenColumns(r.nodes[i], r.nodes[i + 1]) - r.spread, BetweenPlates(r.nodes[i], r.nodes[i + 1]) - r.spread;
      if !CrossesAt(cols, i) then columns == f.spacing
      else columns >= f.spacing && plates >= f.run && (columns == f.spacing || plates == f.run)
  {
    NodeStep(f, cols, i);
  }

  /**
   * Neighbouring columns stand the set spacing apart, and no further. Only where the lanes
   * change places is the gap the least one that leaves that spacing between the columns and,
   * between the wider plates, the run of the crossover. On a canvas of exact size each gap
   * gets the same addition.
   */
  lemma NeighboursStandExactly(doc: RoadmapDocument, i: nat)
    requires AllPlaceable(doc.migrations) && TwoSided(doc) && i + 1 < |doc.migrations|
    ensures var l, a, b := LayoutOf(doc), LayoutOf(doc).nodes[i], LayoutOf(doc).nodes[i + 1];
      var columns, plates := BetweenColumns(a, b) - l.spread, BetweenPlates(a, b) - l.spread;
      var spacing := SpacingOf(doc);
      var run := RunOf(doc, l.bands.laneSeparation);
      if i + 1 != Done(doc) then columns == spacing
      else columns >= spacing && plates >= run && (columns == spacing || plates == run)
  {
    hide *;
    LayoutOfRow(doc);
    OnlyGapOfDone(doc);
    FrameParts(doc, LayoutOf(doc).bands.laneSeparation);
    assert CrossesAt(ColumnsOf(doc), i) <==> i + 1 == Done(doc);
    GapOfRow(DocFrame(doc), ColumnsOf(doc), i);
  }

  /** The row begins at the margin, and only an exact-size canvas of two or more nodes spreads it. */
  lemma RowBeginsAtTheMargin(doc: RoadmapDocument)
    requires AllPlaceable(doc.migrations)
    ensures var l := LayoutOf(doc);
      && (doc.migrations != [] ==> l.nodes[0].x - l.nodes[0].width / 2.0 == doc.layout.outerMargin)
      && (doc.layout.widthMode == Auto || |doc.migrations| <= 1 ==> l.spread == 0.0)
  {
    hide LayoutOf, ColumnsOf, AllPlaceable, DocFrame, DocBands, MetricsOf, FrameOf, RowOf;
    LayoutOfRow(doc);
    FrameParts(doc, LayoutOf(doc).bands.laneSeparation);
    FirstOfRow(DocFrame(doc), ColumnsOf(doc));
  }

  lemma FirstOfRow(f: Frame, cols: seq<Column>)
    ensures var r := RowOf(f, cols);
      && (cols != [] ==> r.nodes[0].x == f.outer + cols[0].width / 2.0 && r.nodes[0].width == cols[0].width)
      && (f.fits || |cols| <= 1 ==> r.spread == 0.0)
  {
  }

  // ------------------------------------------------------------ the canvas

  /** The least whole number that is no less than any of them. */
  ghost predicate LeastWhole(w: real, needs: seq<real>) {
    && w == w.Floor as real
    && (forall k :: 0 <= k < |needs| ==> needs[k] <= w)
    && exists k :: 0 <= k < |needs| && w < needs[k] + 1.0
  }

  lemma CeilIsLeastWhole(w: real, needs: seq<real>, k: nat)
    requires k < |needs| && w == Ceil(needs[k]) && forall j :: 0 <= j < |needs| ==> needs[j] <= needs[k]
    ensures LeastWhole(w, needs)
  {
    assert w == (-((-needs[k]).Floor)) as real;
    assert needs[k] <= w < needs[k] + 1.0;
  }

  /** What the bottom row needs: margins, legend, 48 text units and signature. */
  function BottomRow(doc: RoadmapDocument): real {
    var m := MetricsOf(doc);
    2.0 * doc.layout.outerMargin + LegendWidth(doc, m) + 48.0 * m.scale + BrandWidth(m)
  }

  /** What the columns need, the margins with them: up to where the last one ends, spread aside. */
  function ContentOf(auto: bool, nodes: seq<Node>, spread: real, outer: real): real {
    if nodes == [] then (if auto then 1200.0 else 760.0)
    else var last := |nodes| - 1; nodes[last].x + nodes[last].width / 2.0 - last as real * spread + outer
  }

  /** What an exact-size canvas has to hold besides the bottom row and the columns. */
  function NeedsOf(auto: bool, bottomRow: real, content: real, settingWidth: real): seq<real> {
    [bottomRow, content] + if auto then [] else [760.0, settingWidth]
  }

  /**
   * The canvas is the least whole number of units wide that holds the bottom row and the
   * columns; an empty roadmap opens at 1200, and on an exact-size canvas the set width counts
   * too, from 760 on.
   */
  lemma CanvasIsLeast(doc: RoadmapDocument)
    requires AllPlaceable(doc.migrations)
    ensures var l, auto := LayoutOf(doc), doc.layout.widthMode == Auto;
      LeastWhole(l.width, NeedsOf(auto, BottomRow(doc), ContentOf(auto, l.nodes, l.spread, doc.layout.outerMargin), doc.layout.width))
  {
    hide LayoutOf, ColumnsOf, AllPlaceable, DocFrame, DocBands, BottomRow, FrameOf, RowOf, CrossoverRun, MetricsOf, NeedsOf, ContentOf, LeastWhole;
    LayoutOfRow(doc);
    var l, f, cols := LayoutOf(doc), DocFrame(doc), ColumnsOf(doc);
    FrameParts(doc, l.bands.laneSeparation);
    CanvasOfRow(f, cols);
  }

  lemma CanvasOfRow(f: Frame, cols: seq<Column>)
    ensures var r := RowOf(f, cols);
      LeastWhole(r.width, NeedsOf(f.fits, f.bottomRow, ContentOf(f.fits, r.nodes, r.spread, f.outer), f.settingWidth))
  {
    hide RowOf, LeastWhole, Ceil, Sum, FirstHalf, LastHalf, NeedsOf;
    var r, gapSum := RowOf(f, cols), Sum(CenterGaps(cols, f.spacing, f.run));
    RowParts(f, cols);
    if cols != [] {
      GapSum(f, cols);
      assert f.outer * 2.0 + FirstHalf(cols) + LastHalf(cols) + gapSum == ContentOf(f.fits, r.nodes, r.spread, f.outer);
    }
    WidthFrom(f, cols, gapSum, ContentOf(f.fits, r.nodes, r.spread, f.outer));
    WidthNeeded(f, f.bottomRow, ContentOf(f.fits, r.nodes, r.spread, f.outer), r.width);
  }

  lemma WidthFrom(f: Frame, cols: seq<Column>, gapSum: real, content: real)
    requires content == if cols == [] then (if f.fits then 1200.0 else 760.0) else f.outer * 2.0 + FirstHalf(cols) + LastHalf(cols) + gapSum
    ensures CanvasWidth(f, cols, gapSum)
         == Ceil(if f.fits then Max(f.bottomRow, content) else Max(Max(760.0, f.settingWidth), Max(f.bottomRow, content)))
  {
    hide FirstHalf, LastHalf, Ceil;
  }

  lemma WidthNeeded(f: Frame, bottomRow: real, content: real, w: real)
    requires w == Ceil(if f.fits then Max(bottomRow, content) else Max(Max(760.0, f.settingWidth), Max(bottomRow, content)))
    ensures LeastWhole(w, NeedsOf(f.fits, bottomRow, content, f.settingWidth))
  {
    hide LeastWhole, Ceil;
    var needs := NeedsOf(f.fits, bottomRow, content, f.settingWidth);
    assert needs[0] == bottomRow && needs[1] == content && (!f.fits ==> needs[2] == 760.0 && needs[3] == f.settingWidth);
    var k := if f.fits then (if bottomRow >= content then 0 else 1)
             else if bottomRow >= content && bottomRow >= 760.0 && bottomRow >= f.settingWidth then 0
             else if content >= 760.0 && content >= f.settingWidth then 1
             else if 760.0 >= f.settingWidth then 2 else 3;
    CeilIsLeastWhole(w, needs, k);
  }

  // --------------------------------------------------------------- columns

  /** The greatest of them: none is greater, and it is one of them. */
  ghost predicate Greatest(w: real, parts: seq<real>) {
    (exists k :: 0 <= k < |parts| && parts[k] == w) && forall k :: 0 <= k < |parts| ==> parts[k] <= w
  }

  /** The longest printed line of a label, in characters, or one. */
  ghost predicate Longest(n: nat, labelText: string) {
    && (n == 1 || exists k :: 0 <= k < |LabelLines(labelText, 22)| && n == |LabelLines(labelText, 22)[k]|)
    && n >= 1 && forall k :: 0 <= k < |LabelLines(labelText, 22)| ==> |LabelLines(labelText, 22)[k]| <= n
  }

  lemma {:induction false} LongestIs(lines: seq<string>)
    ensures forall k :: 0 <= k < |lines| ==> |lines[k]| <= LongestLine(lines)
    ensures LongestLine(lines) == 1 || exists k :: 0 <= k < |lines| && LongestLine(lines) == |lines[k]|
  {
    if lines != [] {
      LongestIs(lines[1..]);
      if LongestLine(lines) != |lines[0]| && LongestLine(lines) != 1 {
        var k :| 0 <= k < |lines[1..]| && LongestLine(lines) == |lines[1..][k]|;
        assert lines[k + 1] == lines[1..][k];
      }
      forall k | 0 <= k < |lines| ensures |lines[k]| <= LongestLine(lines) {
        if k > 0 { assert lines[k] == lines[1..][k - 1]; }
      }
    }
  }

  /** A label's room: 0.56 of the type size for each character and 16, but at most 260 at size 14. */
  function LabelRoom(chars: nat, size: real): real { Min(260.0 * size / 14.0, chars as real * size * 0.56 + 16.0) }

  /** A plate's room: icons of the set size 8 apart, one at least, with 26 around them. */
  function PlateRoom(icons: nat, doc: RoadmapDocument): real {
    var n := if icons == 0 then 1.0 else icons as real;
    n * doc.layout.iconSize + (n - 1.0) * 8.0 + 26.0
  }

  ghost predicate IsPlate(w: real, icons: nat, doc: RoadmapDocument) {
    Greatest(w, [doc.layout.minNodeWidth, PlateRoom(icons, doc)])
  }

  lemma PlateIs(entry: ServiceEntry, doc: RoadmapDocument)
    ensures IsPlate(PlateWidth(entry, doc), |entry.icons|, doc)
  {
    PlateIsGreater(entry, doc);
    hide PlateWidth, PlateRoom, Greatest, Max;
    GreatestOfTwo(doc.layout.minNodeWidth, PlateRoom(|entry.icons|, doc));
  }

  lemma PlateIsGreater(entry: ServiceEntry, doc: RoadmapDocument)
    ensures PlateWidth(entry, doc) == Max(doc.layout.minNodeWidth, PlateRoom(|entry.icons|, doc))
  {
    assert 1.0 * doc.layout.iconSize + (1.0 - 1.0) * 8.0 == doc.layout.iconSize;
  }

  /** All that a column holds: the plates, the longest label lines, the date, the category text. */
  function PartsOf(doc: RoadmapDocument, m: Migration, metrics: Metrics, topPlate: real, bottomPlate: real, top: nat, bottom: nat): seq<real> {
    [topPlate, bottomPlate, LabelRoom(top, metrics.nodeLabel), LabelRoom(bottom, metrics.nodeLabel),
     |DisplayLabel(m, doc.timeline.fullDateFormat)| as real * metrics.date * 0.62 + 12.0,
     if doc.metadata.showCategories && doc.metadata.categoryDisplay != AsIcon
     then |m.categoryLabel| as real * metrics.category * 0.62 + 12.0 else 0.0, 86.0]
  }

  /**
   * Each column is as wide as the widest thing in it: the two plates, the two labels, the
   * date, the category where its text is shown, or 86.
   */
  lemma ColumnsAreMeasured(doc: RoadmapDocument, i: nat) returns (top: nat, bottom: nat)
    requires AllPlaceable(doc.migrations) && i < |doc.migrations|
    ensures var l, n, m := LayoutOf(doc), LayoutOf(doc).nodes[i], Chronological(doc.migrations)[i];
      && Placeable(m)
      && var lanes := LaneEntries(m, doc.timeline.viewDate);
      && Longest(top, lanes.top.labelText) && Longest(bottom, lanes.bottom.labelText)
      && IsPlate(n.topWidth, |lanes.top.icons|, doc) && IsPlate(n.bottomWidth, |lanes.bottom.icons|, doc)
      && Greatest(n.width, PartsOf(doc, m, l.metrics, n.topWidth, n.bottomWidth, top, bottom))
  {
    hide RowOf, DocFrame, AllPlaceable, LayoutOf, Placeable, Chronological, ColumnsOf, MetricsOf, LabelLines, LongestLine, LaneEntries, DisplayLabel, PlateWidth, IsPlate, Greatest, ColumnWidth, PartsOf;
    var m := Chronological(doc.migrations)[i];
    LayoutOfRow(doc); ColumnAt(doc, i);
    NodeOfRow(DocFrame(doc), ColumnsOf(doc), i);
    var lanes, size := LaneEntries(m, doc.timeline.viewDate), MetricsOf(doc).nodeLabel;
    top, bottom := LongestLine(LabelLines(lanes.top.labelText, 22)), LongestLine(LabelLines(lanes.bottom.labelText, 22));
    LongestIs(LabelLines(lanes.top.labelText, 22)); LongestIs(LabelLines(lanes.bottom.labelText, 22));
    PlateIs(lanes.top, doc); PlateIs(lanes.bottom, doc);
    ColumnIsGreatest(doc, m, lanes, top, bottom);
  }

  lemma NodeOfRow(f: Frame, cols: seq<Column>, i: nat)
    requires i < |cols|
    ensures var n := RowOf(f, cols).nodes[i]; n.width == cols[i].width && n.topWidth == cols[i].top && n.bottomWidth == cols[i].bottom
  {
  }

  lemma ColumnIsGreatest(doc: RoadmapDocument, m: Migration, lanes: Lanes, top: nat, bottom: nat)
    requires Placeable(m) && lanes == LaneEntries(m, doc.timeline.viewDate)
    requires top == LongestLine(LabelLines(lanes.top.labelText, 22)) && bottom == LongestLine(LabelLines(lanes.bottom.labelText, 22))
    ensures var metrics := MetricsOf(doc);
      Greatest(ColumnWidth(doc, m),
        PartsOf(doc, m, metrics, PlateWidth(lanes.top, doc), PlateWidth(lanes.bottom, doc), top, bottom))
  {
    hide Placeable, MetricsOf, LabelLines, LongestLine, LaneEntries, DisplayLabel, PlateWidth, Max, LabelRoom, LabelWidth, DateWidth, CategoryWidth;
    var metrics := MetricsOf(doc);
    RoomIs(lanes.top.labelText, metrics.nodeLabel); RoomIs(lanes.bottom.labelText, metrics.nodeLabel);
    TextsAre(doc, m);
    var parts := PartsOf(doc, m, metrics, PlateWidth(lanes.top, doc), PlateWidth(lanes.bottom, doc), top, bottom);
    assert parts[3] == LabelWidth(lanes.bottom.labelText, metrics.nodeLabel);
    assert parts[4] == DateWidth(m, doc.timeline.fullDateFormat, metrics);
    assert parts[5] == CategoryWidth(m, doc.metadata, metrics) && parts[6] == 86.0;
    MaxIsGreatest(ColumnWidth(doc, m), parts);
  }

  lemma TextsAre(doc: RoadmapDocument, m: Migration)
    ensures var metrics := MetricsOf(doc);
      && DateWidth(m, doc.timeline.fullDateFormat, metrics) == |DisplayLabel(m, doc.timeline.fullDateFormat)| as real * metrics.date * 0.62 + 12.0
      && CategoryWidth(m, doc.metadata, metrics)
         == if doc.metadata.showCategories && doc.metadata.categoryDisplay != AsIcon
            then |m.categoryLabel| as real * metrics.category * 0.62 + 12.0 else 0.0
  {
    hide MetricsOf, DisplayLabel;
  }

  lemma RoomIs(labelText: string, size: real)
    ensures LabelWidth(labelText, size) == LabelRoom(LongestLine(LabelLines(labelText, 22)), size)
  {
    hide LabelLines, LongestLine;
  }

  lemma MaxIsGreatest(w: real, parts: seq<real>)
    requires |parts| == 7
    requires w == Max(parts[0], Max(parts[1], Max(parts[2], Max(parts[3], Max(parts[4], Max(parts[5], parts[6]))))))
    ensures Greatest(w, parts)
  {
    assert w == parts[0] || w == parts[1] || w == parts[2] || w == parts[3] || w == parts[4] || w == parts[5] || w == parts[6];
  }

  // -------------------------------------------------------------- downwards

  /** The most lines any of these labels prints, or one. */
  ghost predicate IsMost(n: nat, entries: seq<ServiceEntry>) {
    && n >= 1 && (forall k :: 0 <= k < |entries| ==> |LabelLines(entries[k].labelText, 22)| <= n)
    && (n == 1 || exists k :: 0 <= k < |entries| && |LabelLines(entries[k].labelText, 22)| == n)
  }

  lemma {:induction false} MostIs(entries: seq<ServiceEntry>)
    ensures IsMost(MostLines(entries), entries)
  {
    hide LabelLines;
    if entries != [] {
      var rest := entries[1..];
      MostIs(rest);
      forall k | 0 <= k < |entries| ensures |LabelLines(entries[k].labelText, 22)| <= MostLines(entries) {
        if k > 0 { assert entries[k] == rest[k - 1]; }
      }
      if MostLines(entries) != 1 && MostLines(entries) != PrintedLines(entries[0]) {
        var k :| 0 <= k < |rest| && |LabelLines(rest[k].labelText, 22)| == MostLines(rest);
        assert entries[k + 1] == rest[k];
      }
    }
  }

  /** Where the printed block of so many lines ends, under a lane. */
  function ReachOf(lines: nat, m: Metrics): real {
    m.nodeLabelOffset + (lines as real - 1.0) * m.nodeLabelLine + 0.4 * m.nodeLabel
  }

  /** What the stacked bands have to keep, each list with its greatest member attained. */
  ghost predicate Tight(doc: RoadmapDocument, l: RoadmapLayout, top: nat, bottom: nat) {
    var b, m, r := l.bands, l.metrics, l.requestedHeight;
    && b.bottomY == b.topY + b.laneSeparation
    && Greatest(b.laneSeparation, [doc.layout.laneSeparation, ReachOf(top, m) + m.laneLabelOffset + 1.3 * m.lane])
    && Greatest(b.timelineY, [b.bottomY + 173.0, b.bottomY + ReachOf(bottom, m) + m.timelineLabelOffset + 1.4 * m.lane + 10.0,
                              if l.social then Round(r * 0.64) else 0.0])
    && Greatest(b.legendY, [b.timelineY + 95.0, b.timelineY + m.dateLabelOffset + 1.2 * m.date + 40.0 * m.scale,
                            if l.social then Round(r * 0.73) else 0.0])
    && b.brandY == (if l.social then b.height - 154.0 * m.scale else b.legendY)
  }

  /**
   * From the top lane down, every band begins as soon as the one above allows: at a fixed
   * distance, or where its print ends, or, on a social canvas, at its share of the height.
   */
  lemma StackIsTight(doc: RoadmapDocument) returns (top: nat, bottom: nat)
    requires AllPlaceable(doc.migrations)
    ensures var row, view := Chronological(doc.migrations), doc.timeline.viewDate;
      && IsMost(top, Tops(row, view)) && IsMost(bottom, Bottoms(row, view))
      && Tight(doc, LayoutOf(doc), top, bottom)
  {
    hide AllPlaceable, LayoutOf, Chronological, Tops, Bottoms, MostLines, IsMost, Tight, DocBands, RequestedHeight, Social, MetricsOf;
    var row, view := Chronological(doc.migrations), doc.timeline.viewDate;
    top, bottom := MostLines(Tops(row, view)), MostLines(Bottoms(row, view));
    MostIs(Tops(row, view)); MostIs(Bottoms(row, view));
    LayoutOfRow(doc); LayoutHeader(doc);
    BandsOfLayout(doc);
    StackParts(doc, LayoutOf(doc), top, bottom);
  }

  lemma BandsOfLayout(doc: RoadmapDocument)
    requires AllPlaceable(doc.migrations)
    ensures var row, view := Chronological(doc.migrations), doc.timeline.viewDate;
      LayoutOf(doc).bands == BandsOf(doc, MostLines(Tops(row, view)), MostLines(Bottoms(row, view)))
  {
    hide LayoutOf, Chronological, Tops, Bottoms, MostLines, BandsOf, AllPlaceable;
    LayoutOfRow(doc);
  }

  lemma StackParts(doc: RoadmapDocument, l: RoadmapLayout, top: nat, bottom: nat)
    requires top >= 1 && bottom >= 1
    requires l.bands == BandsOf(doc, top, bottom) && l.metrics == MetricsOf(doc) && l.social == Social(doc) && l.requestedHeight == RequestedHeight(doc)
    ensures Tight(doc, l, top, bottom)
  {
    hide RequestedHeight, Social, MetricsOf, TopY, Greatest, Round, Ceil;
    var b, m, r := l.bands, l.metrics, l.requestedHeight;
    assert ReachOf(top, m) == LabelReach(top, m) && ReachOf(bottom, m) == LabelReach(bottom, m);
    GreatestOfTwo(doc.layout.laneSeparation, ReachOf(top, m) + m.laneLabelOffset + 1.3 * m.lane);
    GreatestOfThree(b.bottomY + 173.0, b.bottomY + ReachOf(bottom, m) + m.timelineLabelOffset + 1.4 * m.lane + 10.0, if l.social then Round(r * 0.64) else 0.0);
    GreatestOfThree(b.timelineY + 95.0, b.timelineY + m.dateLabelOffset + 1.2 * m.date + 40.0 * m.scale, if l.social then Round(r * 0.73) else 0.0);
  }

  lemma GreatestOfTwo(x: real, y: real)
    ensures Greatest(Max(x, y), [x, y])
  {
    assert [x, y][0] == x && [x, y][1] == y;
  }

  lemma GreatestOfThree(x: real, y: real, z: real)
    ensures Greatest(Max(z, Max(x, y)), [x, y, z])
  {
    var parts := [x, y, z];
    assert parts[0] == x && parts[1] == y && parts[2] == z;
  }

  /** What the canvas has to hold below the legend's line. */
  function FootOf(l: RoadmapLayout): seq<real> {
    var b, m := l.bands, l.metrics;
    if l.social then [b.legendY + 1.2 * m.legend + 154.0 * m.scale + m.brandMark / 2.0]
    else [b.legendY + 52.0, b.legendY + 0.75 * m.brandMark]
  }

  /**
   * The canvas is the least whole number of units tall that holds what stands at its foot; an
   * exact-size canvas keeps its set height, from 640 on, as long as that holds it.
   */
  lemma HeightIsLeast(doc: RoadmapDocument)
    requires AllPlaceable(doc.migrations)
    ensures var l := LayoutOf(doc);
      && l.height == l.bands.height && l.requestedHeight == Max(640.0, doc.layout.height)
      && if doc.layout.widthMode == Auto then LeastWhole(l.height, FootOf(l))
         else l.height >= l.requestedHeight
              && (LeastWhole(l.height, FootOf(l))
                  || (l.height == l.requestedHeight && forall k :: 0 <= k < |FootOf(l)| ==> FootOf(l)[k] <= l.height))
  {
    hide AllPlaceable, LayoutOf, Chronological, Tops, Bottoms, MostLines, DocBands, Social, MetricsOf, BandsOf, FootOf, LeastWhole;
    var row, view := Chronological(doc.migrations), doc.timeline.viewDate;
    LayoutOfRow(doc); LayoutHeader(doc); BandsOfLayout(doc); HeightOfLayout(doc);
    FootHeight(doc, LayoutOf(doc), MostLines(Tops(row, view)), MostLines(Bottoms(row, view)));
  }

  lemma HeightOfLayout(doc: RoadmapDocument)
    requires AllPlaceable(doc.migrations)
    ensures LayoutOf(doc).height == LayoutOf(doc).bands.height
  {
    hide ReachedOn, Placeable, Chronological, DocBands, DocRow, SceneOf, ColumnsOf, Done, MetricsOf, TitleY, Social, RequestedHeight;
  }

  lemma FootHeight(doc: RoadmapDocument, l: RoadmapLayout, top: nat, bottom: nat)
    requires top >= 1 && bottom >= 1
    requires l.bands == BandsOf(doc, top, bottom) && l.metrics == MetricsOf(doc) && l.social == Social(doc) && l.requestedHeight == RequestedHeight(doc)
    ensures var h := l.bands.height;
      if doc.layout.widthMode == Auto then LeastWhole(h, FootOf(l))
      else && h >= l.requestedHeight
           && (LeastWhole(h, FootOf(l)) || (h == l.requestedHeight && forall k :: 0 <= k < |FootOf(l)| ==> FootOf(l)[k] <= h))
  {
    hide RequestedHeight, Social, MetricsOf, TopY, LeastWhole, Ceil, Round, LabelReach;
    var b, m, foot := l.bands, l.metrics, FootOf(l);
    var k := if l.social || foot[0] >= foot[1] then 0 else 1;
    var needed := Ceil(foot[k]);
    assert foot[k] == if l.social then b.legendY + m.legend * 1.2 + 154.0 * m.scale + m.brandMark / 2.0
                      else b.legendY + Max(52.0, m.brandMark * 0.75);
    CeilIsLeastWhole(needed, foot, k);
    assert foot[k] <= needed;
    assert b.height == if doc.layout.widthMode == Auto then needed else Max(l.requestedHeight, needed);
  }

  /** What is kept above the top lane: a category marker, where shown, or the lane's own label. */
  function MarkerRoom(doc: RoadmapDocument, m: Metrics): seq<real> {
    var icon, text := doc.metadata.categoryDisplay != AsText, doc.metadata.categoryDisplay != AsIcon;
    [m.laneLabelOffset + 1.2 * m.lane,
     if !doc.metadata.showCategories then 0.0
     else m.categoryOffset
          + if icon && text then 21.0 * m.scale + m.categoryGlyph + 0.75 * m.category
            else if icon then 12.0 * m.scale + m.categoryGlyph
            else 16.0 * m.scale + 0.75 * m.category]
  }

  /** The lowest line of the header and the room under it, or the margin. */
  function HeaderEnd(doc: RoadmapDocument, l: RoadmapLayout): real {
    if doc.metadata.showSubtitle then l.subtitleY + 0.4 * l.metrics.subtitle + 18.0 * l.metrics.scale
    else if doc.metadata.showTitle then l.titleY + 0.4 * l.metrics.subtitle + 18.0 * l.metrics.scale
    else doc.layout.outerMargin
  }

  /**
   * The top lane stands as high as the header, or the margin, and what is printed above the
   * lane allow; on an exact-size canvas no higher than its share of the height.
   */
  lemma TopLaneIsTight(doc: RoadmapDocument) returns (room: real)
    requires AllPlaceable(doc.migrations)
    ensures var l := LayoutOf(doc);
      && Greatest(room, MarkerRoom(doc, l.metrics))
      && l.titleY == (if l.social then 220.0 else Max(116.0, 60.0 + 56.0 * l.metrics.scale))
      && l.subtitleY == (if !doc.metadata.showTitle then l.titleY else if l.social then 278.0 else l.titleY + 44.0 * l.metrics.scale)
      && Greatest(l.bands.topY, [HeaderEnd(doc, l) + room,
           if doc.layout.widthMode == Auto then 0.0 else Round(l.requestedHeight * (if l.social then 0.38 else 0.39))])
  {
    hide AllPlaceable, LayoutOf, Chronological, Tops, Bottoms, MostLines, DocBands, Social, MetricsOf, BandsOf, TextScale, HeaderEnd, MarkerRoom, RequestedHeight, TopY, Headroom, Greatest, Round;
    var row, view := Chronological(doc.migrations), doc.timeline.viewDate;
    room := Headroom(doc);
    LayoutHeader(doc); BandsOfLayout(doc); HeaderOfLayout(doc);
    TopOfBands(doc, MostLines(Tops(row, view)), MostLines(Bottoms(row, view)));
    RoomIsTight(doc);
    TopIsTight(doc, LayoutOf(doc));
  }

  lemma HeaderOfLayout(doc: RoadmapDocument)
    requires AllPlaceable(doc.migrations)
    ensures LayoutOf(doc).titleY == TitleY(doc) && LayoutOf(doc).subtitleY == SubtitleY(doc) && LayoutOf(doc).metrics.scale == TextScale(doc)
  {
    hide ReachedOn, Placeable, Chronological, DocBands, DocRow, SceneOf, ColumnsOf, Done, TitleY, SubtitleY, TextScale, Social, RequestedHeight;
  }

  lemma RoomIsTight(doc: RoadmapDocument)
    ensures Greatest(Headroom(doc), MarkerRoom(doc, MetricsOf(doc)))
  {
    hide Greatest, MetricsOf;
    var m, parts := MetricsOf(doc), MarkerRoom(doc, MetricsOf(doc));
    assert Headroom(doc) == Max(parts[1], parts[0]);
    assert parts == [parts[0], parts[1]];
    GreatestOfTwo(parts[0], parts[1]);
    assert Max(parts[1], parts[0]) == Max(parts[0], parts[1]);
  }

  lemma TopIsTight(doc: RoadmapDocument, l: RoadmapLayout)
    requires l.titleY == TitleY(doc) && l.subtitleY == SubtitleY(doc) && l.metrics == MetricsOf(doc) && l.social == Social(doc)
    requires l.requestedHeight == RequestedHeight(doc) && l.bands.topY == TopY(doc)
    ensures Greatest(l.bands.topY, [HeaderEnd(doc, l) + Headroom(doc),
           if doc.layout.widthMode == Auto then 0.0 else Round(l.requestedHeight * (if l.social then 0.38 else 0.39))])
  {
    hide Greatest, MetricsOf, Social, TitleY, SubtitleY, RequestedHeight, Headroom, Round;
    var share := if doc.layout.widthMode == Auto then 0.0 else Round(l.requestedHeight * (if l.social then 0.38 else 0.39));
    assert ContentTop(doc) == HeaderEnd(doc, l) + Headroom(doc);
    GreatestOfTwo(HeaderEnd(doc, l) + Headroom(doc), share);
    assert TopY(doc) == Max(HeaderEnd(doc, l) + Headroom(doc), share);
  }

  // ------------------------------------------------------------ type sizes

  /** At a text scale of one. */
  const PLAIN_TYPE := Metrics(1.0, 52.0, 18.0, 14.0, 12.0, 30.0, 13.0, 17.0, 13.0, 10.0, 14.0, 9.0, 22.0, 50.0, 66.0, 106.0, 78.0, 36.0, 16.0)
  const SOCIAL_TYPE := Metrics(1.0, 64.0, 22.0, 14.0, 15.0, 34.0, 14.0, 17.0, 13.0, 10.0, 22.0, 12.0, 33.0, 76.0, 66.0, 106.0, 78.0, 36.0, 16.0)

  /** Sizes grow with the text scale, 0.6 to 3; the offsets that begin at a plate's edge only from there on. */
  lemma TypeGrowsWithTheScale(doc: RoadmapDocument)
    requires AllPlaceable(doc.migrations)
    ensures var l, x := LayoutOf(doc), doc.layout.textScale;
      var m, one, s := l.metrics, if l.social then SOCIAL_TYPE else PLAIN_TYPE, l.metrics.scale;
      && l.social == (doc.layout.widthMode == Fixed && doc.layout.height >= 1400.0)
      && s == (if x == 0.0 then 1.0 else if x < 0.6 then 0.6 else if x > 3.0 then 3.0 else x)
      && m.title == one.title * s && m.subtitle == one.subtitle * s && m.lane == one.lane * s
      && m.category == one.category * s && m.categoryGlyph == one.categoryGlyph * s
      && m.nodeLabel == one.nodeLabel * s && m.nodeLabelLine == one.nodeLabelLine * s
      && m.date == one.date * s && m.now == one.now * s && m.legend == one.legend * s && m.legendDot == one.legendDot * s
      && m.brand == one.brand * s && m.brandMark == one.brandMark * s
      && m.laneLabelOffset == 38.0 + (one.laneLabelOffset - 38.0) * s
      && m.categoryOffset == 38.0 + (one.categoryOffset - 38.0) * s
      && m.nodeLabelOffset == 38.0 + (one.nodeLabelOffset - 38.0) * s
      && m.dateLabelOffset == one.dateLabelOffset * s && m.timelineLabelOffset == one.timelineLabelOffset * s
  {
    LayoutHeader(doc);
    hide LayoutOf, AllPlaceable;
  }

  /** The second swatch of the legend follows the first label, or 120 text units for a short one. */
  lemma LegendIsTight(doc: RoadmapDocument) returns (room: real)
    ensures var m := MetricsOf(doc);
      && (room == Length(doc.labels.independent) * m.legend * 0.62 || room == 120.0 * m.scale)
      && Length(doc.labels.independent) * m.legend * 0.62 <= room && 120.0 * m.scale <= room
      && LegendWidth(doc, m) == 2.0 * m.legendDot + 52.0 * m.scale + room + Length(doc.labels.proprietary) * m.legend * 0.62
  {
    hide MetricsOf, Length;
    var m := MetricsOf(doc);
    room := Max(Length(doc.labels.independent) * m.legend * 0.62, 120.0 * m.scale);
    assert LegendSecondX(doc.labels.independent, m) == m.legendDot + 39.0 * m.scale + room;
  }

  // ---------------------------------------------------------- what it tells

  /** The marker of the viewing date: at the first node, at the last, or half way between two. */
  lemma MarkerExactly(doc: RoadmapDocument)
    requires AllPlaceable(doc.migrations)
    ensures var l, done, n := LayoutOf(doc), Done(doc), |doc.migrations|;
      l.viewMarkerX == if n == 0 then None
                       else if done == 0 then Some(l.nodes[0].x)
                       else if done == n then Some(l.nodes[n - 1].x)
                       else Some(l.nodes[done - 1].x + (l.nodes[done].x - l.nodes[done - 1].x) / 2.0)
  {
    hide *;
    LayoutParts(doc, true);
    assert |LayoutOf(doc).nodes| == |doc.migrations|;
    MarkerOf(LayoutOf(doc).nodes, Done(doc));
  }

  lemma MarkerOf(nodes: seq<Node>, done: nat)
    requires done <= |nodes|
    ensures ViewMarkerX(nodes, done) == if nodes == [] then None
                                        else if done == 0 then Some(nodes[0].x)
                                        else if done == |nodes| then Some(nodes[|nodes| - 1].x)
                                        else Some(nodes[done - 1].x + (nodes[done].x - nodes[done - 1].x) / 2.0)
  {
  }

  /** The order is the row's, and `grew` tells that an exact-size canvas could not keep its size. */
  lemma LayoutTells(doc: RoadmapDocument)
    requires AllPlaceable(doc.migrations)
    ensures var l, row := LayoutOf(doc), Chronological(doc.migrations);
      && |l.order| == |row| && (forall i :: 0 <= i < |row| ==> l.order[i] == row[i].id)
      && l.requestedWidth == Max(760.0, doc.layout.width) && l.requestedHeight == Max(640.0, doc.layout.height)
      && (l.grew <==> doc.layout.widthMode == Fixed && !(l.width <= l.requestedWidth && l.height <= l.requestedHeight))
      && (row == [] ==> l.contentStart == doc.layout.outerMargin && l.contentEnd == l.width - doc.layout.outerMargin)
  {
    hide ReachedOn, Placeable, Chronological, ColumnsOf, DocBands, RowOf, MetricsOf, FrameOf, TitleY, SubtitleY, Social, Done, Crossovers;
  }
}
