/**
 * The layout engine: vertical bands, columns and the gaps between them.
 */
module Layout {
  import opened Document
  import opened Ordering
  import opened Measure

  // ----------------------------------------------------------------- bands

  datatype Bands = Bands(
    topY: real, laneSeparation: real, bottomY: real,
    timelineY: real, legendY: real, height: real, brandY: real)

  predicate HeaderShown(doc: RoadmapDocument) { doc.metadata.showTitle || doc.metadata.showSubtitle }

  function TitleY(doc: RoadmapDocument): (y: real)
    ensures y >= 93.6
  {
    if Social(doc) then 220.0 else Max(116.0, 60.0 + 56.0 * TextScale(doc))
  }

  /** The subtitle's baseline: the title's own where there is no title. */
  function SubtitleY(doc: RoadmapDocument): (y: real)
    ensures y >= 93.6
  {
    if !doc.metadata.showTitle then TitleY(doc)
    else if Social(doc) then 278.0
    else TitleY(doc) + 44.0 * TextScale(doc)
  }

  /** Distance from the first lane up to the highest ink that belongs to it. */
  function Headroom(doc: RoadmapDocument): real {
    var m := MetricsOf(doc);
    Max(if doc.metadata.showCategories then m.categoryOffset + CategoryMarker(doc, m).reach else 0.0,
        m.laneLabelOffset + m.lane * 1.2)
  }

  function ContentTop(doc: RoadmapDocument): real {
    var m := MetricsOf(doc);
    if HeaderShown(doc)
    then (if doc.metadata.showSubtitle then SubtitleY(doc) else TitleY(doc)) + m.subtitle * 0.4 + 18.0 * m.scale + Headroom(doc)
    else doc.layout.outerMargin + Headroom(doc)
  }

  predicate Fits(doc: RoadmapDocument) { doc.layout.widthMode == Auto }

  function RequestedHeight(doc: RoadmapDocument): real { Max(640.0, doc.layout.height) }

  function TopY(doc: RoadmapDocument): real {
    Max(if Fits(doc) then 0.0 else Round(RequestedHeight(doc) * (if Social(doc) then 0.38 else 0.39)), ContentTop(doc))
  }

  /** The baselines that follow from a first lane at topY, and the height they add up to. */
  function BandsFrom(doc: RoadmapDocument, topY: real, topLines: nat, bottomLines: nat): Bands
    requires topLines >= 1 && bottomLines >= 1
  {
    Stack(MetricsOf(doc), Social(doc), Fits(doc), RequestedHeight(doc), doc.layout.laneSeparation, topY, topLines, bottomLines)
  }

  function Stack(m: Metrics, social: bool, fits: bool, requested: real, separation: real, topY: real, topLines: nat, bottomLines: nat): Bands
    requires topLines >= 1 && bottomLines >= 1
  {
    var laneSeparation := Max(separation, LabelReach(topLines, m) + m.laneLabelOffset + m.lane * 1.3);
    var bottomY := topY + laneSeparation;
    var timelineY := Max(
      if social then Round(requested * 0.64) else 0.0,
      bottomY + Max(173.0, LabelReach(bottomLines, m) + m.timelineLabelOffset + m.lane * 1.4 + 10.0));
    var legendY := Max(
      if social then Round(requested * 0.73) else 0.0,
      timelineY + Max(95.0, m.dateLabelOffset + m.date * 1.2 + 40.0 * m.scale));
    var brandRow := 154.0 * m.scale;
    var needed := Ceil(
      if social then legendY + m.legend * 1.2 + brandRow + m.brandMark / 2.0
      else legendY + Max(52.0, m.brandMark * 0.75));
    var height := if fits then needed else Max(requested, needed);
    Bands(topY, laneSeparation, bottomY, timelineY, legendY, height, if social then height - brandRow else legendY)
  }

  function BandsOf(doc: RoadmapDocument, topLines: nat, bottomLines: nat): Bands
    requires topLines >= 1 && bottomLines >= 1
  {
    BandsFrom(doc, TopY(doc), topLines, bottomLines)
  }

  /** Top of what is printed above the top lane. */
  function FirstInk(doc: RoadmapDocument, topY: real): real {
    topY - Headroom(doc)
  }

  /** The header, and under it everything printed above the plates of the top lane. */
  lemma HeaderClearsTheRoadmap(doc: RoadmapDocument)
    ensures var m, ink := MetricsOf(doc), FirstInk(doc, TopY(doc));
      && CAP_RATIO * m.title <= TitleY(doc)
      && (doc.metadata.showSubtitle ==> SubtitleY(doc) + 0.4 * m.subtitle + 18.0 * m.scale <= ink)
      && (doc.metadata.showTitle ==> TitleY(doc) + 0.4 * m.subtitle + 18.0 * m.scale <= ink)
      && (!HeaderShown(doc) ==> doc.layout.outerMargin <= ink)
      && (doc.metadata.showCategories ==> ink <= TopY(doc) - m.categoryOffset - CategoryMarker(doc, m).reach)
      && TopY(doc) - m.categoryOffset < TopY(doc) - m.laneLabelOffset - 1.2 * m.lane < TopY(doc) - m.laneLabelOffset < TopY(doc) - PLATE_HALF
  {
  }

  /**
   * Lanes, timeline, legend and signature, from the plates of the top lane to the bottom
   * edge: each band ends before the next begins.
   */
  lemma BandsNeverOverlap(doc: RoadmapDocument, topLines: nat, bottomLines: nat)
    requires topLines >= 1 && bottomLines >= 1
    ensures var m, b := MetricsOf(doc), BandsOf(doc, topLines, bottomLines);
      var dates := b.timelineY + m.dateLabelOffset + 1.2 * m.date;
      && b.topY + LabelReach(topLines, m) <= b.bottomY - m.laneLabelOffset - 1.3 * m.lane
      && b.bottomY - m.laneLabelOffset < b.bottomY - PLATE_HALF
      && b.bottomY + LabelReach(bottomLines, m) + 10.0 <= b.timelineY - m.timelineLabelOffset - 1.4 * m.lane
      && b.bottomY + LabelReach(bottomLines, m) < b.timelineY - 25.0 * m.scale - CAP_RATIO * m.now
      && dates < b.legendY - m.legendDot
      && dates < b.legendY + 7.0 * m.scale - CAP_RATIO * m.legend
      && (if Social(doc) then b.legendY + 1.2 * m.legend <= b.brandY - m.brandMark / 2.0
          else b.brandY == b.legendY && dates < b.brandY - m.brandMark / 2.0)
      && b.brandY + m.brandMark / 2.0 <= b.height
      && b.legendY + 7.0 * m.scale + 0.4 * m.legend <= b.height
  {
    hide TextScale, Social, TopY;
  }

  lemma TopOfBands(doc: RoadmapDocument, topLines: nat, bottomLines: nat)
    requires topLines >= 1 && bottomLines >= 1
    ensures BandsOf(doc, topLines, bottomLines).topY == TopY(doc)
  {
    hide TopY;
  }

  /** Where the label of that entry ends, under a lane at that height. */
  function LabelEnd(laneY: real, entry: ServiceEntry, m: Metrics): real {
    laneY + LabelStart(PrintedLines(entry), m) + (PrintedLines(entry) - 1) as real * m.nodeLabelLine + m.nodeLabel * 0.4
  }

  /** Whatever is printed under the plates of either lane ends above what comes next. */
  lemma LabelsClear(doc: RoadmapDocument, tops: seq<ServiceEntry>, bottoms: seq<ServiceEntry>, top: ServiceEntry, bottom: ServiceEntry)
    requires top in tops && bottom in bottoms
    ensures var m, b := MetricsOf(doc), BandsOf(doc, MostLines(tops), MostLines(bottoms));
      && LabelEnd(b.topY, top, m) <= b.bottomY - m.laneLabelOffset - 1.3 * m.lane
      && LabelEnd(b.bottomY, bottom, m) + 10.0 <= b.timelineY - m.timelineLabelOffset - 1.4 * m.lane
  {
    hide MetricsOf, BandsOf, MostLines, PrintedLines, LabelStart, LabelReach;
    BandsNeverOverlap(doc, MostLines(tops), MostLines(bottoms));
    LabelStaysInReach(doc, top, tops); LabelStaysInReach(doc, bottom, bottoms);
  }

  /**
   * On a social canvas the subtitle baseline is a fixed 58 below the title's, whatever the
   * text scale, so the two lines keep the descender room the rest of the header gets only
   * up to that scale.
   */
  lemma HeaderLinesKeepApartExactly(doc: RoadmapDocument)
    requires doc.metadata.showTitle
    ensures var m := MetricsOf(doc);
      TitleY(doc) + 0.4 * m.title + CAP_RATIO * m.subtitle <= SubtitleY(doc)
      <==> !Social(doc) || 41.44 * TextScale(doc) <= 58.0
  {
  }

  // ---------------------------------------------------- hiding the title

  lemma LowerStartLowerEnd(doc: RoadmapDocument, topY: real, topY': real, topLines: nat, bottomLines: nat)
    requires topLines >= 1 && bottomLines >= 1 && topY <= topY'
    ensures BandsFrom(doc, topY, topLines, bottomLines).height <= BandsFrom(doc, topY', topLines, bottomLines).height
  {
    hide TextScale, Social, MetricsOf, Round;
    var b, b' := BandsFrom(doc, topY, topLines, bottomLines), BandsFrom(doc, topY', topLines, bottomLines);
    assert b.timelineY <= b'.timelineY && b.legendY <= b'.legendY;
    var m := MetricsOf(doc);
    var last := if Social(doc) then m.legend * 1.2 + 154.0 * m.scale + m.brandMark / 2.0 else Max(52.0, m.brandMark * 0.75);
    CeilGrows(b.legendY + last, b'.legendY + last);
  }

  /** Only what stands above the top lane depends on whether the title is shown. */
  lemma TitleOnlyMovesTheStart(doc: RoadmapDocument, hidden: RoadmapDocument, topY: real, topLines: nat, bottomLines: nat)
    requires topLines >= 1 && bottomLines >= 1
    requires hidden == doc.(metadata := doc.metadata.(showTitle := false))
    ensures BandsFrom(hidden, topY, topLines, bottomLines).height == BandsFrom(doc, topY, topLines, bottomLines).height
  {
    assert TextScale(hidden) == TextScale(doc) && Social(hidden) == Social(doc);
    hide Stack, TextScale, Social, MetricsFor;
  }

  lemma HiddenTitleRaisesTop(doc: RoadmapDocument)
    requires doc.metadata.showSubtitle
    ensures TopY(doc.(metadata := doc.metadata.(showTitle := false))) <= TopY(doc)
  {
    var hidden := doc.(metadata := doc.metadata.(showTitle := false));
    assert TextScale(hidden) == TextScale(doc) && Social(hidden) == Social(doc);
    assert TitleY(hidden) == TitleY(doc) && SubtitleY(hidden) <= SubtitleY(doc);
    hide MetricsFor, TextScale, Social, Round, TitleY, SubtitleY;
    assert Headroom(hidden) == Headroom(doc);
    hide Headroom;
  }

  /** With the subtitle shown, hiding the title never makes the canvas taller. */
  lemma HidingTitleNeverGrows(doc: RoadmapDocument, topLines: nat, bottomLines: nat)
    requires topLines >= 1 && bottomLines >= 1
    requires doc.metadata.showSubtitle
    ensures var hidden := doc.(metadata := doc.metadata.(showTitle := false));
      BandsOf(hidden, topLines, bottomLines).height <= BandsOf(doc, topLines, bottomLines).height
  {
    var hidden := doc.(metadata := doc.metadata.(showTitle := false));
    HiddenTitleRaisesTop(doc);
    hide TopY, BandsFrom;
    TitleOnlyMovesTheStart(doc, hidden, TopY(hidden), topLines, bottomLines);
    LowerStartLowerEnd(doc, TopY(hidden), TopY(doc), topLines, bottomLines);
  }

  /**
   * Without the subtitle, hiding the title trades its band for the outer margin. The lanes
   * stay where they are or move up exactly while the margin is no more than that band, or
   * while the proportions of a canvas of exact size have them lower still.
   */
  lemma HidingOnlyTitleExactly(doc: RoadmapDocument)
    requires doc.metadata.showTitle && !doc.metadata.showSubtitle
    ensures var hidden, m := doc.(metadata := doc.metadata.(showTitle := false)), MetricsOf(doc);
      TopY(hidden) <= TopY(doc)
      <==> || doc.layout.outerMargin <= TitleY(doc) + 0.4 * m.subtitle + 18.0 * m.scale
           || (!Fits(doc) && doc.layout.outerMargin + Headroom(doc) <= Round(RequestedHeight(doc) * (if Social(doc) then 0.38 else 0.39)))
  {
    var hidden := doc.(metadata := doc.metadata.(showTitle := false));
    assert TextScale(hidden) == TextScale(doc) && Social(hidden) == Social(doc);
    HeadroomIsPositive(doc);
    hide MetricsFor, TextScale, Social, Round;
    assert Headroom(hidden) == Headroom(doc);
    hide Headroom;
  }

  lemma HeadroomIsPositive(doc: RoadmapDocument)
    ensures Headroom(doc) > 0.0 && MetricsOf(doc).subtitle > 0.0 && MetricsOf(doc).scale > 0.0
  {
    hide Social;
  }

  // --------------------------------------------------------------- columns

  /** One node as the engine places it. */
  datatype Column = Column(width: real, top: real, bottom: real, topCategory: Category)

  function ColumnOf(doc: RoadmapDocument, m: Migration): (c: Column)
    requires Placeable(m)
    ensures c.width >= c.top && c.width >= c.bottom && c.width >= 86.0
  {
    var lanes := LaneEntries(m, doc.timeline.viewDate);
    Column(ColumnWidth(doc, m), PlateWidth(lanes.top, doc), PlateWidth(lanes.bottom, doc), lanes.top.category)
  }

  ghost predicate WellMeasured(cols: seq<Column>) {
    forall i :: 0 <= i < |cols| ==>
      cols[i].width >= cols[i].top && cols[i].width >= cols[i].bottom && cols[i].width >= 86.0
  }

  function ColumnsOf(doc: RoadmapDocument): (cols: seq<Column>)
    requires AllPlaceable(doc.migrations)
    ensures |cols| == |doc.migrations| && WellMeasured(cols)
  {
    var row := Chronological(doc.migrations);
    seq(|row|, i requires 0 <= i < |row| => ColumnOf(doc, row[i]))
  }

  predicate CrossesAt(cols: seq<Column>, i: nat)
    requires i + 1 < |cols|
  {
    cols[i].topCategory != cols[i + 1].topCategory
  }

  /** The gaps below n where the lanes change places. */
  function CrossoversBelow(cols: seq<Column>, n: nat): (r: seq<nat>)
    requires n == 0 || n < |cols|
    ensures forall i: nat :: i in r <==> i < n && CrossesAt(cols, i)
  {
    if n == 0 then []
    else if CrossesAt(cols, n - 1) then CrossoversBelow(cols, n - 1) + [n - 1]
    else CrossoversBelow(cols, n - 1)
  }

  function Crossovers(cols: seq<Column>): seq<nat> {
    CrossoversBelow(cols, if cols == [] then 0 else |cols| - 1)
  }

  function CrossoverRun(laneSeparation: real, curveTension: real): (r: real)
    ensures r >= 120.0
  {
    Max(120.0, laneSeparation * Clamp(curveTension, 0.35, 1.4))
  }

  /** From the centre of one column to the next: the spacing, or the run of a crossover. */
  function CenterGap(cols: seq<Column>, i: nat, spacing: real, run: real): (g: real)
    requires i + 1 < |cols|
    ensures g >= cols[i].width / 2.0 + cols[i + 1].width / 2.0 + spacing
    ensures CrossesAt(cols, i) ==>
      g >= Max(cols[i].top, cols[i].bottom) / 2.0 + Max(cols[i + 1].top, cols[i + 1].bottom) / 2.0 + run
  {
    var base := cols[i].width / 2.0 + cols[i + 1].width / 2.0 + spacing;
    if !CrossesAt(cols, i) then base
    else Max(base, Max(cols[i].top, cols[i].bottom) / 2.0 + Max(cols[i + 1].top, cols[i + 1].bottom) / 2.0 + run)
  }

  function CenterGaps(cols: seq<Column>, spacing: real, run: real): (gaps: seq<real>)
    ensures |gaps| == if cols == [] then 0 else |cols| - 1
    ensures forall i :: 0 <= i < |gaps| ==> gaps[i] == CenterGap(cols, i, spacing, run)
  {
    if cols == [] then []
    else seq(|cols| - 1, i requires 0 <= i < |cols| - 1 => CenterGap(cols, i, spacing, run))
  }

  function Sum(xs: seq<real>): real {
    if xs == [] then 0.0 else Sum(xs[..|xs| - 1]) + xs[|xs| - 1]
  }

  lemma SumStep(xs: seq<real>, i: nat)
    requires i < |xs|
    ensures Sum(xs[..i + 1]) == Sum(xs[..i]) + xs[i]
  {
    assert xs[..i + 1][..i] == xs[..i];
  }

  /** What the horizontal layout needs besides the columns. */
  datatype Frame = Frame(fits: bool, outer: real, spacing: real, run: real, bottomRow: real, settingWidth: real)

  function FrameOf(doc: RoadmapDocument, laneSeparation: real): Frame {
    var m := MetricsOf(doc);
    Frame(Fits(doc), doc.layout.outerMargin, Clamp(doc.layout.nodeSpacing, 4.0, 600.0),
          CrossoverRun(laneSeparation, doc.layout.curveTension),
          doc.layout.outerMargin * 2.0 + LegendWidth(doc, m) + 48.0 * m.scale + BrandWidth(m),
          doc.layout.width)
  }

  function FirstHalf(cols: seq<Column>): real { if cols == [] then 0.0 else cols[0].width / 2.0 }
  function LastHalf(cols: seq<Column>): real { if cols == [] then 0.0 else cols[|cols| - 1].width / 2.0 }

  function Intrinsic(f: Frame, cols: seq<Column>, gapSum: real): real {
    Max(f.bottomRow,
        if cols != [] then f.outer * 2.0 + FirstHalf(cols) + LastHalf(cols) + gapSum
        else Max(760.0, if f.fits then 1200.0 else f.settingWidth))
  }

  function CanvasWidth(f: Frame, cols: seq<Column>, gapSum: real): (w: real)
    ensures w >= Intrinsic(f, cols, gapSum)
  {
    if f.fits then Ceil(Intrinsic(f, cols, gapSum))
    else Ceil(Max(Max(760.0, f.settingWidth), Intrinsic(f, cols, gapSum)))
  }

  /** What each gap gets when an exact-size canvas is wider than its content. */
  function Spread(f: Frame, cols: seq<Column>, gapSum: real): (s: real)
    ensures s >= 0.0
  {
    if |cols| > 1 && !f.fits
    then
      var usable := Max(0.0, CanvasWidth(f, cols, gapSum) - f.outer * 2.0 - FirstHalf(cols) - LastHalf(cols));
      Share(Max(0.0, usable - gapSum), |cols| - 1)
    else 0.0
  }

  function Share(x: real, n: nat): (s: real)
    requires n > 0 && x >= 0.0
    ensures s >= 0.0 && n as real * s == x
  {
    x / n as real
  }

  function ResolvedGaps(gaps: seq<real>, spread: real): (r: seq<real>)
    ensures |r| == |gaps| && forall i :: 0 <= i < |gaps| ==> r[i] == gaps[i] + spread
  {
    seq(|gaps|, i requires 0 <= i < |gaps| => gaps[i] + spread)
  }

  lemma {:induction false} SumResolved(gaps: seq<real>, spread: real)
    ensures Sum(ResolvedGaps(gaps, spread)) == Sum(gaps) + |gaps| as real * spread
  {
    if gaps != [] {
      var n := |gaps| - 1;
      SumResolved(gaps[..n], spread);
      assert ResolvedGaps(gaps, spread)[..n] == ResolvedGaps(gaps[..n], spread);
      assert |gaps| as real * spread == n as real * spread + spread;
    }
  }

  datatype Node = Node(x: real, width: real, topWidth: real, bottomWidth: real)

  /** The horizontal layout: the canvas width, the spread and the node centres. */
  datatype Row = Row(width: real, spread: real, nodes: seq<Node>)

  function NodesAt(start: real, gaps: seq<real>, cols: seq<Column>): (nodes: seq<Node>)
    requires |gaps| + 1 == |cols| || (cols == [] && gaps == [])
    ensures |nodes| == |cols|
    ensures forall i :: 0 <= i < |cols| ==>
      nodes[i] == Node(start + Sum(gaps[..i]), cols[i].width, cols[i].top, cols[i].bottom)
  {
    seq(|cols|, i requires 0 <= i < |cols| =>
      Node(start + Sum(gaps[..i]), cols[i].width, cols[i].top, cols[i].bottom))
  }

  function RowOf(f: Frame, cols: seq<Column>): (r: Row)
    ensures |r.nodes| == |cols|
  {
    var gaps := CenterGaps(cols, f.spacing, f.run);
    var spread := Spread(f, cols, Sum(gaps));
    Row(CanvasWidth(f, cols, Sum(gaps)), spread,
        NodesAt(f.outer + FirstHalf(cols), ResolvedGaps(gaps, spread), cols))
  }

  lemma NodeStep(f: Frame, cols: seq<Column>, i: nat)
    requires i + 1 < |cols|
    ensures var r := RowOf(f, cols);
      r.nodes[i + 1].x == r.nodes[i].x + CenterGap(cols, i, f.spacing, f.run) + r.spread
  {
    var gaps := CenterGaps(cols, f.spacing, f.run);
    SumStep(ResolvedGaps(gaps, Spread(f, cols, Sum(gaps))), i);
  }

  /** No two columns collide: neighbours are at least the spacing apart. */
  lemma ColumnsNeverCollide(f: Frame, cols: seq<Column>, i: nat)
    requires i + 1 < |cols|
    ensures var n := RowOf(f, cols).nodes;
      n[i].x + n[i].width / 2.0 + f.spacing <= n[i + 1].x - n[i + 1].width / 2.0
  {
    NodeStep(f, cols, i);
  }

  lemma {:induction false} ColumnsAdvance(f: Frame, cols: seq<Column>, i: nat, j: nat)
    requires i <= j < |cols| && WellMeasured(cols) && f.spacing >= 0.0
    ensures var n := RowOf(f, cols).nodes;
      && n[i].x - n[i].width / 2.0 <= n[j].x - n[j].width / 2.0
      && n[i].x + n[i].width / 2.0 <= n[j].x + n[j].width / 2.0
      && (i < j ==> n[i].x + n[i].width / 2.0 <= n[j].x - n[j].width / 2.0)
    decreases j
  {
    if i < j {
      ColumnsAdvance(f, cols, i, j - 1);
      ColumnsNeverCollide(f, cols, j - 1);
    }
  }

  lemma {:induction false} SumNonNegative(xs: seq<real>)
    requires forall i :: 0 <= i < |xs| ==> xs[i] >= 0.0
    ensures Sum(xs) >= 0.0
  {
    if xs != [] { SumNonNegative(xs[..|xs| - 1]); }
  }

  lemma GapSum(f: Frame, cols: seq<Column>)
    requires cols != []
    ensures var r, gaps := RowOf(f, cols), CenterGaps(cols, f.spacing, f.run);
      f.outer * 2.0 + FirstHalf(cols) + LastHalf(cols) + Sum(gaps)
      == r.nodes[|cols| - 1].x + r.nodes[|cols| - 1].width / 2.0 - (|cols| - 1) as real * r.spread + f.outer
  {
    hide CenterGap, Spread, CanvasWidth, Sum, Intrinsic;
    var gaps := CenterGaps(cols, f.spacing, f.run);
    var spread := Spread(f, cols, Sum(gaps));
    SumResolved(gaps, spread);
    var resolved := ResolvedGaps(gaps, spread);
    assert resolved[..|cols| - 1] == resolved;
  }

  lemma RowParts(f: Frame, cols: seq<Column>)
    ensures var r, gapSum := RowOf(f, cols), Sum(CenterGaps(cols, f.spacing, f.run));
      r.width == CanvasWidth(f, cols, gapSum) && r.spread == Spread(f, cols, gapSum)
  {
  }

  /**
   * The last column ends at or before the right margin, and exactly there on an exact-size
   * canvas with two or more nodes: the gaps it is handed fill the width.
   */
  lemma LastColumn(f: Frame, cols: seq<Column>)
    requires cols != [] && WellMeasured(cols) && f.spacing >= 0.0
    ensures var r, last := RowOf(f, cols), |cols| - 1;
      && r.nodes[last].x + r.nodes[last].width / 2.0 <= r.width - f.outer
      && (!f.fits && |cols| > 1 ==> r.nodes[last].x + r.nodes[last].width / 2.0 == r.width - f.outer)
  {
    var gaps := CenterGaps(cols, f.spacing, f.run);
    SumNonNegative(gaps);
    hide RowOf, CenterGap, CenterGaps, Spread, CanvasWidth, Sum, WellMeasured, FirstHalf, LastHalf;
    GapSum(f, cols);
    SpreadFills(f, cols, Sum(gaps));
  }

  lemma SpreadFills(f: Frame, cols: seq<Column>, gapSum: real)
    requires cols != [] && gapSum >= 0.0 && gapSum == Sum(CenterGaps(cols, f.spacing, f.run))
    ensures var r, needed := RowOf(f, cols), f.outer * 2.0 + FirstHalf(cols) + LastHalf(cols) + gapSum;
      && r.width >= needed
      && (|cols| - 1) as real * r.spread == if |cols| > 1 && !f.fits then r.width - needed else 0.0
  {
    hide Ceil, FirstHalf, LastHalf, Sum, CenterGaps, ResolvedGaps, NodesAt;
    assert RowOf(f, cols).spread == Spread(f, cols, gapSum) && RowOf(f, cols).width == CanvasWidth(f, cols, gapSum);
  }

  /** Every column stands between the margins. */
  lemma ColumnsStayInside(f: Frame, cols: seq<Column>, i: nat)
    requires i < |cols| && WellMeasured(cols) && f.spacing >= 0.0
    ensures var r := RowOf(f, cols);
      f.outer <= r.nodes[i].x - r.nodes[i].width / 2.0 && r.nodes[i].x + r.nodes[i].width / 2.0 <= r.width - f.outer
  {
    ColumnsAdvance(f, cols, 0, i);
    ColumnsAdvance(f, cols, i, |cols| - 1);
    LastColumn(f, cols);
  }

  /** On a shared bottom row the legend ends 48 text units before the signature begins. */
  lemma BottomRowIsClear(doc: RoadmapDocument, cols: seq<Column>, laneSeparation: real)
    ensures var f, m := FrameOf(doc, laneSeparation), MetricsOf(doc);
      doc.layout.outerMargin + LegendWidth(doc, m) + 48.0 * m.scale
      <= RowOf(f, cols).width - doc.layout.outerMargin - BrandWidth(m)
  {
  }

  /** Half of a social canvas, margin aside: what legend and signature leave of it. */
  lemma SocialHalf(doc: RoadmapDocument, cols: seq<Column>, laneSeparation: real)
    requires Social(doc)
    ensures var w, m := RowOf(FrameOf(doc, laneSeparation), cols).width, MetricsOf(doc);
      w / 2.0 - doc.layout.outerMargin >= (LegendWidth(doc, m) + 547.0 * m.scale) / 2.0
  {
    BottomRowIsClear(doc, cols, laneSeparation);
    SocialBrand(doc);
    hide TextScale, Social, LegendWidth, BrandWidth;
  }

  lemma SocialBrand(doc: RoadmapDocument)
    requires Social(doc)
    ensures BrandWidth(MetricsOf(doc)) >= 499.0 * MetricsOf(doc).scale
  {
    hide TextScale;
  }

  lemma SocialLegend(doc: RoadmapDocument)
    requires Social(doc)
    ensures var m, first, second := MetricsOf(doc), Length(doc.labels.independent), Length(doc.labels.proprietary);
      && m.scale > 0.0 && m.legendDot == 12.0 * m.scale
      && LegendWidth(doc, m) == (76.0 + Max(13.64 * first, 120.0) + 13.64 * second) * m.scale
  {
    var s, first, second := MetricsOf(doc).scale, Length(doc.labels.independent), Length(doc.labels.proprietary);
    assert s > 0.0 by { hide Social; }
    hide TextScale, Length;
    assert first * (22.0 * s) * 0.62 == (13.64 * first) * s && second * (22.0 * s) * 0.62 == (13.64 * second) * s;
    MaxTimes(13.64 * first, 120.0, s);
    assert (76.0 + Max(13.64 * first, 120.0) + 13.64 * second) * s
        == 76.0 * s + Max(13.64 * first, 120.0) * s + (13.64 * second) * s;
  }

  lemma MaxTimes(x: real, y: real, k: real)
    requires k > 0.0
    ensures Max(x * k, y * k) == Max(x, y) * k
  {
    assert (x - y) * k == x * k - y * k;
    assert x >= y ==> (x - y) * k >= 0.0;
    assert x < y ==> (y - x) * k > 0.0;
  }

  /**
   * On a social canvas the legend begins 215 text units left of the middle. It never crosses
   * the left margin, and keeps off the right one exactly while its labels are short enough
   * for the canvas; 57 characters in both of them always are.
   */
  lemma SocialLegendStaysInsideExactly(doc: RoadmapDocument, cols: seq<Column>, laneSeparation: real)
    requires Social(doc)
    ensures var w, m, outer := RowOf(FrameOf(doc, laneSeparation), cols).width, MetricsOf(doc), doc.layout.outerMargin;
      var first, second := Length(doc.labels.independent), Length(doc.labels.proprietary);
      var x, printed := w / 2.0 - 215.0 * m.scale, Max(13.64 * first, 120.0) + 13.64 * second;
      && outer <= x - m.legendDot
      && (x + LegendWidth(doc, m) <= w - outer <==> (printed - 139.0) * m.scale <= w / 2.0 - outer)
      && (first + second <= 57.0 ==> x + LegendWidth(doc, m) <= w - outer)
  {
    hide MetricsOf, LegendWidth, RowOf, FrameOf, Social, Length, Max;
    SocialHalf(doc, cols, laneSeparation); SocialLegend(doc);
    var m, first, second := MetricsOf(doc), Length(doc.labels.independent), Length(doc.labels.proprietary);
    PrintedBound(doc.labels.independent, doc.labels.proprietary);
    var w, rest := RowOf(FrameOf(doc, laneSeparation), cols).width, LegendWidth(doc, m);
    LegendArithmetic(w, doc.layout.outerMargin, m.scale, Max(13.64 * first, 120.0) + 13.64 * second, rest);
  }

  lemma PrintedBound(independent: string, proprietary: string)
    ensures var first, second := Length(independent), Length(proprietary);
      var printed := Max(13.64 * first, 120.0) + 13.64 * second;
      printed >= 0.0 && (first + second <= 57.0 ==> printed <= 897.48)
  {
    assert Length(independent) >= 0.0 && Length(proprietary) >= 0.0;
    hide Length;
  }

  lemma LegendArithmetic(w: real, outer: real, s: real, printed: real, rest: real)
    requires s > 0.0 && printed >= 0.0 && rest == (76.0 + printed) * s && w / 2.0 - outer >= (rest + 547.0 * s) / 2.0
    ensures outer <= w / 2.0 - 215.0 * s - 12.0 * s
    ensures w / 2.0 - 215.0 * s + rest <= w - outer <==> (printed - 139.0) * s <= w / 2.0 - outer
    ensures printed <= 897.48 ==> w / 2.0 - 215.0 * s + rest <= w - outer
  {
    var ink := printed * s;
    assert (76.0 + printed) * s == 76.0 * s + ink && (printed - 139.0) * s == ink - 139.0 * s;
    assert ink >= 0.0;
    if printed <= 897.48 { Scale(printed, 897.48, s); }
  }

  // --------------------------------------------------------- wider spacing

  lemma {:induction false} SumGrows(xs: seq<real>, ys: seq<real>)
    requires |xs| == |ys| && forall i :: 0 <= i < |xs| ==> xs[i] <= ys[i]
    ensures Sum(xs) <= Sum(ys)
  {
    if xs != [] { SumGrows(xs[..|xs| - 1], ys[..|ys| - 1]); }
  }

  /**
   * On a canvas of automatic width, a wider spacing moves no node to the left and
   * never narrows the canvas.
   */
  lemma WiderSpacingNeverShrinks(f: Frame, g: Frame, cols: seq<Column>)
    requires f.fits && g == f.(spacing := g.spacing) && f.spacing <= g.spacing
    ensures RowOf(f, cols).width <= RowOf(g, cols).width
    ensures forall i :: 0 <= i < |cols| ==> RowOf(f, cols).nodes[i].x <= RowOf(g, cols).nodes[i].x
  {
    var a, b := CenterGaps(cols, f.spacing, f.run), CenterGaps(cols, g.spacing, g.run);
    SumGrows(a, b);
    CeilGrows(Intrinsic(f, cols, Sum(a)), Intrinsic(g, cols, Sum(b)));
    var ra, rb := ResolvedGaps(a, 0.0), ResolvedGaps(b, 0.0);
    forall i | 0 <= i < |cols| ensures Sum(ra[..i]) <= Sum(rb[..i]) {
      SumGrows(ra[..i], rb[..i]);
    }
  }
}
