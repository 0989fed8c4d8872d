/**
 * Sizes of type, plates, columns and bottom row. JavaScript numbers are
 * taken as reals.
 */
module Measure {
  import opened Text
  import opened Calendar
  import opened Document
  import opened Ordering
  import opened Wrapping

  function Max(a: real, b: real): real { if a < b then b else a }
  function Min(a: real, b: real): real { if b < a then b else a }
  function Clamp(x: real, lo: real, hi: real): real { Min(hi, Max(lo, x)) }

  /** Math.ceil. */
  function Ceil(x: real): (r: real)
    ensures x <= r < x + 1.0 && r == r.Floor as real
  {
    (-((-x).Floor)) as real
  }

  lemma CeilGrows(x: real, y: real)
    requires x <= y
    ensures Ceil(x) <= Ceil(y)
  {
    FloorGrows(-y, -x);
  }

  lemma FloorGrows(x: real, y: real)
    requires x <= y
    ensures x.Floor <= y.Floor
  {
    assert x.Floor as real < (y.Floor + 1) as real;
  }

  /** Math.round. */
  function Round(x: real): (r: real)
    ensures x - 0.5 < r <= x + 0.5 && r == r.Floor as real
  {
    (x + 0.5).Floor as real
  }

  lemma RoundGrows(x: real, y: real)
    requires x <= y
    ensures Round(x) <= Round(y)
  {
    FloorGrows(x + 0.5, y + 0.5);
  }

  // --------------------------------------------------------------- metrics

  const PLATE_HALF := 38.0

  function TextScale(doc: RoadmapDocument): (s: real)
    ensures 0.6 <= s <= 3.0
  {
    Clamp(if doc.layout.textScale == 0.0 then 1.0 else doc.layout.textScale, 0.6, 3.0)
  }

  /** Fixed width and a height of 1400 or more. */
  predicate Social(doc: RoadmapDocument) {
    doc.layout.widthMode == Fixed && doc.layout.height >= 1400.0
  }

  datatype Metrics = Metrics(
    scale: real, title: real, subtitle: real, lane: real,
    category: real, categoryGlyph: real, nodeLabel: real, nodeLabelLine: real,
    date: real, now: real, legend: real, legendDot: real, brand: real, brandMark: real,
    laneLabelOffset: real, categoryOffset: real, nodeLabelOffset: real,
    dateLabelOffset: real, timelineLabelOffset: real)

  function MetricsOf(doc: RoadmapDocument): Metrics {
    MetricsFor(TextScale(doc), Social(doc))
  }

  function MetricsFor(s: real, social: bool): Metrics {
    Metrics(
      s,
      (if social then 64.0 else 52.0) * s,
      (if social then 22.0 else 18.0) * s,
      14.0 * s,
      (if social then 15.0 else 12.0) * s,
      (if social then 34.0 else 30.0) * s,
      (if social then 14.0 else 13.0) * s,
      17.0 * s,
      13.0 * s,
      10.0 * s,
      (if social then 22.0 else 14.0) * s,
      (if social then 12.0 else 9.0) * s,
      (if social then 33.0 else 22.0) * s,
      (if social then 76.0 else 50.0) * s,
      PLATE_HALF + 28.0 * s,
      PLATE_HALF + 68.0 * s,
      PLATE_HALF + 40.0 * s,
      36.0 * s,
      16.0 * s)
  }

  // ---------------------------------------------------------- bottom row

  const BRAND_NOTE := "Plan your digital independence at"
  const BRAND_LABEL := "myownsuite.org/plan"

  function Length(s: string): real { |s| as real }

  function LegendSecondX(firstLabel: string, m: Metrics): real {
    m.legendDot + 13.0 * m.scale + Max(Length(firstLabel) * m.legend * 0.62, 120.0 * m.scale) + 26.0 * m.scale
  }

  function LegendWidth(doc: RoadmapDocument, m: Metrics): real {
    LegendSecondX(doc.labels.independent, m) + m.legendDot + 13.0 * m.scale
    + Length(doc.labels.proprietary) * m.legend * 0.62
  }

  function BrandWidth(m: Metrics): real {
    m.brandMark * 1.24 + Max(Length(BRAND_LABEL) * m.brand * 0.6, Length(BRAND_NOTE) * m.brand * 0.62 * 0.6)
  }

  // ------------------------------------------------------ category marker

  datatype Marker = Marker(glyph: real, iconTop: real, textBaseline: real, reach: real)

  function CategoryMarker(doc: RoadmapDocument, m: Metrics): Marker {
    var showIcon := doc.metadata.categoryDisplay != AsText;
    var showText := doc.metadata.categoryDisplay != AsIcon;
    var glyph := if showIcon then m.categoryGlyph else 0.0;
    var iconTop := 12.0 * m.scale + glyph;
    var textBaseline := if showIcon then iconTop + 9.0 * m.scale else 16.0 * m.scale;
    Marker(glyph, iconTop, textBaseline, if showText then textBaseline + m.category * 0.75 else iconTop)
  }

  // ---------------------------------------------------------- node labels

  const LABEL_CHARS := 22

  function PrintedLines(entry: ServiceEntry): (n: nat)
    ensures 1 <= n <= 3
  {
    |LabelLines(entry.labelText, LABEL_CHARS)|
  }

  function MostLines(entries: seq<ServiceEntry>): (n: nat)
    ensures 1 <= n <= 3
    ensures forall e <- entries :: PrintedLines(e) <= n
  {
    if entries == [] then 1
    else
      var rest := MostLines(entries[1..]);
      if PrintedLines(entries[0]) > rest then PrintedLines(entries[0]) else rest
  }

  /** How far a label of that many lines reaches past the lane centre. */
  function LabelReach(lines: nat, m: Metrics): real
    requires lines >= 1
  {
    m.nodeLabelOffset + (lines - 1) as real * m.nodeLabelLine + m.nodeLabel * 0.4
  }

  function LongestLine(lines: seq<string>): (n: nat)
    ensures n >= 1
  {
    if lines == [] then 1
    else var rest := LongestLine(lines[1..]); if |lines[0]| > rest then |lines[0]| else rest
  }

  function LabelWidth(labelText: string, fontSize: real): real {
    Min(260.0 * fontSize / 14.0, LongestLine(LabelLines(labelText, LABEL_CHARS)) as real * fontSize * 0.56 + 16.0)
  }

  // --------------------------------------------------------------- plates

  function PlateWidth(entry: ServiceEntry, doc: RoadmapDocument): real {
    PlateFor(|entry.icons|, doc.layout.iconSize, doc.layout.minNodeWidth)
  }

  function PlateFor(icons: nat, iconSize: real, minNodeWidth: real): real {
    var n := icons as real;
    var iconWidth := if icons > 0 then n * iconSize + (n - 1.0) * 8.0 else iconSize;
    Max(minNodeWidth, iconWidth + 26.0)
  }

  // -------------------------------------------------------------- columns

  datatype Lanes = Lanes(top: ServiceEntry, bottom: ServiceEntry)

  function LaneEntries(m: Migration, viewDate: string): Lanes
    requires Placeable(m)
  {
    if IsReached(m, viewDate) then Lanes(m.replacement, m.source) else Lanes(m.source, m.replacement)
  }

  /**
   * The lanes of a node by the calendar. On real days the replacement is on top, and the
   * source below, exactly once the exact day has come, or once every day of the quarter or
   * year has passed; a node without a date keeps its source on top.
   */
  lemma LanesTurnOnTheDay(m: Migration, viewDate: string)
    requires Placeable(m) && RealDay(viewDate)
    requires m.date == "" || RealDay(m.date)
    requires m.date == "" || m.datePrecision == ByDay || PeriodEndDate(m.date, m.datePrecision) != "9999-12-31"
    ensures LaneEntries(m, viewDate)
         == if m.date != ""
               && (if m.datePrecision == ByDay then !Earlier(Parse(viewDate), Parse(m.date))
                   else forall day :: InPeriod(day, Parse(m.date), m.datePrecision) ==> Earlier(day, Parse(viewDate)))
            then Lanes(m.replacement, m.source) else Lanes(m.source, m.replacement)
  {
    ExactDateReachedFromThatDay(m, viewDate);
    if m.date != "" && m.datePrecision != ByDay { PeriodReachedAfterLastDay(m, viewDate); }
    hide IsReached, Earlier, InPeriod, RealDate;
  }

  /** An exact date that is merely shaped like one turns the lanes by the order of strings. */
  lemma LanesTurnByTheString(m: Migration, viewDate: string)
    requires Placeable(m) && m.datePrecision == ByDay && m.date != "" && viewDate != ""
    ensures LaneEntries(m, viewDate)
         == if AtMost(m.date, viewDate) then Lanes(m.replacement, m.source) else Lanes(m.source, m.replacement)
  {
    ExactDateReachedFromThatDay(m, viewDate);
    hide IsReached;
  }

  function FormatFullDate(date: string, order: DateFormat): string {
    if !RealDay(date) then "Set date"
    else if order == DayFirst then date[8..10] + "/" + date[5..7] + "/" + date[..4]
    else date[5..7] + "/" + date[8..10] + "/" + date[..4]
  }

  function DisplayLabel(m: Migration, order: DateFormat): string {
    match m.displayPrecision
    case ByDay => if m.datePrecision != ByDay then "Set exact date" else FormatFullDate(m.date, order)
    case ByYear => if !RealDay(m.date) then "Set date" else Decimal(Parse(m.date).year)
    case ByQuarter =>
      if !RealDay(m.date) then "Set date"
      else Decimal(Parse(m.date).year) + " Q" + Decimal((Parse(m.date).month - 1) / 3 + 1)
  }

  /** A date printed in full, with the day or the month first. */
  ghost predicate PrintsDay(r: string, d: Date, order: DateFormat) {
    && |r| == 10 && r[2] == '/' && r[5] == '/' && (forall k :: 0 <= k < 10 && k != 2 && k != 5 ==> IsDigit(r[k]))
    && 100 * Pair(r[6], r[7]) + Pair(r[8], r[9]) == d.year
    && Pair(r[0], r[1]) == (if order == DayFirst then d.day else d.month)
    && Pair(r[3], r[4]) == (if order == DayFirst then d.month else d.day)
  }

  ghost predicate PrintsYear(r: string, d: Date) { (forall c <- r :: IsDigit(c)) && NumberOf(r) == d.year }

  /** The year, and the quarter the month falls in. */
  ghost predicate PrintsQuarter(r: string, d: Date) {
    |r| > 3 && r[|r| - 3] == ' ' && r[|r| - 2] == 'Q' && IsDigit(r[|r| - 1])
    && PrintsYear(r[..|r| - 3], d)
    && 3 * DigitValue(r[|r| - 1]) - 2 <= d.month <= 3 * DigitValue(r[|r| - 1])
  }

  /** What is printed under a node tells its date at the precision it is shown at, if it has one to tell. */
  lemma LabelTellsTheDate(m: Migration, order: DateFormat)
    ensures var r := DisplayLabel(m, order);
      if m.displayPrecision == ByDay && m.datePrecision != ByDay then r == "Set exact date"
      else if !IsIsoDate(m.date) then r == "Set date"
      else match m.displayPrecision
           case ByDay => PrintsDay(r, Parse(m.date), order)
           case ByYear => PrintsYear(r, Parse(m.date))
           case ByQuarter => PrintsQuarter(r, Parse(m.date))
  {
    IsoDatesAreRealDays(m.date);
    hide IsIsoDate, RealDay, PrintsDay, PrintsYear, PrintsQuarter, FormatFullDate;
    if RealDay(m.date) {
      FullDateTells(m.date, order); YearTells(m.date); QuarterTells(m.date);
    } else {
      assert FormatFullDate(m.date, order) == "Set date" by { NoFullDate(m.date, order); }
    }
  }

  lemma NoFullDate(date: string, order: DateFormat)
    requires !RealDay(date)
    ensures FormatFullDate(date, order) == "Set date"
  {
    hide RealDay;
  }

  lemma FullDateTells(date: string, order: DateFormat)
    requires RealDay(date)
    ensures Shaped(date) && PrintsDay(FormatFullDate(date, order), Parse(date), order)
  {
    hide RealDate;
  }

  lemma YearTells(date: string)
    requires RealDay(date)
    ensures Shaped(date) && PrintsYear(Decimal(Parse(date).year), Parse(date))
  {
    DecimalSpells(Parse(date).year);
    hide Decimal, NumberOf, Parse, RealDate;
  }

  lemma QuarterTells(date: string)
    requires RealDay(date)
    ensures Shaped(date) && RealDate(Parse(date))
    ensures PrintsQuarter(Decimal(Parse(date).year) + " Q" + Decimal((Parse(date).month - 1) / 3 + 1), Parse(date))
  {
    YearTells(date);
    var d := Parse(date);
    var q := (d.month - 1) / 3 + 1;
    assert Decimal(q) == [Digit(q)] && 1 <= q <= 4;
    hide Decimal, Parse, PrintsYear, Digit;
    var r := Decimal(d.year) + " Q" + Decimal(q);
    assert r[..|r| - 3] == Decimal(d.year);
  }

  function DateWidth(m: Migration, order: DateFormat, metrics: Metrics): real {
    Length(DisplayLabel(m, order)) * metrics.date * 0.62 + 12.0
  }

  function CategoryWidth(m: Migration, metadata: Metadata, metrics: Metrics): real {
    if metadata.showCategories && metadata.categoryDisplay != AsIcon
    then Length(m.categoryLabel) * metrics.category * 0.62 + 12.0 else 0.0
  }

  /** The widest of the two plates, the two labels, the date and the category text. */
  function ColumnWidth(doc: RoadmapDocument, m: Migration): (w: real)
    requires Placeable(m)
    ensures var lanes := LaneEntries(m, doc.timeline.viewDate);
            w >= PlateWidth(lanes.top, doc) && w >= PlateWidth(lanes.bottom, doc) && w >= 86.0
  {
    var lanes, metrics := LaneEntries(m, doc.timeline.viewDate), MetricsOf(doc);
    Max(PlateWidth(lanes.top, doc), Max(PlateWidth(lanes.bottom, doc),
    Max(LabelWidth(lanes.top.labelText, metrics.nodeLabel), Max(LabelWidth(lanes.bottom.labelText, metrics.nodeLabel),
    Max(DateWidth(m, doc.timeline.fullDateFormat, metrics), Max(CategoryWidth(m, doc.metadata, metrics), 86.0))))))
  }

  /** Width of that many characters of a label, as measuring estimates it. */
  function InkWidth(chars: nat, fontSize: real): real { chars as real * fontSize * 0.56 }

  /** The column without the part that one of the labels asks for. */
  function WithoutLabel(doc: RoadmapDocument, m: Migration, other: ServiceEntry): real
    requires Placeable(m)
  {
    var lanes, metrics := LaneEntries(m, doc.timeline.viewDate), MetricsOf(doc);
    Max(PlateWidth(lanes.top, doc), Max(PlateWidth(lanes.bottom, doc), Max(LabelWidth(other.labelText, metrics.nodeLabel),
    Max(DateWidth(m, doc.timeline.fullDateFormat, metrics), Max(CategoryWidth(m, doc.metadata, metrics), 86.0)))))
  }

  lemma LabelCoversExactly(chars: nat, fontSize: real)
    requires fontSize > 0.0
    ensures InkWidth(chars, fontSize) <= Min(260.0 * fontSize / 14.0, InkWidth(chars, fontSize) + 16.0) <==> chars <= 33
  {
    var n := chars as real;
    if chars <= 33 {
      Scale(n, 33.0, fontSize);
    } else {
      Scale(34.0, n, fontSize);
    }
  }

  lemma Scale(x: real, y: real, k: real)
    requires x <= y && k >= 0.0
    ensures x * k <= y * k
  {
    assert (y - x) * k >= 0.0;
  }

  /**
   * The column holds all that is printed: date and category with their margins, and the
   * longest line of either label exactly unless that line has more than 33 characters and
   * nothing else in the column is as wide.
   */
  lemma ColumnHoldsItsPrintExactly(doc: RoadmapDocument, m: Migration)
    requires Placeable(m)
    ensures var w, lanes, metrics := ColumnWidth(doc, m), LaneEntries(m, doc.timeline.viewDate), MetricsOf(doc);
      var top, bottom := LongestLine(LabelLines(lanes.top.labelText, LABEL_CHARS)), LongestLine(LabelLines(lanes.bottom.labelText, LABEL_CHARS));
      && DateWidth(m, doc.timeline.fullDateFormat, metrics) <= w && CategoryWidth(m, doc.metadata, metrics) <= w
      && (InkWidth(top, metrics.nodeLabel) <= w <==> top <= 33 || InkWidth(top, metrics.nodeLabel) <= WithoutLabel(doc, m, lanes.bottom))
      && (InkWidth(bottom, metrics.nodeLabel) <= w <==> bottom <= 33 || InkWidth(bottom, metrics.nodeLabel) <= WithoutLabel(doc, m, lanes.top))
  {
    var lanes, fontSize := LaneEntries(m, doc.timeline.viewDate), MetricsOf(doc).nodeLabel;
    hide LaneEntries, LabelLines, DateWidth, CategoryWidth, MetricsOf, Placeable, LongestLine, InkWidth, ColumnWidth, WithoutLabel, LabelWidth, Max, PlateWidth;
    ColumnIs(doc, m);
    LabelHolds(doc, lanes.top.labelText); LabelHolds(doc, lanes.bottom.labelText);
    var top, bottom := LongestLine(LabelLines(lanes.top.labelText, LABEL_CHARS)), LongestLine(LabelLines(lanes.bottom.labelText, LABEL_CHARS));
    HeldExactly(InkWidth(top, fontSize), LabelWidth(lanes.top.labelText, fontSize), WithoutLabel(doc, m, lanes.bottom), top <= 33);
    HeldExactly(InkWidth(bottom, fontSize), LabelWidth(lanes.bottom.labelText, fontSize), WithoutLabel(doc, m, lanes.top), bottom <= 33);
  }

  lemma HeldExactly(ink: real, part: real, rest: real, short: bool)
    requires ink <= part <==> short
    ensures ink <= Max(rest, part) <==> short || ink <= rest
  {
  }

  lemma ColumnIs(doc: RoadmapDocument, m: Migration)
    requires Placeable(m)
    ensures var w, lanes, metrics := ColumnWidth(doc, m), LaneEntries(m, doc.timeline.viewDate), MetricsOf(doc);
      && w == Max(WithoutLabel(doc, m, lanes.bottom), LabelWidth(lanes.top.labelText, metrics.nodeLabel))
      && w == Max(WithoutLabel(doc, m, lanes.top), LabelWidth(lanes.bottom.labelText, metrics.nodeLabel))
      && DateWidth(m, doc.timeline.fullDateFormat, metrics) <= w && CategoryWidth(m, doc.metadata, metrics) <= w
  {
    hide LaneEntries, LabelWidth, DateWidth, CategoryWidth, MetricsOf, Placeable, PlateWidth, Max;
    var lanes, metrics := LaneEntries(m, doc.timeline.viewDate), MetricsOf(doc);
    WidestOf(PlateWidth(lanes.top, doc), PlateWidth(lanes.bottom, doc),
      LabelWidth(lanes.top.labelText, metrics.nodeLabel), LabelWidth(lanes.bottom.labelText, metrics.nodeLabel),
      DateWidth(m, doc.timeline.fullDateFormat, metrics), CategoryWidth(m, doc.metadata, metrics));
  }

  lemma WidestOf(a: real, b: real, top: real, bottom: real, d: real, c: real)
    ensures var w := Max(a, Max(b, Max(top, Max(bottom, Max(d, Max(c, 86.0))))));
      && w == Max(Max(a, Max(b, Max(bottom, Max(d, Max(c, 86.0))))), top)
      && w == Max(Max(a, Max(b, Max(top, Max(d, Max(c, 86.0))))), bottom)
      && d <= w && c <= w
  {
  }

  lemma LabelHolds(doc: RoadmapDocument, labelText: string)
    ensures var n, fontSize := LongestLine(LabelLines(labelText, LABEL_CHARS)), MetricsOf(doc).nodeLabel;
      InkWidth(n, fontSize) <= LabelWidth(labelText, fontSize) <==> n <= 33
  {
    hide LabelLines, LongestLine, MetricsOf, InkWidth, LabelWidth;
    FontIsPositive(doc);
    LabelWidthIs(labelText, MetricsOf(doc).nodeLabel);
    LabelCoversExactly(LongestLine(LabelLines(labelText, LABEL_CHARS)), MetricsOf(doc).nodeLabel);
  }

  lemma FontIsPositive(doc: RoadmapDocument)
    ensures MetricsOf(doc).nodeLabel > 0.0
  {
    hide Social;
  }

  lemma LabelWidthIs(labelText: string, fontSize: real)
    ensures LabelWidth(labelText, fontSize)
         == Min(260.0 * fontSize / 14.0, InkWidth(LongestLine(LabelLines(labelText, LABEL_CHARS)), fontSize) + 16.0)
  {
    hide LabelLines, LongestLine;
  }

  // ------------------------------------------------- the drawing of a node

  /** The icons as RoadmapNode draws them: smaller when there are several. */
  function DrawnIconSize(entry: ServiceEntry, doc: RoadmapDocument): real {
    if |entry.icons| > 1 then doc.layout.iconSize * 0.7 else doc.layout.iconSize
  }

  function IconGroupWidth(entry: ServiceEntry, doc: RoadmapDocument): real {
    var a, n := DrawnIconSize(entry, doc), |entry.icons| as real;
    Max(a, n * a + Max(0.0, n - 1.0) * 7.0)
  }

  /** Across, the icons always fit the plate with thirteen units to spare on either side. */
  lemma IconsFitAcross(entry: ServiceEntry, doc: RoadmapDocument)
    requires doc.layout.iconSize >= 0.0
    ensures IconGroupWidth(entry, doc) + 26.0 <= PlateWidth(entry, doc)
  {
    var n, size := |entry.icons| as real, doc.layout.iconSize;
    if |entry.icons| > 1 {
      SmallerIcons(n, size);
      assert IconGroupWidth(entry, doc) == Max(size * 0.7, n * (size * 0.7) + (n - 1.0) * 7.0);
      assert PlateWidth(entry, doc) >= n * size + (n - 1.0) * 8.0 + 26.0;
    }
  }

  lemma SmallerIcons(n: real, size: real)
    requires n >= 2.0 && size >= 0.0
    ensures n * (size * 0.7) <= n * size && size * 0.7 <= n * size
  {
    assert n * (size * 0.7) == 0.7 * (n * size);
    assert n * size >= 2.0 * size by { assert (n - 2.0) * size >= 0.0; }
  }

  /** The first baseline of a label of that many lines, centred on a one-line label's. */
  function LabelStart(lines: nat, m: Metrics): real
    requires lines >= 1
  {
    m.nodeLabelOffset - (lines - 1) as real * m.nodeLabelLine / 2.0
  }

  const CAP_RATIO := 0.72

  /** However many lines there are, the first and the last baseline are as far from a single one. */
  lemma LabelIsCentred(lines: nat, m: Metrics)
    requires lines >= 1
    ensures var last := LabelStart(lines, m) + (lines - 1) as real * m.nodeLabelLine;
      && last - m.nodeLabelOffset == m.nodeLabelOffset - LabelStart(lines, m)
      && LabelStart(1, m) == m.nodeLabelOffset
  {
    assert LabelStart(1, m) == m.nodeLabelOffset - 0.0 * m.nodeLabelLine / 2.0;
  }

  /** The printed block stays below the plate and within the reach kept for it. */
  lemma LabelStaysInReach(doc: RoadmapDocument, entry: ServiceEntry, entries: seq<ServiceEntry>)
    requires entry in entries
    ensures var m, n := MetricsOf(doc), PrintedLines(entry);
      && PLATE_HALF < LabelStart(n, m) - CAP_RATIO * m.nodeLabel
      && LabelStart(n, m) + (n - 1) as real * m.nodeLabelLine + m.nodeLabel * 0.4 <= LabelReach(MostLines(entries), m)
  {
    hide PrintedLines, MostLines, Social, TextScale;
    var m, n, most := MetricsOf(doc), PrintedLines(entry), MostLines(entries);
    var a, b := (n - 1) as real, (most - 1) as real;
    assert a == 0.0 || a == 1.0 || a == 2.0;
    assert b == 0.0 || b == 1.0 || b == 2.0;
    assert a <= b;
    TimesLine(a, m.nodeLabelLine); TimesLine(b, m.nodeLabelLine);
  }

  /** The glyph and the text above it, as CategoryMarker draws them from its anchor upwards. */
  lemma MarkerStaysInReach(doc: RoadmapDocument)
    ensures var m, k, display := MetricsOf(doc), CategoryMarker(doc, MetricsOf(doc)), doc.metadata.categoryDisplay;
      && (display != AsText ==> 12.0 * m.scale <= k.iconTop - k.glyph && k.iconTop <= k.reach)
      && (display != AsIcon ==> 0.4 * m.category < k.textBaseline && k.textBaseline + CAP_RATIO * m.category <= k.reach)
      && (display != AsText && display != AsIcon ==> k.iconTop + 0.4 * m.category < k.textBaseline)
  {
    hide TextScale, Social;
  }

  /** The first label of the legend ends before the second swatch begins. */
  lemma LegendKeepsItsPartsApart(doc: RoadmapDocument)
    ensures var m := MetricsOf(doc); var second := LegendSecondX(doc.labels.independent, m);
      && m.legendDot + 13.0 * m.scale + Length(doc.labels.independent) * m.legend * 0.62 + 14.0 * m.scale <= second - m.legendDot
      && second + m.legendDot + 13.0 * m.scale + Length(doc.labels.proprietary) * m.legend * 0.62 == LegendWidth(doc, m)
  {
    hide TextScale, Social;
  }

  /**
   * The signature as BrandSignature draws it, right-aligned around a centre line: as wide as
   * the room kept for it, and its two lines, descender included, no taller than its mark.
   */
  lemma SignatureStaysInRoom(doc: RoadmapDocument)
    ensures var m := MetricsOf(doc);
      var note, lineGap := m.brand * 0.62, m.brand * 1.15;
      var baseline := (note * CAP_RATIO - lineGap) / 2.0;
      && m.brandMark + m.brandMark * 0.24 + Max(Length(BRAND_LABEL) * m.brand * 0.6, Length(BRAND_NOTE) * note * 0.6) == BrandWidth(m)
      && -m.brandMark / 2.0 < baseline - note * CAP_RATIO
      && baseline < baseline + lineGap - m.brand * CAP_RATIO
      && baseline + lineGap + m.brand * 0.25 < m.brandMark / 2.0
  {
    hide TextScale, Social;
  }

  lemma TimesLine(a: real, line: real)
    requires a == 0.0 || a == 1.0 || a == 2.0
    ensures a * line == if a == 0.0 then 0.0 else if a == 1.0 then line else line + line
  {
  }
}
