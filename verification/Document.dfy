/**
 * The roadmap document: the value every other module reads or rewrites.
 */
module Document {
  import opened Calendar

  datatype Option<+T> = None | Some(value: T)

  datatype Category = Independent | Proprietary

  datatype IconSource = FromLibrary | FromDashboard | FromUpload

  datatype IconRef = IconRef(id: string, name: string, source: IconSource, dataUrl: Option<string>)

  datatype ServiceEntry = ServiceEntry(labelText: string, category: Category, icons: seq<IconRef>)

  datatype Migration = Migration(
    id: string,
    categoryLabel: string,
    categoryIcon: string,
    source: ServiceEntry,
    replacement: ServiceEntry,
    date: string,
    datePrecision: Precision,
    displayPrecision: Precision)

  datatype CategoryDisplay = AsText | AsIcon | AsBoth

  datatype Metadata = Metadata(
    title: string, subtitle: string,
    showTitle: bool, showSubtitle: bool, showCategories: bool,
    categoryDisplay: CategoryDisplay)

  datatype Labels = Labels(
    usingNow: string, replacedPlanned: string, timeline: string,
    independent: string, proprietary: string)

  datatype DateFormat = DayFirst | MonthFirst

  datatype Timeline = Timeline(viewDate: string, fullDateFormat: DateFormat)

  datatype Theme = Theme(
    background: string, text: string, secondaryText: string,
    independent: string, proprietary: string, timeline: string,
    transparent: bool)

  datatype WidthMode = Auto | Fixed

  datatype LayoutSettings = LayoutSettings(
    widthMode: WidthMode, width: real, height: real,
    outerMargin: real, nodeSpacing: real, textScale: real,
    minNodeWidth: real, iconSize: real, laneSeparation: real, curveTension: real,
    showSafeArea: bool, simulateSquareCrop: bool)

  datatype RoadmapDocument = RoadmapDocument(
    metadata: Metadata, labels: Labels, timeline: Timeline,
    migrations: seq<Migration>,
    theme: Theme, layout: LayoutSettings, filename: string)

  // Bounds of the validator: list lengths and string lengths.
  const MAX_MIGRATIONS := 60
  const ICONS_PER_SIDE := 6
  const TEXT_CAP := 200
  const FILENAME_CAP := 80
  const DATA_URL_CAP := 2_100_000

  datatype Range = Range(min: real, max: real)

  // Lower and upper bound of each number in the layout settings.
  const WIDTH_RANGE := Range(760.0, 8000.0)
  const HEIGHT_RANGE := Range(640.0, 5000.0)
  const MARGIN_RANGE := Range(24.0, 300.0)
  const SPACING_RANGE := Range(8.0, 400.0)
  const SCALE_RANGE := Range(0.8, 2.4)
  const NODE_WIDTH_RANGE := Range(54.0, 280.0)
  const ICON_RANGE := Range(24.0, 110.0)
  const LANE_RANGE := Range(150.0, 650.0)
  const TENSION_RANGE := Range(0.35, 1.4)

  predicate Within(x: real, r: Range) { r.min <= x <= r.max }

  /** What the inspector's sliders and the validator both guarantee of the layout numbers. */
  predicate InRange(l: LayoutSettings) {
    && Within(l.width, WIDTH_RANGE) && Within(l.height, HEIGHT_RANGE)
    && Within(l.outerMargin, MARGIN_RANGE) && Within(l.nodeSpacing, SPACING_RANGE)
    && Within(l.textScale, SCALE_RANGE) && Within(l.minNodeWidth, NODE_WIDTH_RANGE)
    && Within(l.iconSize, ICON_RANGE) && Within(l.laneSeparation, LANE_RANGE)
    && Within(l.curveTension, TENSION_RANGE)
  }

  /** Every document pairs a proprietary source with an independent replacement. */
  predicate TwoSided(d: RoadmapDocument) {
    forall m <- d.migrations :: m.source.category == Proprietary && m.replacement.category == Independent
  }

  predicate UniqueIds(ms: seq<Migration>) {
    forall i, j :: 0 <= i < j < |ms| ==> ms[i].id != ms[j].id
  }

  // ------------------------------------------------------ icon by icon

  function MapEntry(e: ServiceEntry, f: IconRef -> IconRef): (r: ServiceEntry)
    ensures r.labelText == e.labelText && r.category == e.category && |r.icons| == |e.icons|
    ensures forall k :: 0 <= k < |e.icons| ==> r.icons[k] == f(e.icons[k])
  {
    e.(icons := seq(|e.icons|, k requires 0 <= k < |e.icons| => f(e.icons[k])))
  }

  function MapMigration(m: Migration, f: IconRef -> IconRef): Migration {
    m.(source := MapEntry(m.source, f), replacement := MapEntry(m.replacement, f))
  }

  function MapMigrations(ms: seq<Migration>, f: IconRef -> IconRef): (r: seq<Migration>)
    ensures |r| == |ms| && forall k :: 0 <= k < |ms| ==> r[k] == MapMigration(ms[k], f)
  {
    seq(|ms|, k requires 0 <= k < |ms| => MapMigration(ms[k], f))
  }

  /** The document with every icon replaced, and nothing else. */
  function MapIcons(d: RoadmapDocument, f: IconRef -> IconRef): RoadmapDocument {
    d.(migrations := MapMigrations(d.migrations, f))
  }

  predicate EntryHas(e: ServiceEntry, i: IconRef) { i in e.icons }

  predicate MigrationHas(m: Migration, i: IconRef) { EntryHas(m.source, i) || EntryHas(m.replacement, i) }

  predicate HasIcon(d: RoadmapDocument, i: IconRef) {
    exists m :: m in d.migrations && MigrationHas(m, i)
  }

  lemma ComposeOnEntry(e: ServiceEntry, f: IconRef -> IconRef, g: IconRef -> IconRef, h: IconRef -> IconRef)
    ensures MapEntry(MapEntry(e, f), g) == MapEntry(e, h) <==> forall i :: EntryHas(e, i) ==> g(f(i)) == h(i)
  {
    var a, b := MapEntry(MapEntry(e, f), g), MapEntry(e, h);
    if a == b {
      forall i | EntryHas(e, i) ensures g(f(i)) == h(i) {
        var k :| 0 <= k < |e.icons| && e.icons[k] == i;
        assert a.icons[k] == b.icons[k];
      }
    }
    if forall i :: EntryHas(e, i) ==> g(f(i)) == h(i) {
      forall k | 0 <= k < |e.icons| ensures a.icons[k] == b.icons[k] { assert EntryHas(e, e.icons[k]); }
      assert a.icons == b.icons;
    }
  }

  /** Two replacements in a row amount to one exactly when they do so on the document's icons. */
  lemma ComposeMaps(d: RoadmapDocument, f: IconRef -> IconRef, g: IconRef -> IconRef, h: IconRef -> IconRef)
    ensures MapIcons(MapIcons(d, f), g) == MapIcons(d, h) <==> forall i :: HasIcon(d, i) ==> g(f(i)) == h(i)
  {
    hide EntryHas, MapEntry;
    var ms := d.migrations;
    var a, b := MapMigrations(MapMigrations(ms, f), g), MapMigrations(ms, h);
    forall k | 0 <= k < |ms|
      ensures a[k] == b[k] <==> forall i :: MigrationHas(ms[k], i) ==> g(f(i)) == h(i)
    {
      ComposeOnEntry(ms[k].source, f, g, h); ComposeOnEntry(ms[k].replacement, f, g, h);
    }
    if a == b {
      forall i | HasIcon(d, i) ensures g(f(i)) == h(i) {
        var m :| m in ms && MigrationHas(m, i);
        var k :| 0 <= k < |ms| && ms[k] == m;
        assert a[k] == b[k];
      }
    }
    if forall i :: HasIcon(d, i) ==> g(f(i)) == h(i) {
      forall k | 0 <= k < |ms| ensures a[k] == b[k] { assert ms[k] in ms; }
      assert a == b;
    }
  }

  function Same(i: IconRef): IconRef { i }

  lemma MapSame(d: RoadmapDocument)
    ensures MapIcons(d, Same) == d
  {
    forall k | 0 <= k < |d.migrations| ensures MapMigration(d.migrations[k], Same) == d.migrations[k] {
      var m := d.migrations[k];
      assert MapEntry(m.source, Same).icons == m.source.icons;
      assert MapEntry(m.replacement, Same).icons == m.replacement.icons;
    }
    assert MapMigrations(d.migrations, Same) == d.migrations;
  }
}
