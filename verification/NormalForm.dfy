/**
 * The normal form validateRoadmap brings documents into, and its fixed points.
 */
module NormalForm {
  import opened Text
  import opened Calendar
  import opened Document
  import opened Json
  import opened Normalise

  // ------------------------------------------- documents written as JSON

  function IconJson(i: IconRef): Json {
    var m := map[KId := JString(i.id), KName := JString(i.name), KSource := JString(SourceName(i.source))];
    JObject(if i.dataUrl.Some? then m[KDataUrl := JString(i.dataUrl.value)] else m)
  }

  function IconsJson(icons: seq<IconRef>): (r: seq<Json>)
    ensures |r| == |icons| && forall k :: 0 <= k < |icons| ==> r[k] == IconJson(icons[k])
  {
    seq(|icons|, k requires 0 <= k < |icons| => IconJson(icons[k]))
  }

  function ServiceJson(e: ServiceEntry): Json {
    JObject(map[KLabel := JString(e.labelText), KCategory := JString(CategoryName(e.category)), KIcons := JArray(IconsJson(e.icons))])
  }

  function MigrationJson(m: Migration): Json {
    JObject(map[
      KId := JString(m.id), KCategoryLabel := JString(m.categoryLabel), KCategoryIcon := JString(m.categoryIcon),
      KSource := ServiceJson(m.source), KReplacement := ServiceJson(m.replacement), KDate := JString(m.date),
      KDatePrecision := JString(PrecisionName(m.datePrecision)),
      KDisplayPrecision := JString(PrecisionName(m.displayPrecision))])
  }

  function MigrationsJson(ms: seq<Migration>): (r: seq<Json>)
    ensures |r| == |ms| && forall k :: 0 <= k < |ms| ==> r[k] == MigrationJson(ms[k])
  {
    seq(|ms|, k requires 0 <= k < |ms| => MigrationJson(ms[k]))
  }

  function MetadataJson(m: Metadata): Json {
    JObject(map[
      KTitle := JString(m.title), KSubtitle := JString(m.subtitle),
      KShowTitle := JBool(m.showTitle), KShowSubtitle := JBool(m.showSubtitle),
      KShowCategories := JBool(m.showCategories), KCategoryDisplay := JString(DisplayName(m.categoryDisplay))])
  }

  function LabelsJson(l: Labels): Json {
    JObject(map[
      KUsingNow := JString(l.usingNow), KReplacedPlanned := JString(l.replacedPlanned), KTimeline := JString(l.timeline),
      KIndependent := JString(l.independent), KProprietary := JString(l.proprietary)])
  }

  function TimelineJson(t: Timeline): Json {
    JObject(map[KViewDate := JString(t.viewDate), KFullDateFormat := JString(DateFormatName(t.fullDateFormat))])
  }

  function ThemeJson(t: Theme): Json {
    JObject(map[
      KBackground := JString(t.background), KText := JString(t.text), KSecondaryText := JString(t.secondaryText),
      KIndependent := JString(t.independent), KProprietary := JString(t.proprietary), KTimeline := JString(t.timeline),
      KTransparent := JBool(t.transparent)])
  }

  function Num(x: real): Json { JNumber(Finite(x)) }

  function LayoutJson(l: LayoutSettings): Json {
    JObject(map[
      KWidthMode := JString(WidthModeName(l.widthMode)), KWidth := Num(l.width), KHeight := Num(l.height),
      KOuterMargin := Num(l.outerMargin), KNodeSpacing := Num(l.nodeSpacing), KTextScale := Num(l.textScale),
      KMinNodeWidth := Num(l.minNodeWidth), KIconSize := Num(l.iconSize), KLaneSeparation := Num(l.laneSeparation),
      KCurveTension := Num(l.curveTension),
      KShowSafeArea := JBool(l.showSafeArea), KSimulateSquareCrop := JBool(l.simulateSquareCrop)])
  }

  /** The value JSON.stringify writes out. */
  function ToJson(d: RoadmapDocument): Json {
    JObject(map[
      KSchemaVersion := SCHEMA_VERSION,
      KMetadata := MetadataJson(d.metadata), KLabels := LabelsJson(d.labels), KTimeline := TimelineJson(d.timeline),
      KMigrations := JArray(MigrationsJson(d.migrations)),
      KTheme := ThemeJson(d.theme), KLayout := LayoutJson(d.layout),
      KExport := JObject(map[KFilename := JString(d.filename)])])
  }

  // ------------------------------------------------------- the normal form

  predicate Capped(s: string) { |s| <= TEXT_CAP }

  /** All of the normal form but the length of an icon's name. */
  predicate LooseIcon(i: IconRef) {
    i.id != "" && Capped(i.id) && (i.dataUrl.Some? ==> IsArtwork(i.dataUrl.value))
  }

  predicate LooseService(e: ServiceEntry, category: Category) {
    Capped(e.labelText) && e.category == category && |e.icons| <= ICONS_PER_SIDE && forall i <- e.icons :: LooseIcon(i)
  }

  predicate LooseMigration(m: Migration) {
    && m.id != "" && Capped(m.categoryLabel) && m.categoryIcon in CATEGORY_ICONS
    && LooseService(m.source, Proprietary) && LooseService(m.replacement, Independent)
    && (m.date == "" || RealDay(m.date))
  }

  predicate PlainTheme(t: Theme) {
    && IsPlainColor(t.background) && IsPlainColor(t.text) && IsPlainColor(t.secondaryText)
    && IsPlainColor(t.independent) && IsPlainColor(t.proprietary) && IsPlainColor(t.timeline)
  }

  predicate CappedMetadata(m: Metadata) { Capped(m.title) && Capped(m.subtitle) }

  predicate CappedLabels(l: Labels) {
    Capped(l.usingNow) && Capped(l.replacedPlanned) && Capped(l.timeline) && Capped(l.independent) && Capped(l.proprietary)
  }

  ghost predicate Loose(d: RoadmapDocument) {
    && CappedMetadata(d.metadata) && CappedLabels(d.labels) && RealDay(d.timeline.viewDate)
    && |d.migrations| <= MAX_MIGRATIONS && UniqueIds(d.migrations) && (forall m <- d.migrations :: LooseMigration(m))
    && PlainTheme(d.theme) && InRange(d.layout) && IsSafeFilename(d.filename)
  }

  predicate NamesCut(e: ServiceEntry) { forall i <- e.icons :: Capped(i.name) }

  predicate AllNamesCut(d: RoadmapDocument) {
    forall m <- d.migrations :: NamesCut(m.source) && NamesCut(m.replacement)
  }

  ghost predicate Normal(d: RoadmapDocument) { Loose(d) && AllNamesCut(d) }

  // Cutting every icon name is all a second pass does.
  function CutIcon(i: IconRef): IconRef { i.(name := Take(i.name, TEXT_CAP)) }

  function CutService(e: ServiceEntry): ServiceEntry { MapEntry(e, CutIcon) }

  function CutMigration(m: Migration): Migration { MapMigration(m, CutIcon) }

  function CutNames(d: RoadmapDocument): RoadmapDocument { MapIcons(d, CutIcon) }

  // --------------------------------------------- accepted output is loose

  lemma ReadServiceIsLoose(value: Json, category: Category)
    ensures LooseService(ReadService(value, category), category)
  {
    var e, raws := ReadService(value, category), KeptIcons(Items(Get(value, KIcons)), ICONS_PER_SIDE);
    forall k | 0 <= k < |e.icons| ensures LooseIcon(e.icons[k]) {
      assert e.icons[k] == ReadIcon(raws[k]) && raws[k] in raws;
    }
  }

  lemma KeptIdIsNew(item: Json, seen: set<string>, spare: string)
    requires spare != "" && spare !in seen
    ensures var id := KeepId(item, seen, spare);
      id != "" && id !in seen && (Get(item, KId) == JString(id) || id == spare)
  {
  }

  lemma {:induction false} KeptIdsAreNew(items: seq<Json>, spare: seq<string>, n: nat)
    requires n <= |items| && FreshFor(spare, items)
    ensures var ids := KeptIds(items, spare, n);
      && (forall i, j :: 0 <= i < j < n ==> ids[i] != ids[j])
      && (forall i :: 0 <= i < n ==> ids[i] != "" && (Get(items[i], KId) == JString(ids[i]) || ids[i] == spare[i]))
  {
    if n > 0 {
      hide Get, KeepId;
      KeptIdsAreNew(items, spare, n - 1);
      var before, seen := KeptIds(items, spare, n - 1), Members(KeptIds(items, spare, n - 1));
      forall i | 0 <= i < n - 1 ensures before[i] != spare[n - 1] && before[i] in seen {
        assert items[i] in items;
      }
      assert spare[n - 1] !in seen;
      KeptIdIsNew(items[n - 1], seen, spare[n - 1]);
      assert KeptIds(items, spare, n) == before + [KeepId(items[n - 1], seen, spare[n - 1])];
      hide Members, FreshFor;
    }
  }

  lemma ReadMigrationIsLoose(item: Json, id: string)
    requires id != ""
    ensures LooseMigration(ReadMigration(item, id))
  {
    ReadServiceIsLoose(Get(item, KSource), Proprietary);
    ReadServiceIsLoose(Get(item, KReplacement), Independent);
    hide ReadService, LooseService;
  }

  lemma ReadSectionsAreLoose(j: Json, today: string)
    requires RealDay(today)
    ensures CappedMetadata(ReadMetadata(j)) && CappedLabels(ReadLabels(j))
    ensures PlainTheme(ReadTheme(j)) && RealDay(ReadTimeline(j, today).viewDate)
  {
    hide IsPlainColor;
  }

  /** Whatever is accepted is capped, ranged and uniquely named. */
  lemma AcceptedIsLoose(input: Json, today: string, spare: seq<string>)
    requires RealDay(today) && FreshFor(spare, Items(Get(input, KMigrations)))
    ensures var r := Validate(input, today, spare); r.Accepted? ==> Loose(r.doc)
  {
    hide ReadMigration, LooseMigration, RealDay, ReadMetadata, ReadLabels, ReadTimeline, ReadTheme, ReadLayout, SafeFilename,
         CappedMetadata, CappedLabels, PlainTheme, IsSafeFilename, NodeProblems;
    var items := Items(Get(input, KMigrations));
    var ids := KeptIds(items, spare, |items|);
    KeptIdsAreNew(items, spare, |items|);
    forall k | 0 <= k < |items| ensures LooseMigration(ReadMigration(items[k], ids[k])) && ReadMigration(items[k], ids[k]).id == ids[k] {
      ReadMigrationIsLoose(items[k], ids[k]);
      IdOfRead(items[k], ids[k]);
    }
    ReadSectionsAreLoose(Get(input, KMetadata), today); ReadSectionsAreLoose(Get(input, KLabels), today);
    ReadSectionsAreLoose(Get(input, KTheme), today); ReadSectionsAreLoose(Get(input, KTimeline), today);
  }

  lemma IdOfRead(item: Json, id: string)
    ensures ReadMigration(item, id).id == id
  {
  }

  // ------------------------------------------------------- the second pass

  lemma ColorIsFixed(c: string, fallback: string)
    requires IsPlainColor(c) && IsPlainColor(fallback)
    ensures ReadColor(JString(c), fallback) == c
  {
    TrimOfTrimmed(c);
  }

  lemma IconComesBackCut(i: IconRef)
    requires LooseIcon(i)
    ensures IsIcon(IconJson(i)) && ReadIcon(IconJson(i)) == CutIcon(i)
  {
    hide IsArtwork;
  }

  lemma {:induction false} ReadableIconsAreKept(raws: seq<Json>, room: nat)
    requires |raws| <= room && forall k :: 0 <= k < |raws| ==> IsIcon(raws[k])
    ensures KeptIcons(raws, room) == raws
    decreases |raws|
  {
    hide IsIcon;
    if raws != [] {
      assert KeptIcons(raws, room) == [raws[0]] + KeptIcons(raws[1..], room - 1);
      hide KeptIcons;
      ReadableIconsAreKept(raws[1..], room - 1);
    }
  }

  lemma AllIconsAreKept(icons: seq<IconRef>, room: nat)
    requires |icons| <= room && forall i <- icons :: LooseIcon(i)
    ensures KeptIcons(IconsJson(icons), room) == IconsJson(icons)
  {
    hide IsIcon, IconJson, LooseIcon, ReadIcon, CutIcon, KeptIcons;
    forall k | 0 <= k < |icons| ensures IsIcon(IconJson(icons[k])) { IconComesBackCut(icons[k]); }
    ReadableIconsAreKept(IconsJson(icons), room);
  }

  lemma ServiceComesBackCut(e: ServiceEntry)
    requires LooseService(e, e.category)
    ensures ReadService(ServiceJson(e), e.category) == CutService(e)
  {
    hide LooseIcon, ReadIcon, IconJson, CutIcon;
    AllIconsAreKept(e.icons, ICONS_PER_SIDE);
    forall k | 0 <= k < |e.icons| ensures IsIcon(IconJson(e.icons[k])) && ReadIcon(IconJson(e.icons[k])) == CutIcon(e.icons[k]) {
      IconComesBackCut(e.icons[k]);
    }
  }

  lemma PartsOfMigration(m: Migration)
    ensures var j := MigrationJson(m);
      && IsNode(j)
      && Get(j, KId) == JString(m.id) && Get(j, KCategoryLabel) == JString(m.categoryLabel)
      && Get(j, KCategoryIcon) == JString(m.categoryIcon) && Get(j, KDate) == JString(m.date)
      && Get(j, KSource) == ServiceJson(m.source) && Get(j, KReplacement) == ServiceJson(m.replacement)
      && Get(j, KDatePrecision) == JString(PrecisionName(m.datePrecision))
      && Get(j, KDisplayPrecision) == JString(PrecisionName(m.displayPrecision))
  {
    hide PrecisionName, CategoryName, IconsJson;
  }

  lemma PrecisionComesBack(p: Precision, fallback: Precision)
    ensures ReadPrecision(JString(PrecisionName(p)), fallback) == p
  {
  }

  lemma MigrationComesBackCut(m: Migration)
    requires LooseMigration(m)
    ensures ReadMigration(MigrationJson(m), m.id) == CutMigration(m)
  {
    PartsOfMigration(m);
    ServiceComesBackCut(m.source); ServiceComesBackCut(m.replacement);
    PrecisionComesBack(m.datePrecision, ByDay); PrecisionComesBack(m.displayPrecision, ByQuarter);
    LooseCategory(m.source, Proprietary); LooseCategory(m.replacement, Independent);
    hide MigrationJson, Get, ServiceJson, PrecisionName, ReadPrecision, LooseService, ReadService, CutService, RealDay, IsNode;
  }

  lemma AnIdIsKept(m: Migration, seen: set<string>, spare: string)
    requires m.id != "" && m.id !in seen
    ensures KeepId(MigrationJson(m), seen, spare) == m.id
  {
    PartsOfMigration(m);
    hide MigrationJson, Get;
  }

  function IdsOf(ms: seq<Migration>, n: nat): (r: seq<string>)
    requires n <= |ms|
    ensures |r| == n && forall k :: 0 <= k < n ==> r[k] == ms[k].id
  {
    seq(n, k requires 0 <= k < n => ms[k].id)
  }

  lemma {:induction false} AllIdsAreKept(ms: seq<Migration>, spare: seq<string>, n: nat)
    requires n <= |ms| <= |spare| && UniqueIds(ms) && forall k :: 0 <= k < |ms| ==> ms[k].id != ""
    ensures KeptIds(MigrationsJson(ms), spare, n) == IdsOf(ms, n)
  {
    if n > 0 {
      hide KeepId, MigrationJson;
      AllIdsAreKept(ms, spare, n - 1);
      AnIdIsKept(ms[n - 1], Members(IdsOf(ms, n - 1)), spare[n - 1]);
    }
  }

  lemma SectionsComeBack(m: Metadata, l: Labels, t: Timeline, today: string)
    requires CappedMetadata(m) && CappedLabels(l) && RealDay(t.viewDate)
    ensures ReadMetadata(MetadataJson(m)) == m
    ensures ReadLabels(LabelsJson(l)) == l
    ensures ReadTimeline(TimelineJson(t), today) == t
  {
    MetadataComesBack(m); LabelsComeBack(l); TimelineComesBack(t, today);
    hide *;
  }

  lemma MetadataComesBack(m: Metadata)
    requires CappedMetadata(m)
    ensures ReadMetadata(MetadataJson(m)) == m
  {
  }

  lemma LabelsComeBack(l: Labels)
    requires CappedLabels(l)
    ensures ReadLabels(LabelsJson(l)) == l
  {
  }

  lemma TimelineComesBack(t: Timeline, today: string)
    requires RealDay(t.viewDate)
    ensures ReadTimeline(TimelineJson(t), today) == t
  {
    hide RealDay;
  }

  lemma ThemeComesBack(t: Theme)
    requires PlainTheme(t)
    ensures ReadTheme(ThemeJson(t)) == t
  {
    BaseColorsArePlain();
    PartsOfTheme(t);
    hide ThemeJson, Get, IsPlainColor, ReadColor;
    var b := BASE_THEME;
    ColorIsFixed(t.background, b.background); ColorIsFixed(t.text, b.text);
    ColorIsFixed(t.secondaryText, b.secondaryText); ColorIsFixed(t.independent, b.independent);
    ColorIsFixed(t.proprietary, b.proprietary); ColorIsFixed(t.timeline, b.timeline);
  }

  lemma PartsOfTheme(t: Theme)
    ensures var j := ThemeJson(t);
      && Get(j, KBackground) == JString(t.background) && Get(j, KText) == JString(t.text)
      && Get(j, KSecondaryText) == JString(t.secondaryText) && Get(j, KIndependent) == JString(t.independent)
      && Get(j, KProprietary) == JString(t.proprietary) && Get(j, KTimeline) == JString(t.timeline)
      && Get(j, KTransparent) == JBool(t.transparent)
  {
  }

  lemma LayoutComesBack(l: LayoutSettings)
    requires InRange(l)
    ensures ReadLayout(LayoutJson(l)) == l
  {
    PartsOfLayout(l);
    hide Get, LayoutJson;
  }

  lemma PartsOfLayout(l: LayoutSettings)
    ensures var j := LayoutJson(l);
      && Get(j, KWidthMode) == JString(WidthModeName(l.widthMode))
      && Get(j, KWidth) == Num(l.width) && Get(j, KHeight) == Num(l.height)
      && Get(j, KOuterMargin) == Num(l.outerMargin) && Get(j, KNodeSpacing) == Num(l.nodeSpacing)
      && Get(j, KTextScale) == Num(l.textScale) && Get(j, KMinNodeWidth) == Num(l.minNodeWidth)
      && Get(j, KIconSize) == Num(l.iconSize) && Get(j, KLaneSeparation) == Num(l.laneSeparation)
      && Get(j, KCurveTension) == Num(l.curveTension)
      && Get(j, KShowSafeArea) == JBool(l.showSafeArea) && Get(j, KSimulateSquareCrop) == JBool(l.simulateSquareCrop)
  {
    hide WidthModeName;
  }

  lemma NoProblemsWithNodes(ms: seq<Migration>)
    ensures NodeProblems(MigrationsJson(ms), |ms|) == []
  {
    hide IsNode, MigrationJson;
    forall k | 0 <= k < |ms| ensures IsNode(MigrationsJson(ms)[k]) { PartsOfMigration(ms[k]); }
  }

  lemma PartsOfJson(d: RoadmapDocument)
    ensures var j := ToJson(d);
      && j.JObject? && Get(j, KSchemaVersion) == SCHEMA_VERSION
      && Get(j, KMetadata) == MetadataJson(d.metadata) && Get(j, KLabels) == LabelsJson(d.labels)
      && Get(j, KTimeline) == TimelineJson(d.timeline) && Get(j, KMigrations) == JArray(MigrationsJson(d.migrations))
      && Get(j, KTheme) == ThemeJson(d.theme) && Get(j, KLayout) == LayoutJson(d.layout)
      && Get(Get(j, KExport), KFilename) == JString(d.filename)
  {
    hide MetadataJson, LabelsJson, TimelineJson, MigrationsJson, ThemeJson, LayoutJson;
  }

  /** A second pass over an accepted document accepts it and cuts the icon names. */
  lemma SecondPassCutsNames(d: RoadmapDocument, today: string, spare: seq<string>)
    requires Loose(d) && |d.migrations| <= |spare|
    ensures |Items(Get(ToJson(d), KMigrations))| == |d.migrations|
    ensures Validate(ToJson(d), today, spare) == Accepted(CutNames(d))
  {
    PartsOfJson(d);
    hide ToJson, MetadataJson, LabelsJson, TimelineJson, ThemeJson, LayoutJson, MigrationJson, LooseMigration, ReadMigration,
         ReadMetadata, ReadLabels, ReadTimeline, ReadTheme, ReadLayout, SafeFilename, InRange, PlainTheme, RealDay, MapMigration,
         CappedMetadata, CappedLabels, IsSafeFilename, NodeProblems;
    var ms := d.migrations;
    SectionsComeBack(d.metadata, d.labels, d.timeline, today);
    ThemeComesBack(d.theme); LayoutComesBack(d.layout); SafeFilenameIsFixed(d.filename);
    NoProblemsWithNodes(ms);
    forall k | 0 <= k < |ms| ensures ms[k].id != "" { LooseHasId(ms[k]); }
    AllIdsAreKept(ms, spare, |ms|);
    forall k | 0 <= k < |ms| ensures ReadMigration(MigrationJson(ms[k]), ms[k].id) == CutMigration(ms[k]) {
      MigrationComesBackCut(ms[k]);
    }
    assert ReadMigrations(MigrationsJson(ms), KeptIds(MigrationsJson(ms), spare, |ms|)) == MapMigrations(ms, CutIcon);
  }

  lemma LooseHasId(m: Migration)
    requires LooseMigration(m)
    ensures m.id != ""
  {
  }

  lemma CutServiceFacts(e: ServiceEntry)
    ensures NamesCut(CutService(e)) && (CutService(e) == e <==> NamesCut(e))
    ensures LooseService(e, e.category) ==> LooseService(CutService(e), e.category)
  {
    forall k | 0 <= k < |e.icons| ensures CutIcon(e.icons[k]) == e.icons[k] <==> Capped(e.icons[k].name) { }
    if NamesCut(e) {
      assert forall k :: 0 <= k < |e.icons| ==> e.icons[k] in e.icons;
      assert CutService(e).icons == e.icons;
    }
    if CutService(e) == e {
      assert forall k :: 0 <= k < |e.icons| ==> CutService(e).icons[k] == e.icons[k];
    }
    if LooseService(e, e.category) {
      hide IsArtwork;
      assert forall k :: 0 <= k < |e.icons| ==> e.icons[k] in e.icons;
    }
  }

  lemma CutMigrationFacts(m: Migration)
    ensures var c := CutMigration(m);
      && NamesCut(c.source) && NamesCut(c.replacement) && c.id == m.id
      && (c == m <==> NamesCut(m.source) && NamesCut(m.replacement))
      && (LooseMigration(m) ==> LooseMigration(c))
  {
    hide LooseService, NamesCut, MapEntry, RealDay;
    CutServiceFacts(m.source); CutServiceFacts(m.replacement);
    CutKeepsCategory(m.source); CutKeepsCategory(m.replacement);
    LooseCategory(m.source, Proprietary); LooseCategory(m.replacement, Independent);
  }

  lemma CutKeepsCategory(e: ServiceEntry)
    ensures CutService(e).category == e.category
  {
  }

  lemma LooseCategory(e: ServiceEntry, category: Category)
    ensures LooseService(e, category) ==> e.category == category
  {
  }

  lemma CutIsNormal(d: RoadmapDocument)
    requires Loose(d)
    ensures Normal(CutNames(d))
    ensures CutNames(d) == d <==> AllNamesCut(d)
  {
    hide MapMigration, LooseMigration, NamesCut, InRange, PlainTheme, RealDay, CappedMetadata, CappedLabels, IsSafeFilename;
    var ms, cut := d.migrations, MapMigrations(d.migrations, CutIcon);
    forall k | 0 <= k < |ms|
      ensures var c := CutMigration(ms[k]);
        && NamesCut(c.source) && NamesCut(c.replacement) && c.id == ms[k].id && LooseMigration(c)
        && (c == ms[k] <==> NamesCut(ms[k].source) && NamesCut(ms[k].replacement))
    {
      CutMigrationFacts(ms[k]);
    }
    assert UniqueIds(cut);
    if AllNamesCut(d) { assert cut == ms; }
    if cut == ms {
      forall k | 0 <= k < |ms| ensures NamesCut(ms[k].source) && NamesCut(ms[k].replacement) { assert cut[k] == CutMigration(ms[k]); }
    }
  }

  /**
   * The validator is a normaliser. What it accepts it accepts again, the second pass always
   * reaches a fixed point, and the first one already has exactly when no icon name is over
   * the cap.
   */
  lemma SecondPassIsFixed(input: Json, today: string, spare: seq<string>, today': string, spare': seq<string>)
    requires RealDay(today) && FreshFor(spare, Items(Get(input, KMigrations)))
    requires |Items(Get(input, KMigrations))| <= |spare'|
    ensures var first := Validate(input, today, spare);
      first.Accepted? ==>
        && |Items(Get(ToJson(first.doc), KMigrations))| == |first.doc.migrations| <= |spare'|
        && var second := Validate(ToJson(first.doc), today', spare');
           && second.Accepted? && Normal(second.doc)
           && (second == first <==> AllNamesCut(first.doc))
           && |Items(Get(ToJson(second.doc), KMigrations))| == |first.doc.migrations|
           && Validate(ToJson(second.doc), today', spare') == second
  {
    assert |Items(Get(input, KMigrations))| <= |spare|;
    hide Problems, Loose, AllNamesCut, ToJson, Get, RealDay, FreshFor, ReadMigrations, Validate;
    AcceptedIsLoose(input, today, spare);
    AcceptedCount(input, today, spare);
    var first := Validate(input, today, spare);
    if first.Accepted? {
      var d := first.doc;
      CutIsNormal(d);
      SecondPassCutsNames(d, today', spare');
      NormalIsFixed(CutNames(d), today', spare');
    }
  }

  lemma AcceptedCount(input: Json, today: string, spare: seq<string>)
    requires |Items(Get(input, KMigrations))| <= |spare|
    ensures var r := Validate(input, today, spare);
      r.Accepted? ==> |r.doc.migrations| == |Items(Get(input, KMigrations))|
  {
    hide Problems, ReadMigration, ReadMetadata, ReadLabels, ReadTimeline, ReadTheme, ReadLayout, SafeFilename;
  }

  /** A document in normal form is a fixed point of the validator. */
  lemma NormalIsFixed(d: RoadmapDocument, today: string, spare: seq<string>)
    requires Normal(d) && |d.migrations| <= |spare|
    ensures |Items(Get(ToJson(d), KMigrations))| == |d.migrations|
    ensures Validate(ToJson(d), today, spare) == Accepted(d)
  {
    hide Loose, CutNames, AllNamesCut, Validate;
    CutIsNormal(d);
    SecondPassCutsNames(d, today, spare);
  }

  /** Any document at all is accepted exactly while it holds no more nodes than the validator allows. */
  lemma WrittenIsAcceptedExactly(d: RoadmapDocument, today: string, spare: seq<string>)
    requires |d.migrations| <= |spare|
    ensures |Items(Get(ToJson(d), KMigrations))| == |d.migrations|
    ensures Validate(ToJson(d), today, spare).Accepted? <==> |d.migrations| <= MAX_MIGRATIONS
  {
    PartsOfJson(d);
    NoProblemsWithNodes(d.migrations);
    hide ToJson, MigrationsJson, NodeProblems, Build, MetadataJson, LabelsJson, TimelineJson, ThemeJson, LayoutJson;
  }

  /** And it comes back as it was exactly when it is in normal form. */
  lemma WrittenIsFixedExactly(d: RoadmapDocument, today: string, spare: seq<string>)
    requires RealDay(today) && |d.migrations| <= |spare| && FreshFor(spare, MigrationsJson(d.migrations))
    ensures |Items(Get(ToJson(d), KMigrations))| == |d.migrations|
    ensures Validate(ToJson(d), today, spare) == Accepted(d) <==> Normal(d)
  {
    PartsOfJson(d);
    hide ToJson, MigrationsJson, Validate, Loose, AllNamesCut, CutNames, FreshFor;
    AcceptedIsLoose(ToJson(d), today, spare);
    if Loose(d) {
      SecondPassCutsNames(d, today, spare);
      CutIsNormal(d);
    }
  }

  // ------------------------------------------------- in terms of the input

  /** An icon of the input whose fallback name is left over the cap. */
  predicate NamelessWithLongId(raw: Json) {
    IsIcon(raw) && !Get(raw, KName).JString? && |Get(raw, KId).text| > TEXT_CAP
  }

  ghost predicate KeepsALongName(value: Json) {
    exists raw :: raw in KeptIcons(Items(Get(value, KIcons)), ICONS_PER_SIDE) && NamelessWithLongId(raw)
  }

  lemma LongNameComesFromInput(value: Json, category: Category)
    ensures NamesCut(ReadService(value, category)) <==> !KeepsALongName(value)
  {
    hide IsArtwork, ReadArtwork;
    var raws, icons := KeptIcons(Items(Get(value, KIcons)), ICONS_PER_SIDE), ReadService(value, category).icons;
    forall k | 0 <= k < |raws| ensures Capped(icons[k].name) <==> !NamelessWithLongId(raws[k]) {
      assert raws[k] in raws && icons[k] == ReadIcon(raws[k]);
    }
    assert forall k :: 0 <= k < |icons| ==> icons[k] in icons && raws[k] in raws;
  }

  /** One pass suffices exactly unless a kept icon has no name and an id over the cap. */
  lemma OnePassSuffices(input: Json, today: string, spare: seq<string>)
    requires |Items(Get(input, KMigrations))| <= |spare|
    ensures var r, items := Validate(input, today, spare), Items(Get(input, KMigrations));
      r.Accepted? ==>
        (AllNamesCut(r.doc) <==> forall item <- items :: !KeepsALongName(Get(item, KSource)) && !KeepsALongName(Get(item, KReplacement)))
  {
    hide ReadService, KeepsALongName, NamesCut, ReadOneOf, ReadDate, ReadPrecision, ReadMetadata, ReadLabels, ReadTimeline, ReadTheme,
         ReadLayout, SafeFilename, KeptIds, Problems, RealDay, Get, Items;
    var r, items := Validate(input, today, spare), Items(Get(input, KMigrations));
    if r.Accepted? {
      var ms := r.doc.migrations;
      forall k | 0 <= k < |items|
        ensures NamesCut(ms[k].source) && NamesCut(ms[k].replacement)
           <==> !KeepsALongName(Get(items[k], KSource)) && !KeepsALongName(Get(items[k], KReplacement))
      {
        LongNameComesFromInput(Get(items[k], KSource), Proprietary);
        LongNameComesFromInput(Get(items[k], KReplacement), Independent);
      }
      assert forall k :: 0 <= k < |items| ==> items[k] in items && ms[k] in ms;
    }
  }
}
