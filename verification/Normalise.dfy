/**
 * validateRoadmap: anything from outside becomes a capped document, or a list of problems.
 */
module Normalise {
  import opened Text
  import opened Calendar
  import opened Document
  import opened Json

  datatype Problem = NotARoadmap | WrongVersion | NoMigrations | TooManyNodes(count: nat) | NotANode(index: nat)

  datatype Outcome = Accepted(doc: RoadmapDocument) | Refused(problems: seq<Problem>)

  const SCHEMA_VERSION := JNumber(Finite(1.0))

  // ------------------------------------------------------------- defaults

  const BASE_METADATA := Metadata(
    "My digital independence plan", "Five everyday switches from Big Tech to open source.",
    true, true, true, AsIcon)

  const BASE_LABELS := Labels("USING NOW", "REPLACED / PLANNED", "TIMELINE", "OPEN SOURCE", "BIG TECH")

  const BASE_THEME := Theme("#ffffff", "#0d2135", "#4a6076", "#6258f5", "#ef6c88", "#1c9e6d", false)

  const BASE_LAYOUT := LayoutSettings(Auto, 2000.0, 900.0, 72.0, 60.0, 1.0, 78.0, 52.0, 220.0, 0.72, false, false)

  const CATEGORY_ICONS: seq<string> := [
    "home", "image", "router", "calendar", "folder", "office", "key", "globe", "mail",
    "message", "play", "notes", "storage", "shield", "wallet", "health", "code", "tag"]

  // --------------------------------------------------------------- fields

  function ReadText(j: Json, fallback: string): string {
    if j.JString? then Take(j.text, TEXT_CAP) else fallback
  }

  function ReadFlag(j: Json, fallback: bool): bool {
    if j.JBool? then j.flag else fallback
  }

  function ReadNumber(j: Json, range: Range, fallback: real): (r: real)
    requires Within(fallback, range)
    ensures Within(r, range)
  {
    if j.JNumber? && j.number.Finite?
    then
      var x := j.number.value;
      if x < range.min then range.min else if x > range.max then range.max else x
    else fallback
  }

  predicate IsHexDigit(c: char) { '0' <= c <= '9' || 'a' <= c <= 'f' || 'A' <= c <= 'F' }

  predicate IsHexColor(s: string) {
    |s| == 7 && s[0] == '#' && forall i :: 1 <= i < 7 ==> IsHexDigit(s[i])
  }

  function LowerChar(c: char): char {
    if 'A' <= c <= 'Z' then (c as int + 32) as char else c
  }

  /** toLowerCase, on the ASCII strings it is applied to. */
  function Lower(s: string): (r: string)
    ensures |r| == |s| && forall i :: 0 <= i < |s| ==> r[i] == LowerChar(s[i])
  {
    seq(|s|, i requires 0 <= i < |s| => LowerChar(s[i]))
  }

  predicate IsPlainColor(s: string) { IsHexColor(s) && Lower(s) == s }

  function ReadColor(j: Json, fallback: string): (r: string)
    requires IsPlainColor(fallback)
    ensures IsPlainColor(r)
  {
    if j.JString? && IsHexColor(Trim(j.text)) then Lower(Trim(j.text)) else fallback
  }

  function ReadOneOf(j: Json, options: seq<string>, fallback: string): (r: string)
    requires fallback in options
    ensures r in options
  {
    if j.JString? && j.text in options then j.text else fallback
  }

  function ReadPrecision(j: Json, fallback: Precision): Precision {
    if j == JString("year") then ByYear
    else if j == JString("quarter") then ByQuarter
    else if j == JString("date") then ByDay
    else fallback
  }

  function PrecisionName(p: Precision): string {
    match p case ByYear => "year" case ByQuarter => "quarter" case ByDay => "date"
  }

  function ReadDisplay(j: Json, fallback: CategoryDisplay): CategoryDisplay {
    if j == JString("text") then AsText
    else if j == JString("icon") then AsIcon
    else if j == JString("both") then AsBoth
    else fallback
  }

  function DisplayName(d: CategoryDisplay): string {
    match d case AsText => "text" case AsIcon => "icon" case AsBoth => "both"
  }

  function ReadDateFormat(j: Json, fallback: DateFormat): DateFormat {
    if j == JString("dmy") then DayFirst else if j == JString("mdy") then MonthFirst else fallback
  }

  function DateFormatName(f: DateFormat): string { if f == DayFirst then "dmy" else "mdy" }

  function ReadWidthMode(j: Json, fallback: WidthMode): WidthMode {
    if j == JString("auto") then Auto else if j == JString("fixed") then Fixed else fallback
  }

  function WidthModeName(m: WidthMode): string { if m == Auto then "auto" else "fixed" }

  function ReadSource(j: Json): IconSource {
    if j == JString("library") then FromLibrary
    else if j == JString("upload") then FromUpload
    else FromDashboard
  }

  function SourceName(s: IconSource): string {
    match s case FromLibrary => "library" case FromDashboard => "dashboard" case FromUpload => "upload"
  }

  function CategoryName(c: Category): string { if c == Independent then "independent" else "proprietary" }

  // ------------------------------------------------------------- filename

  predicate IsSafeChar(c: char) {
    'a' <= c <= 'z' || 'A' <= c <= 'Z' || '0' <= c <= '9' || c == '.' || c == '_' || c == '-'
  }

  function Dashed(s: string): (r: string)
    ensures |r| == |s| && forall i :: 0 <= i < |s| ==> r[i] == if IsSafeChar(s[i]) then s[i] else '-'
    ensures forall c <- r :: IsSafeChar(c)
  {
    seq(|s|, i requires 0 <= i < |s| => if IsSafeChar(s[i]) then s[i] else '-')
  }

  function StripLeading(s: string): (r: string)
    ensures r != "" ==> r[0] != '.' && r[0] != '-'
    ensures forall c <- r :: c in s
  {
    if s != "" && (s[0] == '.' || s[0] == '-') then StripLeading(s[1..]) else s
  }

  predicate IsSafeFilename(s: string) {
    && 0 < |s| <= FILENAME_CAP && s[0] != '.' && s[0] != '-'
    && forall c <- s :: IsSafeChar(c)
  }

  function SafeFilename(j: Json): (r: string)
    ensures IsSafeFilename(r)
  {
    var cleaned := if j.JString? then Take(StripLeading(Dashed(j.text)), FILENAME_CAP) else "";
    if cleaned != "" then cleaned else "roadmap"
  }

  lemma SafeFilenameIsFixed(s: string)
    requires IsSafeFilename(s)
    ensures SafeFilename(JString(s)) == s
  {
    assert Dashed(s) == s by { assert forall i :: 0 <= i < |s| ==> s[i] in s; }
  }

  // -------------------------------------------------------------- artwork

  const IMAGE_TYPES: seq<string> := ["data:image/png", "data:image/jpeg", "data:image/webp", "data:image/svg+xml"]

  /** A data address of one of four image types, in letters of either case. */
  predicate IsInlineImage(s: string) {
    exists k :: 0 <= k < |IMAGE_TYPES| && StartsInline(s, IMAGE_TYPES[k])
  }

  predicate StartsInline(s: string, prefix: string) {
    |s| > |prefix| && Lower(s[..|prefix|]) == prefix && (s[|prefix|] == ';' || s[|prefix|] == ',')
  }

  predicate IsArtwork(s: string) { |s| <= DATA_URL_CAP && IsInlineImage(s) }

  function ReadArtwork(j: Json): (r: Option<string>)
    ensures r.Some? ==> IsArtwork(r.value)
  {
    if j.JString? && IsArtwork(j.text) then Some(j.text) else None
  }

  predicate IsIcon(raw: Json) {
    raw.JObject? && Get(raw, KId).JString? && Get(raw, KId).text != ""
  }

  /** The fallback name is the id as it was given, not as it is cut. */
  function ReadIcon(raw: Json): IconRef
    requires IsIcon(raw)
  {
    var id := Get(raw, KId).text;
    IconRef(Take(id, TEXT_CAP), ReadText(Get(raw, KName), id), ReadSource(Get(raw, KSource)), ReadArtwork(Get(raw, KDataUrl)))
  }

  /** The first `room` readable icons, in order. */
  function KeptIcons(raws: seq<Json>, room: nat): (r: seq<Json>)
    ensures |r| <= room && |r| <= |raws|
    ensures forall raw <- r :: IsIcon(raw) && raw in raws
  {
    if raws == [] || room == 0 then []
    else if IsIcon(raws[0]) then [raws[0]] + KeptIcons(raws[1..], room - 1)
    else KeptIcons(raws[1..], room)
  }

  function ReadIcons(raws: seq<Json>): (icons: seq<IconRef>)
    requires forall raw <- raws :: IsIcon(raw)
    ensures |icons| == |raws| && forall k :: 0 <= k < |raws| ==> icons[k] == ReadIcon(raws[k])
  {
    seq(|raws|, k requires 0 <= k < |raws| => ReadIcon(raws[k]))
  }

  lemma KeptIconsFrom(raws: seq<Json>, i: nat, room: nat)
    requires i < |raws| && room > 0
    ensures KeptIcons(raws[i..], room)
         == if IsIcon(raws[i]) then [raws[i]] + KeptIcons(raws[i + 1..], room - 1) else KeptIcons(raws[i + 1..], room)
  {
    assert raws[i..][1..] == raws[i + 1..];
  }

  function Items(j: Json): seq<Json> { if j.JArray? then j.items else [] }

  function ReadService(value: Json, category: Category): ServiceEntry {
    ServiceEntry(ReadText(Get(value, KLabel), ""), category, ReadIcons(KeptIcons(Items(Get(value, KIcons)), ICONS_PER_SIDE)))
  }

  // ----------------------------------------------------------- migrations

  predicate IsNode(item: Json) {
    item.JObject? && Get(item, KSource).JObject? && Get(item, KReplacement).JObject?
  }

  function ReadDate(j: Json): string { if j.JString? && RealDay(j.text) then j.text else "" }

  function ReadMigration(item: Json, id: string): Migration {
    Migration(
      id,
      ReadText(Get(item, KCategoryLabel), ""),
      ReadOneOf(Get(item, KCategoryIcon), CATEGORY_ICONS, "tag"),
      ReadService(Get(item, KSource), Proprietary),
      ReadService(Get(item, KReplacement), Independent),
      ReadDate(Get(item, KDate)),
      ReadPrecision(Get(item, KDatePrecision), ByDay),
      ReadPrecision(Get(item, KDisplayPrecision), ByQuarter))
  }

  /** The id a node keeps, or the new one drawn for it. */
  function KeepId(item: Json, seen: set<string>, spare: string): string {
    if Get(item, KId).JString? && Get(item, KId).text != "" && Get(item, KId).text !in seen
    then Get(item, KId).text else spare
  }

  /** What uniqueId() is trusted for: new ids, different from each other and from every given one. */
  ghost predicate FreshFor(spare: seq<string>, items: seq<Json>) {
    && |spare| >= |items|
    && (forall k :: 0 <= k < |spare| ==> spare[k] != "")
    && (forall j, k :: 0 <= j < k < |spare| ==> spare[j] != spare[k])
    && (forall k, item :: 0 <= k < |spare| && item in items ==> Get(item, KId) != JString(spare[k]))
  }

  /** The ids of the first n nodes, in order. */
  function KeptIds(items: seq<Json>, spare: seq<string>, n: nat): (ids: seq<string>)
    requires n <= |items| && |items| <= |spare|
    ensures |ids| == n
  {
    if n == 0 then []
    else
      var before := KeptIds(items, spare, n - 1);
      before + [KeepId(items[n - 1], Members(before), spare[n - 1])]
  }

  function Members(ids: seq<string>): set<string> { set x | x in ids }

  function ReadMigrations(items: seq<Json>, ids: seq<string>): (ms: seq<Migration>)
    requires |items| == |ids|
    ensures |ms| == |items| && forall k :: 0 <= k < |ms| ==> ms[k] == ReadMigration(items[k], ids[k])
  {
    seq(|items|, k requires 0 <= k < |items| => ReadMigration(items[k], ids[k]))
  }

  // ------------------------------------------------------------- sections

  function ReadMetadata(j: Json): Metadata {
    var b := BASE_METADATA;
    Metadata(
      ReadText(Get(j, KTitle), b.title), ReadText(Get(j, KSubtitle), b.subtitle),
      ReadFlag(Get(j, KShowTitle), b.showTitle), ReadFlag(Get(j, KShowSubtitle), b.showSubtitle),
      ReadFlag(Get(j, KShowCategories), b.showCategories),
      ReadDisplay(Get(j, KCategoryDisplay), b.categoryDisplay))
  }

  function ReadLabels(j: Json): Labels {
    var b := BASE_LABELS;
    Labels(
      ReadText(Get(j, KUsingNow), b.usingNow), ReadText(Get(j, KReplacedPlanned), b.replacedPlanned),
      ReadText(Get(j, KTimeline), b.timeline),
      ReadText(Get(j, KIndependent), b.independent), ReadText(Get(j, KProprietary), b.proprietary))
  }

  function ReadTimeline(j: Json, today: string): Timeline {
    var view := Get(j, KViewDate);
    Timeline(if view.JString? && RealDay(view.text) then view.text else today,
             ReadDateFormat(Get(j, KFullDateFormat), DayFirst))
  }

  function ReadTheme(j: Json): Theme {
    var b := BASE_THEME;
    BaseColorsArePlain();
    Theme(
      ReadColor(Get(j, KBackground), b.background), ReadColor(Get(j, KText), b.text),
      ReadColor(Get(j, KSecondaryText), b.secondaryText), ReadColor(Get(j, KIndependent), b.independent),
      ReadColor(Get(j, KProprietary), b.proprietary), ReadColor(Get(j, KTimeline), b.timeline),
      ReadFlag(Get(j, KTransparent), b.transparent))
  }

  lemma BaseColorsArePlain()
    ensures var b := BASE_THEME;
      && IsPlainColor(b.background) && IsPlainColor(b.text) && IsPlainColor(b.secondaryText)
      && IsPlainColor(b.independent) && IsPlainColor(b.proprietary) && IsPlainColor(b.timeline)
  {
  }

  function ReadLayout(j: Json): (l: LayoutSettings)
    ensures InRange(l)
  {
    var b := BASE_LAYOUT;
    LayoutSettings(
      ReadWidthMode(Get(j, KWidthMode), b.widthMode),
      ReadNumber(Get(j, KWidth), WIDTH_RANGE, b.width),
      ReadNumber(Get(j, KHeight), HEIGHT_RANGE, b.height),
      ReadNumber(Get(j, KOuterMargin), MARGIN_RANGE, b.outerMargin),
      ReadNumber(Get(j, KNodeSpacing), SPACING_RANGE, b.nodeSpacing),
      ReadNumber(Get(j, KTextScale), SCALE_RANGE, b.textScale),
      ReadNumber(Get(j, KMinNodeWidth), NODE_WIDTH_RANGE, b.minNodeWidth),
      ReadNumber(Get(j, KIconSize), ICON_RANGE, b.iconSize),
      ReadNumber(Get(j, KLaneSeparation), LANE_RANGE, b.laneSeparation),
      ReadNumber(Get(j, KCurveTension), TENSION_RANGE, b.curveTension),
      ReadFlag(Get(j, KShowSafeArea), b.showSafeArea),
      ReadFlag(Get(j, KSimulateSquareCrop), b.simulateSquareCrop))
  }

  // ----------------------------------------------------------- the whole

  function NodeProblems(items: seq<Json>, n: nat): (r: seq<Problem>)
    requires n <= |items|
    ensures r == [] <==> forall k :: 0 <= k < n ==> IsNode(items[k])
  {
    if n == 0 then []
    else NodeProblems(items, n - 1) + if IsNode(items[n - 1]) then [] else [NotANode(n)]
  }

  function Problems(input: Json): seq<Problem> {
    if !input.JObject? then [NotARoadmap]
    else
      var list := Get(input, KMigrations);
      (if Get(input, KSchemaVersion) != SCHEMA_VERSION then [WrongVersion] else [])
      + (if !list.JArray? then [NoMigrations]
         else if |list.items| > MAX_MIGRATIONS then [TooManyNodes(|list.items|)]
         else NodeProblems(list.items, |list.items|))
  }

  function Build(input: Json, today: string, spare: seq<string>): RoadmapDocument
    requires |Items(Get(input, KMigrations))| <= |spare|
  {
    var items := Items(Get(input, KMigrations));
    RoadmapDocument(
      ReadMetadata(Get(input, KMetadata)),
      ReadLabels(Get(input, KLabels)),
      ReadTimeline(Get(input, KTimeline), today),
      ReadMigrations(items, KeptIds(items, spare, |items|)),
      ReadTheme(Get(input, KTheme)),
      ReadLayout(Get(input, KLayout)),
      SafeFilename(Get(Get(input, KExport), KFilename)))
  }

  function Validate(input: Json, today: string, spare: seq<string>): Outcome
    requires |Items(Get(input, KMigrations))| <= |spare|
  {
    if Problems(input) != [] then Refused(Problems(input)) else Accepted(Build(input, today, spare))
  }

  // -------------------------------------------------------- what is let in

  /** The one shape of input that is accepted; nothing else about it matters. */
  lemma AcceptedExactly(input: Json, today: string, spare: seq<string>)
    requires |Items(Get(input, KMigrations))| <= |spare|
    ensures var list := Get(input, KMigrations);
      Validate(input, today, spare).Accepted?
      <==> && input.JObject? && Get(input, KSchemaVersion) == JNumber(Finite(1.0))
           && list.JArray? && |list.items| <= 60
           && forall k :: 0 <= k < |list.items| ==>
                list.items[k].JObject? && Get(list.items[k], KSource).JObject? && Get(list.items[k], KReplacement).JObject?
  {
    hide Build, Get;
  }

  lemma {:induction false} NodeProblemsExactly(items: seq<Json>, n: nat, p: Problem)
    requires n <= |items|
    ensures p in NodeProblems(items, n)
       <==> p.NotANode? && 1 <= p.index <= n && !IsNode(items[p.index - 1])
    ensures |NodeProblems(items, n)| <= n
  {
    if n > 0 { NodeProblemsExactly(items, n - 1, p); }
  }

  /** Each problem is reported exactly when its cause is there; nodes are counted from one. */
  lemma ProblemsExactly(input: Json, today: string, spare: seq<string>, p: Problem)
    requires |Items(Get(input, KMigrations))| <= |spare|
    ensures var outcome, list := Validate(input, today, spare), Get(input, KMigrations);
      (outcome.Refused? && p in outcome.problems)
      <==> match p
           case NotARoadmap => !input.JObject?
           case WrongVersion => input.JObject? && Get(input, KSchemaVersion) != JNumber(Finite(1.0))
           case NoMigrations => input.JObject? && !list.JArray?
           case TooManyNodes(count) => input.JObject? && list.JArray? && count == |list.items| && count > 60
           case NotANode(index) =>
             input.JObject? && list.JArray? && 1 <= index <= |list.items| <= 60 &&
             var item := list.items[index - 1];
             !(item.JObject? && Get(item, KSource).JObject? && Get(item, KReplacement).JObject?)
  {
    hide Build, NodeProblems, Get;
    var list := Get(input, KMigrations);
    if list.JArray? { NodeProblemsExactly(list.items, |list.items|, p); }
  }

  // ------------------------------------------------------------- the loops

  method Service(value: Json, category: Category) returns (entry: ServiceEntry)
    ensures entry == ReadService(value, category)
  {
    hide ReadIcon, IsIcon, KeptIcons, Items, ReadText, Get;
    var icons: seq<IconRef> := [];
    var raws := Items(Get(value, KIcons));
    ghost var kept: seq<Json> := [];
    var i := 0;
    assert raws[0..] == raws;
    while i < |raws|
      invariant i <= |raws| && |kept| == |icons| <= ICONS_PER_SIDE
      invariant forall raw <- kept :: IsIcon(raw)
      invariant icons == ReadIcons(kept)
      invariant kept + KeptIcons(raws[i..], ICONS_PER_SIDE - |kept|) == KeptIcons(raws, ICONS_PER_SIDE)
    {
      if |icons| >= ICONS_PER_SIDE { break; }
      var raw := raws[i];
      KeptIconsFrom(raws, i, ICONS_PER_SIDE - |kept|);
      i := i + 1;
      if !IsIcon(raw) { continue; }
      icons := icons + [ReadIcon(raw)];
      kept := kept + [raw];
    }
    assert kept == KeptIcons(raws, ICONS_PER_SIDE) by { assert |KeptIcons(raws[i..], ICONS_PER_SIDE - |kept|)| == 0; }
    entry := ServiceEntry(ReadText(Get(value, KLabel), ""), category, icons);
  }

  method FindProblems(input: Json) returns (problems: seq<Problem>)
    ensures problems == Problems(input)
  {
    if !input.JObject? { return [NotARoadmap]; }
    problems := [];
    if Get(input, KSchemaVersion) != SCHEMA_VERSION { problems := [WrongVersion]; }
    var list := Get(input, KMigrations);
    if !list.JArray? {
      problems := problems + [NoMigrations];
    } else if |list.items| > MAX_MIGRATIONS {
      problems := problems + [TooManyNodes(|list.items|)];
    } else {
      ghost var before := problems;
      for i := 0 to |list.items|
        invariant problems == before + NodeProblems(list.items, i)
      {
        if !IsNode(list.items[i]) { problems := problems + [NotANode(i + 1)]; }
      }
    }
  }

  method ReadNode(item: Json, id: string) returns (migration: Migration)
    ensures migration == ReadMigration(item, id)
  {
    hide ReadService, ReadText, ReadOneOf, ReadDate, ReadPrecision, Get;
    var source := Service(Get(item, KSource), Proprietary);
    var replacement := Service(Get(item, KReplacement), Independent);
    migration := Migration(
      id,
      ReadText(Get(item, KCategoryLabel), ""),
      ReadOneOf(Get(item, KCategoryIcon), CATEGORY_ICONS, "tag"),
      source, replacement,
      ReadDate(Get(item, KDate)),
      ReadPrecision(Get(item, KDatePrecision), ByDay),
      ReadPrecision(Get(item, KDisplayPrecision), ByQuarter));
  }

  method ReadNodes(items: seq<Json>, spare: seq<string>) returns (migrations: seq<Migration>)
    requires |items| <= |spare|
    ensures migrations == ReadMigrations(items, KeptIds(items, spare, |items|))
  {
    hide ReadMigration, KeepId;
    var seenIds: set<string>, ids: seq<string> := {}, [];
    migrations := [];
    for i := 0 to |items|
      invariant ids == KeptIds(items, spare, i) && seenIds == Members(ids)
      invariant migrations == ReadMigrations(items[..i], ids)
    {
      var item := items[i];
      var id := KeepId(item, seenIds, spare[i]);
      seenIds, ids := seenIds + {id}, ids + [id];
      var migration := ReadNode(item, id);
      migrations := migrations + [migration];
    }
    assert items[..|items|] == items;
  }

  method ValidateRoadmap(input: Json, today: string, spare: seq<string>) returns (outcome: Outcome)
    requires |Items(Get(input, KMigrations))| <= |spare|
    ensures outcome == Validate(input, today, spare)
  {
    var problems := FindProblems(input);
    if problems != [] { return Refused(problems); }
    var migrations := ReadNodes(Items(Get(input, KMigrations)), spare);
    outcome := Accepted(RoadmapDocument(
      ReadMetadata(Get(input, KMetadata)),
      ReadLabels(Get(input, KLabels)),
      ReadTimeline(Get(input, KTimeline), today),
      migrations,
      ReadTheme(Get(input, KTheme)),
      ReadLayout(Get(input, KLayout)),
      SafeFilename(Get(Get(input, KExport), KFilename))));
  }
}
