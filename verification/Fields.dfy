/**
 * What every field of an accepted document is, by the input's property it comes from.
 */
module Fields {
  import opened Text
  import opened Calendar
  import opened Document
  import opened Json
  import opened Normalise

  // -------------------------------------------------- one value and its field

  /** A string keeps its first 200 characters; anything else gives way to the default. */
  ghost predicate IsText(j: Json, fallback: string, r: string) {
    if j.JString? then r <= j.text && |r| == (if |j.text| <= 200 then |j.text| else 200) else r == fallback
  }

  ghost predicate IsFlag(j: Json, fallback: bool, r: bool) {
    (j == JBool(r)) || (!j.JBool? && r == fallback)
  }

  function Distance(x: real, y: real): real { if x < y then y - x else x - y }

  /** A finite number becomes the nearest one of its range. */
  ghost predicate IsNearest(j: Json, low: real, high: real, fallback: real, r: real) {
    if j.JNumber? && j.number.Finite?
    then low <= r <= high && forall y: real :: low <= y <= high ==> Distance(r, j.number.value) <= Distance(y, j.number.value)
    else r == fallback
  }

  /** Six hexadecimal digits after a hash sign become lower case; anything else the default. */
  ghost predicate IsColor(j: Json, fallback: string, r: string) {
    || (j.JString? && exists c :: IsHexColor(c) && IsTrimmedFrom(j.text, c) && r == Lower(c))
    || ((j.JString? ==> forall c :: IsTrimmedFrom(j.text, c) ==> !IsHexColor(c)) && r == fallback)
  }

  lemma ColorIsRead(j: Json, fallback: string)
    requires IsPlainColor(fallback)
    ensures IsColor(j, fallback, ReadColor(j, fallback))
  {
    hide IsSpace, Lower, IsTrimmedFrom, Trim, IsPlainColor;
    if j.JString? {
      TrimIs(j.text);
      forall c | IsTrimmedFrom(j.text, c) && IsHexColor(c) ensures c == Trim(j.text) { TrimIsOnly(j.text, c); }
    }
  }

  lemma NumberIsRead(j: Json, range: Range, fallback: real)
    requires Within(fallback, range)
    ensures IsNearest(j, range.min, range.max, fallback, ReadNumber(j, range, fallback))
  {
  }

  // -------------------------------------------------------------- sections

  /** The words of the header and the labels, each from its own property or by default. */
  lemma WordsAreRead(input: Json, today: string, spare: seq<string>)
    requires |Items(Get(input, KMigrations))| <= |spare| && Validate(input, today, spare).Accepted?
    ensures var d, metadata, labels := Validate(input, today, spare).doc, Get(input, KMetadata), Get(input, KLabels);
      && IsText(Get(metadata, KTitle), "My digital independence plan", d.metadata.title)
      && IsText(Get(metadata, KSubtitle), "Five everyday switches from Big Tech to open source.", d.metadata.subtitle)
      && IsText(Get(labels, KUsingNow), "USING NOW", d.labels.usingNow)
      && IsText(Get(labels, KReplacedPlanned), "REPLACED / PLANNED", d.labels.replacedPlanned)
      && IsText(Get(labels, KTimeline), "TIMELINE", d.labels.timeline)
      && IsText(Get(labels, KIndependent), "OPEN SOURCE", d.labels.independent)
      && IsText(Get(labels, KProprietary), "BIG TECH", d.labels.proprietary)
  {
    hide Get, Problems, ReadMigrations, KeptIds, ReadTheme, ReadLayout, SafeFilename, ReadTimeline;
  }

  /** Flags and choices: one of the values there are, or by default. */
  lemma ChoicesAreRead(input: Json, today: string, spare: seq<string>)
    requires |Items(Get(input, KMigrations))| <= |spare| && Validate(input, today, spare).Accepted?
    ensures var d, metadata, timeline := Validate(input, today, spare).doc, Get(input, KMetadata), Get(input, KTimeline);
      var theme, layout, display, format := Get(input, KTheme), Get(input, KLayout), Get(metadata, KCategoryDisplay), Get(timeline, KFullDateFormat);
      && IsFlag(Get(metadata, KShowTitle), true, d.metadata.showTitle)
      && IsFlag(Get(metadata, KShowSubtitle), true, d.metadata.showSubtitle)
      && IsFlag(Get(metadata, KShowCategories), true, d.metadata.showCategories)
      && IsFlag(Get(theme, KTransparent), false, d.theme.transparent)
      && IsFlag(Get(layout, KShowSafeArea), false, d.layout.showSafeArea)
      && IsFlag(Get(layout, KSimulateSquareCrop), false, d.layout.simulateSquareCrop)
      && (d.metadata.categoryDisplay == AsText <==> display == JString("text"))
      && (d.metadata.categoryDisplay == AsBoth <==> display == JString("both"))
      && (d.timeline.fullDateFormat == MonthFirst <==> format == JString("mdy"))
      && (d.layout.widthMode == Fixed <==> Get(layout, KWidthMode) == JString("fixed"))
      && d.timeline.viewDate == (if Get(timeline, KViewDate).JString? && IsIsoDate(Get(timeline, KViewDate).text)
                                 then Get(timeline, KViewDate).text else today)
  {
    hide Get, Problems, ReadMigrations, KeptIds, SafeFilename, ReadNumber, ReadColor, ReadText, IsIsoDate, RealDay;
    if Get(Get(input, KTimeline), KViewDate).JString? { IsoDatesAreRealDays(Get(Get(input, KTimeline), KViewDate).text); }
  }

  lemma ColorsAreRead(input: Json, today: string, spare: seq<string>)
    requires |Items(Get(input, KMigrations))| <= |spare| && Validate(input, today, spare).Accepted?
    ensures var theme, t := Get(input, KTheme), Validate(input, today, spare).doc.theme;
      && IsColor(Get(theme, KBackground), "#ffffff", t.background) && IsColor(Get(theme, KText), "#0d2135", t.text)
      && IsColor(Get(theme, KSecondaryText), "#4a6076", t.secondaryText)
      && IsColor(Get(theme, KIndependent), "#6258f5", t.independent)
      && IsColor(Get(theme, KProprietary), "#ef6c88", t.proprietary) && IsColor(Get(theme, KTimeline), "#1c9e6d", t.timeline)
  {
    hide Get, Problems, ReadMigrations, KeptIds, SafeFilename, ReadLayout, ReadMetadata, ReadLabels, ReadTimeline, ReadColor, IsColor, IsPlainColor;
    BaseColorsArePlain();
    var theme := Get(input, KTheme);
    ColorIsRead(Get(theme, KBackground), "#ffffff"); ColorIsRead(Get(theme, KText), "#0d2135");
    ColorIsRead(Get(theme, KSecondaryText), "#4a6076"); ColorIsRead(Get(theme, KIndependent), "#6258f5");
    ColorIsRead(Get(theme, KProprietary), "#ef6c88"); ColorIsRead(Get(theme, KTimeline), "#1c9e6d");
  }

  /** Each number of the layout is the nearest one in its range to what was given. */
  lemma NumbersAreNearest(input: Json, today: string, spare: seq<string>)
    requires |Items(Get(input, KMigrations))| <= |spare| && Validate(input, today, spare).Accepted?
    ensures var layout, l := Get(input, KLayout), Validate(input, today, spare).doc.layout;
      && IsNearest(Get(layout, KWidth), 760.0, 8000.0, 2000.0, l.width)
      && IsNearest(Get(layout, KHeight), 640.0, 5000.0, 900.0, l.height)
      && IsNearest(Get(layout, KOuterMargin), 24.0, 300.0, 72.0, l.outerMargin)
      && IsNearest(Get(layout, KNodeSpacing), 8.0, 400.0, 60.0, l.nodeSpacing)
      && IsNearest(Get(layout, KTextScale), 0.8, 2.4, 1.0, l.textScale)
      && IsNearest(Get(layout, KMinNodeWidth), 54.0, 280.0, 78.0, l.minNodeWidth)
      && IsNearest(Get(layout, KIconSize), 24.0, 110.0, 52.0, l.iconSize)
      && IsNearest(Get(layout, KLaneSeparation), 150.0, 650.0, 220.0, l.laneSeparation)
      && IsNearest(Get(layout, KCurveTension), 0.35, 1.4, 0.72, l.curveTension)
  {
    hide Get, Problems, ReadMigrations, KeptIds, SafeFilename, ReadTheme, ReadMetadata, ReadLabels, ReadTimeline, ReadNumber, IsNearest, ReadFlag, ReadWidthMode;
    var layout := Get(input, KLayout);
    NumberIsRead(Get(layout, KWidth), WIDTH_RANGE, 2000.0); NumberIsRead(Get(layout, KHeight), HEIGHT_RANGE, 900.0);
    NumberIsRead(Get(layout, KOuterMargin), MARGIN_RANGE, 72.0); NumberIsRead(Get(layout, KNodeSpacing), SPACING_RANGE, 60.0);
    NumberIsRead(Get(layout, KTextScale), SCALE_RANGE, 1.0); NumberIsRead(Get(layout, KMinNodeWidth), NODE_WIDTH_RANGE, 78.0);
    NumberIsRead(Get(layout, KIconSize), ICON_RANGE, 52.0); NumberIsRead(Get(layout, KLaneSeparation), LANE_RANGE, 220.0);
    NumberIsRead(Get(layout, KCurveTension), TENSION_RANGE, 0.72);
  }

  // -------------------------------------------------------------- filename

  /** What is left of a name once unsafe characters are dashes: the rest after leading dots and dashes, cut to 80. */
  ghost predicate IsFileNameFrom(s: string, r: string) {
    exists n: nat :: IsFileNameAfter(s, n, r)
  }

  ghost predicate IsFileNameAfter(s: string, n: nat, r: string) {
    && n <= |s|
    && (forall i :: 0 <= i < n ==> s[i] == '.' || !IsSafeChar(s[i]) || s[i] == '-')
    && (n < |s| ==> IsSafeChar(s[n]) && s[n] != '.' && s[n] != '-')
    && |r| == (if |s| - n <= 80 then |s| - n else 80)
    && forall i :: 0 <= i < |r| ==> r[i] == if IsSafeChar(s[n + i]) then s[n + i] else '-'
  }

  lemma {:induction false} StripLeadingIs(s: string) returns (n: nat)
    ensures n <= |s| && StripLeading(s) == s[n..]
    ensures forall i :: 0 <= i < n ==> s[i] == '.' || s[i] == '-'
    ensures n < |s| ==> s[n] != '.' && s[n] != '-'
  {
    n := 0;
    if s != "" && (s[0] == '.' || s[0] == '-') {
      var m := StripLeadingIs(s[1..]);
      n := m + 1;
    }
  }

  lemma NameIsRead(s: string)
    ensures IsFileNameFrom(s, Take(StripLeading(Dashed(s)), 80))
  {
    hide IsSafeChar, StripLeading;
    var dashed := Dashed(s);
    var n := StripLeadingIs(dashed);
    DashIsSafe();
    var r := Take(dashed[n..], 80);
    assert forall i :: 0 <= i < |r| ==> r[i] == dashed[n + i];
    assert IsFileNameAfter(s, n, r);
  }

  lemma DashIsSafe()
    ensures IsSafeChar('-')
  {
  }

  /** The filename, or `roadmap` where nothing is left of it. */
  lemma FilenameIsRead(input: Json, today: string, spare: seq<string>)
    requires |Items(Get(input, KMigrations))| <= |spare| && Validate(input, today, spare).Accepted?
    ensures var j, r := Get(Get(input, KExport), KFilename), Validate(input, today, spare).doc.filename;
      if j.JString? then IsFileNameFrom(j.text, r) || (r == "roadmap" && IsFileNameFrom(j.text, "")) else r == "roadmap"
  {
    var j := Get(Get(input, KExport), KFilename);
    assert Validate(input, today, spare).doc.filename == SafeFilename(j);
    hide Validate, IsFileNameFrom, Get, Take, StripLeading, Dashed;
    if j.JString? { NameIsRead(j.text); }
  }

  // ----------------------------------------------------------------- nodes

  /** An object with an id. */
  ghost predicate Readable(raw: Json) { raw.JObject? && Get(raw, KId).JString? && Get(raw, KId) != JString("") }

  /** Strictly increasing places, all of them readable icons. */
  ghost predicate Picks(raws: seq<Json>, at: seq<nat>) {
    && (forall k :: 0 <= k < |at| ==> at[k] < |raws| && Readable(raws[at[k]]))
    && (forall j, k :: 0 <= j < k < |at| ==> at[j] < at[k])
  }

  /** Every readable icon that is not picked comes after a full pick. */
  ghost predicate PicksFirst(raws: seq<Json>, at: seq<nat>, room: nat) {
    && Picks(raws, at) && |at| <= room
    && forall i: nat :: i < |raws| && Readable(raws[i]) && i !in at ==> |at| == room && forall k :: 0 <= k < |at| ==> at[k] < i
  }

  lemma KeptStep(raws: seq<Json>, room: nat)
    ensures raws == [] || room == 0 ==> KeptIcons(raws, room) == []
    ensures raws != [] && room > 0 ==>
      KeptIcons(raws, room) == if Readable(raws[0]) then [raws[0]] + KeptIcons(raws[1..], room - 1) else KeptIcons(raws[1..], room)
  {
  }

  /** The icons kept are the readable ones, in order, up to the room there is. */
  lemma {:induction false} KeptAreTheFirst(raws: seq<Json>, room: nat) returns (at: seq<nat>)
    ensures PicksFirst(raws, at, room) && |at| == |KeptIcons(raws, room)|
    ensures forall k :: 0 <= k < |at| ==> KeptIcons(raws, room)[k] == raws[at[k]]
  {
    KeptStep(raws, room);
    hide Readable, IsIcon, PicksFirst, KeptIcons, Shifted;
    if raws == [] || room == 0 {
      at := [];
      NothingPicked(raws, room);
    } else if Readable(raws[0]) {
      var rest := KeptAreTheFirst(raws[1..], room - 1);
      at := [0] + Shifted(rest);
      PickedHere(raws, rest, room);
    } else {
      var rest := KeptAreTheFirst(raws[1..], room);
      at := Shifted(rest);
      PickedLater(raws, rest, room);
    }
  }

  lemma NothingPicked(raws: seq<Json>, room: nat)
    requires raws == [] || room == 0
    ensures PicksFirst(raws, [], room)
  {
  }

  lemma PickedLater(raws: seq<Json>, rest: seq<nat>, room: nat)
    requires raws != [] && !Readable(raws[0]) && PicksFirst(raws[1..], rest, room)
    ensures PicksFirst(raws, Shifted(rest), room)
    ensures forall k :: 0 <= k < |rest| ==> raws[1..][rest[k]] == raws[Shifted(rest)[k]]
  {
    hide Readable;
    var at := Shifted(rest);
    ShiftedHolds(rest);
    forall i: nat | i < |raws| && Readable(raws[i]) && i !in at ensures |at| == room && forall k :: 0 <= k < |at| ==> at[k] < i {
      assert i > 0 && raws[1..][i - 1] == raws[i] && i - 1 !in rest;
    }
  }

  lemma PickedHere(raws: seq<Json>, rest: seq<nat>, room: nat)
    requires raws != [] && room > 0 && Readable(raws[0]) && PicksFirst(raws[1..], rest, room - 1)
    ensures PicksFirst(raws, [0] + Shifted(rest), room)
    ensures forall k :: 0 <= k < |rest| ==> raws[1..][rest[k]] == raws[([0] + Shifted(rest))[k + 1]]
  {
    var at := [0] + Shifted(rest);
    PicksHere(raws, rest);
    assert |rest| <= room - 1;
    hide Readable, Picks, Shifted;
    forall i: nat | i < |raws| && Readable(raws[i]) && i !in at ensures |at| == room && forall k :: 0 <= k < |at| ==> at[k] < i {
      LeftOver(raws, rest, room, i);
    }
  }

  lemma PicksHere(raws: seq<Json>, rest: seq<nat>)
    requires raws != [] && Readable(raws[0]) && Picks(raws[1..], rest)
    ensures var at := [0] + Shifted(rest);
      Picks(raws, at) && forall k :: 0 <= k < |rest| ==> at[k + 1] == rest[k] + 1 && raws[1..][rest[k]] == raws[at[k + 1]]
  {
    hide Readable;
    var at := [0] + Shifted(rest);
    assert at[0] == 0;
    forall k | 1 <= k < |at| ensures at[k] == rest[k - 1] + 1 && at[k] < |raws| && raws[at[k]] == raws[1..][rest[k - 1]] { }
  }

  lemma LeftOver(raws: seq<Json>, rest: seq<nat>, room: nat, i: nat)
    requires raws != [] && room > 0 && PicksFirst(raws[1..], rest, room - 1)
    requires i < |raws| && Readable(raws[i]) && i !in [0] + Shifted(rest)
    ensures |rest| == room - 1 && 0 < i && forall k :: 0 <= k < |rest| ==> rest[k] + 1 < i
  {
    hide Readable;
    ShiftedHolds(rest);
    assert i != 0 && i !in Shifted(rest) by { assert ([0] + Shifted(rest))[0] == 0; }
    assert raws[1..][i - 1] == raws[i] && i - 1 !in rest;
  }

  function Shifted(at: seq<nat>): (r: seq<nat>)
    ensures |r| == |at| && forall k :: 0 <= k < |at| ==> r[k] == at[k] + 1
  {
    seq(|at|, k requires 0 <= k < |at| => at[k] + 1)
  }

  lemma ShiftedHolds(at: seq<nat>)
    ensures forall i: nat :: i in at <==> i + 1 in Shifted(at)
  {
    forall i: nat | i in at ensures i + 1 in Shifted(at) {
      var k :| 0 <= k < |at| && at[k] == i;
      assert Shifted(at)[k] == i + 1;
    }
  }

  /** One icon: the id cut to 200, the name or the uncut id, the source or the dashboard, inline artwork. */
  ghost predicate IsIconFrom(raw: Json, i: IconRef) {
    var id, source, artwork := Get(raw, KId), Get(raw, KSource), Get(raw, KDataUrl);
    && id.JString? && IsText(id, "", i.id) && IsText(Get(raw, KName), id.text, i.name)
    && (i.source == FromLibrary <==> source == JString("library"))
    && (i.source == FromUpload <==> source == JString("upload"))
    && (i.dataUrl.Some? <==> artwork.JString? && |artwork.text| <= 2_100_000 && IsInlineImage(artwork.text))
    && (i.dataUrl.Some? ==> artwork == JString(i.dataUrl.value))
  }

  lemma IconIsRead(raw: Json)
    requires IsIcon(raw)
    ensures IsIconFrom(raw, ReadIcon(raw))
  {
    hide Get, IsInlineImage;
  }

  /** One side of a node: its label, its category, and its first six readable icons. */
  ghost predicate IsSideFrom(value: Json, category: Category, e: ServiceEntry) {
    var icons := Get(value, KIcons);
    && IsText(Get(value, KLabel), "", e.labelText) && e.category == category
    && (!icons.JArray? ==> e.icons == [])
    && (icons.JArray? ==> exists at: seq<nat> :: PicksFirst(icons.items, at, 6) && IconsFrom(icons.items, at, e.icons))
  }

  ghost predicate IconsFrom(raws: seq<Json>, at: seq<nat>, icons: seq<IconRef>)
    requires Picks(raws, at)
  {
    |icons| == |at| && forall k :: 0 <= k < |at| ==> IsIconFrom(raws[at[k]], icons[k])
  }

  lemma SideIsRead(value: Json, category: Category)
    ensures IsSideFrom(value, category, ReadService(value, category))
  {
    var icons, e := Get(value, KIcons), ReadService(value, category);
    if icons.JArray? {
      var at := KeptAreTheFirst(icons.items, 6);
      var kept := KeptIcons(icons.items, 6);
      assert Picks(icons.items, at);
      hide Readable, IsIcon, Get, IsIconFrom, KeptIcons, ReadIcon, Picks;
      forall k | 0 <= k < |at| ensures IsIconFrom(icons.items[at[k]], e.icons[k]) {
        IconIsRead(kept[k]);
      }
      assert IconsFrom(icons.items, at, e.icons);
    }
  }

  /** One node but its id. */
  ghost predicate IsNodeFrom(item: Json, m: Migration) {
    var date, precision, display, icon := Get(item, KDate), Get(item, KDatePrecision), Get(item, KDisplayPrecision), Get(item, KCategoryIcon);
    && IsText(Get(item, KCategoryLabel), "", m.categoryLabel)
    && m.categoryIcon == (if icon.JString? && icon.text in CATEGORY_ICONS then icon.text else "tag")
    && m.date == (if date.JString? && IsIsoDate(date.text) then date.text else "")
    && (m.datePrecision == ByYear <==> precision == JString("year"))
    && (m.datePrecision == ByQuarter <==> precision == JString("quarter"))
    && (m.displayPrecision == ByYear <==> display == JString("year"))
    && (m.displayPrecision == ByDay <==> display == JString("date"))
    && IsSideFrom(Get(item, KSource), Proprietary, m.source)
    && IsSideFrom(Get(item, KReplacement), Independent, m.replacement)
  }

  lemma NodeIsRead(item: Json, id: string)
    ensures IsNodeFrom(item, ReadMigration(item, id))
  {
    hide Get, ReadService, IsSideFrom, RealDay, IsIsoDate;
    SideIsRead(Get(item, KSource), Proprietary); SideIsRead(Get(item, KReplacement), Independent);
    if Get(item, KDate).JString? { IsoDatesAreRealDays(Get(item, KDate).text); }
  }

  /** The node has an id of its own, and no node before it has the same. */
  ghost predicate FirstBearer(items: seq<Json>, k: nat)
    requires k < |items|
  {
    && Get(items[k], KId).JString? && Get(items[k], KId) != JString("")
    && forall j :: 0 <= j < k ==> Get(items[j], KId) != Get(items[k], KId)
  }

  ghost function IdOf(items: seq<Json>, spare: seq<string>, k: nat): string
    requires k < |items| && k < |spare|
  {
    if FirstBearer(items, k) then Get(items[k], KId).text else spare[k]
  }

  lemma {:induction false} IdsAreKept(items: seq<Json>, spare: seq<string>, n: nat)
    requires n <= |items| <= |spare| && FreshFor(spare, items)
    ensures forall k :: 0 <= k < n ==> KeptIds(items, spare, n)[k] == IdOf(items, spare, k)
  {
    hide FreshFor, IdOf, KeepId;
    if n > 0 {
      IdsAreKept(items, spare, n - 1);
      NextIdIsKept(items, spare, KeptIds(items, spare, n - 1));
    }
  }

  lemma NextIdIsKept(items: seq<Json>, spare: seq<string>, before: seq<string>)
    requires |before| < |items| <= |spare| && FreshFor(spare, items)
    requires forall k :: 0 <= k < |before| ==> before[k] == IdOf(items, spare, k)
    ensures KeepId(items[|before|], Members(before), spare[|before|]) == IdOf(items, spare, |before|)
  {
    hide Get;
    var n := |before|;
    var own := Get(items[n], KId);
    GivenBefore(items, spare, before);
    if own.JString? && own.text != "" {
      if own.text in before {
        var k :| 0 <= k < n && before[k] == own.text;
        assert items[n] in items;
        assert Get(items[k], KId) == own;
      }
    }
  }

  /** An id that was given before is among those that were kept. */
  lemma GivenBefore(items: seq<Json>, spare: seq<string>, before: seq<string>)
    requires |before| < |items| <= |spare|
    requires forall k :: 0 <= k < |before| ==> before[k] == IdOf(items, spare, k)
    ensures var own := Get(items[|before|], KId);
      own.JString? && own.text != "" && !FirstBearer(items, |before|) ==> own.text in before
  {
    hide Get;
    var own := Get(items[|before|], KId);
    if own.JString? && own.text != "" && !FirstBearer(items, |before|) {
      var j: nat :| j < |before| && Get(items[j], KId) == own;
      var first := FirstWith(items, own, j);
      assert before[first] == own.text;
    }
  }

  lemma {:induction false} FirstWith(items: seq<Json>, own: Json, j: nat) returns (k: nat)
    requires j < |items| && Get(items[j], KId) == own && own.JString? && own.text != ""
    ensures k <= j && Get(items[k], KId) == own && FirstBearer(items, k)
  {
    hide Get;
    k := 0;
    while Get(items[k], KId) != own
      invariant k <= j && forall i :: 0 <= i < k ==> Get(items[i], KId) != own
      decreases j - k
    {
      k := k + 1;
    }
  }

  /** Node by node: every field as given, and the id kept by the first node that bears it. */
  lemma NodesAreRead(input: Json, today: string, spare: seq<string>, k: nat)
    requires FreshFor(spare, Items(Get(input, KMigrations))) && Validate(input, today, spare).Accepted?
    requires k < |Items(Get(input, KMigrations))|
    ensures var items, ms := Get(input, KMigrations).items, Validate(input, today, spare).doc.migrations;
      && |ms| == |items| && IsNodeFrom(items[k], ms[k])
      && ms[k].id == if FirstBearer(items, k) then Get(items[k], KId).text else spare[k]
  {
    var items := Items(Get(input, KMigrations));
    assert |items| <= |spare|;
    hide Get, Problems, ReadTheme, ReadMetadata, ReadLabels, ReadTimeline, ReadLayout, SafeFilename, IsNodeFrom, ReadMigration, KeptIds, FreshFor, FirstBearer;
    IdsAreKept(items, spare, |items|);
    NodeIsRead(items[k], KeptIds(items, spare, |items|)[k]);
  }
}
