/**
 * Stripping re-hydratable artwork from a document, and embedding it again.
 */
module Artwork {
  import opened Document

  type ArtworkMap = map<string, string>

  // -------------------------------------------------------------- one icon

  /** What a link leaves out: artwork that the id of its icon is enough to find again. */
  function StripIcon(i: IconRef): IconRef {
    if i.source == FromDashboard then i.(dataUrl := None) else i
  }

  /** No artwork, or the empty string in its place. */
  predicate Lacks(i: IconRef) { i.dataUrl.None? || i.dataUrl.value == "" }

  /** What the map holds for an id; an empty string counts as nothing. */
  function Lookup(art: ArtworkMap, id: string): Option<string> {
    if id in art && art[id] != "" then Some(art[id]) else None
  }

  function HydrateIcon(art: ArtworkMap, i: IconRef): IconRef {
    if i.source == FromDashboard && Lacks(i) && Lookup(art, i.id).Some? then i.(dataUrl := Lookup(art, i.id)) else i
  }

  function Hydrator(art: ArtworkMap): IconRef -> IconRef { i => HydrateIcon(art, i) }

  // ------------------------------------------------------- whole documents

  function Strip(d: RoadmapDocument): RoadmapDocument { MapIcons(d, StripIcon) }

  function Hydrate(d: RoadmapDocument, art: ArtworkMap): RoadmapDocument { MapIcons(d, Hydrator(art)) }

  /** applyIconArtwork: None when there was nothing to embed. */
  function Apply(d: RoadmapDocument, art: ArtworkMap): Option<RoadmapDocument> {
    if Hydrate(d, art) == d then None else Some(Hydrate(d, art))
  }

  // ------------------------------------------------------------- the loops

  method StripEntry(entry: ServiceEntry) returns (next: ServiceEntry)
    ensures next == MapEntry(entry, StripIcon)
  {
    next := entry;
    for k := 0 to |entry.icons|
      invariant next == entry.(icons := next.icons) && |next.icons| == |entry.icons|
      invariant forall j :: 0 <= j < k ==> next.icons[j] == StripIcon(entry.icons[j])
      invariant forall j :: k <= j < |entry.icons| ==> next.icons[j] == entry.icons[j]
    {
      if next.icons[k].source == FromDashboard {
        next := next.(icons := next.icons[k := next.icons[k].(dataUrl := None)]);
      }
    }
    assert next.icons == MapEntry(entry, StripIcon).icons;
  }

  method StripRehydratableArtwork(doc: RoadmapDocument) returns (next: RoadmapDocument)
    ensures next == Strip(doc)
  {
    next := doc;
    for k := 0 to |doc.migrations|
      invariant next == doc.(migrations := next.migrations) && |next.migrations| == |doc.migrations|
      invariant forall j :: 0 <= j < k ==> next.migrations[j] == MapMigration(doc.migrations[j], StripIcon)
      invariant forall j :: k <= j < |doc.migrations| ==> next.migrations[j] == doc.migrations[j]
    {
      var m := next.migrations[k];
      var source := StripEntry(m.source);
      var replacement := StripEntry(m.replacement);
      next := next.(migrations := next.migrations[k := m.(source := source, replacement := replacement)]);
    }
    assert next.migrations == MapMigrations(doc.migrations, StripIcon);
  }

  method HydrateEntry(entry: ServiceEntry, art: ArtworkMap) returns (next: ServiceEntry, changed: bool)
    ensures next == MapEntry(entry, Hydrator(art))
    ensures changed <==> next != entry
  {
    next, changed := entry, false;
    for k := 0 to |entry.icons|
      invariant next == entry.(icons := next.icons) && |next.icons| == |entry.icons|
      invariant forall j :: 0 <= j < k ==> next.icons[j] == HydrateIcon(art, entry.icons[j])
      invariant forall j :: k <= j < |entry.icons| ==> next.icons[j] == entry.icons[j]
      invariant changed <==> exists j :: 0 <= j < k && next.icons[j] != entry.icons[j]
    {
      var icon := next.icons[k];
      if icon.source == FromDashboard && Lacks(icon) && Lookup(art, icon.id).Some? {
        next := next.(icons := next.icons[k := icon.(dataUrl := Lookup(art, icon.id))]);
        assert next.icons[k] != entry.icons[k];
        changed := true;
      }
    }
    assert next.icons == MapEntry(entry, Hydrator(art)).icons;
  }

  method ApplyIconArtwork(doc: RoadmapDocument, art: ArtworkMap) returns (result: Option<RoadmapDocument>)
    ensures result == Apply(doc, art)
  {
    hide MapEntry, HydrateIcon;
    var next, changed := doc, false;
    for k := 0 to |doc.migrations|
      invariant next == doc.(migrations := next.migrations) && |next.migrations| == |doc.migrations|
      invariant forall j :: 0 <= j < k ==> next.migrations[j] == MapMigration(doc.migrations[j], Hydrator(art))
      invariant forall j :: k <= j < |doc.migrations| ==> next.migrations[j] == doc.migrations[j]
      invariant changed <==> exists j :: 0 <= j < k && next.migrations[j] != doc.migrations[j]
    {
      var m := next.migrations[k];
      var source, sourceChanged := HydrateEntry(m.source, art);
      var replacement, replacementChanged := HydrateEntry(m.replacement, art);
      next := next.(migrations := next.migrations[k := m.(source := source, replacement := replacement)]);
      assert sourceChanged || replacementChanged <==> next.migrations[k] != doc.migrations[k];
      changed := changed || sourceChanged || replacementChanged;
    }
    assert next.migrations == MapMigrations(doc.migrations, Hydrator(art));
    result := if changed then Some(next) else None;
  }

  // ------------------------------------------------------------ properties

  /** Embedding changes nothing but the artwork of dashboard icons that have none. */
  lemma HydrateKeepsTheRest(i: IconRef, art: ArtworkMap)
    ensures var h := HydrateIcon(art, i);
      && h == i.(dataUrl := h.dataUrl)
      && (h != i ==> i.source == FromDashboard && Lacks(i) && h.dataUrl == Lookup(art, i.id) && !Lacks(h))
      && StripIcon(h) == StripIcon(i)
  {
  }

  /** Stripping forgets exactly what embedding may add. */
  lemma StripForgetsHydration(d: RoadmapDocument, art: ArtworkMap)
    ensures Strip(Hydrate(d, art)) == Strip(d)
  {
    ComposeMaps(d, Hydrator(art), StripIcon, StripIcon);
  }

  /** Two maps one after the other, the earlier one deciding. */
  function Overlay(art: ArtworkMap, late: ArtworkMap): (both: ArtworkMap)
    ensures forall id :: Lookup(both, id) == if Lookup(art, id).Some? then Lookup(art, id) else Lookup(late, id)
  {
    late + map id | id in art && art[id] != "" :: art[id]
  }

  /** Artwork that arrives later never replaces what is embedded already. */
  lemma FirstArtworkStays(d: RoadmapDocument, art: ArtworkMap, late: ArtworkMap)
    ensures Hydrate(Hydrate(d, art), late) == Hydrate(d, Overlay(art, late))
  {
    ComposeMaps(d, Hydrator(art), Hydrator(late), Hydrator(Overlay(art, late)));
  }

  /** The map holds, for each dashboard icon of the document, the artwork it has, and no other. */
  ghost predicate Agrees(art: ArtworkMap, d: RoadmapDocument) {
    forall i :: HasIcon(d, i) && i.source == FromDashboard ==> i.dataUrl == Lookup(art, i.id)
  }

  /** Embedding undoes the stripping exactly when the artwork agrees with the document. */
  lemma HydrationRestores(d: RoadmapDocument, art: ArtworkMap)
    ensures Hydrate(Strip(d), art) == d <==> Agrees(art, d)
  {
    ComposeMaps(d, StripIcon, Hydrator(art), Same);
    MapSame(d);
    forall i: IconRef
      ensures Hydrator(art)(StripIcon(i)) == Same(i) <==> (i.source == FromDashboard ==> i.dataUrl == Lookup(art, i.id))
    {
    }
  }

  /** FromDashboard icons of one id carry one artwork, and never an empty one. */
  ghost predicate OneArtworkPerId(d: RoadmapDocument) {
    && (forall i, j :: HasIcon(d, i) && HasIcon(d, j) && i.source == j.source == FromDashboard && i.id == j.id ==> i.dataUrl == j.dataUrl)
    && (forall i :: HasIcon(d, i) && i.source == FromDashboard ==> i.dataUrl != Some(""))
  }

  function Icons(d: RoadmapDocument): set<IconRef> {
    set m, i | m in d.migrations && i in m.source.icons + m.replacement.icons :: i
  }

  lemma IconsAreHad(d: RoadmapDocument, i: IconRef)
    ensures i in Icons(d) <==> HasIcon(d, i)
  {
    if HasIcon(d, i) {
      var m :| m in d.migrations && MigrationHas(m, i);
      assert i in m.source.icons + m.replacement.icons;
    }
    if i in Icons(d) {
      var m :| m in d.migrations && i in m.source.icons + m.replacement.icons;
      assert MigrationHas(m, i);
    }
  }

  /** The artwork a document carries. */
  ghost function ArtworkOf(d: RoadmapDocument): ArtworkMap
    requires OneArtworkPerId(d)
  {
    assert forall i :: i in Icons(d) ==> HasIcon(d, i) by {
      forall i | i in Icons(d) ensures HasIcon(d, i) { IconsAreHad(d, i); }
    }
    map i | i in Icons(d) && i.source == FromDashboard && i.dataUrl.Some? :: i.id := i.dataUrl.value
  }

  lemma ArtworkOfAgrees(d: RoadmapDocument)
    requires OneArtworkPerId(d)
    ensures Agrees(ArtworkOf(d), d)
  {
    var art := ArtworkOf(d);
    forall i | HasIcon(d, i) && i.source == FromDashboard ensures i.dataUrl == Lookup(art, i.id) {
      IconsAreHad(d, i);
      if i.id in art {
        var j :| j in Icons(d) && j.source == FromDashboard && j.dataUrl.Some? && j.id == i.id;
        IconsAreHad(d, j);
      }
    }
  }

  /** Some artwork brings a stripped document back exactly when its own is one per id. */
  lemma RestorableExactly(d: RoadmapDocument)
    ensures (exists art :: Hydrate(Strip(d), art) == d) <==> OneArtworkPerId(d)
  {
    if OneArtworkPerId(d) {
      ArtworkOfAgrees(d);
      HydrationRestores(d, ArtworkOf(d));
    }
    if art :| Hydrate(Strip(d), art) == d {
      HydrationRestores(d, art);
    }
  }
}
