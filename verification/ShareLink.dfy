/**
 * Share links: a stripped document packed into the URL fragment.
 */
module ShareLink {
  import opened Document
  import opened Calendar
  import opened Json
  import opened Normalise
  import opened NormalForm
  import opened Artwork

  const FRAGMENT_PREFIX := "#plan="

  /** Stringifying with compression, and its way back; None for what is not a payload. */
  datatype Codec = Codec(pack: Json -> string, unpack: string -> Option<Json>)

  /** What is taken on trust of LZ-string and JSON text: the document that is shared is read back. */
  predicate ReadsBack(c: Codec, d: RoadmapDocument) {
    c.unpack(c.pack(ToJson(Strip(d)))) == Some(ToJson(Strip(d)))
  }

  function Encode(c: Codec, d: RoadmapDocument): string {
    FRAGMENT_PREFIX + c.pack(ToJson(Strip(d)))
  }

  function Payload(c: Codec, hash: string): Option<Json> {
    if FRAGMENT_PREFIX <= hash then c.unpack(hash[|FRAGMENT_PREFIX|..]) else None
  }

  function PayloadNodes(c: Codec, hash: string): nat {
    match Payload(c, hash) case None => 0 case Some(j) => |Items(Get(j, KMigrations))|
  }

  function Decode(c: Codec, hash: string, today: string, spare: seq<string>): Option<RoadmapDocument>
    requires PayloadNodes(c, hash) <= |spare|
  {
    match Payload(c, hash)
    case None => None
    case Some(j) =>
      match Validate(j, today, spare)
      case Accepted(doc) => Some(doc)
      case Refused(_) => None
  }

  lemma StripKeepsLooseEntry(e: ServiceEntry)
    requires LooseService(e, e.category)
    ensures LooseService(MapEntry(e, StripIcon), e.category)
    ensures NamesCut(MapEntry(e, StripIcon)) <==> NamesCut(e)
  {
    hide IsArtwork;
    var r := MapEntry(e, StripIcon);
    assert forall k :: 0 <= k < |e.icons| ==> e.icons[k] in e.icons && r.icons[k] in r.icons && r.icons[k].name == e.icons[k].name;
  }

  lemma StripKeepsLooseMigration(m: Migration)
    requires LooseMigration(m)
    ensures var r := MapMigration(m, StripIcon);
      && LooseMigration(r) && r.id == m.id
      && (NamesCut(r.source) <==> NamesCut(m.source)) && (NamesCut(r.replacement) <==> NamesCut(m.replacement))
  {
    LooseCategory(m.source, Proprietary); LooseCategory(m.replacement, Independent);
    StripKeepsLooseEntry(m.source); StripKeepsLooseEntry(m.replacement);
    hide LooseService, NamesCut, RealDay;
  }

  lemma StripKeepsLoose(d: RoadmapDocument)
    requires Loose(d)
    ensures Loose(Strip(d)) && (AllNamesCut(Strip(d)) <==> AllNamesCut(d))
  {
    hide MapMigration, LooseMigration, NamesCut, InRange, PlainTheme, RealDay, CappedMetadata, CappedLabels, IsSafeFilename;
    var ms, r := d.migrations, Strip(d).migrations;
    forall k | 0 <= k < |ms|
      ensures LooseMigration(r[k]) && r[k].id == ms[k].id
      ensures (NamesCut(r[k].source) <==> NamesCut(ms[k].source)) && (NamesCut(r[k].replacement) <==> NamesCut(ms[k].replacement))
    {
      StripKeepsLooseMigration(ms[k]);
    }
    assert forall k :: 0 <= k < |ms| ==> ms[k] in ms && r[k] in r;
  }

  /** What a link carries: the stripped document, with over-long icon names cut. */
  lemma DecodeOfEncode(c: Codec, d: RoadmapDocument, today: string, spare: seq<string>)
    requires ReadsBack(c, d) && Loose(d) && |d.migrations| <= |spare|
    ensures PayloadNodes(c, Encode(c, d)) == |d.migrations|
    ensures Decode(c, Encode(c, d), today, spare) == Some(CutNames(Strip(d)))
  {
    var hash, j := Encode(c, d), ToJson(Strip(d));
    assert |Strip(d).migrations| == |d.migrations|;
    assert hash[|FRAGMENT_PREFIX|..] == c.pack(j);
    hide Loose, ToJson, Validate, CutNames, Strip, Get, Items, Encode;
    assert Payload(c, hash) == Some(j);
    StripKeepsLoose(d);
    SecondPassCutsNames(Strip(d), today, spare);
  }

  /**
   * Share round trip: a document in normal form comes back stripped, and artwork that agrees
   * with its dashboard icons, and only such artwork, makes it whole again.
   */
  lemma ShareRoundTrip(c: Codec, d: RoadmapDocument, today: string, spare: seq<string>, art: ArtworkMap)
    requires ReadsBack(c, d) && Normal(d) && |d.migrations| <= |spare|
    ensures PayloadNodes(c, Encode(c, d)) == |d.migrations|
    ensures Decode(c, Encode(c, d), today, spare) == Some(Strip(d))
    ensures Hydrate(Decode(c, Encode(c, d), today, spare).value, art) == d <==> Agrees(art, d)
  {
    hide Loose, AllNamesCut, Decode, Strip, Hydrate, Agrees, Encode, CutNames;
    StripKeepsLoose(d);
    DecodeOfEncode(c, d, today, spare);
    CutIsNormal(Strip(d));
    HydrationRestores(d, art);
  }

  /** Whatever link is followed, the plan it opens is normalised. */
  lemma OpenedPlanIsLoose(c: Codec, hash: string, today: string, spare: seq<string>)
    requires RealDay(today) && PayloadNodes(c, hash) <= |spare|
    requires Payload(c, hash).Some? ==> FreshFor(spare, Items(Get(Payload(c, hash).value, KMigrations)))
    ensures var r := Decode(c, hash, today, spare);
      r.Some? ==> FRAGMENT_PREFIX <= hash && Loose(r.value) && |r.value.migrations| == PayloadNodes(c, hash)
  {
    hide Loose;
    if Decode(c, hash, today, spare).Some? {
      AcceptedIsLoose(Payload(c, hash).value, today, spare);
      AcceptedCount(Payload(c, hash).value, today, spare);
      hide Validate;
    }
  }

  /**
   * A link opens exactly where its fragment starts with `#plan=`, the rest unpacks, and the
   * value in it is of the one shape that is accepted.
   */
  lemma OpensExactly(c: Codec, hash: string, today: string, spare: seq<string>)
    requires PayloadNodes(c, hash) <= |spare|
    ensures Decode(c, hash, today, spare).Some?
       <==> && "#plan=" <= hash && c.unpack(hash[6..]).Some?
            && var j := c.unpack(hash[6..]).value;
               var list := Get(j, KMigrations);
               && j.JObject? && Get(j, KSchemaVersion) == JNumber(Finite(1.0))
               && list.JArray? && |list.items| <= 60
               && forall k :: 0 <= k < |list.items| ==>
                    list.items[k].JObject? && Get(list.items[k], KSource).JObject? && Get(list.items[k], KReplacement).JObject?
  {
    hide Validate, Get;
    if Payload(c, hash).Some? { AcceptedExactly(Payload(c, hash).value, today, spare); }
  }

  lemma StripOfCut(d: RoadmapDocument)
    ensures Strip(CutNames(Strip(d))) == CutNames(Strip(d))
  {
    ComposeMaps(d, StripIcon, CutIcon, StripThenCut);
    ComposeMaps(d, StripThenCut, StripIcon, StripThenCut);
  }

  function StripThenCut(i: IconRef): IconRef { CutIcon(StripIcon(i)) }

  /**
   * Passing a plan on: whoever opens it and shares it again hands on exactly what they got,
   * however often that happens and whatever the day.
   */
  lemma SharedAgainIsTheSame(c: Codec, d: RoadmapDocument, today: string, later: string, spare: seq<string>, more: seq<string>)
    requires Loose(d) && |d.migrations| <= |spare| && |d.migrations| <= |more|
    requires ReadsBack(c, d) && ReadsBack(c, CutNames(Strip(d)))
    ensures PayloadNodes(c, Encode(c, d)) == |d.migrations|
    ensures var r := Decode(c, Encode(c, d), today, spare);
      && r.Some? && PayloadNodes(c, Encode(c, r.value)) == |d.migrations|
      && Decode(c, Encode(c, r.value), later, more) == r
  {
    var e := CutNames(Strip(d));
    assert |e.migrations| == |d.migrations|;
    StripOfCut(d);
    hide Loose, AllNamesCut, Decode, Strip, Encode, CutNames, ReadsBack, PayloadNodes;
    DecodeOfEncode(c, d, today, spare);
    StripKeepsLoose(d);
    CutIsNormal(Strip(d));
    CutIsNormal(e);
    DecodeOfEncode(c, e, later, more);
  }
}
