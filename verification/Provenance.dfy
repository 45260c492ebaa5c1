/**
 Where each field of a catalogue entity came from, and which source may overwrite it: ranked merging of provider values,
 and the additive preparation that lets a repair fill gaps only.
 */
module Provenance {
  import opened TextOrder
  import opened JsonValue

  datatype Kind = Movie | Series | Game | Book | BookSeries | GameCollection | Person | Organization | Character
    | Edition | Release

  datatype Field = Name | Description | ImageUrl

  const FIELDS: seq<Field> := [Name, Description, ImageUrl]

  /** What field_sources and protected_fields name: a text field, or "attributes." and a key. */
  datatype Slot = TextSlot(field: Field) | Attribute(key: string)

  datatype Identity = Identity(namespace: string, externalId: string)

  /** An entity's descriptive columns; a text that is absent is NULL. */
  datatype Entity = Entity(kind: Kind, texts: map<Field, string>, attributes: map<string, Json>,
                           sources: map<Slot, string>, protectedSlots: set<Slot>)

  /** What a provider says about an entity. */
  datatype Values = Values(kind: Kind, identities: seq<Identity>, texts: map<Field, string>,
                           attributes: map<string, Json>)

  function Get(texts: map<Field, string>, f: Field): string {
    if f in texts then texts[f] else ""
  }

  function Primary(kind: Kind): Option<string> {
    match kind
    case Movie => Some("tmdb")
    case Series => Some("tmdb")
    case Game => Some("igdb")
    case Book => Some("hardcover")
    case _ => None
  }

  function Rank(kind: Kind, source: string): int {
    if source == "manual" || source == "reviewed" then 1000
    else if source == "legacy" then 200
    else if Primary(kind) == Some(source) then 100
    else if source == "rawg" then 20
    else if source == "openlibrary" then 60
    else 80
  }

  /** Reviewed data first, then legacy data, the kind's main provider, other providers, Open Library and RAWG. */
  function Tier(kind: Kind, source: string): nat {
    if source in {"manual", "reviewed"} then 0
    else if source == "legacy" then 1
    else if kind in {Movie, Series} && source == "tmdb" then 2
    else if kind == Game && source == "igdb" then 2
    else if kind == Book && source == "hardcover" then 2
    else if source == "openlibrary" then 4
    else if source == "rawg" then 5
    else 3
  }

  /** Ranks order sources by their tiers. */
  lemma RankOrder(kind: Kind, a: string, b: string)
    ensures Rank(kind, a) >= Rank(kind, b) <==> Tier(kind, a) <= Tier(kind, b)
  {}

  /** The name is only a stand-in made of one of the record's own identities. */
  predicate PlaceholderName(v: Values) {
    exists x :: x in v.identities && Get(v.texts, Name) == x.namespace + ":" + x.externalId
  }

  lemma PlaceholderMeans(v: Values)
    ensures PlaceholderName(v) <==>
            exists i :: 0 <= i < |v.identities|
                        && Get(v.texts, Name) == v.identities[i].namespace + ":" + v.identities[i].externalId
  {
    if i :| 0 <= i < |v.identities|
            && Get(v.texts, Name) == v.identities[i].namespace + ":" + v.identities[i].externalId {
      assert v.identities[i] in v.identities;
    }
  }

  const TMDB_IMAGES := "https://image.tmdb.org/t/p/"
  const TVDB_IMAGES := "https://artworks.thetvdb.com/"

  predicate StartsWith(s: string, prefix: string)
    ensures StartsWith(s, prefix) <==> |s| >= |prefix| && s[..|prefix|] == prefix
  {
    prefix <= s
  }

  /** A TMDB portrait offered where a TVDB default portrait stands. */
  predicate PreferredPortrait(e: Entity, value: string, source: string) {
    e.kind == Person && source == "tmdb" && StartsWith(value, TMDB_IMAGES)
    && TextSlot(ImageUrl) in e.sources && e.sources[TextSlot(ImageUrl)] == "tvdb"
    && StartsWith(Get(e.texts, ImageUrl), TVDB_IMAGES)
    && TextSlot(ImageUrl) !in e.protectedSlots
  }

  predicate Sourced(e: Entity, s: Slot) {
    s in e.sources && e.sources[s] != ""
  }

  /** The new source ranks at least as high as the recorded one. */
  predicate Outranks(e: Entity, s: Slot, source: string) {
    Sourced(e, s) && Rank(e.kind, source) >= Rank(e.kind, e.sources[s])
  }

  /** What is stored in a slot, and what is offered for it. */
  function Content(e: Entity, s: Slot): Json {
    match s
    case TextSlot(f) => Text(Get(e.texts, f))
    case Attribute(k) => if k in e.attributes then e.attributes[k] else Null
  }

  function Offered(v: Values, s: Slot): Json {
    match s
    case TextSlot(f) => Text(Get(v.texts, f))
    case Attribute(k) => if k in v.attributes then v.attributes[k] else Null
  }

  /** Free to be set by anyone: an empty text, a missing or null attribute. An attribute [] is not free. */
  predicate Unset(e: Entity, s: Slot) {
    match s
    case TextSlot(f) => Get(e.texts, f) == ""
    case Attribute(k) => Content(e, s) == Null
  }

  predicate TakesText(e: Entity, v: Values, source: string, f: Field) {
    var value, current, s := Get(v.texts, f), Get(e.texts, f), TextSlot(f);
    value != "" && s !in e.protectedSlots && !(f == Name && PlaceholderName(v))
    && !(f == ImageUrl && e.kind == Person && source == "tvdb" && StartsWith(current, TMDB_IMAGES))
    && (current == ""
        || (f == Name && ':' in current && !Sourced(e, s))
        || (f == ImageUrl && PreferredPortrait(e, value, source))
        || Outranks(e, s, source))
  }

  predicate TakesAttribute(e: Entity, v: Values, source: string, k: string) {
    var s := Attribute(k);
    && k in v.attributes && HasValue(v.attributes[k]) && s !in e.protectedSlots
    && (Content(e, s) == Null || Outranks(e, s, source))
  }

  predicate Takes(e: Entity, v: Values, source: string, s: Slot) {
    match s
    case TextSlot(f) => TakesText(e, v, source, f)
    case Attribute(k) => TakesAttribute(e, v, source, k)
  }

  function WrittenTexts(e: Entity, v: Values, ss: set<Slot>): map<Field, string> {
    e.texts + map f | f in v.texts && TextSlot(f) in ss :: v.texts[f]
  }

  function WrittenAttributes(e: Entity, v: Values, ss: set<Slot>): map<string, Json> {
    e.attributes + map k | k in v.attributes && Attribute(k) in ss :: v.attributes[k]
  }

  /** The values of v put into the slots of ss, and the source recorded for each. */
  function With(e: Entity, v: Values, source: string, ss: set<Slot>): Entity {
    e.(texts := WrittenTexts(e, v, ss),
       attributes := WrittenAttributes(e, v, ss),
       sources := e.sources + (map s | s in ss :: source))
  }

  function SlotsOf(v: Values): set<Slot> {
    (set f | f in v.texts :: TextSlot(f)) + (set k | k in v.attributes :: Attribute(k))
  }

  /** merge_fields, all at once. */
  function Merged(e: Entity, v: Values, source: string): Entity {
    With(e, v, source, set s | s in SlotsOf(v) && Takes(e, v, source, s))
  }

  lemma TakesOffered(e: Entity, v: Values, source: string, s: Slot)
    requires Takes(e, v, source, s)
    ensures s in SlotsOf(v) && HasValue(Offered(v, s)) && s !in e.protectedSlots
  {}

  lemma WithSlot(e: Entity, v: Values, source: string, ss: set<Slot>, s: Slot)
    requires ss <= SlotsOf(v)
    ensures Content(With(e, v, source, ss), s) == if s in ss then Offered(v, s) else Content(e, s)
    ensures s !in ss ==> Sourced(With(e, v, source, ss), s) == Sourced(e, s)
    ensures s !in ss && s in e.sources ==> s in With(e, v, source, ss).sources
                                           && With(e, v, source, ss).sources[s] == e.sources[s]
    ensures s in ss ==> s in With(e, v, source, ss).sources && With(e, v, source, ss).sources[s] == source
  {}

  /** Each slot is decided on its own: a taken slot holds the offer and its source, any other keeps both. */
  lemma MergedSlot(e: Entity, v: Values, source: string, s: Slot)
    ensures var m := Merged(e, v, source);
            m.kind == e.kind && m.protectedSlots == e.protectedSlots
            && Content(m, s) == (if Takes(e, v, source, s) then Offered(v, s) else Content(e, s))
            && Sourced(m, s) == (if Takes(e, v, source, s) then source != "" else Sourced(e, s))
            && (Sourced(m, s) ==> m.sources[s] == if Takes(e, v, source, s) then source else e.sources[s])
  {
    var ss := set x | x in SlotsOf(v) && Takes(e, v, source, x);
    WithSlot(e, v, source, ss, s);
    if Takes(e, v, source, s) {
      TakesOffered(e, v, source, s);
    }
  }

  // ----- Runs of merges

  /** One offer: a provider's values, and who gave them. */
  datatype Offer = Offer(values: Values, source: string)

  function MergeAll(e: Entity, offers: seq<Offer>): Entity {
    if offers == [] then e
    else
      var last := offers[|offers| - 1];
      Merged(MergeAll(e, offers[..|offers| - 1]), last.values, last.source)
  }

  /** Protected slots never change. */
  lemma {:induction false} ProtectedNeverChange(e: Entity, offers: seq<Offer>, s: Slot)
    ensures MergeAll(e, offers).kind == e.kind && MergeAll(e, offers).protectedSlots == e.protectedSlots
    ensures s in e.protectedSlots ==> Content(MergeAll(e, offers), s) == Content(e, s)
  {
    if offers != [] {
      var n := |offers| - 1;
      ProtectedNeverChange(e, offers[..n], s);
      MergedSlot(MergeAll(e, offers[..n]), offers[n].values, offers[n].source, s);
    }
  }

  /** A slot ruled by rank alone: any but the portrait of a person. */
  predicate Ruled(kind: Kind, s: Slot) {
    s == TextSlot(ImageUrl) ==> kind != Person
  }

  /** Something is offered for the slot; a name made of an identity is no offer of a name. */
  predicate Real(v: Values, s: Slot) {
    HasValue(Offered(v, s)) && !(s == TextSlot(Name) && PlaceholderName(v))
  }

  /** Open to any offer: unset, or a name with a colon that no source is recorded for. */
  predicate Vacant(e: Entity, s: Slot) {
    Unset(e, s) || (s == TextSlot(Name) && ':' in Get(e.texts, Name) && !Sourced(e, s))
  }

  lemma RuledTakes(e: Entity, v: Values, source: string, s: Slot)
    requires Ruled(e.kind, s)
    ensures Takes(e, v, source, s) <==> Real(v, s) && s !in e.protectedSlots && (Vacant(e, s) || Outranks(e, s, source))
  {}

  /** Offer i is a real one that no other outranks, and the latest of those with its rank. */
  ghost predicate Wins(kind: Kind, offers: seq<Offer>, s: Slot, i: nat) {
    i < |offers| && Real(offers[i].values, s)
    && forall j :: 0 <= j < |offers| && Real(offers[j].values, s) ==>
         if j <= i then Rank(kind, offers[j].source) <= Rank(kind, offers[i].source)
         else Rank(kind, offers[j].source) < Rank(kind, offers[i].source)
  }

  predicate NothingOffered(offers: seq<Offer>, s: Slot) {
    forall j :: 0 <= j < |offers| ==> !Real(offers[j].values, s)
  }

  /** The slot is filled by offer i. */
  ghost predicate FilledBy(m: Entity, offers: seq<Offer>, s: Slot, i: nat) {
    i < |offers| && Content(m, s) == Offered(offers[i].values, s) && Sourced(m, s) && m.sources[s] == offers[i].source
  }

  lemma WinsAlone(kind: Kind, before: seq<Offer>, o: Offer, s: Slot)
    requires NothingOffered(before, s) && Real(o.values, s)
    ensures Wins(kind, before + [o], s, |before|)
  {}

  lemma WinsStill(kind: Kind, before: seq<Offer>, o: Offer, s: Slot, i: nat)
    requires Wins(kind, before, s, i)
    requires !Real(o.values, s) || Rank(kind, o.source) < Rank(kind, before[i].source)
    ensures Wins(kind, before + [o], s, i)
  {}

  lemma WinsNow(kind: Kind, before: seq<Offer>, o: Offer, s: Slot, i: nat)
    requires Wins(kind, before, s, i)
    requires Real(o.values, s) && Rank(kind, o.source) >= Rank(kind, before[i].source)
    ensures Wins(kind, before + [o], s, |before|)
  {}

  lemma RuledStep(m: Entity, o: Offer, before: seq<Offer>, s: Slot)
    requires Ruled(m.kind, s) && s !in m.protectedSlots && o.source != ""
    ensures Vacant(m, s) && Real(o.values, s) ==>
      FilledBy(Merged(m, o.values, o.source), before + [o], s, |before|)
    ensures Vacant(m, s) && !Real(o.values, s) ==>
      Vacant(Merged(m, o.values, o.source), s) && Content(Merged(m, o.values, o.source), s) == Content(m, s)
    ensures forall i: nat :: Wins(m.kind, before, s, i) && FilledBy(m, before, s, i) ==>
      FilledBy(Merged(m, o.values, o.source), before + [o], s,
               if Real(o.values, s) && Rank(m.kind, o.source) >= Rank(m.kind, before[i].source)
               then |before| else i)
  {
    hide Merged, Takes, Rank, Real, Offered, Vacant;
    MergedSlot(m, o.values, o.source, s);
    RuledTakes(m, o.values, o.source, s);
    forall i: nat | Wins(m.kind, before, s, i) && FilledBy(m, before, s, i)
      ensures !Vacant(m, s)
    {
      assert Real(before[i].values, s) by { WinnerIsReal(m.kind, before, s, i); }
      NotVacant(m, before[i].values, s);
    }
    if !Real(o.values, s) {
      VacantByContent(m, Merged(m, o.values, o.source), s);
    }
  }

  lemma WinnerIsReal(kind: Kind, offers: seq<Offer>, s: Slot, i: nat)
    requires Wins(kind, offers, s, i)
    ensures Real(offers[i].values, s)
  {
    hide Real;
  }

  lemma VacantByContent(e: Entity, m: Entity, s: Slot)
    requires Content(m, s) == Content(e, s) && Sourced(m, s) == Sourced(e, s)
    ensures Vacant(m, s) == Vacant(e, s)
  {}

  /** The slot holds the latest value of the highest-ranked source that offered one, or what it held at first. */
  lemma {:induction false} LatestOfHighestRank(e: Entity, offers: seq<Offer>, s: Slot)
    requires Ruled(e.kind, s) && s !in e.protectedSlots && Vacant(e, s)
    requires forall o :: o in offers ==> o.source != ""
    ensures if NothingOffered(offers, s)
            then Vacant(MergeAll(e, offers), s) && Content(MergeAll(e, offers), s) == Content(e, s)
            else exists i: nat :: Wins(e.kind, offers, s, i) && FilledBy(MergeAll(e, offers), offers, s, i)
  {
    hide Merged, Takes, Rank, Real, Offered, Vacant, FilledBy, Wins, Ruled, Content;
    if offers != [] {
      var n := |offers| - 1;
      var before, o := offers[..n], offers[n];
      LatestOfHighestRank(e, before, s);
      ProtectedNeverChange(e, before, s);
      var m := MergeAll(e, before);
      assert offers == before + [o] && MergeAll(e, offers) == Merged(m, o.values, o.source);
      RuledStep(m, o, before, s);
      if NothingOffered(before, s) {
        if Real(o.values, s) {
          WinsAlone(e.kind, before, o, s);
        }
      } else {
        var i: nat :| Wins(e.kind, before, s, i) && FilledBy(m, before, s, i);
        FilledInside(m, before, s, i);
        if Real(o.values, s) && Rank(e.kind, o.source) >= Rank(e.kind, before[i].source) {
          WinsNow(e.kind, before, o, s, i);
        } else {
          WinsStill(e.kind, before, o, s, i);
        }
      }
    }
  }

  lemma FilledInside(m: Entity, offers: seq<Offer>, s: Slot, i: nat)
    requires FilledBy(m, offers, s, i)
    ensures i < |offers|
  {}

  lemma NotVacant(e: Entity, v: Values, s: Slot)
    requires Content(e, s) == Offered(v, s) && Real(v, s) && Sourced(e, s)
    ensures !Vacant(e, s)
  {}

  /** There is one such offer at most. */
  lemma OneWinner(kind: Kind, offers: seq<Offer>, s: Slot, i: nat, j: nat)
    requires Wins(kind, offers, s, i) && Wins(kind, offers, s, j)
    ensures i == j
  {}

  /** A value without a recorded source belongs to no provider: no merge replaces it. */
  lemma {:induction false} UnattributedStays(e: Entity, offers: seq<Offer>, s: Slot)
    requires Ruled(e.kind, s) && !Vacant(e, s) && !Sourced(e, s)
    ensures Content(MergeAll(e, offers), s) == Content(e, s) && !Sourced(MergeAll(e, offers), s)
  {
    if offers != [] {
      var n := |offers| - 1;
      UnattributedStays(e, offers[..n], s);
      ProtectedNeverChange(e, offers[..n], s);
      var m := MergeAll(e, offers[..n]);
      MergedSlot(m, offers[n].values, offers[n].source, s);
      RuledTakes(m, offers[n].values, offers[n].source, s);
      VacantByContent(e, m, s);
    }
  }

  // ----- Portraits of people

  /** Offers by the two portrait providers; TMDB serves its own images. */
  predicate PortraitOffer(o: Offer) {
    (o.source == "tvdb" && !StartsWith(Get(o.values.texts, ImageUrl), TMDB_IMAGES))
    || (o.source == "tmdb"
        && (Get(o.values.texts, ImageUrl) == "" || StartsWith(Get(o.values.texts, ImageUrl), TMDB_IMAGES)))
  }

  /** The latest portrait of one source, empty when there is none. */
  function LatestPortrait(offers: seq<Offer>, source: string): string {
    if offers == [] then ""
    else
      var last := offers[|offers| - 1];
      if last.source == source && Get(last.values.texts, ImageUrl) != "" then Get(last.values.texts, ImageUrl)
      else LatestPortrait(offers[..|offers| - 1], source)
  }

  /** The portrait is the latest of TMDB's offers, or else of TVDB's, and is recorded as such. */
  ghost predicate PortraitOf(m: Entity, tmdb: string, tvdb: string) {
    var image, slot := Get(m.texts, ImageUrl), TextSlot(ImageUrl);
    if tmdb != "" then image == tmdb && StartsWith(tmdb, TMDB_IMAGES) && slot in m.sources && m.sources[slot] == "tmdb"
    else (image == tvdb && !StartsWith(tvdb, TMDB_IMAGES)
          && (tvdb != "" ==> slot in m.sources && m.sources[slot] == "tvdb"))
  }

  lemma PortraitStep(m: Entity, o: Offer, tmdb: string, tvdb: string)
    requires m.kind == Person && TextSlot(ImageUrl) !in m.protectedSlots && PortraitOffer(o)
             && PortraitOf(m, tmdb, tvdb)
    ensures var offer := Get(o.values.texts, ImageUrl);
            PortraitOf(Merged(m, o.values, o.source), if o.source == "tmdb" && offer != "" then offer else tmdb,
                       if o.source == "tvdb" && offer != "" then offer else tvdb)
  {
    hide Merged, StartsWith;
    var slot := TextSlot(ImageUrl);
    MergedSlot(m, o.values, o.source, slot);
    assert Rank(Person, "tmdb") == 80 && Rank(Person, "tvdb") == 80;
    assert Content(m, slot) == Text(Get(m.texts, ImageUrl))
           && Offered(o.values, slot) == Text(Get(o.values.texts, ImageUrl));
    assert Content(Merged(m, o.values, o.source), slot) == Text(Get(Merged(m, o.values, o.source).texts, ImageUrl));
  }

  /** Whatever the order of the two providers, a person shows the latest TMDB portrait, or else the latest TVDB one. */
  lemma {:induction false} TmdbPortraitWins(e: Entity, offers: seq<Offer>)
    requires e.kind == Person && Get(e.texts, ImageUrl) == "" && TextSlot(ImageUrl) !in e.protectedSlots
    requires forall o :: o in offers ==> PortraitOffer(o)
    ensures PortraitOf(MergeAll(e, offers), LatestPortrait(offers, "tmdb"), LatestPortrait(offers, "tvdb"))
  {
    hide Merged, PortraitOffer;
    if offers != [] {
      hide PortraitOf;
      var n := |offers| - 1;
      assert forall x :: x in offers[..n] ==> x in offers;
      TmdbPortraitWins(e, offers[..n]);
      ProtectedNeverChange(e, offers[..n], TextSlot(ImageUrl));
      PortraitStep(MergeAll(e, offers[..n]), offers[n], LatestPortrait(offers[..n], "tmdb"),
                   LatestPortrait(offers[..n], "tvdb"));
    }
  }

  // ----- Additive preparation

  predicate Known(e: Entity, s: Slot) {
    HasValue(Content(e, s))
  }

  predicate Replaceable(e: Entity, v: Values, provider: string, f: Field) {
    f == ImageUrl && PreferredPortrait(e, Get(v.texts, f), provider)
  }

  /** The values a repair may bring: nothing for what is already known. */
  function Trimmed(e: Entity, v: Values, provider: string): Values {
    v.(texts := map f | f in v.texts && (!Known(e, TextSlot(f)) || Replaceable(e, v, provider, f)) :: v.texts[f],
       attributes := map k | k in v.attributes && !Known(e, Attribute(k)) :: v.attributes[k])
  }

  /** Empty attributes that an incoming value can fill are removed first, so that they count as missing. */
  predicate Cleared(e: Entity, v: Values, k: string) {
    && k in e.attributes && !HasValue(e.attributes[k]) && HasValue(Offered(v, Attribute(k)))
    && Attribute(k) !in e.protectedSlots
  }

  function Pruned(e: Entity, v: Values): Entity {
    e.(attributes := map k | k in e.attributes && !Cleared(e, v, k) :: e.attributes[k])
  }

  /** Preparing and then merging. */
  function Repaired(e: Entity, v: Values, provider: string): Entity {
    Merged(Pruned(e, v), Trimmed(e, v, provider), provider)
  }

  /** What may fill an unknown slot. */
  predicate Fills(e: Entity, v: Values, s: Slot) {
    HasValue(Offered(v, s)) && s !in e.protectedSlots && !(s == TextSlot(Name) && PlaceholderName(v))
  }

  /** A portrait from TVDB's own server, with TVDB as its source, gives way to one from TMDB's. */
  predicate DefaultPortrait(e: Entity, v: Values, provider: string) {
    var shown, offered := Get(e.texts, ImageUrl), Get(v.texts, ImageUrl);
    && e.kind == Person && provider == "tmdb" && TextSlot(ImageUrl) !in e.protectedSlots
    && |shown| >= 29 && shown[..29] == "https://artworks.thetvdb.com/"
    && |offered| >= 27 && offered[..27] == "https://image.tmdb.org/t/p/"
    && TextSlot(ImageUrl) in e.sources && e.sources[TextSlot(ImageUrl)] == "tvdb"
  }

  /**
   A repair keeps everything known, fills exactly the unknown slots that it can, and replaces nothing but a TVDB default
   portrait by a TMDB one; it loses no attribute key.
   */
  lemma RepairOnlyFills(e: Entity, v: Values, provider: string, s: Slot)
    ensures Content(Repaired(e, v, provider), s) ==
            if Known(e, s) && !(s == TextSlot(ImageUrl) && DefaultPortrait(e, v, provider)) then Content(e, s)
            else if Known(e, s) || Fills(e, v, s) then Offered(v, s)
            else Content(e, s)
    ensures forall k :: k in e.attributes ==> k in Repaired(e, v, provider).attributes
  {
    hide Merged;
    var p, t := Pruned(e, v), Trimmed(e, v, provider);
    MergedSlot(p, t, provider, s);
    match s {
      case Attribute(k) => AttributeRepaired(e, v, provider, k);
      case TextSlot(f) => TextRepaired(e, v, provider, f);
    }
    forall k | k in e.attributes
      ensures k in Repaired(e, v, provider).attributes
    {
      AttributeRepaired(e, v, provider, k);
      KeyStays(p, t, provider, k);
    }
  }

  lemma AttributeRepaired(e: Entity, v: Values, provider: string, k: string)
    ensures var p, t := Pruned(e, v), Trimmed(e, v, provider);
            Takes(p, t, provider, Attribute(k)) == (!Known(e, Attribute(k)) && Fills(e, v, Attribute(k)))
            && (Takes(p, t, provider, Attribute(k)) ==> Offered(t, Attribute(k)) == Offered(v, Attribute(k)))
            && (!Takes(p, t, provider, Attribute(k)) ==>
                  !Cleared(e, v, k) && Content(p, Attribute(k)) == Content(e, Attribute(k)))
  {}

  lemma TextRepaired(e: Entity, v: Values, provider: string, f: Field)
    ensures var p, t, s := Pruned(e, v), Trimmed(e, v, provider), TextSlot(f);
            Takes(p, t, provider, s) == (if Known(e, s) then Replaceable(e, v, provider, f) else Fills(e, v, s))
            && (Takes(p, t, provider, s) ==> Offered(t, s) == Offered(v, s))
            && Content(p, s) == Content(e, s)
  {}

  lemma KeyStays(p: Entity, t: Values, source: string, k: string)
    requires k in p.attributes || Takes(p, t, source, Attribute(k))
    ensures k in Merged(p, t, source).attributes
  {}
}
