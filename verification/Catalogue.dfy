/** The catalogue's tables, and the operations that write them. */
module Catalogue {
  import opened TextOrder
  import opened JsonValue
  import opened Provenance
  import opened Identities
  import opened Registry

  /** One loaded entity. */
  class EntityRow {
    const kind: Kind
    const protectedSlots: set<Slot>
    var texts: map<Field, string>
    var attributes: map<string, Json>
    var sources: map<Slot, string>

    constructor (e: Entity)
      ensures Value() == e
    {
      kind, protectedSlots, texts, attributes, sources := e.kind, e.protectedSlots, e.texts, e.attributes, e.sources;
    }

    function Value(): Entity
      reads this
    {
      Entity(kind, texts, attributes, sources, protectedSlots)
    }

    /** Field by field and then attribute by attribute, on copies of the recorded sources and the attributes. */
    method MergeFields(v: Values, source: string)
      modifies this
      ensures Value() == Merged(old(Value()), v, source)
    {
      hide Takes, TakesText, TakesAttribute, Decided, With, SlotsOf, FieldsBefore, KeysBut;
      ghost var e := Value();
      StartMerge(e, v, source);
      var newSources := sources;
      for i := 0 to |FIELDS|
        invariant attributes == e.attributes
        invariant Entity(kind, texts, attributes, newSources, protectedSlots)
                  == With(e, v, source, Decided(e, v, source, FieldsBefore(i)))
      {
        var f := FIELDS[i];
        NextField(i);
        TextTurn(e, v, source, FieldsBefore(i), f);
        if TakesText(Entity(kind, texts, attributes, newSources, protectedSlots), v, source, f) {
          texts := texts[f := Get(v.texts, f)];
          newSources := newSources[TextSlot(f) := source];
        }
      }
      var attrs, todo := attributes, v.attributes.Keys;
      NoKeysYet(v);
      while todo != {}
        invariant todo <= v.attributes.Keys
        invariant Entity(kind, texts, attrs, newSources, protectedSlots)
               == With(e, v, source, Decided(e, v, source, FieldsBefore(3) + KeysBut(v, todo)))
      {
        var k :| k in todo;
        NextKey(v, todo, k);
        AttributeTurn(e, v, source, FieldsBefore(3) + KeysBut(v, todo), k);
        if TakesAttribute(Entity(kind, texts, attrs, newSources, protectedSlots), v, source, k) {
          attrs := attrs[k := v.attributes[k]];
          newSources := newSources[Attribute(k) := source];
        }
        todo := todo - {k};
      }
      AllDecided(e, v, source);
      attributes := attrs;
      sources := newSources;
    }

    /** The values a repair may bring; empty attributes that they fill are dropped from the row. */
    method PrepareValues(v: Values, provider: string) returns (prepared: Values)
      modifies this`attributes
      ensures prepared == Trimmed(old(Value()), v, provider)
      ensures Value() == Pruned(old(Value()), v)
    {
      hide KeepsText, Incoming, Retained, Trimmed, Pruned;
      ghost var e := Value();
      var kept := v.texts;
      for i := 0 to |FIELDS|
        invariant attributes == e.attributes && kept == KeptTexts(e, v, provider, i)
      {
        var f := FIELDS[i];
        KeptNext(e, v, provider, i);
        if !KeepsText(Value(), v, provider, f) {
          kept := kept - {f};
        }
      }
      AllKept(e, v, provider);
      prepared := v.(texts := kept, attributes := Incoming(attributes, v));
      attributes := Retained(attributes, prepared, protectedSlots);
      Cleanup(e, v, provider);
    }
  }

  /** The entity and identity tables; every public method runs under the catalogue's write lock. */
  class Catalogue {
    var entities: map<nat, Entity>
    var identities: map<Identity, Binding>
    var next: nat

    function Tables(): State
      reads this
    {
      State(entities, identities, next)
    }

    /** The owner of an identifier; the outer option is the validation. */
    method Resolve(x: Identity) returns (valid: bool, r: Option<nat>)
      ensures valid <==> Canonical(x.namespace, x.externalId).Some?
      ensures valid ==> var key := Identity(x.namespace, Canonical(x.namespace, x.externalId).value);
                        r == if key in identities then Some(identities[key].entity) else None
    {
      r := None;
      var id := Canonical(x.namespace, x.externalId);
      valid := id.Some?;
      if valid {
        var key := Identity(x.namespace, id.value);
        if key in identities {
          r := Some(identities[key].entity);
        }
      }
    }

    /** Validated for the entity's kind, looked up (which validates again), and added when it is new. */
    method BindIdentity(id: nat, x: Identity, source: string, evidence: Json) returns (r: Option<nat>)
      modifies this`identities
      ensures r == Outcome(old(Tables()), Bind(id, x, source, evidence))
      ensures Tables() == Do(old(Tables()), Bind(id, x, source, evidence))
    {
      hide Canonical, NAMESPACE_KINDS;
      if id !in entities {
        return None;
      }
      var external := CanonicalFor(x.namespace, x.externalId, entities[id].kind);
      if external.None? {
        return None;
      }
      CanonicalIdempotent(x.namespace, x.externalId);
      var key := Identity(x.namespace, external.value);
      var valid, previous := Resolve(key);
      BoundOne(identities, key, Binding(id, source, evidence));
      if previous.Some? {
        if previous.value != id {
          return None;
        }
        return Some(id);
      }
      identities := identities[key := Binding(id, source, evidence)];
      return Some(id);
    }

    /** Who owns the record's identifiers, once all of them are valid. */
    method FindOwners(v: Values) returns (valid: bool, owners: set<nat>)
      ensures valid <==> AllValid(v.identities, v.kind)
      ensures valid ==> owners == Owners(Tables(), Keys(v.identities, v.kind))
    {
      hide Canonical, CanonicalFor, NAMESPACE_KINDS, Keys;
      valid, owners := false, {};
      NoKeys(Tables(), v.kind);
      for i := 0 to |v.identities|
        invariant AllValid(v.identities[..i], v.kind)
        invariant owners == Owners(Tables(), Keys(v.identities[..i], v.kind))
      {
        var x := v.identities[i];
        KeysSnoc(Tables(), v.identities, i, v.kind);
        if CanonicalFor(x.namespace, x.externalId, v.kind).None? {
          return;
        }
        var known, found := Resolve(x);
        if found.Some? {
          owners := owners + {found.value};
        }
      }
      assert v.identities[..|v.identities|] == v.identities;
      valid := true;
    }

    /** Binds the record's identifiers to its entity; those already bound stay as they are. */
    method BindAll(v: Values, id: nat, source: string, ghost before: State)
      requires Agrees(before, v) && Target(before, v) == id && identities == before.identities
      requires id in entities && entities[id].kind == v.kind
      modifies this`identities
      ensures identities
              == Bound(before.identities, Keys(v.identities, v.kind),
                       Binding(id, source, CrossReference(v.identities[0])))
    {
      hide Canonical, CanonicalFor, NAMESPACE_KINDS, Keys, Bound, Target;
      var b := Binding(id, source, CrossReference(v.identities[0]));
      NoKeys(before, v.kind);
      NothingBound(identities);
      for i := 0 to |v.identities|
        invariant identities == Bound(before.identities, Keys(v.identities[..i], v.kind), b)
      {
        assert v.identities[i] in v.identities;
        KeysSnoc(before, v.identities, i, v.kind);
        OwnIdentifier(before, v, id, i, b);
        BoundTwice(before.identities, Keys(v.identities[..i], v.kind), KeyOf(v.identities[i], v.kind).value, b);
        var bound := BindIdentity(id, v.identities[i], source, b.evidence);
      }
      assert v.identities[..|v.identities|] == v.identities;
    }

    /** The entity is loaded, merged and stored. */
    method MergeEntity(id: nat, v: Values, source: string)
      requires id in entities
      modifies this`entities
      ensures entities == old(entities)[id := Merged(old(entities)[id], v, source)]
      ensures entities[id].kind == old(entities)[id].kind
    {
      hide Merged;
      var row := new EntityRow(entities[id]);
      row.MergeFields(v, source);
      MergedSlot(entities[id], v, source, TextSlot(Name));
      entities := entities[id := row.Value()];
    }

    /** Identifiers are all checked before anything is written. */
    method UpsertEntity(v: Values, source: string) returns (r: Option<nat>)
      requires Sound(Tables())
      modifies this
      ensures r == Outcome(old(Tables()), Upsert(v, source))
      ensures Tables() == Do(old(Tables()), Upsert(v, source))
    {
      hide Merged, Keys, Sound, Bound, PlaceholderName, AllValid, Owners, CrossReference, Target, CanonicalFor;
      hide Canonical, NAMESPACE_KINDS;
      ghost var before := Tables();
      if v.identities == [] {
        return None;
      }
      var valid, owners := FindOwners(v);
      SizeAtMostOne(owners);
      if !valid || |owners| > 1 {
        return None;
      }
      OwnersExist(before, Keys(v.identities, v.kind));
      var id := next;
      if owners != {} {
        id :| id in owners;
        if entities[id].kind != v.kind {
          return None;
        }
      }
      TargetIs(before, v, id);
      if owners == {} {
        FreshIsNew(before);
        entities := entities[id := NewEntity(v, source)];
        next := next + 1;
      } else {
        OwnerIsOld(before, id);
      }
      MergeEntity(id, v, source);
      BindAll(v, id, source, before);
      r := Some(id);
    }
  }

  lemma FreshIsNew(s: State)
    requires Sound(s)
    ensures s.next !in s.entities
  {}

  lemma OwnerIsOld(s: State, id: nat)
    requires Sound(s) && id in s.entities
    ensures id != s.next
  {}

  // ----- Upserts, identifier by identifier

  lemma NoKeys(s: State, kind: Kind)
    ensures Keys([], kind) == {} && Owners(s, {}) == {} && AllValid([], kind)
  {}

  lemma NothingBound(identities: map<Identity, Binding>)
    ensures forall b :: Bound(identities, {}, b) == identities
  {}

  lemma BoundOne(identities: map<Identity, Binding>, key: Identity, b: Binding)
    ensures Bound(identities, {key}, b) == if key in identities then identities else identities[key := b]
  {}

  lemma BoundTwice(identities: map<Identity, Binding>, keys: set<Identity>, key: Identity, b: Binding)
    ensures Bound(identities, keys + {key}, b) == Bound(Bound(identities, keys, b), {key}, b)
  {}

  function OwnerOf(s: State, key: Identity): set<nat> {
    if key in s.identities then {s.identities[key].entity} else {}
  }

  /** The first i + 1 identifiers: valid if all are, with the last one's key and owner added. */
  lemma KeysSnoc(s: State, ids: seq<Identity>, i: nat, kind: Kind)
    requires i < |ids|
    ensures var x, key := ids[i], KeyOf(ids[i], kind);
            (key.None? <==> CanonicalFor(x.namespace, x.externalId, kind).None?) && (key.None? ==> !AllValid(ids, kind))
    ensures var x, key := ids[i], KeyOf(ids[i], kind);
            key.Some? ==> Canonical(x.namespace, x.externalId) == Some(key.value.externalId)
                          && key.value.namespace == x.namespace
    ensures var keys, key := Keys(ids[..i], kind), KeyOf(ids[i], kind);
            key.Some? ==> AllValid(ids[..i + 1], kind) == AllValid(ids[..i], kind)
                          && Keys(ids[..i + 1], kind) == keys + {key.value}
    ensures var keys, key := Keys(ids[..i], kind), KeyOf(ids[i], kind);
            key.Some? ==> Owners(s, keys + {key.value}) == Owners(s, keys) + OwnerOf(s, key.value)
  {
    hide Canonical, NAMESPACE_KINDS;
    assert ids[..i + 1] == ids[..i] + [ids[i]];
  }

  lemma SizeAtMostOne(owners: set<nat>)
    ensures |owners| <= 1 <==> forall a, b :: a in owners && b in owners ==> a == b
  {
    if a :| a in owners {
      var rest := owners - {a};
      assert |owners| == |rest| + 1;
      if b :| b in rest {
        assert b in owners && b != a;
      }
    }
  }

  lemma OwnersExist(s: State, keys: set<Identity>)
    requires Sound(s)
    ensures forall a :: a in Owners(s, keys) ==> a in s.entities
  {
    hide CanonicalFor;
  }

  /** With one owner, or none, the record agrees with the registry unless the owner's kind is another. */
  lemma TargetIs(s: State, v: Values, id: nat)
    requires v.identities != [] && AllValid(v.identities, v.kind)
    requires |Owners(s, Keys(v.identities, v.kind))| <= 1
    requires var owners := Owners(s, Keys(v.identities, v.kind));
             if owners == {} then id == s.next else id in owners && id in s.entities && s.entities[id].kind == v.kind
    ensures Agrees(s, v) && Target(s, v) == id
  {
    hide Keys, CanonicalFor;
    SizeAtMostOne(Owners(s, Keys(v.identities, v.kind)));
  }

  /** Binding the record's own identifiers meets no other owner. */
  lemma OwnIdentifier(s: State, v: Values, id: nat, i: nat, b: Binding)
    requires i < |v.identities| && Agrees(s, v) && Target(s, v) == id && b.entity == id
    ensures var key := KeyOf(v.identities[i], v.kind).value;
            var bound := Bound(s.identities, Keys(v.identities[..i], v.kind), b);
            key in bound ==> bound[key].entity == id
  {
    hide CanonicalFor;
    var key := KeyOf(v.identities[i], v.kind).value;
    assert key in Keys(v.identities, v.kind);
    if key in s.identities {
      assert s.identities[key].entity in Owners(s, Keys(v.identities, v.kind));
    }
  }

  // ----- Preparing, field by field

  predicate KeepsText(e: Entity, v: Values, provider: string, f: Field) {
    !Known(e, TextSlot(f)) || Replaceable(e, v, provider, f)
  }

  ghost function KeptTexts(e: Entity, v: Values, provider: string, i: nat): map<Field, string> {
    map f | f in v.texts && (f in FIELDS[..if i < 3 then i else 3] ==> KeepsText(e, v, provider, f)) :: v.texts[f]
  }

  lemma KeptNext(e: Entity, v: Values, provider: string, i: nat)
    requires i < 3
    ensures KeptTexts(e, v, provider, 0) == v.texts
    ensures var kept := KeptTexts(e, v, provider, i);
            KeptTexts(e, v, provider, i + 1)
            == if KeepsText(e, v, provider, FIELDS[i]) then kept else kept - {FIELDS[i]}
  {
    hide KeepsText;
    assert FIELDS[..i + 1] == FIELDS[..i] + [FIELDS[i]];
  }

  lemma AllKept(e: Entity, v: Values, provider: string)
    ensures KeptTexts(e, v, provider, 3) == Trimmed(e, v, provider).texts
  {
    hide PreferredPortrait;
    assert FIELDS[0] == Name && FIELDS[1] == Description && FIELDS[2] == ImageUrl;
  }

  function Incoming(attributes: map<string, Json>, v: Values): map<string, Json> {
    map k | k in v.attributes && !(k in attributes && HasValue(attributes[k])) :: v.attributes[k]
  }

  function Retained(attributes: map<string, Json>, prepared: Values, protectedSlots: set<Slot>): map<string, Json> {
    map k | k in attributes
      && (HasValue(attributes[k]) || !HasValue(Offered(prepared, Attribute(k))) || Attribute(k) in protectedSlots)
          :: attributes[k]
  }

  lemma Cleanup(e: Entity, v: Values, provider: string)
    ensures Incoming(e.attributes, v) == Trimmed(e, v, provider).attributes
    ensures forall p: Values :: p.attributes == Incoming(e.attributes, v) ==>
      Retained(e.attributes, p, e.protectedSlots) == Pruned(e, v).attributes
    ensures forall m: map<string, Json> :: m == Pruned(e, v).attributes ==> e.(attributes := m) == Pruned(e, v)
    ensures forall m: map<Field, string> :: m == Trimmed(e, v, provider).texts ==>
      v.(texts := m, attributes := Incoming(e.attributes, v)) == Trimmed(e, v, provider)
  {
    hide PreferredPortrait;
    forall p: Values | p.attributes == Incoming(e.attributes, v)
      ensures Retained(e.attributes, p, e.protectedSlots) == Pruned(e, v).attributes
    {
      assert forall k :: k in e.attributes && !HasValue(e.attributes[k]) ==>
        Offered(p, Attribute(k)) == Offered(v, Attribute(k));
    }
  }

  // ----- Merging, slot by slot

  function FieldsBefore(i: nat): set<Slot> {
    set j | 0 <= j < i && j < |FIELDS| :: TextSlot(FIELDS[j])
  }

  lemma NextField(i: nat)
    requires i < |FIELDS|
    ensures FieldsBefore(i + 1) == FieldsBefore(i) + {TextSlot(FIELDS[i])} && TextSlot(FIELDS[i]) !in FieldsBefore(i)
  {}

  function KeysBut(v: Values, todo: set<string>): set<Slot> {
    set k | k in v.attributes && k !in todo :: Attribute(k)
  }

  lemma NoKeysYet(v: Values)
    ensures FieldsBefore(3) + KeysBut(v, v.attributes.Keys) == FieldsBefore(3)
  {}

  lemma NextKey(v: Values, todo: set<string>, k: string)
    requires k in todo && todo <= v.attributes.Keys
    ensures FieldsBefore(3) + KeysBut(v, todo - {k}) == FieldsBefore(3) + KeysBut(v, todo) + {Attribute(k)}
    ensures k in v.attributes && Attribute(k) !in FieldsBefore(3) + KeysBut(v, todo)
  {}

  /** The slots of ss that are taken. */
  ghost function Decided(e: Entity, v: Values, source: string, ss: set<Slot>): set<Slot> {
    set s | s in ss && Takes(e, v, source, s)
  }

  lemma StartMerge(e: Entity, v: Values, source: string)
    ensures With(e, v, source, Decided(e, v, source, FieldsBefore(0))) == e
  {
    assert Decided(e, v, source, FieldsBefore(0)) == {};
    var m := With(e, v, source, {});
    assert m.texts == e.texts && m.attributes == e.attributes && m.sources == e.sources;
  }

  /** Slots already written do not sway the decision about another one. */
  lemma DecidedNext(e: Entity, v: Values, source: string, ss: set<Slot>, s: Slot)
    requires s !in ss
    ensures var done := Decided(e, v, source, ss);
            (Takes(With(e, v, source, done), v, source, s) <==> Takes(e, v, source, s))
            && (Takes(e, v, source, s) ==> s in SlotsOf(v))
            && Decided(e, v, source, ss + {s}) == if Takes(e, v, source, s) then done + {s} else done
  {
    if Takes(e, v, source, s) {
      TakesOffered(e, v, source, s);
    }
    forall x | x in Decided(e, v, source, ss)
      ensures x in SlotsOf(v)
    {
      TakesOffered(e, v, source, x);
    }
    WithSlot(e, v, source, Decided(e, v, source, ss), s);
  }

  lemma TextTurn(e: Entity, v: Values, source: string, ss: set<Slot>, f: Field)
    requires TextSlot(f) !in ss
    ensures var now := With(e, v, source, Decided(e, v, source, ss));
            With(e, v, source, Decided(e, v, source, ss + {TextSlot(f)})) ==
            if TakesText(now, v, source, f)
            then now.(texts := now.texts[f := Get(v.texts, f)], sources := now.sources[TextSlot(f) := source]) else now
  {
    hide TakesText, TakesAttribute, Decided, With, SlotsOf;
    var s := TextSlot(f);
    DecidedNext(e, v, source, ss, s);
    if Takes(e, v, source, s) {
      InTexts(v, f);
      OneTextMore(e, v, source, Decided(e, v, source, ss), f);
    }
  }

  lemma InTexts(v: Values, f: Field)
    requires TextSlot(f) in SlotsOf(v)
    ensures f in v.texts
  {}

  lemma SourcesMore(sources: map<Slot, string>, source: string, ss: set<Slot>, s: Slot)
    ensures sources + (map x | x in ss + {s} :: source) == (sources + map x | x in ss :: source)[s := source]
  {}

  lemma TextsMore(e: Entity, v: Values, ss: set<Slot>, s: Slot)
    requires s.TextSlot? ==> s.field in v.texts
    ensures WrittenTexts(e, v, ss + {s}) ==
            if s.TextSlot? then WrittenTexts(e, v, ss)[s.field := v.texts[s.field]] else WrittenTexts(e, v, ss)
  {}

  lemma AttributesMore(e: Entity, v: Values, ss: set<Slot>, s: Slot)
    requires s.Attribute? ==> s.key in v.attributes
    ensures WrittenAttributes(e, v, ss + {s}) ==
            if s.Attribute? then WrittenAttributes(e, v, ss)[s.key := v.attributes[s.key]]
            else WrittenAttributes(e, v, ss)
  {}

  lemma OneTextMore(e: Entity, v: Values, source: string, ss: set<Slot>, f: Field)
    requires f in v.texts
    ensures var m, n := With(e, v, source, ss), With(e, v, source, ss + {TextSlot(f)});
            n == m.(texts := m.texts[f := v.texts[f]], sources := m.sources[TextSlot(f) := source])
  {
    SourcesMore(e.sources, source, ss, TextSlot(f));
    TextsMore(e, v, ss, TextSlot(f));
    AttributesMore(e, v, ss, TextSlot(f));
  }

  lemma AttributeTurn(e: Entity, v: Values, source: string, ss: set<Slot>, k: string)
    requires k in v.attributes && Attribute(k) !in ss
    ensures var now := With(e, v, source, Decided(e, v, source, ss));
            With(e, v, source, Decided(e, v, source, ss + {Attribute(k)})) ==
            if TakesAttribute(now, v, source, k)
            then now.(attributes := now.attributes[k := v.attributes[k]],
                      sources := now.sources[Attribute(k) := source])
            else now
  {
    hide TakesText, TakesAttribute, Decided, With, SlotsOf;
    DecidedNext(e, v, source, ss, Attribute(k));
    if Takes(e, v, source, Attribute(k)) {
      OneAttributeMore(e, v, source, Decided(e, v, source, ss), k);
    }
  }

  lemma OneAttributeMore(e: Entity, v: Values, source: string, ss: set<Slot>, k: string)
    requires k in v.attributes
    ensures var m, n := With(e, v, source, ss), With(e, v, source, ss + {Attribute(k)});
            n == m.(attributes := m.attributes[k := v.attributes[k]], sources := m.sources[Attribute(k) := source])
  {
    SourcesMore(e.sources, source, ss, Attribute(k));
    TextsMore(e, v, ss, Attribute(k));
    AttributesMore(e, v, ss, Attribute(k));
  }

  lemma AllDecided(e: Entity, v: Values, source: string)
    ensures With(e, v, source, Decided(e, v, source, FieldsBefore(3) + KeysBut(v, {}))) == Merged(e, v, source)
  {
    hide TakesText, TakesAttribute;
    forall s | Takes(e, v, source, s)
      ensures s in SlotsOf(v) && s in FieldsBefore(3) + KeysBut(v, {})
    {
      TakesOffered(e, v, source, s);
      match s {
        case TextSlot(f) =>
          NextField(0);
          NextField(1);
          NextField(2);
          assert f == FIELDS[0] || f == FIELDS[1] || f == FIELDS[2];
        case Attribute(k) =>
          assert k in v.attributes && Attribute(k) in KeysBut(v, {});
      }
    }
    assert Decided(e, v, source, FieldsBefore(3) + KeysBut(v, {})) == set s | s in SlotsOf(v) && Takes(e, v, source, s);
  }
}
