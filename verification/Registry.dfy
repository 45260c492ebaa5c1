/**
 The identity registry: which entity an external identifier belongs to. Upserts find an entity by any of its
 identifiers, merge what the provider says into it, and bind the identifiers that are new.
 */
module Registry {
  import opened TextOrder
  import opened JsonValue
  import opened Provenance
  import opened Identities

  datatype Binding = Binding(entity: nat, source: string, evidence: Json)

  /** next is the value the primary key's sequence gives out next. */
  datatype State = State(entities: map<nat, Entity>, identities: map<Identity, Binding>, next: nat)

  /** x is in its canonical form, and an entity of this kind may carry it. */
  predicate Rightful(s: State, x: Identity, id: nat) {
    && id in s.entities
    && x.namespace in NAMESPACE_KINDS && s.entities[id].kind in NAMESPACE_KINDS[x.namespace]
    && Canonical(x.namespace, x.externalId) == Some(x.externalId)
  }

  /** Every identifier is stored in its canonical form and belongs to an entity of a kind that it may identify. */
  ghost predicate Sound(s: State) {
    (forall x :: x in s.identities ==> Rightful(s, x, s.identities[x].entity))
    && forall n :: n in s.entities ==> n < s.next
  }

  // ----- One operation

  function KeyOf(x: Identity, kind: Kind): Option<Identity> {
    match CanonicalFor(x.namespace, x.externalId, kind)
    case Some(id) => Some(Identity(x.namespace, id))
    case None => None
  }

  predicate AllValid(ids: seq<Identity>, kind: Kind) {
    forall x :: x in ids ==> KeyOf(x, kind).Some?
  }

  function Keys(ids: seq<Identity>, kind: Kind): set<Identity> {
    set x | x in ids && KeyOf(x, kind).Some? :: KeyOf(x, kind).value
  }

  /** The entities that already carry one of the identifiers. */
  function Owners(s: State, keys: set<Identity>): set<nat> {
    set k | k in keys && k in s.identities :: s.identities[k].entity
  }

  /** Providers may not tie together identifiers of different entities, nor an entity of another kind. */
  predicate Agrees(s: State, v: Values) {
    v.identities != [] && AllValid(v.identities, v.kind)
    && (forall a, b | a in Owners(s, Keys(v.identities, v.kind)) && b in Owners(s, Keys(v.identities, v.kind)) ::
          a == b)
    && forall a :: a in Owners(s, Keys(v.identities, v.kind)) && a in s.entities ==> s.entities[a].kind == v.kind
  }

  function FirstOwner(s: State, ids: seq<Identity>, kind: Kind): (r: Option<nat>)
    ensures r.None? <==> Owners(s, Keys(ids, kind)) == {}
    ensures r.Some? ==> r.value in Owners(s, Keys(ids, kind))
  {
    if ids == [] then None
    else
      var key := KeyOf(ids[0], kind);
      KeysCons(ids, kind);
      if key.Some? && key.value in s.identities then
        assert s.identities[key.value].entity in Owners(s, Keys(ids, kind));
        Some(s.identities[key.value].entity)
      else FirstOwner(s, ids[1..], kind)
  }

  lemma KeysCons(ids: seq<Identity>, kind: Kind)
    requires ids != []
    ensures var key := KeyOf(ids[0], kind);
            Keys(ids, kind) == (if key.Some? then {key.value} else {}) + Keys(ids[1..], kind)
  {
    assert ids == [ids[0]] + ids[1..];
  }

  /** The entity an accepted upsert is about: the owner, or a new one. */
  function Target(s: State, v: Values): nat {
    match FirstOwner(s, v.identities, v.kind)
    case Some(id) => id
    case None => s.next
  }

  function NewEntity(v: Values, source: string): Entity {
    Entity(v.kind, map[Name := Get(v.texts, Name)], map[],
           if PlaceholderName(v) then map[] else map[TextSlot(Name) := source], {})
  }

  function CrossReference(x: Identity): Json {
    Object(map["cross_reference" := Object(map["namespace" := Text(x.namespace), "external_id" := Text(x.externalId)])])
  }

  function Bound(identities: map<Identity, Binding>, keys: set<Identity>, b: Binding): map<Identity, Binding> {
    identities + map k | k in keys && k !in identities :: b
  }

  datatype Operation =
    | Upsert(values: Values, source: string)
    | Bind(entity: nat, identity: Identity, source: string, evidence: Json)

  /** The entity that an operation is about, or nothing when it conflicts. */
  function Outcome(s: State, op: Operation): Option<nat> {
    match op
    case Upsert(v, _) => if Agrees(s, v) then Some(Target(s, v)) else None
    case Bind(id, x, _, _) =>
      if id !in s.entities then None
      else match KeyOf(x, s.entities[id].kind) {
        case None => None
        case Some(key) => if key in s.identities && s.identities[key].entity != id then None else Some(id)
      }
  }

  function Do(s: State, op: Operation): State {
    if Outcome(s, op).None? then s
    else
      var id := Outcome(s, op).value;
      match op
      case Upsert(v, source) =>
        var keys := Keys(v.identities, v.kind);
        var before := if id in s.entities then s.entities[id] else NewEntity(v, source);
        State(s.entities[id := Merged(before, v, source)],
              Bound(s.identities, keys, Binding(id, source, CrossReference(v.identities[0]))),
              if id == s.next then s.next + 1 else s.next)
      case Bind(_, x, source, evidence) =>
        s.(identities := Bound(s.identities, {KeyOf(x, s.entities[id].kind).value}, Binding(id, source, evidence)))
  }

  // ----- Invariants

  lemma KeyIsCanonical(x: Identity, kind: Kind)
    requires KeyOf(x, kind).Some?
    ensures KeyOf(KeyOf(x, kind).value, kind) == KeyOf(x, kind)
  {
    CanonicalIdempotent(x.namespace, x.externalId);
  }

  lemma KeysAreCanonical(ids: seq<Identity>, kind: Kind)
    ensures forall k :: k in Keys(ids, kind) ==> CanonicalFor(k.namespace, k.externalId, kind) == Some(k.externalId)
  {
    forall x | x in ids && KeyOf(x, kind).Some?
      ensures KeyOf(KeyOf(x, kind).value, kind) == KeyOf(x, kind)
    {
      KeyIsCanonical(x, kind);
    }
  }

  lemma PutSound(s: State, id: nat, e: Entity, keys: set<Identity>, b: Binding)
    requires Sound(s) && id <= s.next && b.entity == id && (id in s.entities ==> s.entities[id].kind == e.kind)
    requires forall k :: k in keys ==> CanonicalFor(k.namespace, k.externalId, e.kind) == Some(k.externalId)
    ensures Sound(State(s.entities[id := e], Bound(s.identities, keys, b), if id == s.next then s.next + 1 else s.next))
  {
    hide CanonicalFor;
  }

  /** Every operation keeps the registry sound; a conflict changes nothing at all. */
  lemma DoKeepsSound(s: State, op: Operation)
    requires Sound(s)
    ensures Sound(Do(s, op))
    ensures Outcome(s, op).None? ==> Do(s, op) == s
  {
    hide CanonicalFor, Canonical, Merged, Keys, Target;
    if Outcome(s, op).Some? {
      var id := Outcome(s, op).value;
      match op {
        case Upsert(v, source) =>
          var keys := Keys(v.identities, v.kind);
          KeysAreCanonical(v.identities, v.kind);
          TargetKind(s, v);
          var before := if id in s.entities then s.entities[id] else NewEntity(v, source);
          MergedSlot(before, v, source, TextSlot(Name));
          PutSound(s, id, Merged(before, v, source), keys, Binding(id, source, CrossReference(v.identities[0])));
        case Bind(_, x, source, evidence) =>
          KeyIsCanonical(x, s.entities[id].kind);
          PutSound(s, id, s.entities[id], {KeyOf(x, s.entities[id].kind).value}, Binding(id, source, evidence));
          assert s.entities[id := s.entities[id]] == s.entities;
      }
    }
  }

  lemma TargetKind(s: State, v: Values)
    requires Sound(s) && Agrees(s, v)
    ensures var id := Target(s, v);
            (id in s.entities ==> s.entities[id].kind == v.kind) && (id == s.next || id in s.entities)
  {
    hide CanonicalFor;
  }

  /** The kind, the protected slots and what they hold. */
  ghost predicate SameFooting(e: Entity, m: Entity) {
    m.kind == e.kind && m.protectedSlots == e.protectedSlots
    && forall slot :: slot in e.protectedSlots ==> Content(m, slot) == Content(e, slot)
  }

  /** Operations only add: entities keep their kind, identifiers their entity. */
  ghost predicate Extends(s: State, t: State) {
    (forall n :: n in s.entities ==> n in t.entities && SameFooting(s.entities[n], t.entities[n]))
    && forall x :: x in s.identities ==> x in t.identities && t.identities[x] == s.identities[x]
  }

  lemma MergedFooting(e: Entity, v: Values, source: string)
    ensures SameFooting(e, Merged(e, v, source))
  {
    hide Merged, Takes, Content;
    MergedSlot(e, v, source, TextSlot(Name));
    forall slot | slot in e.protectedSlots
      ensures Content(Merged(e, v, source), slot) == Content(e, slot)
    {
      MergedSlot(e, v, source, slot);
      ProtectedNotTaken(e, v, source, slot);
    }
  }

  lemma DoExtends(s: State, op: Operation)
    requires Sound(s)
    ensures Extends(s, Do(s, op))
  {
    hide CanonicalFor, Merged, Takes, Content, Keys, Agrees, Target;
    if op.Upsert? && Outcome(s, op).Some? {
      var id := Outcome(s, op).value;
      if id in s.entities {
        MergedFooting(s.entities[id], op.values, op.source);
      }
    }
  }

  lemma ProtectedNotTaken(e: Entity, v: Values, source: string, slot: Slot)
    requires slot in e.protectedSlots
    ensures !Takes(e, v, source, slot)
  {}

  function Run(s: State, ops: seq<Operation>): State {
    if ops == [] then s else Do(Run(s, ops[..|ops| - 1]), ops[|ops| - 1])
  }

  /**
   Over any run every canonical identifier belongs to one entity, of a kind it may identify, and never moves; protected
   values stay.
   */
  lemma {:induction false} IdentifiersNeverMove(s: State, ops: seq<Operation>)
    requires Sound(s)
    ensures Sound(Run(s, ops)) && Extends(s, Run(s, ops))
  {
    hide Sound, Extends, Do;
    if ops == [] {
      ExtendsItself(s);
    } else {
      var n := |ops| - 1;
      IdentifiersNeverMove(s, ops[..n]);
      DoKeepsSound(Run(s, ops[..n]), ops[n]);
      DoExtends(Run(s, ops[..n]), ops[n]);
      ExtendsTwice(s, Run(s, ops[..n]), Run(s, ops));
    }
  }

  lemma ExtendsItself(s: State)
    ensures Extends(s, s)
  {}

  lemma ExtendsTwice(s: State, t: State, u: State)
    requires Extends(s, t) && Extends(t, u)
    ensures Extends(s, u)
  {}

  /** After an accepted operation its identifiers belong to the entity it answered. */
  lemma BoundAfter(s: State, op: Operation, x: Identity)
    requires Sound(s) && Outcome(s, op).Some?
    requires match op { case Upsert(v, _) => x in Keys(v.identities, v.kind)
                        case Bind(id, y, _, _) => KeyOf(y, s.entities[id].kind) == Some(x) }
    ensures x in Do(s, op).identities && Do(s, op).identities[x].entity == Outcome(s, op).value
  {
    hide CanonicalFor, Sound, Merged;
    if op.Upsert? && x in s.identities {
      var keys := Keys(op.values.identities, op.values.kind);
      assert s.identities[x].entity in Owners(s, keys);
    }
  }

  /** Two accepted upserts that share an identifier, in any spelling, are about one entity, whatever lies between. */
  lemma SharedIdentifierOneEntity(s: State, first: Operation, between: seq<Operation>, second: Operation, x: Identity)
    requires Sound(s) && first.Upsert? && second.Upsert?
    requires x in Keys(first.values.identities, first.values.kind)
             && x in Keys(second.values.identities, second.values.kind)
    requires Outcome(s, first).Some? && Outcome(Run(Do(s, first), between), second).Some?
    ensures Outcome(Run(Do(s, first), between), second) == Outcome(s, first)
  {
    hide CanonicalFor, Sound, Do, Outcome, Run;
    var t := Do(s, first);
    var u := Run(t, between);
    DoKeepsSound(s, first);
    IdentifiersNeverMove(t, between);
    BoundAfter(s, first, x);
    BoundAfter(u, second, x);
    DoExtends(u, second);
  }

  /** Both identifiers are on record, with different entities or with one of another kind. */
  ghost predicate Conflicting(s: State, kind: Kind, x: Identity, y: Identity) {
    x in s.identities && y in s.identities
    && (s.identities[x].entity != s.identities[y].entity
        || (s.identities[x].entity in s.entities && s.entities[s.identities[x].entity].kind != kind))
  }

  /** A record of valid identifiers is refused exactly when two of them (or one, twice) conflict. */
  lemma ConflictReasons(s: State, v: Values, source: string)
    requires v.identities != [] && AllValid(v.identities, v.kind)
    ensures Outcome(s, Upsert(v, source)).None? <==>
            exists x, y :: x in Keys(v.identities, v.kind) && y in Keys(v.identities, v.kind)
                           && Conflicting(s, v.kind, x, y)
  {
    hide CanonicalFor, Keys, Target;
    var keys := Keys(v.identities, v.kind);
    if Agrees(s, v) {
      forall x, y | x in keys && y in keys
        ensures !Conflicting(s, v.kind, x, y)
      {
        if x in s.identities && y in s.identities {
          assert s.identities[x].entity in Owners(s, keys) && s.identities[y].entity in Owners(s, keys);
        }
      }
    } else if a, b :| a in Owners(s, keys) && b in Owners(s, keys) && a != b {
      var x :| x in keys && x in s.identities && s.identities[x].entity == a;
      var y :| y in keys && y in s.identities && s.identities[y].entity == b;
      assert Conflicting(s, v.kind, x, y);
    } else {
      var a :| a in Owners(s, keys) && a in s.entities && s.entities[a].kind != v.kind;
      var x :| x in keys && x in s.identities && s.identities[x].entity == a;
      assert Conflicting(s, v.kind, x, x);
    }
  }

  /** Whether a value for the slot is on offer, and a name is more than one of the record's identifiers. */
  predicate Given(v: Values, slot: Slot) {
    !Empty(Offered(v, slot)) && !(slot == TextSlot(Name) && PlaceholderName(v))
  }

  /** What the first merge makes of one slot of a new entity. */
  lemma FirstMerge(v: Values, source: string, slot: Slot)
    requires source != ""
    ensures var e := Merged(NewEntity(v, source), v, source);
            && (slot == TextSlot(Name) || Given(v, slot) ==> Content(e, slot) == Offered(v, slot))
            && (slot != TextSlot(Name) && !Given(v, slot) ==> Empty(Content(e, slot)))
            && (Sourced(e, slot) <==> Given(v, slot) || (slot == TextSlot(Name) && !PlaceholderName(v)))
            && (Sourced(e, slot) ==> e.sources[slot] == source)
  {
    hide PlaceholderName, Merged;
    HasValueMeans(Offered(v, slot));
    MergedSlot(NewEntity(v, source), v, source, slot);
    HasValueMeans(Content(NewEntity(v, source), slot));
  }

  /**
   A record that no entity carries becomes a new entity of its kind: with the record's name, with every value it
   gives, and with the source of each recorded; a name that only stands in has no source.
   */
  lemma NewRecordIsStored(s: State, v: Values, source: string, slot: Slot)
    requires Sound(s) && Agrees(s, v) && Owners(s, Keys(v.identities, v.kind)) == {} && source != ""
    ensures var t := Do(s, Upsert(v, source));
            && s.next !in s.entities && s.next in t.entities && t.entities[s.next].kind == v.kind
            && var e := t.entities[s.next];
               && (slot == TextSlot(Name) || Given(v, slot) ==> Content(e, slot) == Offered(v, slot))
               && (slot != TextSlot(Name) && !Given(v, slot) ==> Empty(Content(e, slot)))
               && (Sourced(e, slot) <==> Given(v, slot) || (slot == TextSlot(Name) && !PlaceholderName(v)))
               && (Sourced(e, slot) ==> e.sources[slot] == source)
  {
    FirstMerge(v, source, slot);
    MergedSlot(NewEntity(v, source), v, source, slot);
    hide CanonicalFor, Keys, PlaceholderName, Merged, Sourced, Content, Given, Takes, Offered, Empty, Bound;
  }

  /** A known record is merged into its one owner, and every other entity stays as it is. */
  lemma KnownRecordIsMerged(s: State, v: Values, source: string, id: nat)
    requires Sound(s) && Agrees(s, v) && id in Owners(s, Keys(v.identities, v.kind))
    ensures var t := Do(s, Upsert(v, source));
            && id in s.entities && t.entities == s.entities[id := Merged(s.entities[id], v, source)]
            && Outcome(s, Upsert(v, source)) == Some(id)
  {
    hide CanonicalFor, Keys, Merged;
  }
}
