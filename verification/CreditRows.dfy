/** Credit rows and what one INSERT ... ON CONFLICT DO UPDATE does with them. */
module CreditRows {
  import opened TextOrder
  import opened JsonValue

  datatype Key = Key(workId: int, provider: string, sourceKey: string)

  datatype Column = ContributorId | Role | RoleLabel | CharacterLabel | CharacterImageUrl | Scope | Position | EditionId

  /** An incoming row; absent and empty values are both allowed. */
  datatype Row = Row(key: Key, cols: map<Column, Json>, attributes: Option<map<string, Json>>)

  /** A stored credit. A column missing from cols is NULL; link is screen_character_id. */
  datatype Stored = Stored(cols: map<Column, Json>, attributes: map<string, Json>, link: Option<int>)

  type Table = map<Key, Stored>

  /** A row without its empty fields; an attributes object that is empty as given is dropped too. */
  function Clean(raw: Row): Row {
    Row(raw.key,
        map c | c in raw.cols && HasValue(raw.cols[c]) :: raw.cols[c],
        if raw.attributes.Some? && raw.attributes.value != map[]
        then Some(map a | a in raw.attributes.value && HasValue(raw.attributes.value[a]) :: raw.attributes.value[a])
        else None)
  }

  /** Two sparse rows for one key: later fields win, omitted fields survive. */
  function Overlay(previous: Row, row: Row): Row {
    Row(row.key, previous.cols + row.cols,
        if previous.attributes.Some? && row.attributes.Some?
        then Some(previous.attributes.value + row.attributes.value)
        else if row.attributes.Some? then row.attributes else previous.attributes)
  }

  /** NOT NULL columns without a default: writing a row that lacks one raises an integrity error. */
  predicate Writable(row: Row) {
    ContributorId in row.cols && Role in row.cols
  }

  const PERFORMANCE := {ContributorId, Role, CharacterLabel}

  predicate Differs(prior: map<Column, Json>, row: Row, c: Column) {
    c in row.cols && (c !in prior || prior[c] != row.cols[c])
  }

  /** The performer, job or role of the stored credit changes. */
  predicate RoleChanged(s: Stored, row: Row) {
    exists c :: c in PERFORMANCE && Differs(s.cols, row, c)
  }

  function Attributes(row: Row): map<string, Json> {
    if row.attributes.Some? then row.attributes.value else map[]
  }

  /** The stored credit after writing the row over what was there. */
  function Put(s: Option<Stored>, row: Row): Stored {
    match s
    case None =>
      Stored(if Scope in row.cols then row.cols else row.cols[Scope := Text("title")], Attributes(row), None)
    case Some(prior) =>
      Stored(prior.cols + row.cols, prior.attributes + Attributes(row),
             if RoleChanged(prior, row) then None else prior.link)
  }

  function Lookup(t: Table, k: Key): Option<Stored> {
    if k in t then Some(t[k]) else None
  }

  /** All rows of u written, each to its own key. */
  function Apply(t: Table, u: map<Key, Row>): Table {
    map k | k in t.Keys + u.Keys :: if k in u then Put(Lookup(t, k), u[k]) else t[k]
  }

  function UniqueOf(raws: seq<Row>): (u: map<Key, Row>)
    ensures forall k :: k in u ==> u[k].key == k
  {
    if raws == [] then map[]
    else Include(UniqueOf(raws[..|raws| - 1]), Clean(raws[|raws| - 1]))
  }

  function Include(u: map<Key, Row>, row: Row): map<Key, Row> {
    u[row.key := if row.key in u then Overlay(u[row.key], row) else row]
  }

  predicate AllWritable(u: map<Key, Row>) {
    forall k :: k in u ==> Writable(u[k])
  }

  // ----- writing rows one at a time

  /** Each row written by its own call; None once a call raises. */
  function OneAtATime(t: Table, raws: seq<Row>): Option<Table> {
    if raws == [] then Some(t)
    else
      var before := OneAtATime(t, raws[..|raws| - 1]);
      var row := Clean(raws[|raws| - 1]);
      if before.Some? && Writable(row) then Some(before.value[row.key := Put(Lookup(before.value, row.key), row)])
      else None
  }

  /** Same source columns; a link that a still has, b has too. */
  predicate KeepsAtLeast(a: Stored, b: Stored) {
    a.cols == b.cols && a.attributes == b.attributes && (a.link.Some? ==> b.link == a.link)
  }

  predicate TableKeepsAtLeast(a: Table, b: Table) {
    a.Keys == b.Keys && forall k :: k in a ==> KeepsAtLeast(a[k], b[k])
  }

  lemma PutKeepsAtLeast(a: Stored, b: Stored, row: Row)
    requires KeepsAtLeast(a, b)
    ensures KeepsAtLeast(Put(Some(a), row), Put(Some(b), row))
  {}

  /** Writing the overlay once loses no column and no link that two writes keep. */
  lemma PutOverlay(s: Option<Stored>, m: Row, row: Row)
    requires m.key == row.key
    ensures KeepsAtLeast(Put(Some(Put(s, m)), row), Put(s, Overlay(m, row)))
  {
    hide RoleChanged, HasValue;
    var o := Overlay(m, row);
    assert Attributes(o) == Attributes(m) + Attributes(row);
    match s
    case None =>
      assert Put(Some(Put(s, m)), row).cols == Put(s, o).cols;
    case Some(prior) =>
      assert (prior.cols + m.cols) + row.cols == prior.cols + o.cols;
      assert (prior.attributes + Attributes(m)) + Attributes(row) == prior.attributes + Attributes(o);
      UnchangedOverlay(prior.cols, m, row);
      RoleOfCols(Put(s, m), prior.cols + m.cols, row);
      RoleOfCols(prior, prior.cols, m);
      RoleOfCols(prior, prior.cols, o);
  }

  predicate SomeDiffer(prior: map<Column, Json>, row: Row) {
    exists c :: c in PERFORMANCE && Differs(prior, row, c)
  }

  lemma RoleOfCols(s: Stored, cols: map<Column, Json>, row: Row)
    requires s.cols == cols
    ensures RoleChanged(s, row) == SomeDiffer(cols, row)
  {}

  /** If neither row changes the performance, their overlay does not. */
  lemma UnchangedOverlay(prior: map<Column, Json>, m: Row, row: Row)
    ensures !SomeDiffer(prior, m) && !SomeDiffer(prior + m.cols, row) ==> !SomeDiffer(prior, Overlay(m, row))
  {
    if !SomeDiffer(prior, m) && !SomeDiffer(prior + m.cols, row) {
      forall c | c in PERFORMANCE
        ensures !Differs(prior, Overlay(m, row), c)
      {
        assert !Differs(prior, m, c) && !Differs(prior + m.cols, row, c);
      }
    }
  }

  lemma KeepsTransitive(a: Stored, b: Stored, c: Stored)
    requires KeepsAtLeast(a, b) && KeepsAtLeast(b, c)
    ensures KeepsAtLeast(a, c)
  {}

  /** The heart of the batch writer: one merged write per key does what the separate writes do. */
  lemma {:induction false} BatchRefinesOneAtATime(t: Table, raws: seq<Row>)
    requires OneAtATime(t, raws).Some?
    ensures AllWritable(UniqueOf(raws))
    ensures TableKeepsAtLeast(OneAtATime(t, raws).value, Apply(t, UniqueOf(raws)))
  {
    if raws == [] {
      assert Apply(t, map[]) == t;
    } else {
      var init := raws[..|raws| - 1];
      BatchRefinesOneAtATime(t, init);
      var row := Clean(raws[|raws| - 1]);
      var before, u := OneAtATime(t, init).value, UniqueOf(init);
      ExtendBatch(t, before, u, row);
    }
  }

  lemma ExtendAtKey(t: Table, before: Table, u: map<Key, Row>, row: Row)
    requires TableKeepsAtLeast(before, Apply(t, u))
    requires forall k :: k in u ==> u[k].key == k
    ensures KeepsAtLeast(Put(Lookup(before, row.key), row), Put(Lookup(t, row.key), Include(u, row)[row.key]))
  {
    hide Put, KeepsAtLeast, Overlay;
    var k := row.key;
    var batch := Apply(t, u);
    if k in before {
      PutKeepsAtLeast(before[k], batch[k], row);
      if k in u {
        PutOverlay(Lookup(t, k), u[k], row);
        KeepsTransitive(Put(Lookup(before, k), row), Put(Some(batch[k]), row), Put(Lookup(t, k), Overlay(u[k], row)));
      }
    } else {
      KeepsReflexive(Put(None, row));
    }
  }

  lemma KeepsReflexive(a: Stored)
    ensures KeepsAtLeast(a, a)
  {}

  lemma ExtendBatch(t: Table, before: Table, u: map<Key, Row>, row: Row)
    requires TableKeepsAtLeast(before, Apply(t, u)) && AllWritable(u) && Writable(row)
    requires forall k :: k in u ==> u[k].key == k
    ensures AllWritable(Include(u, row))
    ensures TableKeepsAtLeast(before[row.key := Put(Lookup(before, row.key), row)], Apply(t, Include(u, row)))
  {
    hide Put, KeepsAtLeast;
    ExtendAtKey(t, before, u, row);
    var after := before[row.key := Put(Lookup(before, row.key), row)];
    var batch := Apply(t, Include(u, row));
    assert after.Keys == batch.Keys;
    forall k | k in after && k != row.key
      ensures KeepsAtLeast(after[k], batch[k])
    {
      assert after[k] == before[k] && batch[k] == Apply(t, u)[k];
    }
  }

  /** The reverse failure: a batch can only be rejected when some separate write would be too. */
  lemma RejectedBatchWasRejectedAlone(t: Table, raws: seq<Row>)
    requires !AllWritable(UniqueOf(raws))
    ensures OneAtATime(t, raws).None?
  {
    if OneAtATime(t, raws).Some? {
      BatchRefinesOneAtATime(t, raws);
    }
  }

  // ----- facts about one batch

  /** A link survives a batch exactly when performer, job and role end as they began. */
  lemma LinkSurvives(t: Table, u: map<Key, Row>, k: Key)
    requires k in t && t[k].link.Some?
    ensures Apply(t, u)[k].link == t[k].link
        <==> forall c :: c in PERFORMANCE ==> Cell(Apply(t, u)[k], c) == Cell(t[k], c)
  {
    if k in u {
      var prior, row := t[k], u[k];
      assert Apply(t, u)[k] == Put(Some(prior), row);
      forall c | c in PERFORMANCE
        ensures Differs(prior.cols, row, c) <==> Cell(Apply(t, u)[k], c) != Cell(prior, c)
      {}
      if !RoleChanged(prior, row) {
        assert forall c :: c in PERFORMANCE ==> !Differs(prior.cols, row, c);
      }
    }
  }

  function Cell(s: Stored, c: Column): Option<Json> {
    if c in s.cols then Some(s.cols[c]) else None
  }

  lemma PutTwice(s: Option<Stored>, row: Row)
    ensures Put(Some(Put(s, row)), row) == Put(s, row)
  {
    var once := Put(s, row);
    assert once.cols + row.cols == once.cols;
    assert once.attributes + Attributes(row) == once.attributes;
    assert forall c :: !Differs(once.cols, row, c);
  }

  /** Writing the same batch again changes nothing. */
  lemma ApplyTwice(t: Table, u: map<Key, Row>)
    ensures Apply(Apply(t, u), u) == Apply(t, u)
  {
    forall k | k in u
      ensures Apply(Apply(t, u), u)[k] == Apply(t, u)[k]
    {
      PutTwice(Lookup(t, k), u[k]);
    }
  }

  function Only(u: map<Key, Row>, keys: set<Key>): map<Key, Row> {
    map k | k in u && k in keys :: u[k]
  }

  /** Disjoint parts of a batch commute: any grouping and chunking gives the same table. */
  lemma ApplyInParts(t: Table, u: map<Key, Row>, a: set<Key>, b: set<Key>)
    requires a !! b
    ensures Apply(Apply(t, Only(u, a)), Only(u, b)) == Apply(t, Only(u, a + b))
  {
    hide Put;
    var x, y, z := Apply(t, Only(u, a)), Apply(Apply(t, Only(u, a)), Only(u, b)), Apply(t, Only(u, a + b));
    assert y.Keys == z.Keys;
    forall k | k in z
      ensures y[k] == z[k]
    {
      if k in u && k in b {
        assert Lookup(x, k) == Lookup(t, k);
      } else if k in u && k in a {
        assert y[k] == x[k];
      }
    }
  }

  /** A batch changes the table as soon as one of its parts does: no part undoes another. */
  lemma ChangeInParts(t: Table, u: map<Key, Row>, a: set<Key>, b: set<Key>)
    requires a !! b
    ensures var x := Apply(t, Only(u, a));
            Apply(t, Only(u, a + b)) != t <==> x != t || Apply(x, Only(u, b)) != x
  {
    hide Put;
    ApplyInParts(t, u, a, b);
    var x, z := Apply(t, Only(u, a)), Apply(t, Only(u, a + b));
    if x != t {
      if x.Keys == t.Keys {
        var k :| k in t && x[k] != t[k];
        assert k in Only(u, a) && k !in Only(u, b);
        assert z[k] == x[k];
      } else {
        assert t.Keys <= x.Keys <= z.Keys;
      }
    }
  }

  // ----- when separate writes keep a link

  /** Some row for k names another performer, job or role than the stored one. */
  ghost predicate Disturbed(prior: map<Column, Json>, raws: seq<Row>, k: Key) {
    exists i :: 0 <= i < |raws| && raws[i].key == k && SomeDiffer(prior, Clean(raws[i]))
  }

  predicate SamePerformance(a: map<Column, Json>, b: map<Column, Json>) {
    forall c :: c in PERFORMANCE ==> (c in a <==> c in b) && (c in a ==> a[c] == b[c])
  }

  lemma SameDiffer(a: map<Column, Json>, b: map<Column, Json>, row: Row)
    requires SamePerformance(a, b)
    ensures SomeDiffer(a, row) == SomeDiffer(b, row)
    ensures !SomeDiffer(a, row) ==> SamePerformance(a + row.cols, b)
  {
    assert forall c :: c in PERFORMANCE ==> Differs(a, row, c) == Differs(b, row, c);
  }

  lemma DisturbedSnoc(prior: map<Column, Json>, raws: seq<Row>, k: Key)
    requires raws != []
    ensures var last := raws[|raws| - 1];
            Disturbed(prior, raws, k) <==>
            Disturbed(prior, raws[..|raws| - 1], k) || (last.key == k && SomeDiffer(prior, Clean(last)))
  {
    hide SomeDiffer, Clean;
    var init := raws[..|raws| - 1];
    if Disturbed(prior, init, k) {
      var i :| 0 <= i < |init| && init[i].key == k && SomeDiffer(prior, Clean(init[i]));
      assert raws[i] == init[i];
    }
    if Disturbed(prior, raws, k) {
      var i :| 0 <= i < |raws| && raws[i].key == k && SomeDiffer(prior, Clean(raws[i]));
      assert i < |init| ==> init[i] == raws[i];
    }
  }

  /** The stored credit after any separate writes: unlinked once disturbed, and else of the same performance. */
  ghost predicate SeparateLink(prior: Stored, now: Stored, disturbed: bool) {
    if disturbed then now.link.None? else now.link == prior.link && SamePerformance(now.cols, prior.cols)
  }

  lemma SeparateStep(prior: Stored, now: Stored, disturbed: bool, row: Row)
    requires SeparateLink(prior, now, disturbed)
    ensures SeparateLink(prior, Put(Some(now), row), disturbed || SomeDiffer(prior.cols, row))
  {
    hide SomeDiffer, SamePerformance, RoleChanged;
    RoleOfCols(now, now.cols, row);
    if !disturbed {
      SameDiffer(now.cols, prior.cols, row);
    }
  }

  /** Separate writes drop a link exactly when some row of its key differs from the stored performance. */
  lemma {:induction false} SeparateLinkLost(t: Table, raws: seq<Row>, k: Key)
    requires k in t && t[k].link.Some? && OneAtATime(t, raws).Some?
    ensures k in OneAtATime(t, raws).value
    ensures SeparateLink(t[k], OneAtATime(t, raws).value[k], Disturbed(t[k].cols, raws, k))
    ensures OneAtATime(t, raws).value[k].link.None? <==> Disturbed(t[k].cols, raws, k)
  {
    hide Put, SomeDiffer, Disturbed;
    if raws == [] {
      NothingDisturbed(t[k].cols, k);
    } else {
      var init, last := raws[..|raws| - 1], raws[|raws| - 1];
      SeparateLinkLost(t, init, k);
      DisturbedSnoc(t[k].cols, raws, k);
      assert Clean(last).key == last.key;
      if last.key == k {
        SeparateStep(t[k], OneAtATime(t, init).value[k], Disturbed(t[k].cols, init, k), Clean(last));
      }
    }
  }

  lemma NothingDisturbed(prior: map<Column, Json>, k: Key)
    ensures !Disturbed(prior, [], k)
  {}

  /** Neither way of writing makes a link. */
  lemma {:induction false} NoLinkArises(t: Table, raws: seq<Row>, k: Key)
    requires OneAtATime(t, raws).Some? && !(k in t && t[k].link.Some?)
    ensures k in OneAtATime(t, raws).value ==> OneAtATime(t, raws).value[k].link.None?
    ensures k in Apply(t, UniqueOf(raws)) ==> Apply(t, UniqueOf(raws))[k].link.None?
  {
    hide Clean, Include;
    if raws != [] {
      NoLinkArises(t, raws[..|raws| - 1], k);
    }
  }

  /** The rows of k change the stored performance on the way, but not all of them together. */
  ghost predicate Detour(t: Table, raws: seq<Row>, k: Key) {
    && k in t && t[k].link.Some? && Disturbed(t[k].cols, raws, k)
    && !(k in UniqueOf(raws) && SomeDiffer(t[k].cols, UniqueOf(raws)[k]))
  }

  /** The batch leaves exactly what separate writes leave, links included, when no linked credit makes a detour. */
  lemma BatchEqualsOneAtATime(t: Table, raws: seq<Row>)
    requires OneAtATime(t, raws).Some?
    ensures Apply(t, UniqueOf(raws)) == OneAtATime(t, raws).value <==> forall k :: k in t ==> !Detour(t, raws, k)
  {
    hide OneAtATime, Apply, UniqueOf, Disturbed, SomeDiffer;
    var alone, batch := OneAtATime(t, raws).value, Apply(t, UniqueOf(raws));
    BatchRefinesOneAtATime(t, raws);
    forall k | k in alone
      ensures alone[k] == batch[k] <==> !Detour(t, raws, k)
    {
      LinksAgree(t, raws, k);
    }
    forall k | k in t && Detour(t, raws, k)
      ensures k in alone
    {
      SeparateLinkLost(t, raws, k);
    }
    if forall k :: k in t ==> !Detour(t, raws, k) {
      assert forall k :: k in alone ==> alone[k] == batch[k];
    }
  }

  lemma LinksAgree(t: Table, raws: seq<Row>, k: Key)
    requires OneAtATime(t, raws).Some? && k in OneAtATime(t, raws).value
    requires TableKeepsAtLeast(OneAtATime(t, raws).value, Apply(t, UniqueOf(raws)))
    ensures OneAtATime(t, raws).value[k] == Apply(t, UniqueOf(raws))[k] <==> !Detour(t, raws, k)
  {
    hide OneAtATime, UniqueOf, Disturbed, SomeDiffer, RoleChanged;
    if k in t && t[k].link.Some? {
      SeparateLinkLost(t, raws, k);
      if k in UniqueOf(raws) {
        RoleOfCols(t[k], t[k].cols, UniqueOf(raws)[k]);
      }
    } else {
      NoLinkArises(t, raws, k);
    }
  }

  function CastAs(k: Key, role: string): Row {
    Row(k, map[ContributorId := Number(1.0), Role := Text(role)], None)
  }

  /** The converse fails: a role changed and restored within a batch keeps the link that separate writes lose. */
  lemma BatchMayKeepALink(k: Key)
    ensures var t: Table := map[k := Stored(CastAs(k, "actor").cols, map[], Some(5))];
            var raws := [CastAs(k, "director"), CastAs(k, "actor")];
            OneAtATime(t, raws).Some? && k in OneAtATime(t, raws).value && OneAtATime(t, raws).value[k].link == None
            && k in Apply(t, UniqueOf(raws)) && Apply(t, UniqueOf(raws))[k].link == Some(5)
  {
    var stored := Stored(CastAs(k, "actor").cols, map[], Some(5));
    var t: Table := map[k := stored];
    var first, second := CastAs(k, "director"), CastAs(k, "actor");
    var raws := [first, second];
    assert raws[..1] == [first] && raws[..1][..0] == [] && raws[1] == second;
    assert Clean(first) == first && Clean(second) == second by {
      assert Clean(first).cols == first.cols && Clean(second).cols == second.cols;
    }
    assert OneAtATime(t, []) == Some(t) && UniqueOf([]) == map[];
    assert Differs(stored.cols, first, Role);
    assert RoleChanged(stored, first);
    assert OneAtATime(t, [first]) == Some(t[k := Put(Some(stored), first)]);
    assert UniqueOf(raws)[k] == Overlay(first, second);
    assert forall c :: c in PERFORMANCE ==> !Differs(stored.cols, Overlay(first, second), c);
  }
}
