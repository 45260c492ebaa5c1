/** Works from several sources made one list: a work is recognised by its own key or by the TMDB number of its type. */
module WorkUnion {
  import opened TextOrder
  import opened JsonValue

  datatype Fact = MediaId | Poster | Backdrop | ReleaseDate | Year

  type External = (string, int)

  /** A work as one source shows it; facts and metadata list what is there, and number is the TMDB number if any. */
  datatype Row = Row(key: string, kind: string, number: Option<int>, title: string,
                     roles: set<string>, characters: set<string>,
                     facts: map<Fact, string>, metadata: map<string, Json>)

  predicate HasExternal(r: Row) { r.number.Some? }

  function ExternalOf(r: Row): External
    requires HasExternal(r)
  {
    (r.kind, r.number.value)
  }

  datatype Union = Union(items: seq<Row>, aliases: map<External, string>)

  const NOTHING := Union([], map[])

  /** Roles and characters add up; of the rest, what is known already stays. */
  function Absorb(item: Row, row: Row): Row {
    item.(roles := item.roles + row.roles, characters := item.characters + row.characters,
          facts := row.facts + item.facts, metadata := row.metadata + item.metadata)
  }

  function Home(aliases: map<External, string>, row: Row): string {
    if HasExternal(row) && ExternalOf(row) in aliases then aliases[ExternalOf(row)] else row.key
  }

  function IndexOf(items: seq<Row>, key: string): (r: Option<nat>)
    ensures r.Some? ==> r.value < |items| && items[r.value].key == key
    ensures r.None? ==> forall i :: 0 <= i < |items| ==> items[i].key != key
  {
    if items == [] then None
    else if items[|items| - 1].key == key then Some(|items| - 1)
    else IndexOf(items[..|items| - 1], key)
  }

  function Add(u: Union, row: Row): Union {
    var key := Home(u.aliases, row);
    var i := IndexOf(u.items, key);
    Union(if i.Some? then u.items[i.value := Absorb(u.items[i.value], row)] else u.items + [row],
          if HasExternal(row) then u.aliases[ExternalOf(row) := key] else u.aliases)
  }

  function Merged(rows: seq<Row>): Union {
    if rows == [] then NOTHING else Add(Merged(rows[..|rows| - 1]), rows[|rows| - 1])
  }

  /** Row by row; a new work starts without roles and characters and then absorbs its own row. */
  method MergeWorks(rows: seq<Row>) returns (items: seq<Row>)
    ensures items == Merged(rows).items
  {
    hide Absorb, Home, IndexOf, Sound, Add;
    items := [];
    var aliases: map<External, string> := map[];
    for n := 0 to |rows|
      invariant Union(items, aliases) == Merged(rows[..n])
    {
      assert rows[..n + 1][..n] == rows[..n];
      var row := rows[n];
      var key := Home(aliases, row);
      var i := IndexOf(items, key);
      UnionIsSound(rows[..n]);
      AddInSteps(Union(items, aliases), row);
      if i.None? {
        items := items + [row.(key := key, roles := {}, characters := {})];
        i := Some(|items| - 1);
      }
      if HasExternal(row) {
        aliases := aliases[ExternalOf(row) := key];
      }
      items := items[i.value := Absorb(items[i.value], row)];
    }
    assert rows[..|rows|] == rows;
  }

  lemma FreshAbsorbs(row: Row)
    ensures Absorb(row.(roles := {}, characters := {}), row) == row
  {
    assert row.facts + row.facts == row.facts && row.metadata + row.metadata == row.metadata;
  }

  /** A new work absorbs its own row and is then that row. */
  lemma AddInSteps(u: Union, row: Row)
    requires Sound(u)
    ensures var key, i := Home(u.aliases, row), IndexOf(u.items, Home(u.aliases, row));
            var started := u.items + [row.(key := key, roles := {}, characters := {})];
            Add(u, row) == Union(if i.Some? then u.items[i.value := Absorb(u.items[i.value], row)]
                                 else started[|u.items| := Absorb(started[|u.items|], row)],
                                 if HasExternal(row) then u.aliases[ExternalOf(row) := key] else u.aliases)
  {
    hide Absorb, IndexOf;
    HomeExists(u, row);
    FreshAbsorbs(row);
  }

  // ----- What the union keeps

  /** Keys are distinct, every alias leads to an item, and an item's own number leads to it. */
  ghost predicate Sound(u: Union) {
    (forall i, j :: 0 <= i < j < |u.items| ==> u.items[i].key != u.items[j].key)
    && (forall x :: x in u.aliases ==> IndexOf(u.items, u.aliases[x]).Some?)
    && forall i :: 0 <= i < |u.items| && HasExternal(u.items[i]) ==>
         ExternalOf(u.items[i]) in u.aliases && u.aliases[ExternalOf(u.items[i])] == u.items[i].key
  }

  /** A work that is not in the list yet has no alias either: it goes by its own key. */
  lemma HomeExists(u: Union, row: Row)
    requires Sound(u)
    ensures IndexOf(u.items, Home(u.aliases, row)).None? ==> Home(u.aliases, row) == row.key
  {}

  lemma IndexOfKey(items: seq<Row>, i: nat)
    requires i < |items|
    ensures IndexOf(items, items[i].key).Some?
  {}

  lemma AbsorbKeeps()
    ensures forall item, row :: Absorb(item, row).key == item.key && Absorb(item, row).kind == item.kind
                                && Absorb(item, row).number == item.number
  {}

  lemma AddKeepsSound(u: Union, row: Row)
    requires Sound(u)
    ensures Sound(Add(u, row))
  {
    hide IndexOf, Absorb;
    HomeExists(u, row);
    AbsorbKeeps();
    var v := Add(u, row);
    forall x | x in v.aliases
      ensures IndexOf(v.items, v.aliases[x]).Some?
    {
      var k := IndexOf(u.items, v.aliases[x]);
      if k.Some? {
        assert v.items[k.value].key == u.items[k.value].key;
        IndexOfKey(v.items, k.value);
      } else {
        IndexOfKey(v.items, |v.items| - 1);
      }
    }
  }

  lemma {:induction false} UnionIsSound(rows: seq<Row>)
    ensures Sound(Merged(rows))
  {
    if rows != [] {
      UnionIsSound(rows[..|rows| - 1]);
      AddKeepsSound(Merged(rows[..|rows| - 1]), rows[|rows| - 1]);
    }
  }

  /** No two works of the list have one key, nor one TMDB number and type. */
  lemma WorksAreDistinct(rows: seq<Row>)
    ensures var items := Merged(rows).items;
            DistinctWorks(items)
  {
    UnionIsSound(rows);
  }

  predicate SameWork(a: Row, b: Row) {
    HasExternal(a) && HasExternal(b) && ExternalOf(a) == ExternalOf(b)
  }

  /** Everything the row says is in the item, unless the item knew better. */
  predicate Holds(item: Row, row: Row) {
    row.roles <= item.roles && row.characters <= item.characters
    && row.facts.Keys <= item.facts.Keys && row.metadata.Keys <= item.metadata.Keys
  }

  ghost predicate Housed(u: Union, row: Row, i: nat) {
    i < |u.items| && Holds(u.items[i], row)
    && (HasExternal(row) ==> ExternalOf(row) in u.aliases && u.aliases[ExternalOf(row)] == u.items[i].key)
  }

  lemma AddHouses(u: Union, row: Row) returns (i: nat)
    requires Sound(u)
    ensures Housed(Add(u, row), row, i)
  {
    var k := IndexOf(u.items, Home(u.aliases, row));
    i := if k.Some? then k.value else |u.items|;
    HomeExists(u, row);
  }

  lemma StaysHoused(u: Union, row: Row, i: nat, next: Row)
    requires Sound(u) && Housed(u, row, i)
    ensures Housed(Add(u, next), row, i)
  {
    assert Add(u, next).items[i].key == u.items[i].key;
  }

  /** Every job and character of every row is kept, in the one work its number leads to. */
  lemma {:induction false} NothingLost(rows: seq<Row>, n: nat)
    requires n < |rows|
    ensures exists i: nat :: Housed(Merged(rows), rows[n], i)
  {
    var last := |rows| - 1;
    var before := Merged(rows[..last]);
    UnionIsSound(rows[..last]);
    if n == last {
      var i := AddHouses(before, rows[last]);
      assert Housed(Merged(rows), rows[n], i);
    } else {
      NothingLost(rows[..last], n);
      var i: nat :| Housed(before, rows[..last][n], i);
      StaysHoused(before, rows[n], i, rows[last]);
      assert Housed(Merged(rows), rows[n], i);
    }
  }

  /** Rows with one TMDB number of one type end up in one work. */
  lemma OneWorkPerNumber(rows: seq<Row>, m: nat, n: nat)
    requires m < |rows| && n < |rows| && SameWork(rows[m], rows[n])
    ensures exists i: nat :: Housed(Merged(rows), rows[m], i) && Housed(Merged(rows), rows[n], i)
  {
    NothingLost(rows, m);
    NothingLost(rows, n);
    UnionIsSound(rows);
    var i: nat :| Housed(Merged(rows), rows[m], i);
    var j: nat :| Housed(Merged(rows), rows[n], j);
    assert i == j;
  }

  /** A row adds its own roles, to one work. */
  lemma AddedRoles(u: Union, row: Row, i: nat, role: string)
    requires i < |Add(u, row).items| && role in Add(u, row).items[i].roles
    ensures role in row.roles || (i < |u.items| && role in u.items[i].roles)
  {
    hide IndexOf, Home;
  }

  /** No role is made up: it comes from some row. */
  lemma {:induction false} NothingInvented(rows: seq<Row>, i: nat, role: string)
    requires i < |Merged(rows).items| && role in Merged(rows).items[i].roles
    ensures exists n :: 0 <= n < |rows| && role in rows[n].roles
  {
    hide Add;
    var last := |rows| - 1;
    AddedRoles(Merged(rows[..last]), rows[last], i, role);
    if role !in rows[last].roles {
      NothingInvented(rows[..last], i, role);
      var n :| 0 <= n < last && role in rows[..last][n].roles;
      assert role in rows[n].roles;
    }
  }

  ghost predicate DistinctWorks(items: seq<Row>) {
    forall i, j :: 0 <= i < j < |items| ==> items[i].key != items[j].key && !SameWork(items[i], items[j])
  }

  /** Every alias is some item's own number. */
  ghost predicate OwnAliases(items: seq<Row>, aliases: map<External, string>) {
    forall x :: x in aliases ==> exists i :: 0 <= i < |items| && HasExternal(items[i]) && ExternalOf(items[i]) == x
  }

  lemma DistinctNext(items: seq<Row>, aliases: map<External, string>, row: Row)
    requires DistinctWorks(items + [row]) && OwnAliases(items, aliases)
    ensures Home(aliases, row) == row.key && IndexOf(items, row.key).None?
    ensures Add(Union(items, aliases), row).items == items + [row]
    ensures OwnAliases(items + [row], Add(Union(items, aliases), row).aliases)
  {
    hide IndexOf, Absorb;
    var all := items + [row];
    var n := |items|;
    forall i | 0 <= i < n
      ensures items[i].key != row.key && !SameWork(items[i], row)
    {
      assert all[i] == items[i] && all[n] == row;
    }
    var after := Add(Union(items, aliases), row).aliases;
    forall x | x in after
      ensures exists i :: 0 <= i < |all| && HasExternal(all[i]) && ExternalOf(all[i]) == x
    {
      if x in aliases {
        var i :| 0 <= i < |items| && HasExternal(items[i]) && ExternalOf(items[i]) == x;
        assert all[i] == items[i];
      } else {
        assert all[n] == row;
      }
    }
  }

  /** A list of distinct works is left as it is; so merging twice is merging once. */
  lemma {:induction false} DistinctStay(items: seq<Row>)
    requires DistinctWorks(items)
    ensures Merged(items).items == items && OwnAliases(items, Merged(items).aliases)
  {
    hide DistinctWorks, OwnAliases, Add;
    if items != [] {
      var n := |items| - 1;
      DistinctPrefix(items, n);
      DistinctStay(items[..n]);
      assert items == items[..n] + [items[n]];
      var u := Merged(items[..n]);
      assert u == Union(items[..n], u.aliases);
      DistinctNext(items[..n], u.aliases, items[n]);
    } else {
      NoAliases();
    }
  }

  lemma DistinctPrefix(items: seq<Row>, n: nat)
    requires DistinctWorks(items) && n <= |items|
    ensures DistinctWorks(items[..n])
  {}

  lemma NoAliases()
    ensures OwnAliases([], map[])
  {}

  lemma MergingTwice(rows: seq<Row>)
    ensures Merged(Merged(rows).items).items == Merged(rows).items
  {
    WorksAreDistinct(rows);
    DistinctStay(Merged(rows).items);
  }
}
