/** What is in each merged work, said of the rows alone. */
module WorkContents {
  import opened TextOrder
  import opened JsonValue
  import opened WorkUnion

  /** Two rows of one type carry one TMDB number. */
  predicate SameNumber(a: Row, b: Row) {
    a.number.Some? && a.number == b.number && a.kind == b.kind
  }

  /** Row m is the first with row n's number; row n itself, if it has none. */
  predicate First(rows: seq<Row>, n: int, m: int) {
    && 0 <= m <= n < |rows|
    && (m == n || SameNumber(rows[m], rows[n]))
    && forall k :: 0 <= k < m ==> !SameNumber(rows[k], rows[n])
  }

  /** Row n goes to the work of this key: that of the first row with its number. */
  ghost predicate Belongs(rows: seq<Row>, n: int, key: string) {
    exists m :: First(rows, n, m) && rows[m].key == key
  }

  ghost predicate GivesRole(rows: seq<Row>, n: int, key: string, role: string) {
    Belongs(rows, n, key) && n < |rows| && role in rows[n].roles
  }

  ghost predicate GivesCharacter(rows: seq<Row>, n: int, key: string, name: string) {
    Belongs(rows, n, key) && n < |rows| && name in rows[n].characters
  }

  /** Row n is the first of the work's rows that has the fact, and has it so. */
  ghost predicate GivesFact(rows: seq<Row>, n: int, key: string, fact: Fact, value: string) {
    && Belongs(rows, n, key) && 0 <= n < |rows| && fact in rows[n].facts && rows[n].facts[fact] == value
    && forall m :: 0 <= m < n && Belongs(rows, m, key) ==> fact !in rows[m].facts
  }

  ghost predicate GivesField(rows: seq<Row>, n: int, key: string, name: string, value: Json) {
    && Belongs(rows, n, key) && 0 <= n < |rows| && name in rows[n].metadata && rows[n].metadata[name] == value
    && forall m :: 0 <= m < n && Belongs(rows, m, key) ==> name !in rows[m].metadata
  }

  /** Row n is the first of the work's rows, and gives it its key, type, number and title. */
  ghost predicate Opens(rows: seq<Row>, n: int, item: Row) {
    && Belongs(rows, n, item.key) && 0 <= n < |rows|
    && (forall m :: 0 <= m < n ==> !Belongs(rows, m, item.key))
    && item.key == rows[n].key && item.kind == rows[n].kind && item.number == rows[n].number
    && item.title == rows[n].title
  }

  /** Everything its rows have is in the work. */
  ghost predicate HasAll(rows: seq<Row>, item: Row) {
    forall n :: 0 <= n < |rows| && Belongs(rows, n, item.key) ==>
      && rows[n].roles <= item.roles && rows[n].characters <= item.characters
      && rows[n].facts.Keys <= item.facts.Keys && rows[n].metadata.Keys <= item.metadata.Keys
  }

  /**
   A work has the roles and characters of its rows and no others, and each fact and metadata field as the first of its
   rows that has it.
   */
  ghost predicate Gathers(rows: seq<Row>, item: Row) {
    && HasAll(rows, item)
    && (forall role :: role in item.roles ==> exists n :: GivesRole(rows, n, item.key, role))
    && (forall name :: name in item.characters ==> exists n :: GivesCharacter(rows, n, item.key, name))
    && (forall fact :: fact in item.facts ==> exists n :: GivesFact(rows, n, item.key, fact, item.facts[fact]))
    && (forall name :: name in item.metadata ==> exists n :: GivesField(rows, n, item.key, name, item.metadata[name]))
    && exists n :: Opens(rows, n, item)
  }

  // ----- one row more

  lemma FirstLonger(rows: seq<Row>, row: Row, n: int, m: int)
    requires n < |rows|
    ensures First(rows + [row], n, m) <==> First(rows, n, m)
  {
    var all := rows + [row];
    assert forall k :: 0 <= k < |rows| ==> all[k] == rows[k];
    if First(rows, n, m) {
      assert forall k :: 0 <= k < m ==> !SameNumber(rows[k], rows[n]);
    }
    if First(all, n, m) {
      assert forall k :: 0 <= k < m ==> !SameNumber(all[k], all[n]);
    }
  }

  lemma BelongsLonger(rows: seq<Row>, row: Row, n: int, key: string)
    requires n < |rows|
    ensures Belongs(rows + [row], n, key) <==> Belongs(rows, n, key)
  {
    forall m
      ensures First(rows + [row], n, m) <==> First(rows, n, m)
    {
      FirstLonger(rows, row, n, m);
    }
  }

  /** What the rows give a work is not changed by a further row. */
  lemma GivesLonger(rows: seq<Row>, row: Row, key: string)
    ensures forall n, role :: GivesRole(rows, n, key, role) ==> GivesRole(rows + [row], n, key, role)
    ensures forall n, name :: GivesCharacter(rows, n, key, name) ==> GivesCharacter(rows + [row], n, key, name)
    ensures forall n, fact, value ::
      GivesFact(rows, n, key, fact, value) ==> GivesFact(rows + [row], n, key, fact, value)
    ensures forall n, name, value ::
      GivesField(rows, n, key, name, value) ==> GivesField(rows + [row], n, key, name, value)
    ensures forall n, item :: Opens(rows, n, item) && item.key == key ==> Opens(rows + [row], n, item)
  {
    forall n | n < |rows|
      ensures Belongs(rows + [row], n, key) <==> Belongs(rows, n, key)
    {
      BelongsLonger(rows, row, n, key);
    }
    hide Belongs;
  }

  /** A further row of another work. */
  lemma OthersStay(rows: seq<Row>, row: Row, item: Row)
    requires Gathers(rows, item) && !Belongs(rows + [row], |rows|, item.key)
    ensures Gathers(rows + [row], item)
  {
    GivesLonger(rows, row, item.key);
    forall n | n < |rows|
      ensures Belongs(rows + [row], n, item.key) <==> Belongs(rows, n, item.key)
    {
      BelongsLonger(rows, row, n, item.key);
    }
    hide Belongs, GivesRole, GivesCharacter, GivesFact, GivesField, Opens;
  }

  /** Row |rows| is one more row of the item's work. */
  ghost predicate OneMore(rows: seq<Row>, row: Row, item: Row) {
    Gathers(rows, item) && Belongs(rows + [row], |rows|, item.key)
  }

  lemma BelongsBefore(rows: seq<Row>, row: Row, key: string)
    ensures forall m :: m < |rows| ==> (Belongs(rows + [row], m, key) <==> Belongs(rows, m, key))
  {
    forall m | m < |rows|
      ensures Belongs(rows + [row], m, key) <==> Belongs(rows, m, key)
    {
      BelongsLonger(rows, row, m, key);
    }
  }

  lemma AbsorbedPeople(rows: seq<Row>, row: Row, item: Row)
    requires OneMore(rows, row, item)
    ensures forall role :: role in Absorb(item, row).roles ==> exists n :: GivesRole(rows + [row], n, item.key, role)
    ensures forall name :: name in Absorb(item, row).characters ==>
      exists n :: GivesCharacter(rows + [row], n, item.key, name)
  {
    var all, n := rows + [row], |rows|;
    GivesLonger(rows, row, item.key);
    hide Belongs;
    assert all[n] == row;
    assert forall role :: role in row.roles ==> GivesRole(all, n, item.key, role);
    assert forall name :: name in row.characters ==> GivesCharacter(all, n, item.key, name);
    hide GivesRole, GivesCharacter, GivesFact, GivesField, Opens, HasAll;
  }

  lemma KeepsFact(rows: seq<Row>, row: Row, n: int, key: string, fact: Fact, value: string)
    requires GivesFact(rows, n, key, fact, value)
    ensures GivesFact(rows + [row], n, key, fact, value)
  {
    BelongsBefore(rows, row, key);
    hide Belongs;
    assert forall m :: 0 <= m <= n ==> (rows + [row])[m] == rows[m];
  }

  lemma NewFact(rows: seq<Row>, row: Row, item: Row, fact: Fact)
    requires HasAll(rows, item) && Belongs(rows + [row], |rows|, item.key)
    requires fact in row.facts && fact !in item.facts
    ensures GivesFact(rows + [row], |rows|, item.key, fact, row.facts[fact])
  {
    BelongsBefore(rows, row, item.key);
    hide Belongs;
    assert forall m :: 0 <= m < |rows| ==> (rows + [row])[m] == rows[m];
  }

  lemma AbsorbedFact(rows: seq<Row>, row: Row, item: Row, fact: Fact)
    requires OneMore(rows, row, item) && fact in Absorb(item, row).facts
    ensures exists n :: GivesFact(rows + [row], n, item.key, fact, Absorb(item, row).facts[fact])
  {
    hide Belongs, HasAll, GivesRole, GivesCharacter, GivesFact, GivesField, Opens;
    if fact in item.facts {
      var k :| GivesFact(rows, k, item.key, fact, item.facts[fact]);
      KeepsFact(rows, row, k, item.key, fact, item.facts[fact]);
    } else {
      NewFact(rows, row, item, fact);
    }
  }

  lemma KeepsField(rows: seq<Row>, row: Row, n: int, key: string, name: string, value: Json)
    requires GivesField(rows, n, key, name, value)
    ensures GivesField(rows + [row], n, key, name, value)
  {
    BelongsBefore(rows, row, key);
    hide Belongs;
    assert forall m :: 0 <= m <= n ==> (rows + [row])[m] == rows[m];
  }

  lemma NewField(rows: seq<Row>, row: Row, item: Row, name: string)
    requires HasAll(rows, item) && Belongs(rows + [row], |rows|, item.key)
    requires name in row.metadata && name !in item.metadata
    ensures GivesField(rows + [row], |rows|, item.key, name, row.metadata[name])
  {
    BelongsBefore(rows, row, item.key);
    hide Belongs;
    assert forall m :: 0 <= m < |rows| ==> (rows + [row])[m] == rows[m];
  }

  lemma AbsorbedField(rows: seq<Row>, row: Row, item: Row, name: string)
    requires OneMore(rows, row, item) && name in Absorb(item, row).metadata
    ensures exists n :: GivesField(rows + [row], n, item.key, name, Absorb(item, row).metadata[name])
  {
    hide Belongs, HasAll, GivesRole, GivesCharacter, GivesFact, GivesField, Opens;
    if name in item.metadata {
      var k :| GivesField(rows, k, item.key, name, item.metadata[name]);
      KeepsField(rows, row, k, item.key, name, item.metadata[name]);
    } else {
      NewField(rows, row, item, name);
    }
  }

  lemma AbsorbedAll(rows: seq<Row>, row: Row, item: Row)
    requires OneMore(rows, row, item)
    ensures HasAll(rows + [row], Absorb(item, row))
    ensures exists n :: Opens(rows + [row], n, Absorb(item, row))
  {
    BelongsBefore(rows, row, item.key);
    hide Belongs, GivesRole, GivesCharacter, GivesFact, GivesField;
    var all, after := rows + [row], Absorb(item, row);
    var k :| Opens(rows, k, item);
    assert all[k] == rows[k] && Opens(all, k, after);
    hide Opens;
    forall n | 0 <= n < |all| && Belongs(all, n, item.key)
      ensures all[n].roles <= after.roles && all[n].characters <= after.characters
      ensures all[n].facts.Keys <= after.facts.Keys && all[n].metadata.Keys <= after.metadata.Keys
    {
      if n < |rows| { assert all[n] == rows[n] && Belongs(rows, n, item.key); }
    }
  }

  /** A further row of this work. */
  lemma Absorbed(rows: seq<Row>, row: Row, item: Row)
    requires OneMore(rows, row, item)
    ensures Gathers(rows + [row], Absorb(item, row))
  {
    var after := Absorb(item, row);
    AbsorbedPeople(rows, row, item);
    AbsorbedAll(rows, row, item);
    forall fact | fact in after.facts
      ensures exists n :: GivesFact(rows + [row], n, item.key, fact, after.facts[fact])
    {
      AbsorbedFact(rows, row, item, fact);
    }
    forall name | name in after.metadata
      ensures exists n :: GivesField(rows + [row], n, item.key, name, after.metadata[name])
    {
      AbsorbedField(rows, row, item, name);
    }
    hide OneMore, GivesRole, GivesCharacter, GivesFact, GivesField, HasAll, Opens;
    assert after.key == item.key;
  }

  /** The first row of a work. */
  lemma Begun(rows: seq<Row>, row: Row)
    requires Belongs(rows + [row], |rows|, row.key)
    requires forall n :: 0 <= n < |rows| ==> !Belongs(rows, n, row.key)
    ensures Gathers(rows + [row], row)
  {
    var all, n := rows + [row], |rows|;
    forall m | m < n
      ensures Belongs(all, m, row.key) <==> Belongs(rows, m, row.key)
    {
      BelongsLonger(rows, row, m, row.key);
    }
    hide Belongs;
    assert all[n] == row;
    assert forall role :: role in row.roles ==> GivesRole(all, n, row.key, role);
    assert forall name :: name in row.characters ==> GivesCharacter(all, n, row.key, name);
    assert forall fact :: fact in row.facts ==> GivesFact(all, n, row.key, fact, row.facts[fact]);
    assert forall name :: name in row.metadata ==> GivesField(all, n, row.key, name, row.metadata[name]);
    assert Opens(all, n, row);
  }

  // ----- the whole list

  /** Every number leads to the key of the first row that carries it. */
  ghost predicate LedToFirst(rows: seq<Row>, aliases: map<External, string>) {
    && (forall n :: 0 <= n < |rows| && rows[n].number.Some? ==> (rows[n].kind, rows[n].number.value) in aliases)
    && (forall x :: x in aliases ==> exists n :: FirstWith(rows, n, x) && aliases[x] == rows[n].key)
  }

  predicate FirstWith(rows: seq<Row>, n: int, x: External) {
    && 0 <= n < |rows| && rows[n].kind == x.0 && rows[n].number == Some(x.1)
    && forall m :: 0 <= m < n ==> rows[m].kind != x.0 || rows[m].number != Some(x.1)
  }

  ghost predicate InSome(rows: seq<Row>, n: int, items: seq<Row>) {
    exists i :: 0 <= i < |items| && Belongs(rows, n, items[i].key)
  }

  ghost predicate EachInOne(rows: seq<Row>, items: seq<Row>) {
    forall n :: 0 <= n < |rows| ==> InSome(rows, n, items)
  }

  ghost predicate EachGathers(rows: seq<Row>, items: seq<Row>) {
    forall i :: 0 <= i < |items| ==> Gathers(rows, items[i])
  }

  /** A row goes to one work only. */
  lemma BelongsToOne(rows: seq<Row>, n: int, a: string, b: string)
    requires Belongs(rows, n, a) && Belongs(rows, n, b)
    ensures a == b
  {}

  /** The key a row is filed under is that of its work. */
  lemma HomeMeans(rows: seq<Row>, aliases: map<External, string>, row: Row)
    requires LedToFirst(rows, aliases)
    ensures Belongs(rows + [row], |rows|, Home(aliases, row))
    ensures LedToFirst(rows + [row],
                       if row.number.Some? then aliases[ExternalOf(row) := Home(aliases, row)] else aliases)
  {
    var all, n := rows + [row], |rows|;
    assert forall k :: 0 <= k < n ==> all[k] == rows[k];
    assert forall m, x :: FirstWith(rows, m, x) ==> FirstWith(all, m, x);
    if row.number.Some? && ExternalOf(row) in aliases {
      var m :| FirstWith(rows, m, ExternalOf(row)) && aliases[ExternalOf(row)] == rows[m].key;
      assert First(all, n, m);
    } else {
      forall k | 0 <= k < n
        ensures !SameNumber(all[k], row)
      {
        assert rows[k].number.Some? ==> (rows[k].kind, rows[k].number.value) in aliases;
      }
      assert First(all, n, n);
      assert row.number.Some? ==> FirstWith(all, n, ExternalOf(row));
    }
  }

  lemma {:induction false} WorksFromRows(rows: seq<Row>)
    ensures EachGathers(rows, Merged(rows).items) && EachInOne(rows, Merged(rows).items)
    ensures LedToFirst(rows, Merged(rows).aliases)
  {
    hide LedToFirst, EachGathers, EachInOne, Add;
    if rows == [] {
      NoWorks();
    } else {
      var n := |rows| - 1;
      WorksFromRows(rows[..n]);
      UnionIsSound(rows[..n]);
      assert rows == rows[..n] + [rows[n]];
      RowAdded(rows[..n], Merged(rows[..n]), rows[n]);
    }
  }

  lemma NoWorks()
    ensures EachGathers([], []) && EachInOne([], []) && LedToFirst([], map[])
  {}

  /** The works that the row does not go to. */
  lemma OthersGather(rows: seq<Row>, u: Union, row: Row, key: string, k: nat)
    requires EachGathers(rows, u.items) && k < |u.items| && u.items[k].key != key
    requires Belongs(rows + [row], |rows|, key)
    ensures Gathers(rows + [row], u.items[k])
  {
    hide Gathers, Belongs;
    if Belongs(rows + [row], |rows|, u.items[k].key) {
      BelongsToOne(rows + [row], |rows|, u.items[k].key, key);
    }
    OthersStay(rows, row, u.items[k]);
  }

  /** No row so far goes to a work that is not there. */
  lemma NoneYet(rows: seq<Row>, items: seq<Row>, key: string)
    requires EachInOne(rows, items) && forall i :: 0 <= i < |items| ==> items[i].key != key
    ensures forall n :: 0 <= n < |rows| ==> !Belongs(rows, n, key)
  {
    hide Belongs;
    forall n | 0 <= n < |rows|
      ensures !Belongs(rows, n, key)
    {
      assert InSome(rows, n, items);
      var k :| 0 <= k < |items| && Belongs(rows, n, items[k].key);
      if Belongs(rows, n, key) {
        BelongsToOne(rows, n, items[k].key, key);
      }
    }
  }

  lemma StayInSome(rows: seq<Row>, row: Row, items: seq<Row>, after: seq<Row>, i: nat)
    requires EachInOne(rows, items) && |items| <= |after| && i < |after|
    requires forall k :: 0 <= k < |items| ==> after[k].key == items[k].key
    requires Belongs(rows + [row], |rows|, after[i].key)
    ensures EachInOne(rows + [row], after)
  {
    hide Belongs;
    forall n | 0 <= n < |rows|
      ensures InSome(rows + [row], n, after)
    {
      assert InSome(rows, n, items);
      var k :| 0 <= k < |items| && Belongs(rows, n, items[k].key);
      BelongsLonger(rows, row, n, items[k].key);
      assert Belongs(rows + [row], n, after[k].key);
    }
  }

  lemma AddedGather(rows: seq<Row>, u: Union, row: Row, key: string)
    requires Sound(u) && EachGathers(rows, u.items) && EachInOne(rows, u.items)
    requires key == Home(u.aliases, row) && Belongs(rows + [row], |rows|, key)
    ensures EachGathers(rows + [row], Add(u, row).items)
  {
    HomeExists(u, row);
    var i := IndexOf(u.items, key);
    hide Home, IndexOf, Gathers, Belongs, EachInOne, Absorb;
    forall k | 0 <= k < |u.items| && i != Some(k)
      ensures Gathers(rows + [row], u.items[k])
    {
      OthersGather(rows, u, row, key, k);
    }
    hide Sound;
    if i.Some? {
      Absorbed(rows, row, u.items[i.value]);
    } else {
      NoneYet(rows, u.items, row.key);
      Begun(rows, row);
    }
  }

  lemma RowAdded(rows: seq<Row>, u: Union, row: Row)
    requires Sound(u) && EachGathers(rows, u.items) && EachInOne(rows, u.items) && LedToFirst(rows, u.aliases)
    ensures EachGathers(rows + [row], Add(u, row).items) && EachInOne(rows + [row], Add(u, row).items)
    ensures LedToFirst(rows + [row], Add(u, row).aliases)
  {
    var key := Home(u.aliases, row);
    HomeMeans(rows, u.aliases, row);
    HomeExists(u, row);
    AddedGather(rows, u, row, key);
    AbsorbKeeps();
    var i := IndexOf(u.items, key);
    hide Home, IndexOf, LedToFirst, EachGathers, Belongs, EachInOne, Absorb, Sound;
    StayInSome(rows, row, u.items, Add(u, row).items, if i.Some? then i.value else |u.items|);
  }
}
