/** The batch credit writer: merge duplicates, group by column set, write in chunks of 200. */
module CreditBatch {
  import opened TextOrder
  import opened CreditRows
  import opened CreditValues

  const BATCH_SIZE := 200

  type Columns = (set<Column>, bool)

  function ColumnsOf(row: Row): Columns {
    (row.cols.Keys, row.attributes.Some?)
  }

  function KeysOf(rows: seq<Row>): set<Key> {
    set i | 0 <= i < |rows| :: rows[i].key
  }

  predicate DistinctKeys(rows: seq<Row>) {
    forall i, j :: 0 <= i < j < |rows| ==> rows[i].key != rows[j].key
  }

  /** Rows of u, each once, all with the same columns. */
  ghost predicate GroupOf(u: map<Key, Row>, name: Columns, rows: seq<Row>) {
    && DistinctKeys(rows)
    && forall i :: 0 <= i < |rows| ==> rows[i].key in u && u[rows[i].key] == rows[i] && ColumnsOf(rows[i]) == name
  }

  /** The groups hold exactly the rows of the given keys. */
  ghost predicate Grouped(u: map<Key, Row>, keys: set<Key>, names: seq<Columns>, groups: map<Columns, seq<Row>>) {
    && (forall i, j :: 0 <= i < j < |names| ==> names[i] != names[j])
    && (forall name :: name in groups <==> name in names)
    && (forall name :: name in groups ==> GroupOf(u, name, groups[name]) && KeysOf(groups[name]) <= keys)
    && (forall k :: k in keys ==> k in u && ColumnsOf(u[k]) in groups && k in KeysOf(groups[ColumnsOf(u[k])]))
  }

  /** The rows grouped by column set; a dictionary keeps its keys in first-insertion order. */
  method GroupRows(u: map<Key, Row>, order: seq<Key>) returns (names: seq<Columns>, groups: map<Columns, seq<Row>>)
    requires forall k :: k in u <==> k in order
    requires forall k :: k in u ==> u[k].key == k
    requires forall i, j :: 0 <= i < j < |order| ==> order[i] != order[j]
    ensures Grouped(u, u.Keys, names, groups)
  {
    hide Grouped;
    names, groups := [], map[];
    ghost var keys: set<Key> := {};
    NothingGrouped(u);
    for n := 0 to |order|
      invariant forall k :: k in keys <==> k in order[..n]
      invariant Grouped(u, keys, names, groups)
    {
      var row := u[order[n]];
      var name := ColumnsOf(row);
      AddToGroup(u, keys, names, groups, row);
      if name in groups {
        groups := groups[name := groups[name] + [row]];
      } else {
        names := names + [name];
        groups := groups[name := [] + [row]];
      }
      keys := keys + {row.key};
    }
    assert keys == u.Keys;
  }

  lemma NothingGrouped(u: map<Key, Row>)
    ensures Grouped(u, {}, [], map[])
  {}

  lemma AddToGroup(u: map<Key, Row>, keys: set<Key>, names: seq<Columns>, groups: map<Columns, seq<Row>>, row: Row)
    requires Grouped(u, keys, names, groups) && row.key in u && u[row.key] == row && row.key !in keys
    ensures var name := ColumnsOf(row);
            Grouped(u, keys + {row.key}, if name in groups then names else names + [name],
                    groups[name := (if name in groups then groups[name] else []) + [row]])
  {
    hide KeysOf, GroupOf;
    var name := ColumnsOf(row);
    var group := if name in groups then groups[name] else [];
    if name !in groups {
      EmptyGroup(u, name);
    }
    LongerGroup(u, name, group, row);
  }

  lemma EmptyGroup(u: map<Key, Row>, name: Columns)
    ensures GroupOf(u, name, []) && KeysOf([]) == {}
  {}

  lemma LongerGroup(u: map<Key, Row>, name: Columns, group: seq<Row>, row: Row)
    requires GroupOf(u, name, group) && row.key in u && u[row.key] == row && ColumnsOf(row) == name
             && row.key !in KeysOf(group)
    ensures GroupOf(u, name, group + [row]) && KeysOf(group + [row]) == KeysOf(group) + {row.key}
  {
    var group' := group + [row];
    assert KeysOf(group') == KeysOf(group) + {row.key} by {
      assert group'[|group|] == row;
      assert forall i :: 0 <= i < |group| ==> group'[i] == group[i];
    }
    forall i | 0 <= i < |group|
      ensures group[i].key != row.key
    {
      assert group[i].key in KeysOf(group);
    }
  }

  /** Cleans the rows and merges the sparse duplicates of each key, in order of first appearance. */
  method MergeDuplicates(raws: seq<Row>) returns (unique: map<Key, Row>, order: seq<Key>)
    ensures unique == UniqueOf(raws)
    ensures forall k :: k in unique <==> k in order
    ensures forall i, j :: 0 <= i < j < |order| ==> order[i] != order[j]
  {
    unique, order := map[], [];
    for i := 0 to |raws|
      invariant unique == UniqueOf(raws[..i])
      invariant forall k :: k in unique <==> k in order
      invariant forall i, j :: 0 <= i < j < |order| ==> order[i] != order[j]
    {
      assert raws[..i + 1][..i] == raws[..i];
      var row := Clean(raws[i]);
      if row.key in unique {
        unique := unique[row.key := Overlay(unique[row.key], row)];
      } else {
        unique := unique[row.key := row];
        order := order + [row.key];
      }
    }
    assert raws[..|raws|] == raws;
  }

  /** A record expanded to the columns of its statement. */
  function Project(row: Row, fields: Columns): Row {
    Row(row.key, map c | c in row.cols && c in fields.0 :: row.cols[c], if fields.1 then row.attributes else None)
  }

  lemma ProjectSame(row: Row)
    ensures Project(row, ColumnsOf(row)) == row
  {}

  lemma ApplyOne(t: Table, u: map<Key, Row>, k: Key)
    requires k in u
    ensures Apply(t, Only(u, {k})) == t[k := Put(Lookup(t, k), u[k])]
  {}

  lemma KeysOfSnoc(rows: seq<Row>, i: nat)
    requires DistinctKeys(rows) && i < |rows|
    ensures KeysOf(rows[..i + 1]) == KeysOf(rows[..i]) + {rows[i].key}
    ensures rows[i].key !in KeysOf(rows[..i])
  {
    assert forall j :: 0 <= j < i ==> rows[..i + 1][j] == rows[..i][j] == rows[j];
    assert rows[..i + 1][i] == rows[i];
  }

  lemma ApplyNone(t: Table, u: map<Key, Row>)
    ensures Apply(t, Only(u, {})) == t
  {}

  class CreditTable {
    var rows: Table

    /** One statement of at most 200 records with the columns of its first record. */
    method WriteChunk(chunk: seq<Row>, ghost u: map<Key, Row>, ghost name: Columns) returns (ok: bool, changed: bool)
      requires 0 < |chunk| <= BATCH_SIZE && GroupOf(u, name, chunk)
      modifies this
      ensures ok <==> forall i :: 0 <= i < |chunk| ==> Writable(chunk[i])
      ensures ok ==> rows == Apply(old(rows), Only(u, KeysOf(chunk)))
      ensures ok ==> (changed <==> rows != old(rows))
    {
      hide Apply, Put, Only;
      var fields := ColumnsOf(chunk[0]);
      ghost var before := rows;
      ok, changed := true, false;
      assert KeysOf(chunk[..0]) == {};
      ApplyNone(before, u);
      for i := 0 to |chunk|
        invariant ok && forall j :: 0 <= j < i ==> Writable(chunk[j])
        invariant rows == Apply(before, Only(u, KeysOf(chunk[..i])))
        invariant changed <==> rows != before
      {
        ProjectSame(chunk[i]);
        var row := Project(chunk[i], fields);
        if !Writable(row) {
          return false, false;
        }
        KeysOfSnoc(chunk, i);
        ApplyInParts(before, u, KeysOf(chunk[..i]), {row.key});
        ChangeInParts(before, u, KeysOf(chunk[..i]), {row.key});
        ApplyOne(rows, u, row.key);
        var next := Put(Lookup(rows, row.key), row);
        if row.key !in rows || rows[row.key] != next {
          rows := rows[row.key := next];
          changed := true;
        } else {
          assert rows[row.key := next] == rows;
        }
      }
      assert chunk[..|chunk|] == chunk;
    }

    /** Writes sparse rows in batches; an integrity error aborts the whole transaction. */
    method WriteCredits(raws: seq<Row>) returns (ok: bool, changed: bool)
      modifies this
      ensures ok <==> AllWritable(UniqueOf(raws))
      ensures rows == if ok then Apply(old(rows), UniqueOf(raws)) else old(rows)
      ensures changed <==> rows != old(rows)
      ensures ok <==> Complete(raws)
      ensures ok ==> Written(old(rows), raws, rows)
    {
      hide Apply, Put, Only, UniqueOf, Grouped, GroupOf, Written, Complete;
      AcceptedWhenComplete(raws);
      BatchWritesLastValues(rows, raws);
      var unique, order := MergeDuplicates(raws);
      var names, groups := GroupRows(unique, order);
      var before := rows;
      ok, changed := true, false;
      ghost var done: set<Key> := {};
      ApplyNone(before, unique);
      for g := 0 to |names|
        invariant ok && WrittenSoFar(unique, before, rows, done, changed)
        invariant forall k :: k in done <==> k in unique && ColumnsOf(unique[k]) in names[..g]
      {
        ghost var done0 := done;
        GroupFacts(unique, names, groups, g);
        var group := groups[names[g]];
        var start := 0;
        while start < |group|
          invariant 0 <= start && ok && WrittenSoFar(unique, before, rows, done, changed)
          invariant done == done0 + KeysOf(group[..if start < |group| then start else |group|])
          decreases |group| - start
        {
          var end := if start + BATCH_SIZE < |group| then start + BATCH_SIZE else |group|;
          var chunk := group[start..end];
          ChunkFacts(unique, names[g], group, start, end);
          label Before:
          var chunkChanged;
          ok, chunkChanged := WriteChunk(chunk, unique, names[g]);
          if !ok {
            rows := before;
            SomeUnwritable(unique, names[g], chunk);
            return false, false;
          }
          assert done !! KeysOf(chunk);
          ApplyInParts(before, unique, done, KeysOf(chunk));
          ChangeInParts(before, unique, done, KeysOf(chunk));
          AllChunkWritable(unique, names[g], chunk);
          done := done + KeysOf(chunk);
          changed := changed || chunkChanged;
          start := start + BATCH_SIZE;
        }
        assert group[..|group|] == group;
      }
      GroupsCover(unique, names, groups);
      OnlyAll(unique, done);
    }
  }

  ghost predicate WrittenSoFar(u: map<Key, Row>, before: Table, now: Table, done: set<Key>, changed: bool) {
    && now == Apply(before, Only(u, done))
    && (changed <==> now != before)
    && (forall k :: k in done ==> k in u && Writable(u[k]))
  }

  lemma GroupFacts(u: map<Key, Row>, names: seq<Columns>, groups: map<Columns, seq<Row>>, g: nat)
    requires Grouped(u, u.Keys, names, groups) && g < |names|
    ensures names[g] in groups && names[g] !in names[..g] && GroupOf(u, names[g], groups[names[g]])
    ensures forall k :: k in KeysOf(groups[names[g]]) <==> k in u && ColumnsOf(u[k]) == names[g]
  {}

  lemma ChunkFacts(u: map<Key, Row>, name: Columns, group: seq<Row>, start: nat, end: nat)
    requires GroupOf(u, name, group) && start < end <= |group|
    ensures GroupOf(u, name, group[start..end])
    ensures KeysOf(group[..start]) !! KeysOf(group[start..end])
    ensures KeysOf(group[..end]) == KeysOf(group[..start]) + KeysOf(group[start..end])
    ensures KeysOf(group[start..end]) <= KeysOf(group)
  {
    assert group[..end] == group[..start] + group[start..end];
    KeysOfConcat(group[..start], group[start..end]);
    assert forall i :: 0 <= i < end - start ==> group[start..end][i] == group[start + i];
    assert forall i :: 0 <= i < start ==> group[..start][i] == group[i];
  }

  lemma KeysOfConcat(a: seq<Row>, b: seq<Row>)
    ensures KeysOf(a + b) == KeysOf(a) + KeysOf(b)
  {
    assert forall i :: 0 <= i < |a| ==> (a + b)[i] == a[i];
    assert forall i :: 0 <= i < |b| ==> (a + b)[|a| + i] == b[i];
  }

  lemma SomeUnwritable(u: map<Key, Row>, name: Columns, chunk: seq<Row>)
    requires GroupOf(u, name, chunk) && exists i :: 0 <= i < |chunk| && !Writable(chunk[i])
    ensures !AllWritable(u)
  {}

  lemma AllChunkWritable(u: map<Key, Row>, name: Columns, chunk: seq<Row>)
    requires GroupOf(u, name, chunk) && forall i :: 0 <= i < |chunk| ==> Writable(chunk[i])
    ensures forall k :: k in KeysOf(chunk) ==> k in u && Writable(u[k])
  {}

  lemma GroupsCover(u: map<Key, Row>, names: seq<Columns>, groups: map<Columns, seq<Row>>)
    requires Grouped(u, u.Keys, names, groups)
    ensures forall k :: k in u ==> ColumnsOf(u[k]) in names
  {}

  lemma OnlyAll(u: map<Key, Row>, keys: set<Key>)
    requires u.Keys <= keys
    ensures Only(u, keys) == u
  {}
}
