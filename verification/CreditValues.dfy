/** What a batch of credits leaves in the table, said of the given rows alone. */
module CreditValues {
  import opened TextOrder
  import opened JsonValue
  import opened CreditRows

  ghost predicate Mentioned(raws: seq<Row>, k: Key) {
    exists i :: 0 <= i < |raws| && raws[i].key == k
  }

  /** The last value, not an empty one, that the rows of a key give a column. */
  function LastGiven(raws: seq<Row>, k: Key, c: Column): Option<Json> {
    if raws == [] then None
    else
      var last := raws[|raws| - 1];
      if last.key == k && c in last.cols && !Empty(last.cols[c]) then Some(last.cols[c])
      else LastGiven(raws[..|raws| - 1], k, c)
  }

  function LastAttribute(raws: seq<Row>, k: Key, a: string): Option<Json> {
    if raws == [] then None
    else
      var last := raws[|raws| - 1];
      if last.key == k && last.attributes.Some? && a in last.attributes.value && !Empty(last.attributes.value[a])
      then Some(last.attributes.value[a])
      else LastAttribute(raws[..|raws| - 1], k, a)
  }

  function StoredAttribute(s: Stored, a: string): Option<Json> {
    if a in s.attributes then Some(s.attributes[a]) else None
  }

  function Kept(t: Table, k: Key, a: string): Option<Json> {
    if k in t then StoredAttribute(t[k], a) else None
  }

  /** What a column holds without a given value: what was stored, and in a new row only a scope. */
  function Otherwise(t: Table, k: Key, c: Column): Option<Json> {
    if k in t then (if c in t[k].cols then Some(t[k].cols[c]) else None)
    else if c == Scope then Some(Text("title")) else None
  }

  /** Each key of the rows is in the table, and each of its columns and attributes holds the last value given for it. */
  ghost predicate Written(t: Table, raws: seq<Row>, after: Table) {
    && (forall k :: k in after <==> k in t || Mentioned(raws, k))
    && (forall k, c :: k in after ==> Cell(after[k], c) == First(LastGiven(raws, k, c), Otherwise(t, k, c)))
    && (forall k, a :: k in after ==> StoredAttribute(after[k], a) == First(LastAttribute(raws, k, a), Kept(t, k, a)))
  }

  function First(a: Option<Json>, b: Option<Json>): Option<Json> {
    if a.Some? then a else b
  }

  /** A new credit needs a contributor and a role; so does every row of the statement, even for a stored credit. */
  ghost predicate Complete(raws: seq<Row>) {
    forall k :: Mentioned(raws, k) ==> LastGiven(raws, k, ContributorId).Some? && LastGiven(raws, k, Role).Some?
  }

  // ----- one row per key

  ghost predicate Holds(row: Row, raws: seq<Row>, k: Key) {
    && (forall c :: (if c in row.cols then Some(row.cols[c]) else None) == LastGiven(raws, k, c))
    && (forall a :: (if a in Attributes(row) then Some(Attributes(row)[a]) else None) == LastAttribute(raws, k, a))
  }

  lemma CleanHolds(raw: Row)
    ensures Clean(raw).key == raw.key
    ensures forall c :: c in Clean(raw).cols <==> c in raw.cols && !Empty(raw.cols[c])
    ensures forall c :: c in Clean(raw).cols ==> Clean(raw).cols[c] == raw.cols[c]
    ensures forall a :: a in Attributes(Clean(raw)) <==>
      raw.attributes.Some? && a in raw.attributes.value && !Empty(raw.attributes.value[a])
    ensures forall a :: a in Attributes(Clean(raw)) ==> Attributes(Clean(raw))[a] == raw.attributes.value[a]
  {
    forall v
      ensures HasValue(v) <==> !Empty(v)
    {
      HasValueMeans(v);
    }
    hide Empty, HasValue;
  }

  lemma MentionedSnoc(raws: seq<Row>, k: Key)
    requires raws != []
    ensures Mentioned(raws, k) <==> Mentioned(raws[..|raws| - 1], k) || raws[|raws| - 1].key == k
  {
    var init := raws[..|raws| - 1];
    if Mentioned(init, k) {
      var i :| 0 <= i < |init| && init[i].key == k;
      assert raws[i].key == k;
    }
    if Mentioned(raws, k) {
      var i :| 0 <= i < |raws| && raws[i].key == k;
      assert i < |init| ==> init[i].key == k;
    }
  }

  lemma {:induction false} NothingGiven(raws: seq<Row>, k: Key)
    requires !Mentioned(raws, k)
    ensures forall c :: LastGiven(raws, k, c).None?
    ensures forall a :: LastAttribute(raws, k, a).None?
  {
    if raws != [] {
      MentionedSnoc(raws, k);
      NothingGiven(raws[..|raws| - 1], k);
    }
  }

  lemma HoldsSnoc(raws: seq<Row>, k: Key, m: Row, row: Row)
    requires raws != [] && raws[|raws| - 1].key == k && row == Clean(raws[|raws| - 1])
    requires Holds(m, raws[..|raws| - 1], k)
    ensures Holds(Overlay(m, row), raws, k)
  {
    CleanHolds(raws[|raws| - 1]);
    hide Clean, Empty;
    var o := Overlay(m, row);
    assert Attributes(o) == Attributes(m) + Attributes(row);
    assert o.cols == m.cols + row.cols;
  }

  lemma HoldsOne(raws: seq<Row>, k: Key, row: Row)
    requires raws != [] && raws[|raws| - 1].key == k && row == Clean(raws[|raws| - 1])
    requires !Mentioned(raws[..|raws| - 1], k)
    ensures Holds(row, raws, k)
  {
    var init := raws[..|raws| - 1];
    CleanHolds(raws[|raws| - 1]);
    NothingGiven(init, k);
    hide Clean, Empty;
    forall c
      ensures (if c in row.cols then Some(row.cols[c]) else None) == LastGiven(raws, k, c)
    {
      assert LastGiven(init, k, c).None?;
    }
    forall a
      ensures (if a in Attributes(row) then Some(Attributes(row)[a]) else None) == LastAttribute(raws, k, a)
    {
      assert LastAttribute(init, k, a).None?;
    }
  }

  lemma HoldsElsewhere(raws: seq<Row>, k: Key, m: Row)
    requires raws != [] && raws[|raws| - 1].key != k && Holds(m, raws[..|raws| - 1], k)
    ensures Holds(m, raws, k)
  {}

  lemma {:induction false} UniqueHolds(raws: seq<Row>, k: Key)
    ensures k in UniqueOf(raws) <==> Mentioned(raws, k)
    ensures k in UniqueOf(raws) ==> Holds(UniqueOf(raws)[k], raws, k)
  {
    hide Holds, Mentioned, Clean, Overlay, LastGiven, LastAttribute;
    if raws != [] {
      var init, row := raws[..|raws| - 1], Clean(raws[|raws| - 1]);
      UniqueHolds(init, k);
      MentionedSnoc(raws, k);
      CleanHolds(raws[|raws| - 1]);
      if row.key != k {
        if k in UniqueOf(init) { HoldsElsewhere(raws, k, UniqueOf(init)[k]); }
      } else if k in UniqueOf(init) {
        HoldsSnoc(raws, k, UniqueOf(init)[k], row);
      } else {
        HoldsOne(raws, k, row);
      }
    } else {
      NotMentioned(k);
    }
  }

  lemma NotMentioned(k: Key)
    ensures !Mentioned([], k)
  {}

  // ----- the table

  lemma PutValues(t: Table, k: Key, row: Row, raws: seq<Row>)
    requires Holds(row, raws, k)
    ensures forall c :: Cell(Put(Lookup(t, k), row), c) == First(LastGiven(raws, k, c), Otherwise(t, k, c))
    ensures forall a :: StoredAttribute(Put(Lookup(t, k), row), a) == First(LastAttribute(raws, k, a), Kept(t, k, a))
  {
    hide LastGiven, LastAttribute, RoleChanged, Attributes;
  }

  lemma UntouchedValues(t: Table, k: Key, raws: seq<Row>)
    requires k in t && !Mentioned(raws, k)
    ensures forall c :: Cell(t[k], c) == First(LastGiven(raws, k, c), Otherwise(t, k, c))
    ensures forall a :: StoredAttribute(t[k], a) == First(LastAttribute(raws, k, a), Kept(t, k, a))
  {
    NothingGiven(raws, k);
  }

  /** The merged rows, written over the table, leave the last values given. */
  lemma BatchWritesLastValues(t: Table, raws: seq<Row>)
    ensures Written(t, raws, Apply(t, UniqueOf(raws)))
  {
    hide Holds, Mentioned, LastGiven, LastAttribute, Otherwise, Kept, Cell, StoredAttribute, Put, UniqueOf, First;
    var u := UniqueOf(raws);
    var after := Apply(t, u);
    forall k
      ensures k in after <==> k in t || Mentioned(raws, k)
    {
      UniqueHolds(raws, k);
    }
    forall k | k in after
      ensures forall c :: Cell(after[k], c) == First(LastGiven(raws, k, c), Otherwise(t, k, c))
      ensures forall a :: StoredAttribute(after[k], a) == First(LastAttribute(raws, k, a), Kept(t, k, a))
    {
      UniqueHolds(raws, k);
      if k in u {
        PutValues(t, k, u[k], raws);
      } else {
        UntouchedValues(t, k, raws);
      }
    }
  }

  /** A batch is accepted exactly when every key it names is given a contributor and a role. */
  lemma AcceptedWhenComplete(raws: seq<Row>)
    ensures AllWritable(UniqueOf(raws)) <==> Complete(raws)
  {
    hide Mentioned, LastGiven, LastAttribute, UniqueOf;
    forall k
      ensures k in UniqueOf(raws) <==> Mentioned(raws, k)
      ensures k in UniqueOf(raws) ==>
        (Writable(UniqueOf(raws)[k]) <==> LastGiven(raws, k, ContributorId).Some? && LastGiven(raws, k, Role).Some?)
    {
      UniqueHolds(raws, k);
    }
  }
}
