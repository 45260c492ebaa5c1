/**
 Merging a divergent episode row into its canonical twin: every reference moves, per-key duplicates are
 dropped in favour of the canonical row, and nothing else changes.
 */
module EpisodeMerge {
  import opened TextOrder

  type MediaId = nat
  type RowId = nat

  /** A row of a table that is unique per (key, media): key is the user, the list or the rewatch. */
  datatype Ref = Ref(key: int, media: MediaId, data: int)

  type Table = map<RowId, Ref>

  /** canonical already has a row for this key. */
  predicate Has(rows: Table, key: int, media: MediaId) {
    exists r :: r in rows && rows[r].key == key && rows[r].media == media
  }

  predicate Unique(rows: Table) {
    forall r, s :: r in rows && s in rows && rows[r].key == rows[s].key && rows[r].media == rows[s].media ==> r == s
  }

  /** A row of the divergent episode that was moved to the canonical one. */
  predicate Adopted(before: Table, after: Table, r: RowId, divergent: MediaId) {
    r in before && r in after && before[r].media == divergent
  }

  /** One row of the pass: untouched, still to be visited, moved for a key canonical lacked, or gone as a duplicate. */
  ghost predicate RowPassed(before: Table, after: Table, todo: set<RowId>, canonical: MediaId, divergent: MediaId,
                            r: RowId)
    requires r in before
  {
    if before[r].media != divergent || r in todo then r in after && after[r] == before[r]
    else
      && Has(after, before[r].key, canonical)
      && (r in after ==> after[r] == before[r].(media := canonical) && !Has(before, before[r].key, canonical))
  }

  /** No key is adopted twice. */
  ghost predicate Apart(before: Table, after: Table, todo: set<RowId>, divergent: MediaId) {
    forall r, s | Adopted(before, after, r, divergent) && Adopted(before, after, s, divergent) && r != s ::
      r !in todo && s !in todo ==> before[r].key != before[s].key
  }

  /**
   A pass that still has to visit todo: rows of other episodes are untouched, a visited row is either gone
   or moved, and moved only for a key the canonical row lacks, once per key.
   */
  ghost predicate KeyedPass(before: Table, after: Table, todo: set<RowId>, canonical: MediaId, divergent: MediaId) {
    && after.Keys <= before.Keys && todo <= after.Keys
    && (forall r :: r in todo ==> before[r].media == divergent)
    && (forall r :: r in before ==> RowPassed(before, after, todo, canonical, divergent, r))
    && Apart(before, after, todo, divergent)
  }

  /** What merging one keyed table does. */
  ghost predicate KeyedMerged(before: Table, after: Table, canonical: MediaId, divergent: MediaId) {
    KeyedPass(before, after, {}, canonical, divergent)
  }

  /** One pass over the divergent row's rows, in any order. */
  method MergeKeyed(rows: Table, canonical: MediaId, divergent: MediaId) returns (after: Table)
    requires canonical != divergent
    ensures KeyedMerged(rows, after, canonical, divergent)
  {
    hide KeyedPass;
    after := rows;
    var todo := set r | r in rows && rows[r].media == divergent;
    PassStarts(rows, canonical, divergent);
    while todo != {}
      invariant KeyedPass(rows, after, todo, canonical, divergent)
      decreases |todo|
    {
      var r :| r in todo;
      PassVisits(rows, after, todo, canonical, divergent, r);
      if Has(after, rows[r].key, canonical) {
        after := after - {r};
      } else {
        after := after[r := rows[r].(media := canonical)];
      }
      todo := todo - {r};
    }
  }

  lemma PassStarts(rows: Table, canonical: MediaId, divergent: MediaId)
    ensures KeyedPass(rows, rows, (set r | r in rows && rows[r].media == divergent), canonical, divergent)
  {}

  lemma PassDrops(before: Table, after: Table, todo: set<RowId>, canonical: MediaId, divergent: MediaId, r: RowId)
    requires KeyedPass(before, after, todo, canonical, divergent) && r in todo && canonical != divergent
    requires Has(after, before[r].key, canonical)
    ensures KeyedPass(before, after - {r}, todo - {r}, canonical, divergent)
  {
    assert RowPassed(before, after, todo, canonical, divergent, r);
    KeepsHaving(after, after - {r}, canonical, r);
    hide Has;
    forall s | s in before
      ensures RowPassed(before, after - {r}, todo - {r}, canonical, divergent, s)
    {
      assert RowPassed(before, after, todo, canonical, divergent, s);
    }
    hide RowPassed;
  }

  lemma PassMoves(before: Table, after: Table, todo: set<RowId>, canonical: MediaId, divergent: MediaId, r: RowId)
    requires KeyedPass(before, after, todo, canonical, divergent) && r in todo && canonical != divergent
    requires !Has(after, before[r].key, canonical)
    ensures KeyedPass(before, after[r := before[r].(media := canonical)], todo - {r}, canonical, divergent)
  {
    hide KeyedPass, RowPassed, Apart;
    MovedRows(before, after, todo, canonical, divergent, r);
    MovedApart(before, after, todo, canonical, divergent, r);
    PassParts(before, after, todo, canonical, divergent, r);
    JoinParts(before, after[r := before[r].(media := canonical)], todo - {r}, canonical, divergent);
  }

  lemma PassParts(before: Table, after: Table, todo: set<RowId>, canonical: MediaId, divergent: MediaId, r: RowId)
    requires KeyedPass(before, after, todo, canonical, divergent) && r in todo
    ensures after.Keys <= before.Keys && todo <= after.Keys && r in before
    ensures forall s :: s in todo ==> before[s].media == divergent
  {
    hide RowPassed, Apart;
  }

  lemma JoinParts(before: Table, after: Table, todo: set<RowId>, canonical: MediaId, divergent: MediaId)
    requires after.Keys <= before.Keys && todo <= after.Keys
    requires forall s :: s in todo ==> before[s].media == divergent
    requires forall r :: r in before ==> RowPassed(before, after, todo, canonical, divergent, r)
    requires Apart(before, after, todo, divergent)
    ensures KeyedPass(before, after, todo, canonical, divergent)
  {
    hide RowPassed, Apart;
  }

  lemma MovedRows(before: Table, after: Table, todo: set<RowId>, canonical: MediaId, divergent: MediaId, r: RowId)
    requires KeyedPass(before, after, todo, canonical, divergent) && r in todo && canonical != divergent
    requires !Has(after, before[r].key, canonical)
    ensures forall s :: s in before ==>
      RowPassed(before, after[r := before[r].(media := canonical)], todo - {r}, canonical, divergent, s)
  {
    hide Apart;
    var after' := after[r := before[r].(media := canonical)];
    assert RowPassed(before, after, todo, canonical, divergent, r);
    KeepsHaving(after, after', canonical, r);
    assert Has(after', before[r].key, canonical) by {
      assert after'[r].key == before[r].key && after'[r].media == canonical;
    }
    CanonicalKept(before, after, todo, canonical, divergent, before[r].key);
    hide Has;
    forall s | s in before
      ensures RowPassed(before, after', todo - {r}, canonical, divergent, s)
    {
      assert RowPassed(before, after, todo, canonical, divergent, s);
    }
  }

  /** What canonical had, it still has. */
  lemma CanonicalKept(before: Table, after: Table, todo: set<RowId>, canonical: MediaId, divergent: MediaId, key: int)
    requires KeyedPass(before, after, todo, canonical, divergent) && canonical != divergent
    ensures Has(before, key, canonical) ==> Has(after, key, canonical)
  {
    if Has(before, key, canonical) {
      var s :| s in before && before[s].key == key && before[s].media == canonical;
      assert RowPassed(before, after, todo, canonical, divergent, s);
    }
  }

  lemma MovedApart(before: Table, after: Table, todo: set<RowId>, canonical: MediaId, divergent: MediaId, r: RowId)
    requires KeyedPass(before, after, todo, canonical, divergent) && r in todo && canonical != divergent
    requires !Has(after, before[r].key, canonical)
    ensures Apart(before, after[r := before[r].(media := canonical)], todo - {r}, divergent)
  {
    hide Has;
    forall s | Adopted(before, after, s, divergent) && s !in todo
      ensures before[s].key != before[r].key
    {
      assert RowPassed(before, after, todo, canonical, divergent, s);
    }
    hide RowPassed;
  }

  lemma PassVisits(before: Table, after: Table, todo: set<RowId>, canonical: MediaId, divergent: MediaId, r: RowId)
    requires KeyedPass(before, after, todo, canonical, divergent) && r in todo && canonical != divergent
    ensures r in before
    ensures KeyedPass(before,
                      if Has(after, before[r].key, canonical) then after - {r}
                      else after[r := before[r].(media := canonical)],
                      todo - {r}, canonical, divergent)
  {
    assert r in before;
    hide KeyedPass;
    if Has(after, before[r].key, canonical) {
      PassDrops(before, after, todo, canonical, divergent, r);
    } else {
      PassMoves(before, after, todo, canonical, divergent, r);
    }
  }

  lemma KeepsHaving(was: Table, after: Table, canonical: MediaId, r: RowId)
    requires r in was && was[r].media != canonical
    requires forall s :: s in was && s != r ==> s in after && after[s] == was[s]
    ensures forall key :: Has(was, key, canonical) ==> Has(after, key, canonical)
  {
    forall key | Has(was, key, canonical)
      ensures Has(after, key, canonical)
    {
      var s :| s in was && was[s].key == key && was[s].media == canonical;
      assert s in after && after[s] == was[s];
    }
  }

  /** No reference to the divergent row is left, and a canonical key is served by exactly the right row. */
  lemma KeyedOutcome(before: Table, after: Table, canonical: MediaId, divergent: MediaId, key: int)
    requires KeyedMerged(before, after, canonical, divergent) && canonical != divergent
    ensures forall r :: r in after ==> after[r].media != divergent
    ensures Has(after, key, canonical) <==> Has(before, key, canonical) || Has(before, key, divergent)
    ensures Has(before, key, canonical) ==>
      forall r :: r in after && after[r].key == key && after[r].media == canonical ==>
        r in before && before[r] == after[r]
  {}

  lemma KeyedKeepsUnique(before: Table, after: Table, canonical: MediaId, divergent: MediaId)
    requires KeyedMerged(before, after, canonical, divergent) && canonical != divergent && Unique(before)
    ensures Unique(after)
  {
    forall r, s | r in after && s in after && after[r].key == after[s].key && after[r].media == after[s].media
      ensures r == s
    {
      assert Adopted(before, after, r, divergent) || after[r] == before[r];
      assert Adopted(before, after, s, divergent) || after[s] == before[s];
    }
  }

  /** On a unique table the outcome does not depend on the order of the pass. */
  function KeyedResult(before: Table, canonical: MediaId, divergent: MediaId): Table {
    map r | r in before && (before[r].media != divergent || !Has(before, before[r].key, canonical)) ::
      if before[r].media == divergent then before[r].(media := canonical) else before[r]
  }

  lemma KeyedIsDetermined(before: Table, after: Table, canonical: MediaId, divergent: MediaId)
    requires KeyedMerged(before, after, canonical, divergent) && canonical != divergent && Unique(before)
    ensures after == KeyedResult(before, canonical, divergent)
  {
    forall r | r in before && before[r].media == divergent && !Has(before, before[r].key, canonical)
      ensures r in after
    {
      var s :| s in after && after[s].key == before[r].key && after[s].media == canonical;
      assert Has(after, before[r].key, canonical) && !Has(before, before[r].key, canonical);
      assert Adopted(before, after, s, divergent);
    }
    forall r | r in after
      ensures r in KeyedResult(before, canonical, divergent)
    {
      assert before[r].media != divergent || Adopted(before, after, r, divergent);
    }
    assert after.Keys == KeyedResult(before, canonical, divergent).Keys;
  }

  // ----- collections and their files

  datatype File = File(collection: RowId, source: int, sourceId: Option<string>, data: int)

  type Files = map<RowId, File>

  type Source = (int, Option<string>)

  function SourceOf(f: File): Source {
    (f.source, f.sourceId)
  }

  /** The collection has a file of this source. */
  predicate Holds(files: Files, collection: RowId, e: Source) {
    exists f :: f in files && files[f].collection == collection && SourceOf(files[f]) == e
  }

  predicate Moved(before: Files, after: Files, f: RowId, from: RowId) {
    f in before && f in after && before[f].collection == from
  }

  /** One file of the pass: untouched, still to be visited, moved for a source the other one lacked, or a duplicate. */
  ghost predicate FilePassed(before: Files, after: Files, todo: set<RowId>, have: set<Source>, from: RowId, to: RowId,
                             f: RowId)
    requires f in before
  {
    if before[f].collection != from || f in todo then f in after && after[f] == before[f]
    else
      && SourceOf(before[f]) in have
      && (f in after ==> after[f] == before[f].(collection := to) && !Holds(before, to, SourceOf(before[f])))
  }

  /** No source is moved twice. */
  ghost predicate SourcesApart(before: Files, after: Files, todo: set<RowId>, from: RowId) {
    forall f, g | Moved(before, after, f, from) && Moved(before, after, g, from) && f != g ::
      f !in todo && g !in todo ==> SourceOf(before[f]) != SourceOf(before[g])
  }

  /** have is what the other collection holds by now: what it held, and what came over. */
  ghost predicate Having(before: Files, after: Files, have: set<Source>, from: RowId, to: RowId) {
    && (forall e :: e in have <==> Holds(after, to, e))
    && (forall e :: e in have ==> Holds(before, to, e) || Holds(before, from, e))
    && (forall e :: Holds(before, to, e) ==> e in have)
  }

  /** A pass over the files of one collection that still has to visit todo; have is what the other one holds. */
  ghost predicate FilesPass(before: Files, after: Files, todo: set<RowId>, have: set<Source>, from: RowId, to: RowId) {
    && after.Keys <= before.Keys && todo <= after.Keys
    && (forall f :: f in todo ==> before[f].collection == from)
    && (forall f :: f in before ==> FilePassed(before, after, todo, have, from, to, f))
    && SourcesApart(before, after, todo, from)
    && Having(before, after, have, from, to)
  }

  /** All files of one collection merged into another: the union of the sources, each adopted once. */
  ghost predicate FilesMerged(before: Files, after: Files, from: RowId, to: RowId) {
    exists have :: FilesPass(before, after, {}, have, from, to)
  }

  method MoveFiles(files: Files, from: RowId, to: RowId) returns (after: Files)
    requires from != to
    ensures FilesMerged(files, after, from, to)
  {
    hide FilesPass;
    after := files;
    var have := set f | f in files && files[f].collection == to :: SourceOf(files[f]);
    var todo := set f | f in files && files[f].collection == from;
    FilesStart(files, from, to);
    while todo != {}
      invariant FilesPass(files, after, todo, have, from, to)
      decreases |todo|
    {
      var f :| f in todo;
      FilesVisit(files, after, todo, have, from, to, f);
      if SourceOf(files[f]) in have {
        after := after - {f};
      } else {
        after := after[f := files[f].(collection := to)];
        have := have + {SourceOf(files[f])};
      }
      todo := todo - {f};
    }
  }

  lemma FilesStart(files: Files, from: RowId, to: RowId)
    ensures FilesPass(files, files, (set f | f in files && files[f].collection == from),
                      (set f | f in files && files[f].collection == to :: SourceOf(files[f])), from, to)
  {}

  lemma HoldsAfter(was: Files, f: RowId, file: File, to: RowId)
    requires f in was && was[f].collection != to && file.collection == to
    ensures forall e :: Holds(was[f := file], to, e) <==> Holds(was, to, e) || e == SourceOf(file)
    ensures forall e :: Holds(was - {f}, to, e) <==> Holds(was, to, e)
  {
    var with, without := was[f := file], was - {f};
    assert with[f] == file;
    forall e | Holds(was, to, e)
      ensures Holds(with, to, e) && Holds(without, to, e)
    {
      var g :| g in was && was[g].collection == to && SourceOf(was[g]) == e;
      assert with[g] == was[g] && without[g] == was[g];
    }
    forall e | Holds(without, to, e)
      ensures Holds(was, to, e)
    {
      var g :| g in without && without[g].collection == to && SourceOf(without[g]) == e;
      assert was[g] == without[g];
    }
    forall e | Holds(with, to, e) && e != SourceOf(file)
      ensures Holds(was, to, e)
    {
      var g :| g in with && with[g].collection == to && SourceOf(with[g]) == e;
      assert was[g] == with[g];
    }
  }

  lemma FilesDrop(before: Files, after: Files, todo: set<RowId>, have: set<Source>, from: RowId, to: RowId, f: RowId)
    requires FilesPass(before, after, todo, have, from, to) && f in todo && from != to
    requires SourceOf(before[f]) in have
    ensures FilesPass(before, after - {f}, todo - {f}, have, from, to)
  {
    hide Holds, Having, FilePassed;
    DroppedFiles(before, after, todo, have, from, to, f);
    DroppedHaving(before, after, todo, have, from, to, f);
  }

  lemma DroppedFiles(before: Files, after: Files, todo: set<RowId>, have: set<Source>, from: RowId, to: RowId, f: RowId)
    requires FilesPass(before, after, todo, have, from, to) && f in todo && SourceOf(before[f]) in have
    ensures forall g :: g in before ==> FilePassed(before, after - {f}, todo - {f}, have, from, to, g)
  {
    hide Holds, SourcesApart;
    forall g | g in before
      ensures FilePassed(before, after - {f}, todo - {f}, have, from, to, g)
    {
      assert FilePassed(before, after, todo, have, from, to, g);
    }
  }

  lemma DroppedHaving(before: Files, after: Files, todo: set<RowId>, have: set<Source>, from: RowId, to: RowId,
                      f: RowId)
    requires FilesPass(before, after, todo, have, from, to) && f in todo && from != to
    ensures Having(before, after - {f}, have, from, to)
  {
    hide SourcesApart;
    assert FilePassed(before, after, todo, have, from, to, f);
    hide FilePassed;
    HoldsAfter(after, f, before[f].(collection := to), to);
    hide Holds;
  }

  lemma FilesMove(before: Files, after: Files, todo: set<RowId>, have: set<Source>, from: RowId, to: RowId, f: RowId)
    requires FilesPass(before, after, todo, have, from, to) && f in todo && from != to
    requires SourceOf(before[f]) !in have
    ensures FilesPass(before, after[f := before[f].(collection := to)], todo - {f}, have + {SourceOf(before[f])}, from,
                      to)
  {
    hide Holds, Having, FilePassed, SourcesApart;
    MovedFiles(before, after, todo, have, from, to, f);
    MovedSources(before, after, todo, have, from, to, f);
    MovedHaving(before, after, todo, have, from, to, f);
  }

  lemma MovedFiles(before: Files, after: Files, todo: set<RowId>, have: set<Source>, from: RowId, to: RowId, f: RowId)
    requires FilesPass(before, after, todo, have, from, to) && f in todo && from != to
    requires SourceOf(before[f]) !in have
    ensures forall g :: g in before ==>
      FilePassed(before, after[f := before[f].(collection := to)], todo - {f}, have + {SourceOf(before[f])}, from, to,
                 g)
  {
    hide Holds, SourcesApart;
    forall g | g in before
      ensures FilePassed(before, after[f := before[f].(collection := to)], todo - {f}, have + {SourceOf(before[f])},
                         from, to, g)
    {
      assert FilePassed(before, after, todo, have, from, to, g);
    }
  }

  lemma MovedSources(before: Files, after: Files, todo: set<RowId>, have: set<Source>, from: RowId, to: RowId, f: RowId)
    requires FilesPass(before, after, todo, have, from, to) && f in todo && from != to
    requires SourceOf(before[f]) !in have
    ensures SourcesApart(before, after[f := before[f].(collection := to)], todo - {f}, from)
  {
    hide Holds, Having;
    forall g | Moved(before, after, g, from) && g !in todo
      ensures SourceOf(before[g]) in have
    {
      assert FilePassed(before, after, todo, have, from, to, g);
    }
    hide FilePassed;
  }

  lemma MovedHaving(before: Files, after: Files, todo: set<RowId>, have: set<Source>, from: RowId, to: RowId, f: RowId)
    requires FilesPass(before, after, todo, have, from, to) && f in todo && from != to
    ensures Having(before, after[f := before[f].(collection := to)], have + {SourceOf(before[f])}, from, to)
  {
    hide SourcesApart;
    assert FilePassed(before, after, todo, have, from, to, f);
    hide FilePassed;
    HoldsAfter(after, f, before[f].(collection := to), to);
    assert Holds(before, from, SourceOf(before[f]));
    hide Holds;
  }

  lemma FilesVisit(before: Files, after: Files, todo: set<RowId>, have: set<Source>, from: RowId, to: RowId, f: RowId)
    requires FilesPass(before, after, todo, have, from, to) && f in todo && from != to
    ensures f in before
    ensures if SourceOf(before[f]) in have
            then FilesPass(before, after - {f}, todo - {f}, have, from, to)
            else FilesPass(before, after[f := before[f].(collection := to)], todo - {f}, have + {SourceOf(before[f])},
                           from, to)
  {
    assert f in before;
    hide FilesPass;
    if SourceOf(before[f]) in have {
      FilesDrop(before, after, todo, have, from, to, f);
    } else {
      FilesMove(before, after, todo, have, from, to, f);
    }
  }

  lemma FilesOutcome(before: Files, after: Files, from: RowId, to: RowId, e: Source)
    requires FilesMerged(before, after, from, to) && from != to
    ensures Holds(after, to, e) <==> Holds(before, to, e) || Holds(before, from, e)
    ensures !Holds(after, from, e)
    ensures forall f :: f in before && before[f].collection == to ==> f in after && after[f] == before[f]
    ensures forall f, g | f in after && g in after && f != g && before[f].collection != to ::
      after[f].collection == to && after[g].collection == to ==> SourceOf(after[f]) != SourceOf(after[g])
  {
    var have :| FilesPass(before, after, {}, have, from, to);
    forall f | f in after && before[f].collection == from
      ensures after[f].collection == to
    {
      assert Moved(before, after, f, from);
    }
    forall f, g | f in after && g in after && f != g && before[f].collection != to
      && after[f].collection == to && after[g].collection == to
      ensures SourceOf(after[f]) != SourceOf(after[g])
    {
      assert before[f].collection == from ==> Moved(before, after, f, from);
      assert before[g].collection == from ==> Moved(before, after, g, from);
    }
  }
}
