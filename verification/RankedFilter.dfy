/** What filtering the ranked feed means, title by title: which ones pass, and that they keep their rank. */
module RankedFilter {
  import opened TextOrder
  import opened RankedFeed

  /** A title passes the cached filter and its details, and has a release where one is required. */
  predicate Passes(f: Feed, row: Item, releaseNeeded: bool) {
    f.basic(row) && f.evidence(row).Some? && (releaseNeeded ==> f.released(f.evidence(row).value))
  }

  /** Ranks in rising order, exactly those of the rows that pass. */
  ghost predicate Selects(f: Feed, rows: seq<Item>, releaseNeeded: bool, picks: seq<nat>) {
    && (forall i, j :: 0 <= i < j < |picks| ==> picks[i] < picks[j])
    && (forall i :: 0 <= i < |picks| ==> picks[i] < |rows| && Passes(f, rows[picks[i]], releaseNeeded))
    && (forall n: nat :: n < |rows| && Passes(f, rows[n], releaseNeeded) ==> n in picks)
  }

  /** The shown titles are those at the picked ranks, with their details. */
  ghost predicate Shows(f: Feed, rows: seq<Item>, picks: seq<nat>, shown: seq<Item>) {
    && |shown| == |picks|
    && forall i :: 0 <= i < |picks| ==> picks[i] < |rows| && f.evidence(rows[picks[i]]) == Some(shown[i])
  }

  /** shown is the feed with everything that does not pass left out. */
  ghost predicate IsFiltered(f: Feed, rows: seq<Item>, releaseNeeded: bool, shown: seq<Item>) {
    exists picks: seq<nat> :: Shows(f, rows, picks, shown) && Selects(f, rows, releaseNeeded, picks)
  }

  lemma {:induction false} FilteredSnoc(rows: seq<Item>, row: Item, keep: Item -> bool)
    ensures Filtered(rows + [row], keep) == Filtered(rows, keep) + if keep(row) then [row] else []
  {
    if rows == [] {
      assert [row][1..] == [] && rows + [row] == [row];
    } else {
      FilteredSnoc(rows[1..], row, keep);
      assert (rows + [row])[1..] == rows[1..] + [row];
      var first, last := if keep(rows[0]) then [rows[0]] else [], if keep(row) then [row] else [];
      Reassociate(first, Filtered(rows[1..], keep), last);
    }
  }

  lemma FilteredNext(f: Feed, rows: seq<Item>, releaseNeeded: bool, shown: seq<Item>, row: Item)
    requires IsFiltered(f, rows, releaseNeeded, shown)
    ensures IsFiltered(f, rows + [row], releaseNeeded,
                       if Passes(f, row, releaseNeeded) then shown + [f.evidence(row).value] else shown)
  {
    hide Passes;
    var picks: seq<nat> :| Shows(f, rows, picks, shown) && Selects(f, rows, releaseNeeded, picks);
    var all := rows + [row];
    if Passes(f, row, releaseNeeded) {
      PassingShows(f, row, releaseNeeded);
      PickNext(f, rows, releaseNeeded, picks, row);
      var item := f.evidence(row).value;
      forall i | 0 <= i <= |picks|
        ensures f.evidence(all[(picks + [|rows|])[i]]) == Some((shown + [item])[i])
      {}
      assert Shows(f, all, picks + [|rows|], shown + [item]);
    } else {
      SkipNext(f, rows, releaseNeeded, picks, row);
      assert Shows(f, all, picks, shown);
    }
  }

  lemma PassingShows(f: Feed, row: Item, releaseNeeded: bool)
    requires Passes(f, row, releaseNeeded)
    ensures f.evidence(row).Some?
  {}

  lemma PickNext(f: Feed, rows: seq<Item>, releaseNeeded: bool, picks: seq<nat>, row: Item)
    requires Selects(f, rows, releaseNeeded, picks) && Passes(f, row, releaseNeeded)
    ensures Selects(f, rows + [row], releaseNeeded, picks + [|rows|])
  {
    hide Passes;
    var all, picks' := rows + [row], picks + [|rows|];
    assert picks'[|picks|] == |rows|;
    forall n: nat | n < |all| && Passes(f, all[n], releaseNeeded)
      ensures n in picks'
    {
      assert n < |rows| ==> all[n] == rows[n];
    }
  }

  lemma SkipNext(f: Feed, rows: seq<Item>, releaseNeeded: bool, picks: seq<nat>, row: Item)
    requires Selects(f, rows, releaseNeeded, picks) && !Passes(f, row, releaseNeeded)
    ensures Selects(f, rows + [row], releaseNeeded, picks)
  {
    hide Passes;
    var all := rows + [row];
    forall n: nat | n < |all| && Passes(f, all[n], releaseNeeded)
      ensures n in picks
    {
      assert n < |rows| ==> all[n] == rows[n];
    }
  }

  lemma NothingFiltered(f: Feed, releaseNeeded: bool)
    ensures IsFiltered(f, [], releaseNeeded, [])
  {
    var none: seq<nat> := [];
    assert Shows(f, [], none, []) && Selects(f, [], releaseNeeded, none);
  }

  /** Both scans of the feed show its passing titles, each once and in rank order, and no other. */
  lemma {:induction false} ScansFilterTheFeed(f: Feed, rows: seq<Item>)
    ensures IsFiltered(f, rows, true, Kept(f, Filtered(rows, f.basic)))
    ensures IsFiltered(f, rows, false, Detailed(f, Filtered(rows, f.basic)))
  {
    hide IsFiltered;
    if rows == [] {
      NothingFiltered(f, true);
      NothingFiltered(f, false);
    } else {
      var init, row := rows[..|rows| - 1], rows[|rows| - 1];
      ScansFilterTheFeed(f, init);
      assert rows == init + [row];
      FilteredSnoc(init, row, f.basic);
      var before := Filtered(init, f.basic);
      NextKept(f, before, row);
      FilteredNext(f, init, true, Kept(f, before), row);
      FilteredNext(f, init, false, Detailed(f, before), row);
    }
  }

  lemma NextKept(f: Feed, before: seq<Item>, row: Item)
    ensures var all := before + if f.basic(row) then [row] else [];
            && Kept(f, all)
               == (if Passes(f, row, true) then Kept(f, before) + [f.evidence(row).value] else Kept(f, before))
            && Detailed(f, all)
               == (if Passes(f, row, false) then Detailed(f, before) + [f.evidence(row).value] else Detailed(f, before))
  {
    if f.basic(row) {
      KeptConcat(f, before, [row]);
      DetailedConcat(f, before, [row]);
      assert [row][1..] == [];
    } else {
      assert before + [] == before;
    }
  }
}
