/**
 Display orders of a show: where each episode sits in a non-aired ordering, and the translation of a display
 position back to the canonical (season, episode).
 */
module EpisodePositions {
  import opened TextOrder
  import opened EpisodeMatching

  /** One episode's place in an ordering. */
  datatype Place = Place(displaySeason: int, displayEpisode: int, tmdbId: int, tmdbSeason: int, tmdbEpisode: int)

  function Display(r: Place): Position { (r.displaySeason, r.displayEpisode) }
  function Canonical(r: Place): Position { (r.tmdbSeason, r.tmdbEpisode) }

  predicate DisplaysDiffer(rows: seq<Place>) {
    forall i, j :: 0 <= i < j < |rows| ==> Display(rows[i]) != Display(rows[j])
  }

  predicate IdsDiffer(rows: seq<Place>) {
    forall i, j :: 0 <= i < j < |rows| ==> rows[i].tmdbId != rows[j].tmdbId
  }

  predicate CanonicalsDiffer(rows: seq<Place>) {
    forall i, j :: 0 <= i < j < |rows| ==> Canonical(rows[i]) != Canonical(rows[j])
  }

  // ----- TMDB episode groups

  /** An entry of a group; any of its three numbers may be missing. */
  datatype GroupEpisode = GroupEpisode(id: Option<int>, season: Option<int>, episode: Option<int>)

  predicate Usable(e: GroupEpisode) {
    e.id.Some? && e.season.Some? && e.episode.Some?
  }

  /** Groups and their episodes come sorted by their order fields; numbering starts at one. */
  method PlacesFromGroups(groups: seq<seq<GroupEpisode>>) returns (rows: seq<Place>)
    ensures DisplaysDiffer(rows) && IdsDiffer(rows)
    ensures forall r :: r in rows ==> InGroup(groups, r) && FirstListed(groups, r)
    ensures forall g, i :: 0 <= g < |groups| && 0 <= i < |groups[g]| && Usable(groups[g][i]) ==>
      Shown(rows, groups[g][i].id.value)
    ensures IdsFixPositions(groups) ==> (MutuallyInverse(rows) <==> PositionsFixIds(groups))
  {
    hide Collected, MutuallyInverse, IdsFixPositions, PositionsFixIds;
    rows := [];
    var seenDisplay: set<Position>, seenCanonical: set<int> := {}, {};
    NothingCollected(groups);
    for g := 0 to |groups|
      invariant Collected(groups, rows, seenDisplay, seenCanonical, g, 0)
    {
      var episodes := groups[g];
      for i := 0 to |episodes|
        invariant Collected(groups, rows, seenDisplay, seenCanonical, g, i)
      {
        var e := episodes[i];
        Visited(groups, rows, seenDisplay, seenCanonical, g, i);
        if e.id.Some? && e.season.Some? && e.episode.Some?
           && e.id.value !in seenCanonical && (g + 1, i + 1) !in seenDisplay {
          seenCanonical := seenCanonical + {e.id.value};
          seenDisplay := seenDisplay + {(g + 1, i + 1)};
          rows := rows + [PlaceOf(e, g, i)];
        }
      }
      GroupDone(groups, rows, seenDisplay, seenCanonical, g);
    }
    AllCollected(groups, rows, seenDisplay, seenCanonical);
    if IdsFixPositions(groups) {
      GroupOrderInverse(groups, rows);
    }
  }

  lemma NothingCollected(groups: seq<seq<GroupEpisode>>)
    ensures Collected(groups, [], {}, {}, 0, 0)
  {}

  lemma GroupDone(groups: seq<seq<GroupEpisode>>, rows: seq<Place>, seenDisplay: set<Position>,
                  seenCanonical: set<int>, g: nat)
    requires g < |groups| && Collected(groups, rows, seenDisplay, seenCanonical, g, |groups[g]|)
    ensures Collected(groups, rows, seenDisplay, seenCanonical, g + 1, 0)
  {}

  lemma AllCollected(groups: seq<seq<GroupEpisode>>, rows: seq<Place>, seenDisplay: set<Position>,
                     seenCanonical: set<int>)
    requires Collected(groups, rows, seenDisplay, seenCanonical, |groups|, 0)
    ensures DisplaysDiffer(rows) && IdsDiffer(rows)
    ensures forall r :: r in rows ==> InGroup(groups, r) && FirstListed(groups, r)
    ensures forall g, i :: 0 <= g < |groups| && 0 <= i < |groups[g]| && Usable(groups[g][i]) ==>
      Shown(rows, groups[g][i].id.value)
  {
    forall g, i | 0 <= g < |groups| && 0 <= i < |groups[g]| && Usable(groups[g][i])
      ensures Shown(rows, groups[g][i].id.value)
    {
      assert groups[g][i].id.value in seenCanonical;
    }
  }

  /** One entry: added when it is usable and new, and skipped otherwise without losing anything. */
  lemma Visited(groups: seq<seq<GroupEpisode>>, rows: seq<Place>, seenDisplay: set<Position>, seenCanonical: set<int>,
                g: nat, i: nat)
    requires g < |groups| && i < |groups[g]| && Collected(groups, rows, seenDisplay, seenCanonical, g, i)
    ensures var e := groups[g][i];
            if Usable(e) && e.id.value !in seenCanonical && (g + 1, i + 1) !in seenDisplay
            then Collected(groups, rows + [PlaceOf(e, g, i)], seenDisplay + {(g + 1, i + 1)},
                           seenCanonical + {e.id.value}, g, i + 1)
            else Collected(groups, rows, seenDisplay, seenCanonical, g, i + 1)
  {
    var e := groups[g][i];
    if Usable(e) && e.id.value !in seenCanonical && (g + 1, i + 1) !in seenDisplay {
      RowAdded(groups, rows, seenDisplay, seenCanonical, g, i);
    }
  }

  /** The place of entry i of group g. */
  function PlaceOf(e: GroupEpisode, g: nat, i: nat): Place
    requires Usable(e)
  {
    Place(g + 1, i + 1, e.id.value, e.season.value, e.episode.value)
  }

  lemma RowAdded(groups: seq<seq<GroupEpisode>>, rows: seq<Place>, seenDisplay: set<Position>, seenCanonical: set<int>,
                 g: nat, i: nat)
    requires g < |groups| && i < |groups[g]| && Collected(groups, rows, seenDisplay, seenCanonical, g, i)
    requires Usable(groups[g][i]) && groups[g][i].id.value !in seenCanonical && (g + 1, i + 1) !in seenDisplay
    ensures Collected(groups, rows + [PlaceOf(groups[g][i], g, i)], seenDisplay + {(g + 1, i + 1)},
                      seenCanonical + {groups[g][i].id.value}, g, i + 1)
  {
    var row := PlaceOf(groups[g][i], g, i);
    assert InGroup(groups, row) && FirstListed(groups, row);
    hide InGroup, FirstListed;
    DiffersSnoc(rows, row, seenDisplay, seenCanonical);
    hide DisplaysDiffer, IdsDiffer;
    assert row in rows + [row];
    forall id | id in seenCanonical
      ensures Shown(rows + [row], id)
    {
      var r :| r in rows && r.tmdbId == id;
      assert r in rows + [row];
    }
  }

  lemma DiffersSnoc(rows: seq<Place>, row: Place, seenDisplay: set<Position>, seenCanonical: set<int>)
    requires DisplaysDiffer(rows) && IdsDiffer(rows)
    requires forall r :: r in rows ==> Display(r) in seenDisplay && r.tmdbId in seenCanonical
    requires Display(row) !in seenDisplay && row.tmdbId !in seenCanonical
    ensures DisplaysDiffer(rows + [row]) && IdsDiffer(rows + [row])
  {
    assert forall k :: 0 <= k < |rows| ==> rows[k] in rows;
  }

  /** The row shows the episode listed at its display position. */
  predicate InGroup(groups: seq<seq<GroupEpisode>>, r: Place) {
    && 1 <= r.displaySeason <= |groups| && 1 <= r.displayEpisode <= |groups[r.displaySeason - 1]|
    && groups[r.displaySeason - 1][r.displayEpisode - 1]
       == GroupEpisode(Some(r.tmdbId), Some(r.tmdbSeason), Some(r.tmdbEpisode))
  }

  /** No usable entry before the row's own carries its id. */
  predicate FirstListed(groups: seq<seq<GroupEpisode>>, r: Place) {
    forall h, j | 0 <= h < |groups| && 0 <= j < |groups[h]| && Usable(groups[h][j]) ::
      h + 1 < r.displaySeason || (h + 1 == r.displaySeason && j + 1 < r.displayEpisode) ==>
        groups[h][j].id != Some(r.tmdbId)
  }

  predicate Shown(rows: seq<Place>, id: int) {
    exists r :: r in rows && r.tmdbId == id
  }

  /** The state after the groups before g and the first i episodes of group g. */
  ghost predicate Collected(groups: seq<seq<GroupEpisode>>, rows: seq<Place>, seenDisplay: set<Position>,
                            seenCanonical: set<int>, g: nat, i: nat) {
    && DisplaysDiffer(rows) && IdsDiffer(rows)
    && (forall r :: r in rows ==> InGroup(groups, r) && FirstListed(groups, r))
    && (forall r :: r in rows ==> Display(r) in seenDisplay && r.tmdbId in seenCanonical)
    && (forall id :: id in seenCanonical ==> Shown(rows, id))
    && (forall d :: d in seenDisplay ==> d.0 <= g || (d.0 == g + 1 && d.1 <= i))
    && (forall h, j | 0 <= h < |groups| && 0 <= j < |groups[h]| && (h < g || (h == g && j < i)) ::
          Usable(groups[h][j]) ==> groups[h][j].id.value in seenCanonical)
  }

  // ----- TVDB season types, through the stored mapping

  datatype TypedEpisode = TypedEpisode(tvdbId: Option<int>, season: Option<int>, number: Option<int>)

  function Bridge(mapping: seq<Mapping>, tvdbId: int): (r: Option<Mapping>)
    ensures r.Some? ==> r.value in mapping && r.value.tvdbId == tvdbId
  {
    if mapping == [] then None
    else if mapping[|mapping| - 1].tvdbId == tvdbId then Some(mapping[|mapping| - 1])
    else Bridge(mapping[..|mapping| - 1], tvdbId)
  }

  /** Entry i of the season type and mapping row k, the last one for its TVDB id, make this row. */
  predicate Entry(mapping: seq<Mapping>, episodes: seq<TypedEpisode>, i: int, k: int, r: Place) {
    && 0 <= i < |episodes| && 0 <= k < |mapping|
    && episodes[i].number == Some(r.displayEpisode)
    && (episodes[i].season == Some(r.displaySeason) || (episodes[i].season.None? && r.displaySeason == 1))
    && episodes[i].tvdbId == Some(mapping[k].tvdbId)
    && (forall l :: k < l < |mapping| ==> mapping[l].tvdbId != mapping[k].tvdbId)
    && r.tmdbId == mapping[k].tmdbId && r.tmdbSeason == mapping[k].tmdbSeason
    && r.tmdbEpisode == mapping[k].tmdbEpisode
  }

  ghost predicate MadeFrom(mapping: seq<Mapping>, episodes: seq<TypedEpisode>, i: int, r: Place) {
    exists k :: Entry(mapping, episodes, i, k, r)
  }

  /** Up to entry i something is shown at this display position, or this episode is shown. */
  predicate Represented(rows: seq<Place>, entries: seq<nat>, i: int, r: Place)
    requires |entries| == |rows|
  {
    exists j :: 0 <= j < |rows| && entries[j] <= i && (Display(rows[j]) == Display(r) || rows[j].tmdbId == r.tmdbId)
  }

  /** The rows made of the first n entries, in order; entries names the entry of each row. */
  ghost predicate Placed(mapping: seq<Mapping>, episodes: seq<TypedEpisode>, rows: seq<Place>, entries: seq<nat>,
                         n: nat) {
    && |entries| == |rows|
    && (forall j :: 0 <= j < |rows| ==> entries[j] < n && MadeFrom(mapping, episodes, entries[j], rows[j]))
    && (forall j, l :: 0 <= j < l < |rows| ==> entries[j] < entries[l])
    && (forall i, r :: i < n && MadeFrom(mapping, episodes, i, r) ==> Represented(rows, entries, i, r))
  }

  lemma {:induction false} BridgeMeans(mapping: seq<Mapping>, id: int) returns (k: nat)
    requires Bridge(mapping, id).Some?
    ensures k < |mapping| && mapping[k] == Bridge(mapping, id).value
    ensures forall l :: k < l < |mapping| ==> mapping[l].tvdbId != id
  {
    var last := |mapping| - 1;
    if mapping[last].tvdbId == id {
      k := last;
    } else {
      k := BridgeMeans(mapping[..last], id);
      assert forall l :: 0 <= l < last ==> mapping[..last][l] == mapping[l];
    }
  }

  /** An entry makes one row at most: that of the mapping its id leads to. */
  lemma EntryRow(mapping: seq<Mapping>, episodes: seq<TypedEpisode>, i: int, k: int, r: Place)
    requires Entry(mapping, episodes, i, k, r)
    ensures Bridge(mapping, episodes[i].tvdbId.value) == Some(mapping[k])
  {
    assert mapping[k] in mapping;
    var l := BridgeMeans(mapping, mapping[k].tvdbId);
    assert l == k;
  }

  lemma PlacedLonger(mapping: seq<Mapping>, episodes: seq<TypedEpisode>, rows: seq<Place>, entries: seq<nat>, n: nat,
                     row: Place)
    requires Placed(mapping, episodes, rows, entries, n)
    ensures forall i, r :: Represented(rows, entries, i, r) ==> Represented(rows + [row], entries + [n], i, r)
  {
    forall i, r | Represented(rows, entries, i, r)
      ensures Represented(rows + [row], entries + [n], i, r)
    {
      var j :| 0 <= j < |rows| && entries[j] <= i && (Display(rows[j]) == Display(r) || rows[j].tmdbId == r.tmdbId);
      assert (rows + [row])[j] == rows[j] && (entries + [n])[j] == entries[j];
    }
  }

  lemma RowPlaced(mapping: seq<Mapping>, episodes: seq<TypedEpisode>, rows: seq<Place>, entries: seq<nat>, n: nat,
                  row: Place)
    requires Placed(mapping, episodes, rows, entries, n) && n < |episodes|
    requires MadeFrom(mapping, episodes, n, row)
    ensures Placed(mapping, episodes, rows + [row], entries + [n], n + 1)
  {
    PlacedLonger(mapping, episodes, rows, entries, n, row);
    forall r | MadeFrom(mapping, episodes, n, r)
      ensures Represented(rows + [row], entries + [n], n, r)
    {
      var k :| Entry(mapping, episodes, n, k, r);
      EntryRow(mapping, episodes, n, k, r);
      var m :| Entry(mapping, episodes, n, m, row);
      EntryRow(mapping, episodes, n, m, row);
      assert (rows + [row])[|rows|] == row && (entries + [n])[|rows|] == n;
    }
    hide MadeFrom, Represented;
  }

  lemma EntrySkipped(mapping: seq<Mapping>, episodes: seq<TypedEpisode>, rows: seq<Place>, entries: seq<nat>, n: nat)
    requires Placed(mapping, episodes, rows, entries, n) && n < |episodes|
    requires forall r :: MadeFrom(mapping, episodes, n, r) ==> Represented(rows, entries, n, r)
    ensures Placed(mapping, episodes, rows, entries, n + 1)
  {
    hide MadeFrom, Represented;
  }

  lemma AlreadyShown(rows: seq<Place>, entries: seq<nat>, n: nat, r: Place)
    requires |entries| == |rows| && forall j :: 0 <= j < |entries| ==> entries[j] < n
    requires Displayed(rows, Display(r)) || Shown(rows, r.tmdbId)
    ensures Represented(rows, entries, n, r)
  {
    var s :| s in rows && (Display(s) == Display(r) || s.tmdbId == r.tmdbId);
    var j :| 0 <= j < |rows| && rows[j] == s;
    assert entries[j] < n;
  }

  /**
   One row for each usable entry, in order, unless an earlier row has taken its display position or its episode;
   entries names the entry behind each row.
   */
  method PlacesFromType(mapping: seq<Mapping>, episodes: seq<TypedEpisode>)
    returns (rows: seq<Place>, ghost entries: seq<nat>)
    ensures DisplaysDiffer(rows) && IdsDiffer(rows)
    ensures |entries| == |rows|
    ensures forall j :: 0 <= j < |rows| ==> MadeFrom(mapping, episodes, entries[j], rows[j])
    ensures forall j, l :: 0 <= j < l < |rows| ==> entries[j] < entries[l]
    ensures forall i, r :: MadeFrom(mapping, episodes, i, r) ==> Represented(rows, entries, i, r)
    ensures Injective(mapping) ==> MutuallyInverse(rows)
  {
    hide MutuallyInverse, Injective, Bridged, Placed, MadeFrom, Represented, DisplaysDiffer, IdsDiffer;
    rows, entries := [], [];
    var seenDisplay: set<Position>, seenCanonical: set<int> := {}, {};
    NothingPlaced(mapping, episodes);
    for i := 0 to |episodes|
      invariant DisplaysDiffer(rows) && IdsDiffer(rows) && Placed(mapping, episodes, rows, entries, i)
      invariant forall r :: r in rows ==> Bridged(mapping, r) && Display(r) in seenDisplay && r.tmdbId in seenCanonical
      invariant forall d :: d in seenDisplay ==> Displayed(rows, d)
      invariant forall id :: id in seenCanonical ==> Shown(rows, id)
    {
      var e := episodes[i];
      var m := if e.tvdbId.Some? then Bridge(mapping, e.tvdbId.value) else None;
      if m.None? || e.number.None? {
        NoRow(mapping, episodes, rows, entries, i);
        continue;
      }
      var season := if e.season.Some? then e.season.value else 1;
      ghost var row := Place(season, e.number.value, m.value.tmdbId, m.value.tmdbSeason, m.value.tmdbEpisode);
      RowOfEntry(mapping, episodes, i, row);
      if (season, e.number.value) in seenDisplay || m.value.tmdbId in seenCanonical {
        Taken(mapping, episodes, rows, entries, i, row);
        continue;
      }
      BridgedBy(mapping, m.value, row);
      DiffersSnoc(rows, row, seenDisplay, seenCanonical);
      RowPlaced(mapping, episodes, rows, entries, i, row);
      ShownNext(rows, row);
      DisplayedNext(rows, row);
      seenDisplay := seenDisplay + {(season, e.number.value)};
      seenCanonical := seenCanonical + {m.value.tmdbId};
      rows := rows + [Place(season, e.number.value, m.value.tmdbId, m.value.tmdbSeason, m.value.tmdbEpisode)];
      entries := entries + [i];
    }
    AllPlaced(mapping, episodes, rows, entries);
    if Injective(mapping) {
      BridgedOrdersAreInverse(mapping, rows);
    }
  }

  lemma NothingPlaced(mapping: seq<Mapping>, episodes: seq<TypedEpisode>)
    ensures DisplaysDiffer([]) && IdsDiffer([]) && Placed(mapping, episodes, [], [], 0)
  {}

  lemma AllPlaced(mapping: seq<Mapping>, episodes: seq<TypedEpisode>, rows: seq<Place>, entries: seq<nat>)
    requires Placed(mapping, episodes, rows, entries, |episodes|)
    ensures |entries| == |rows|
    ensures forall j :: 0 <= j < |rows| ==> MadeFrom(mapping, episodes, entries[j], rows[j])
    ensures forall j, l :: 0 <= j < l < |rows| ==> entries[j] < entries[l]
    ensures forall i, r :: MadeFrom(mapping, episodes, i, r) ==> Represented(rows, entries, i, r)
  {
    hide Represented;
  }

  lemma ShownNext(rows: seq<Place>, row: Place)
    ensures forall id :: Shown(rows + [row], id) <==> Shown(rows, id) || id == row.tmdbId
  {
    forall id | Shown(rows, id)
      ensures Shown(rows + [row], id)
    {
      var r :| r in rows && r.tmdbId == id;
      assert r in rows + [row];
    }
    assert row in rows + [row];
  }

  /** An entry without number, or without a mapped id, makes no row. */
  lemma NoRow(mapping: seq<Mapping>, episodes: seq<TypedEpisode>, rows: seq<Place>, entries: seq<nat>, i: nat)
    requires i < |episodes| && Placed(mapping, episodes, rows, entries, i)
    requires episodes[i].number.None? || episodes[i].tvdbId.None?
             || Bridge(mapping, episodes[i].tvdbId.value).None?
    ensures Placed(mapping, episodes, rows, entries, i + 1)
  {
    forall r
      ensures !MadeFrom(mapping, episodes, i, r)
    {
      if k :| Entry(mapping, episodes, i, k, r) {
        EntryRow(mapping, episodes, i, k, r);
      }
    }
    EntrySkipped(mapping, episodes, rows, entries, i);
  }

  lemma RowOfEntry(mapping: seq<Mapping>, episodes: seq<TypedEpisode>, i: nat, r: Place)
    requires i < |episodes| && episodes[i].number.Some? && episodes[i].tvdbId.Some?
    requires Bridge(mapping, episodes[i].tvdbId.value).Some?
    requires var m := Bridge(mapping, episodes[i].tvdbId.value).value;
             var season := if episodes[i].season.Some? then episodes[i].season.value else 1;
             r == Place(season, episodes[i].number.value, m.tmdbId, m.tmdbSeason, m.tmdbEpisode)
    ensures MadeFrom(mapping, episodes, i, r)
    ensures forall s :: MadeFrom(mapping, episodes, i, s) ==> s == r
  {
    var k := BridgeMeans(mapping, episodes[i].tvdbId.value);
    assert Entry(mapping, episodes, i, k, r);
    forall s | MadeFrom(mapping, episodes, i, s)
      ensures s == r
    {
      var l :| Entry(mapping, episodes, i, l, s);
      EntryRow(mapping, episodes, i, l, s);
    }
  }

  /** An entry whose display position or episode is taken adds nothing. */
  lemma Taken(mapping: seq<Mapping>, episodes: seq<TypedEpisode>, rows: seq<Place>, entries: seq<nat>, i: nat,
              row: Place)
    requires i < |episodes| && Placed(mapping, episodes, rows, entries, i)
    requires Displayed(rows, Display(row)) || Shown(rows, row.tmdbId)
    requires forall s :: MadeFrom(mapping, episodes, i, s) ==> s == row
    ensures Placed(mapping, episodes, rows, entries, i + 1)
  {
    AlreadyShown(rows, entries, i, row);
    EntrySkipped(mapping, episodes, rows, entries, i);
  }

  lemma BridgedBy(mapping: seq<Mapping>, m: Mapping, r: Place)
    requires m in mapping && m.tmdbId == r.tmdbId && TmdbPosition(m) == Canonical(r)
    ensures Bridged(mapping, r)
  {}

  /** The row's canonical side is one mapped episode. */
  ghost predicate Bridged(mapping: seq<Mapping>, r: Place) {
    exists m :: m in mapping && m.tmdbId == r.tmdbId && TmdbPosition(m) == Canonical(r)
  }

  /** The official order takes the mapping's own TVDB numbers. */
  method PlacesFromOfficial(mapping: seq<Mapping>) returns (rows: seq<Place>)
    ensures rows == Official(mapping)
    ensures DisplaysDiffer(rows)
    ensures Injective(mapping) ==> CanonicalsDiffer(rows) && MutuallyInverse(rows)
    ensures forall r :: r in rows ==> Bridged(mapping, r)
  {
    hide Official, Displayed, MutuallyInverse;
    rows := [];
    var seenDisplay: set<Position> := {};
    NothingDisplayed();
    for i := 0 to |mapping|
      invariant rows == Official(mapping[..i])
      invariant forall d :: d in seenDisplay <==> Displayed(rows, d)
    {
      var m := mapping[i];
      var key := (m.tvdbSeason, m.tvdbEpisode);
      OfficialNext(mapping, i);
      if key !in seenDisplay {
        var row := OfficialPlace(m);
        DisplayedNext(rows, row);
        seenDisplay := seenDisplay + {key};
        rows := rows + [row];
      }
    }
    assert mapping[..|mapping|] == mapping;
    OfficialFacts(mapping);
    InverseIffCanonicalsDiffer(rows);
  }

  lemma NothingDisplayed()
    ensures Official([]) == [] && forall d :: !Displayed([], d)
  {}

  lemma DisplayedNext(rows: seq<Place>, row: Place)
    ensures forall d :: Displayed(rows + [row], d) <==> Displayed(rows, d) || d == Display(row)
  {
    forall d | Displayed(rows, d)
      ensures Displayed(rows + [row], d)
    {
      var r :| r in rows && Display(r) == d;
      assert r in rows + [row];
    }
    assert row in rows + [row];
  }

  predicate Displayed(rows: seq<Place>, d: Position) {
    exists r :: r in rows && Display(r) == d
  }

  function OfficialPlace(m: Mapping): Place {
    Place(m.tvdbSeason, m.tvdbEpisode, m.tmdbId, m.tmdbSeason, m.tmdbEpisode)
  }

  /** One row for each TVDB position, that of the first mapping there. */
  function Official(mapping: seq<Mapping>): seq<Place> {
    if mapping == [] then []
    else
      var before, m := Official(mapping[..|mapping| - 1]), mapping[|mapping| - 1];
      if Displayed(before, (m.tvdbSeason, m.tvdbEpisode)) then before
      else before + [OfficialPlace(m)]
  }

  /** No earlier mapping has this one's TVDB position. */
  predicate FirstThere(mapping: seq<Mapping>, k: int) {
    && 0 <= k < |mapping|
    && forall j :: 0 <= j < k ==>
         mapping[j].tvdbSeason != mapping[k].tvdbSeason || mapping[j].tvdbEpisode != mapping[k].tvdbEpisode
  }

  /** The row is that of a mapping which is the first at its TVDB position. */
  ghost predicate FirstRow(mapping: seq<Mapping>, r: Place) {
    exists k :: FirstThere(mapping, k)
      && r.displaySeason == mapping[k].tvdbSeason && r.displayEpisode == mapping[k].tvdbEpisode
      && r.tmdbId == mapping[k].tmdbId
      && r.tmdbSeason == mapping[k].tmdbSeason && r.tmdbEpisode == mapping[k].tmdbEpisode
  }

  /** The official order shows each TVDB position once, as the first mapping there has it. */
  lemma {:induction false} OfficialMeans(mapping: seq<Mapping>)
    ensures forall k :: FirstThere(mapping, k) ==>
      Place(mapping[k].tvdbSeason, mapping[k].tvdbEpisode, mapping[k].tmdbId, mapping[k].tmdbSeason,
            mapping[k].tmdbEpisode) in Official(mapping)
    ensures forall r :: r in Official(mapping) ==> FirstRow(mapping, r)
  {
    if mapping != [] {
      var n := |mapping| - 1;
      var init := mapping[..n];
      OfficialMeans(init);
      FirstLonger(mapping, n);
      PositionTaken(mapping, n);
      assert FirstThere(mapping, n) ==> FirstRow(mapping, OfficialPlace(mapping[n]));
      hide FirstThere, FirstRow, Displayed;
    }
  }

  lemma FirstLonger(mapping: seq<Mapping>, n: nat)
    requires n < |mapping|
    ensures forall k :: FirstThere(mapping, k) && k != n && k < n ==> FirstThere(mapping[..n], k) && 0 <= k
    ensures forall k :: FirstThere(mapping, k) ==> 0 <= k < |mapping|
    ensures forall r :: FirstRow(mapping[..n], r) ==> FirstRow(mapping, r)
  {
    forall r | FirstRow(mapping[..n], r)
      ensures FirstRow(mapping, r)
    {
      var init := mapping[..n];
      var k :| FirstThere(init, k)
               && r.displaySeason == init[k].tvdbSeason && r.displayEpisode == init[k].tvdbEpisode
               && r.tmdbId == init[k].tmdbId
               && r.tmdbSeason == init[k].tmdbSeason && r.tmdbEpisode == init[k].tmdbEpisode;
      assert FirstThere(mapping, k) && init[k] == mapping[k];
    }
  }

  lemma PositionTaken(mapping: seq<Mapping>, n: nat)
    requires n < |mapping|
    requires forall k :: FirstThere(mapping[..n], k) ==> OfficialPlace(mapping[..n][k]) in Official(mapping[..n])
    requires forall r :: r in Official(mapping[..n]) ==> FirstRow(mapping[..n], r)
    ensures FirstThere(mapping, n)
            <==> !Displayed(Official(mapping[..n]), (mapping[n].tvdbSeason, mapping[n].tvdbEpisode))
  {
    var init := mapping[..n];
    if !FirstThere(mapping, n) {
      var j :| 0 <= j < n && mapping[j].tvdbSeason == mapping[n].tvdbSeason
               && mapping[j].tvdbEpisode == mapping[n].tvdbEpisode;
      var k := EarliestThere(init, j);
      assert OfficialPlace(init[k]) in Official(init);
    }
  }

  lemma EarliestThere(mapping: seq<Mapping>, j: nat) returns (k: nat)
    requires j < |mapping|
    ensures FirstThere(mapping, k) && mapping[k].tvdbSeason == mapping[j].tvdbSeason
            && mapping[k].tvdbEpisode == mapping[j].tvdbEpisode
  {
    k := j;
    if !FirstThere(mapping, j) {
      var i :| 0 <= i < j && mapping[i].tvdbSeason == mapping[j].tvdbSeason
               && mapping[i].tvdbEpisode == mapping[j].tvdbEpisode;
      k := EarliestThere(mapping, i);
    }
  }

  lemma OfficialNext(mapping: seq<Mapping>, i: nat)
    requires i < |mapping|
    ensures var before, m := Official(mapping[..i]), mapping[i];
            Official(mapping[..i + 1]) ==
            if Displayed(before, (m.tvdbSeason, m.tvdbEpisode)) then before
            else before + [OfficialPlace(m)]
  {
    assert mapping[..i + 1][..i] == mapping[..i];
  }

  // ----- translating positions

  function ByDisplay(rows: seq<Place>): map<Position, Place> {
    if rows == [] then map[]
    else ByDisplay(rows[..|rows| - 1])[Display(rows[|rows| - 1]) := rows[|rows| - 1]]
  }

  function ByCanonical(rows: seq<Place>): map<Position, Place> {
    if rows == [] then map[]
    else ByCanonical(rows[..|rows| - 1])[Canonical(rows[|rows| - 1]) := rows[|rows| - 1]]
  }

  lemma {:induction false} ByDisplayFacts(rows: seq<Place>)
    ensures forall d :: d in ByDisplay(rows) ==> ByDisplay(rows)[d] in rows && Display(ByDisplay(rows)[d]) == d
    ensures forall r :: r in rows ==> Display(r) in ByDisplay(rows)
    ensures DisplaysDiffer(rows) ==> forall r :: r in rows ==> ByDisplay(rows)[Display(r)] == r
  {
    if rows != [] {
      var init, last := rows[..|rows| - 1], rows[|rows| - 1];
      ByDisplayFacts(init);
      assert rows == init + [last];
      forall r | r in init && DisplaysDiffer(rows)
        ensures Display(r) != Display(last)
      {
        var i :| 0 <= i < |init| && init[i] == r;
        assert rows[i] == r;
      }
    }
  }

  lemma {:induction false} ByCanonicalFacts(rows: seq<Place>)
    ensures forall c :: c in ByCanonical(rows) ==> ByCanonical(rows)[c] in rows && Canonical(ByCanonical(rows)[c]) == c
    ensures forall r :: r in rows ==> Canonical(r) in ByCanonical(rows)
    ensures CanonicalsDiffer(rows) ==> forall r :: r in rows ==> ByCanonical(rows)[Canonical(r)] == r
  {
    if rows != [] {
      var init, last := rows[..|rows| - 1], rows[|rows| - 1];
      ByCanonicalFacts(init);
      assert rows == init + [last];
      forall r | r in init && CanonicalsDiffer(rows)
        ensures Canonical(r) != Canonical(last)
      {
        var i :| 0 <= i < |init| && init[i] == r;
        assert rows[i] == r;
      }
    }
  }

  /** Following one map and then the other returns to the start, from either side. */
  ghost predicate MutuallyInverse(rows: seq<Place>) {
    && (forall d :: d in ByDisplay(rows) ==>
          && Canonical(ByDisplay(rows)[d]) in ByCanonical(rows)
          && Display(ByCanonical(rows)[Canonical(ByDisplay(rows)[d])]) == d)
    && (forall c :: c in ByCanonical(rows) ==>
          && Display(ByCanonical(rows)[c]) in ByDisplay(rows)
          && Canonical(ByDisplay(rows)[Display(ByCanonical(rows)[c])]) == c)
  }

  /** With distinct display positions, the maps are inverse exactly when canonical positions are distinct too. */
  lemma InverseIffCanonicalsDiffer(rows: seq<Place>)
    requires DisplaysDiffer(rows)
    ensures MutuallyInverse(rows) <==> CanonicalsDiffer(rows)
  {
    ByDisplayFacts(rows);
    ByCanonicalFacts(rows);
    if MutuallyInverse(rows) {
      forall i, j | 0 <= i < j < |rows|
        ensures Canonical(rows[i]) != Canonical(rows[j])
      {
        assert rows[i] in rows && rows[j] in rows;
        assert Display(rows[i]) in ByDisplay(rows) && Display(rows[j]) in ByDisplay(rows);
      }
    }
  }

  /** In the groups, an episode id comes with one season and episode number. */
  ghost predicate IdsFixPositions(groups: seq<seq<GroupEpisode>>) {
    forall g, i, h, j :: Listed(groups, g, i) && Listed(groups, h, j) && groups[g][i].id == groups[h][j].id ==>
      groups[g][i] == groups[h][j]
  }

  /** No two usable entries of different ids carry one season and episode number. */
  ghost predicate PositionsFixIds(groups: seq<seq<GroupEpisode>>) {
    forall g, i, h, j :: Listed(groups, g, i) && Listed(groups, h, j) && SameNumbers(groups[g][i], groups[h][j]) ==>
      groups[g][i].id == groups[h][j].id
  }

  predicate SameNumbers(a: GroupEpisode, b: GroupEpisode) {
    a.season == b.season && a.episode == b.episode
  }

  predicate Listed(groups: seq<seq<GroupEpisode>>, g: int, i: int) {
    0 <= g < |groups| && 0 <= i < |groups[g]| && Usable(groups[g][i])
  }

  lemma ListedAt(groups: seq<seq<GroupEpisode>>, r: Place)
    requires InGroup(groups, r)
    ensures Listed(groups, r.displaySeason - 1, r.displayEpisode - 1)
  {}

  /** The row that shows a listed entry has that entry's numbers. */
  lemma ShownAt(groups: seq<seq<GroupEpisode>>, rows: seq<Place>, g: nat, i: nat) returns (k: nat)
    requires IdsFixPositions(groups) && Listed(groups, g, i) && Shown(rows, groups[g][i].id.value)
    requires forall r :: r in rows ==> InGroup(groups, r)
    ensures k < |rows| && rows[k].tmdbId == groups[g][i].id.value
    ensures Canonical(rows[k]) == (groups[g][i].season.value, groups[g][i].episode.value)
  {
    var r :| r in rows && r.tmdbId == groups[g][i].id.value;
    k :| 0 <= k < |rows| && rows[k] == r;
    ListedAt(groups, r);
    assert groups[r.displaySeason - 1][r.displayEpisode - 1] == groups[g][i];
  }

  /**
   When ids determine positions in a provider's groups, the order built from them is inverse both ways exactly when
   positions determine ids as well.
   */
  lemma GroupOrderInverse(groups: seq<seq<GroupEpisode>>, rows: seq<Place>)
    requires IdsFixPositions(groups) && DisplaysDiffer(rows) && IdsDiffer(rows)
    requires forall r :: r in rows ==> InGroup(groups, r)
    requires forall g, i :: 0 <= g < |groups| && 0 <= i < |groups[g]| && Usable(groups[g][i]) ==>
      Shown(rows, groups[g][i].id.value)
    ensures MutuallyInverse(rows) <==> PositionsFixIds(groups)
  {
    hide MutuallyInverse, IdsFixPositions, Shown;
    InverseIffCanonicalsDiffer(rows);
    if CanonicalsDiffer(rows) {
      forall g, i, h, j | Listed(groups, g, i) && Listed(groups, h, j) && SameNumbers(groups[g][i], groups[h][j])
        ensures groups[g][i].id == groups[h][j].id
      {
        var k := ShownAt(groups, rows, g, i);
        var l := ShownAt(groups, rows, h, j);
        assert k == l;
      }
    }
    if PositionsFixIds(groups) {
      forall k, l | 0 <= k < l < |rows|
        ensures Canonical(rows[k]) != Canonical(rows[l])
      {
        assert rows[k] in rows && rows[l] in rows;
        ListedAt(groups, rows[k]);
        ListedAt(groups, rows[l]);
      }
    }
  }

  /** Whatever builds made the mapping, its official order translates back and forth without loss. */
  lemma {:induction false} OfficialOrderIsInverse(requests: seq<Request>)
    requires forall i :: 0 <= i < |requests| ==> DistinctPositions(requests[i].p.tmdb)
    ensures MutuallyInverse(Official(AfterAll([], requests)))
  {
    hide MutuallyInverse, DistinctPositions;
    BuildsKeepInjective(requests);
    var mapping := AfterAll([], requests);
    OfficialFacts(mapping);
    InverseIffCanonicalsDiffer(Official(mapping));
  }

  lemma OfficialFacts(mapping: seq<Mapping>)
    ensures DisplaysDiffer(Official(mapping))
    ensures Injective(mapping) ==> CanonicalsDiffer(Official(mapping))
    ensures forall r :: r in Official(mapping) ==> Bridged(mapping, r)
  {
    OfficialDisplays(mapping);
    OfficialBridged(mapping);
    if Injective(mapping) {
      OfficialCanonicals(mapping);
    }
  }

  lemma {:induction false} OfficialDisplays(mapping: seq<Mapping>)
    ensures DisplaysDiffer(Official(mapping))
  {
    if mapping != [] {
      OfficialDisplays(mapping[..|mapping| - 1]);
      var before := Official(mapping[..|mapping| - 1]);
      forall i | 0 <= i < |before|
        ensures Displayed(before, Display(before[i]))
      {
        assert before[i] in before;
      }
    }
  }

  lemma BridgedLonger(mapping: seq<Mapping>, n: nat, r: Place)
    requires n <= |mapping| && Bridged(mapping[..n], r)
    ensures Bridged(mapping, r)
  {
    var m :| m in mapping[..n] && m.tmdbId == r.tmdbId && TmdbPosition(m) == Canonical(r);
    BridgedBy(mapping, m, r);
  }

  lemma {:induction false} OfficialBridged(mapping: seq<Mapping>)
    ensures forall r :: r in Official(mapping) ==> Bridged(mapping, r)
  {
    hide Bridged, Displayed;
    if mapping != [] {
      var n := |mapping| - 1;
      OfficialBridged(mapping[..n]);
      forall r | r in Official(mapping[..n])
        ensures Bridged(mapping, r)
      {
        BridgedLonger(mapping, n, r);
      }
      BridgedBy(mapping, mapping[n], OfficialPlace(mapping[n]));
    }
  }

  lemma {:induction false} OfficialCanonicals(mapping: seq<Mapping>)
    requires Injective(mapping)
    ensures CanonicalsDiffer(Official(mapping))
  {
    hide Displayed;
    if mapping != [] {
      var n := |mapping| - 1;
      OfficialCanonicals(mapping[..n]);
      OfficialBridged(mapping[..n]);
      var before := Official(mapping[..n]);
      forall i | 0 <= i < |before|
        ensures Canonical(before[i]) != TmdbPosition(mapping[n])
      {
        assert before[i] in before;
        BridgedElsewhere(mapping, n, before[i]);
      }
    }
  }

  lemma BridgedElsewhere(mapping: seq<Mapping>, n: nat, r: Place)
    requires Injective(mapping) && n < |mapping| && Bridged(mapping[..n], r)
    ensures Canonical(r) != TmdbPosition(mapping[n])
  {
    var m :| m in mapping[..n] && m.tmdbId == r.tmdbId && TmdbPosition(m) == Canonical(r);
    var j :| 0 <= j < n && mapping[..n][j] == m;
    assert mapping[j] == m;
  }

  /** An order built through an injective mapping is inverse without further assumptions. */
  lemma BridgedOrdersAreInverse(mapping: seq<Mapping>, rows: seq<Place>)
    requires Injective(mapping) && DisplaysDiffer(rows) && IdsDiffer(rows)
    requires forall r :: r in rows ==> Bridged(mapping, r)
    ensures MutuallyInverse(rows)
  {
    forall i, j | 0 <= i < j < |rows|
      ensures Canonical(rows[i]) != Canonical(rows[j])
    {
      assert rows[i] in rows && rows[j] in rows;
      var m :| m in mapping && m.tmdbId == rows[i].tmdbId && TmdbPosition(m) == Canonical(rows[i]);
      var n :| n in mapping && n.tmdbId == rows[j].tmdbId && TmdbPosition(n) == Canonical(rows[j]);
      var a :| 0 <= a < |mapping| && mapping[a] == m;
      var b :| 0 <= b < |mapping| && mapping[b] == n;
    }
    InverseIffCanonicalsDiffer(rows);
  }

  /** The canonical position of a display position; the aired order is the identity. */
  method ResolveDisplay(aired: bool, rows: seq<Place>, season: int, episode: int) returns (r: Option<Position>)
    requires DisplaysDiffer(rows)
    ensures aired ==> r == Some((season, episode))
    ensures !aired ==> r == if (season, episode) in ByDisplay(rows)
                            then Some(Canonical(ByDisplay(rows)[(season, episode)]))
                            else None
    ensures !aired ==> forall row :: row in rows && row.displaySeason == season && row.displayEpisode == episode ==>
      r == Some((row.tmdbSeason, row.tmdbEpisode))
    ensures !aired && r.Some? ==>
      exists row :: row in rows && row.displaySeason == season && row.displayEpisode == episode
  {
    if aired {
      return Some((season, episode));
    }
    ByDisplayFacts(rows);
    for i := 0 to |rows|
      invariant forall j :: 0 <= j < i ==> Display(rows[j]) != (season, episode)
    {
      if rows[i].displaySeason == season && rows[i].displayEpisode == episode {
        assert rows[i] in rows;
        return Some((rows[i].tmdbSeason, rows[i].tmdbEpisode));
      }
    }
    r := None;
    assert forall row :: row in rows ==> Display(row) != (season, episode);
  }
}
