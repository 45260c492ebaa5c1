/** A title's released episodes in order, and which of its seasons a set of watched episodes completes. */
module SeasonProgress {

  datatype Episode = Episode(id: int, season: int, number: int)

  /** Released episodes by season and number; expected is each season's announced length. */
  datatype Catalogue = Catalogue(isSeries: bool, episodes: seq<Episode>, expected: map<int, int>)

  function Ids(episodes: seq<Episode>): set<int> {
    set e | e in episodes :: e.id
  }

  /** The episodes whose ids are given, in catalogue order. */
  function Among(episodes: seq<Episode>, ids: set<int>): (r: seq<Episode>)
    ensures forall e :: e in r <==> e in episodes && e.id in ids
  {
    if episodes == [] then []
    else if episodes[0].id in ids then [episodes[0]] + Among(episodes[1..], ids)
    else Among(episodes[1..], ids)
  }

  function CountIn(episodes: seq<Episode>, season: int): (n: nat)
    ensures n <= |episodes|
  {
    if episodes == [] then 0 else (if episodes[0].season == season then 1 else 0) + CountIn(episodes[1..], season)
  }

  function Announced(c: Catalogue, season: int): int {
    if season in c.expected then c.expected[season] else 0
  }

  predicate Complete(c: Catalogue, watched: seq<Episode>, season: int) {
    Announced(c, season) > 0 && CountIn(c.episodes, season) == Announced(c, season) == CountIn(watched, season)
  }

  function Seasons(episodes: seq<Episode>): set<int> {
    set e | e in episodes && e.season > 0 :: e.season
  }

  function Finished(c: Catalogue, watched: seq<Episode>): set<int> {
    set s | s in Seasons(watched) && Complete(c, watched, s)
  }

  /** Season by season, over the seasons watched. */
  method FinishedSeasons(c: Catalogue, watched: seq<Episode>) returns (finished: set<int>)
    ensures finished == Finished(c, watched)
  {
    finished := {};
    var todo := Seasons(watched);
    while todo != {}
      invariant todo <= Seasons(watched)
      invariant finished == set s | s in Seasons(watched) - todo && Complete(c, watched, s)
    {
      var s :| s in todo;
      if Announced(c, s) > 0 && CountIn(c.episodes, s) == Announced(c, s) == CountIn(watched, s) {
        finished := finished + {s};
      }
      todo := todo - {s};
    }
  }

  /** The chosen episodes keep their order, and each is chosen as often as it is listed. */
  lemma {:induction false} AmongInOrder(episodes: seq<Episode>, e: Episode, ids: set<int>)
    ensures Among([], ids) == []
    ensures Among(episodes + [e], ids) == Among(episodes, ids) + if e.id in ids then [e] else []
  {
    if episodes == [] {
      assert [] + [e] == [e] && [e][1..] == [];
    } else {
      AmongInOrder(episodes[1..], e, ids);
      assert (episodes + [e])[1..] == episodes[1..] + [e];
    }
  }

  /** Each episode with the season's number counts for one, wherever it is listed. */
  lemma {:induction false} CountedOneByOne(episodes: seq<Episode>, e: Episode, season: int)
    ensures CountIn([], season) == 0
    ensures CountIn(episodes + [e], season) == CountIn(episodes, season) + if e.season == season then 1 else 0
  {
    if episodes == [] {
      assert [] + [e] == [e] && [e][1..] == [];
    } else {
      CountedOneByOne(episodes[1..], e, season);
      assert (episodes + [e])[1..] == episodes[1..] + [e];
    }
  }

  lemma {:induction false} CountAmong(episodes: seq<Episode>, ids: set<int>, season: int)
    ensures CountIn(Among(episodes, ids), season) <= CountIn(episodes, season)
    ensures CountIn(Among(episodes, ids), season) == CountIn(episodes, season) <==>
            forall e :: e in episodes && e.season == season ==> e.id in ids
  {
    if episodes != [] {
      CountAmong(episodes[1..], ids, season);
      assert episodes == [episodes[0]] + episodes[1..];
      var rest := Among(episodes[1..], ids);
      if episodes[0].id in ids {
        assert Among(episodes, ids)[1..] == rest;
      }
    }
  }

  lemma {:induction false} CountPositive(episodes: seq<Episode>, season: int)
    requires CountIn(episodes, season) > 0
    ensures exists e :: e in episodes && e.season == season
  {
    if episodes[0].season != season {
      CountPositive(episodes[1..], season);
    }
  }

  /** A season is finished exactly when it is released in full and every one of its episodes is watched. */
  lemma FinishedMeans(c: Catalogue, ids: set<int>, season: int)
    ensures season in Finished(c, Among(c.episodes, ids)) <==>
            season > 0 && season in c.expected && c.expected[season] > 0
            && CountIn(c.episodes, season) == c.expected[season]
            && forall e :: e in c.episodes && e.season == season ==> e.id in ids
  {
    CountAmong(c.episodes, ids, season);
    if CountIn(Among(c.episodes, ids), season) > 0 {
      CountPositive(Among(c.episodes, ids), season);
    }
  }

  /** Watching more never un-finishes a season. */
  lemma FinishedGrows(c: Catalogue, ids: set<int>, more: set<int>)
    requires ids <= more
    ensures Finished(c, Among(c.episodes, ids)) <= Finished(c, Among(c.episodes, more))
  {
    forall s | s in Finished(c, Among(c.episodes, ids))
      ensures s in Finished(c, Among(c.episodes, more))
    {
      FinishedMeans(c, ids, s);
      FinishedMeans(c, more, s);
    }
  }
}
