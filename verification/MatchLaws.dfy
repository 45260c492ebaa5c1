/** Which TVDB episode an episode is matched to, said of the provider lists alone. */
module MatchLaws {
  import opened TextOrder
  import opened EpisodeMatching

  /** The last listed episode with the id that TMDB names for the position, unless another episode has used it. */
  ghost predicate CrossReference(p: Providers, e: TmdbEpisode, used: set<int>, n: nat) {
    && n < |p.tvdb| && p.tvdb[n].id != 0 && p.tvdb[n].id !in used
    && p.externalId((e.season, e.episode)) == Some(p.tvdb[n].id)
    && forall m :: n < m < |p.tvdb| ==> p.tvdb[m].id != p.tvdb[n].id
  }

  /** An unused episode of the same title, at most a day apart where both dates are known. */
  ghost predicate TitleAndDate(tvdb: seq<TvdbEpisode>, e: TmdbEpisode, used: set<int>, n: nat) {
    && n < |tvdb| && tvdb[n].id !in used && |e.title| > 0 && tvdb[n].title == e.title
    && (e.airDate.Some? && tvdb[n].aired.Some? ==>
          tvdb[n].aired.value - 1 <= e.airDate.value <= tvdb[n].aired.value + 1)
  }

  ghost predicate OnlyTitle(tvdb: seq<TvdbEpisode>, e: TmdbEpisode, used: set<int>, n: nat) {
    TitleAndDate(tvdb, e, used, n) && forall m: nat :: TitleAndDate(tvdb, e, used, m) ==> m == n
  }

  /** The row for a match; an episode without season or number makes none. */
  function RowFor(e: TmdbEpisode, c: TvdbEpisode, how: Method): Option<Mapping> {
    match (c.season, c.number)
    case (Some(s), Some(n)) => Some(Mapping(e.season, e.episode, e.id, c.id, s, n, how))
    case _ => None
  }

  // ----- candidates

  lemma TitleInTail(tvdb: seq<TvdbEpisode>, e: TmdbEpisode, used: set<int>, n: nat)
    requires tvdb != []
    ensures TitleAndDate(tvdb[1..], e, used, n) == TitleAndDate(tvdb, e, used, n + 1)
  {}

  lemma TitleAtHead(tvdb: seq<TvdbEpisode>, e: TmdbEpisode, used: set<int>)
    requires tvdb != []
    ensures TitleAndDate(tvdb, e, used, 0) <==> tvdb[0].id !in used && SameTitle(e, tvdb[0])
  {}

  lemma {:induction false} NoCandidates(tvdb: seq<TvdbEpisode>, e: TmdbEpisode, used: set<int>)
    ensures Candidates(e, tvdb, used) == [] <==> forall n: nat :: !TitleAndDate(tvdb, e, used, n)
  {
    if tvdb != [] {
      TitleAtHead(tvdb, e, used);
      NoCandidates(tvdb[1..], e, used);
      forall n: nat
        ensures TitleAndDate(tvdb[1..], e, used, n) == TitleAndDate(tvdb, e, used, n + 1)
      {
        TitleInTail(tvdb, e, used, n);
      }
      hide TitleAndDate, SameTitle;
      if Candidates(e, tvdb[1..], used) == [] && !(tvdb[0].id !in used && SameTitle(e, tvdb[0])) {
        forall n: nat
          ensures !TitleAndDate(tvdb, e, used, n)
        {
          if n > 0 {
            assert !TitleAndDate(tvdb[1..], e, used, n - 1);
          }
        }
      }
    }
  }

  lemma {:induction false} OneCandidate(tvdb: seq<TvdbEpisode>, e: TmdbEpisode, used: set<int>)
    ensures |Candidates(e, tvdb, used)| == 1 <==> exists n: nat :: OnlyTitle(tvdb, e, used, n)
    ensures forall n: nat :: OnlyTitle(tvdb, e, used, n) ==> Candidates(e, tvdb, used) == [tvdb[n]]
  {
    if tvdb != [] {
      var tail := tvdb[1..];
      TitleAtHead(tvdb, e, used);
      NoCandidates(tail, e, used);
      OneCandidate(tail, e, used);
      forall n: nat
        ensures TitleAndDate(tail, e, used, n) == TitleAndDate(tvdb, e, used, n + 1)
      {
        TitleInTail(tvdb, e, used, n);
      }
      forall n: nat | n > 0
        ensures TitleAndDate(tvdb, e, used, n) == TitleAndDate(tail, e, used, n - 1)
      {
        TitleInTail(tvdb, e, used, n - 1);
      }
      InList(tvdb, e, used);
      InList(tail, e, used);
      hide TitleAndDate, SameTitle;
      var rest := Candidates(e, tail, used);
      if tvdb[0].id !in used && SameTitle(e, tvdb[0]) {
        assert Candidates(e, tvdb, used) == [tvdb[0]] + rest;
        if rest == [] {
          assert OnlyTitle(tvdb, e, used, 0);
        } else {
          var k: nat :| TitleAndDate(tail, e, used, k);
          assert TitleAndDate(tvdb, e, used, k + 1);
        }
      } else {
        assert Candidates(e, tvdb, used) == rest;
        forall n: nat | OnlyTitle(tail, e, used, n)
          ensures OnlyTitle(tvdb, e, used, n + 1)
        {
          forall m: nat | TitleAndDate(tvdb, e, used, m)
            ensures m == n + 1
          {
            if m > 0 { assert TitleAndDate(tail, e, used, m - 1); }
          }
        }
        forall n: nat | OnlyTitle(tvdb, e, used, n)
          ensures n > 0 && OnlyTitle(tail, e, used, n - 1)
        {
          assert n > 0;
          assert TitleAndDate(tail, e, used, n - 1);
          forall m: nat | TitleAndDate(tail, e, used, m)
            ensures m == n - 1
          {
            assert TitleAndDate(tvdb, e, used, m + 1);
          }
        }
      }
    } else {
      InList(tvdb, e, used);
    }
  }

  lemma InList(tvdb: seq<TvdbEpisode>, e: TmdbEpisode, used: set<int>)
    ensures forall n: nat :: TitleAndDate(tvdb, e, used, n) ==> n < |tvdb|
  {}

  lemma {:induction false} ByIdMeans(tvdb: seq<TvdbEpisode>, id: int) returns (n: nat)
    requires ById(tvdb, id).Some?
    ensures n < |tvdb| && tvdb[n] == ById(tvdb, id).value
    ensures forall m :: n < m < |tvdb| ==> tvdb[m].id != id
  {
    var last := |tvdb| - 1;
    if tvdb[last].id == id {
      n := last;
    } else {
      n := ByIdMeans(tvdb[..last], id);
      assert forall m :: 0 <= m < last ==> tvdb[..last][m] == tvdb[m];
    }
  }

  // ----- one episode

  /**
   A cross-reference comes first; without one a title and date decide, if they fit exactly one unused episode; an
   ambiguous title, like none at all, leaves the episode unmatched.
   */
  lemma MatchMeans(p: Providers, e: TmdbEpisode, used: set<int>)
    ensures forall n: nat :: CrossReference(p, e, used, n) ==> Step(p, e, used) == RowFor(e, p.tvdb[n], ExternalId)
    ensures forall n: nat :: OnlyTitle(p.tvdb, e, used, n) && (forall k: nat :: !CrossReference(p, e, used, k)) ==>
      Step(p, e, used) == RowFor(e, p.tvdb[n], TitleDate)
    ensures (forall n: nat :: !CrossReference(p, e, used, n)) && (forall n: nat :: !OnlyTitle(p.tvdb, e, used, n)) ==>
      Step(p, e, used).None?
  {
    OneCandidate(p.tvdb, e, used);
    ReferenceFound(p, e, used);
    hide OnlyTitle, CrossReference, Candidates, ById, External;
  }

  /** What MatchOne takes for a cross-reference. */
  function Direct(p: Providers, e: TmdbEpisode, used: set<int>): Option<TvdbEpisode> {
    var external := External(p, e);
    if external.Some? && external.value !in used then ById(p.tvdb, external.value) else None
  }

  lemma ReferenceFound(p: Providers, e: TmdbEpisode, used: set<int>)
    ensures Direct(p, e, used).Some? <==> exists n: nat :: CrossReference(p, e, used, n)
    ensures forall n: nat :: CrossReference(p, e, used, n) ==> Direct(p, e, used) == Some(p.tvdb[n])
  {
    var external := External(p, e);
    if Direct(p, e, used).Some? {
      var n := ByIdMeans(p.tvdb, external.value);
      assert CrossReference(p, e, used, n);
    }
    forall n: nat | CrossReference(p, e, used, n)
      ensures Direct(p, e, used) == Some(p.tvdb[n])
    {
      assert p.tvdb[n] in p.tvdb;
      var k := ByIdMeans(p.tvdb, external.value);
      assert k == n;
    }
  }

  // ----- a list of episodes

  function IdsOf(rows: seq<Mapping>): set<int> {
    set m | m in rows :: m.tvdbId
  }

  /** Episodes are matched one after the other, each against what the matches before it have not used. */
  lemma {:induction false} MatchedInTurn(p: Providers, episodes: seq<TmdbEpisode>, e: TmdbEpisode, used: set<int>)
    ensures Matched(p, [], used) == []
    ensures var before := Matched(p, episodes, used);
            var m := Step(p, e, used + IdsOf(before));
            Matched(p, episodes + [e], used) == if m.Some? then before + [m.value] else before
  {
    hide Step;
    if episodes == [] {
      assert [] + [e] == [e] && [e][1..] == [] && used + IdsOf([]) == used;
    } else {
      var m := Step(p, episodes[0], used);
      var used' := if m.Some? then used + {m.value.tvdbId} else used;
      MatchedInTurn(p, episodes[1..], e, used');
      assert (episodes + [e])[1..] == episodes[1..] + [e];
      var rest := Matched(p, episodes[1..], used');
      assert m.Some? ==> used + IdsOf([m.value] + rest) == used' + IdsOf(rest);
    }
  }

  /** The episodes without a stored row, in their order. */
  lemma {:induction false} UnmappedInTurn(rows: seq<Mapping>, episodes: seq<TmdbEpisode>, e: TmdbEpisode)
    ensures Unmapped(rows, []) == []
    ensures Unmapped(rows, episodes + [e]) ==
            if exists m :: m in rows && (m.tmdbSeason, m.tmdbEpisode) == (e.season, e.episode)
            then Unmapped(rows, episodes)
            else Unmapped(rows, episodes) + [e]
  {
    if episodes == [] {
      assert [] + [e] == [e] && [e][1..] == [];
    } else {
      UnmappedInTurn(rows, episodes[1..], e);
      assert (episodes + [e])[1..] == episodes[1..] + [e];
    }
  }

  // ----- the early failure

  /** Something in the TVDB list could be this episode. */
  ghost predicate Promising(p: Providers, e: TmdbEpisode) {
    exists n: nat :: n < |p.tvdb| && (Referenced(p, e, n) || TitleAndDate(p.tvdb, e, {}, n))
  }

  ghost predicate Referenced(p: Providers, e: TmdbEpisode, n: nat)
    requires n < |p.tvdb|
  {
    p.tvdb[n].id != 0 && p.externalId((e.season, e.episode)) == Some(p.tvdb[n].id)
  }

  /** A build gives up at once on an empty list, and on more than ten episodes of which no tenth one looks promising. */
  lemma BuildGivesUp(p: Providers, episodes: seq<TmdbEpisode>, used: set<int>)
    ensures Build(p, episodes, used).None? <==>
            |episodes| == 0 || |p.tvdb| == 0
            || (|episodes| > 10 && forall i :: 0 <= i < 10 ==> !Promising(p, episodes[i * |episodes| / 10]))
  {
    forall i | 0 <= i < 10 && |episodes| > 10
      ensures 0 <= i * |episodes| / 10 < |episodes|
    {}
    forall e
      ensures Promising(p, e) == WouldMatch(p, e)
    {
      PromisingMeans(p, e);
    }
    hide Promising, WouldMatch, Matched;
    if |episodes| > 10 {
      forall i | 0 <= i < 10
        ensures i * |episodes| / 10 in Sample(|episodes|)
      {}
    }
  }

  lemma PromisingMeans(p: Providers, e: TmdbEpisode)
    ensures Promising(p, e) <==> WouldMatch(p, e)
  {
    if c :| c in p.tvdb && SameTitle(e, c) {
      var n :| 0 <= n < |p.tvdb| && p.tvdb[n] == c;
      assert TitleAndDate(p.tvdb, e, {}, n);
    }
    if External(p, e).Some? {
      var found := ById(p.tvdb, External(p, e).value);
      if found.Some? {
        var n :| 0 <= n < |p.tvdb| && p.tvdb[n] == found.value;
        assert Referenced(p, e, n);
      }
    }
    if Promising(p, e) {
      var n: nat :| n < |p.tvdb| && (Referenced(p, e, n) || TitleAndDate(p.tvdb, e, {}, n));
      assert p.tvdb[n] in p.tvdb;
    }
  }
}
