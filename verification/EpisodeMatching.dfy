/**
 Matching TMDB episodes to TVDB episodes, by external id or by a unique title and date, and keeping the stored
 mapping injective through full and incremental builds. Titles are normalised, dates are day numbers.
 */
module EpisodeMatching {
  import opened TextOrder

  const PROBE_SIZE := 10

  type Position = (int, int)

  datatype TmdbEpisode = TmdbEpisode(id: int, season: int, episode: int, title: string, airDate: Option<int>)
  datatype TvdbEpisode = TvdbEpisode(id: int, season: Option<int>, number: Option<int>, title: string,
                                     aired: Option<int>)
  datatype Method = ExternalId | TitleDate
  datatype Mapping = Mapping(tmdbSeason: int, tmdbEpisode: int, tmdbId: int,
                             tvdbId: int, tvdbSeason: int, tvdbEpisode: int, how: Method)

  /** What the providers answer for a show; externalId is TMDB's cross-reference for an episode position. */
  datatype Providers = Providers(tmdb: seq<TmdbEpisode>, tvdb: seq<TvdbEpisode>, externalId: Position -> Option<int>)

  function PositionOf(e: TmdbEpisode): Position { (e.season, e.episode) }
  function TmdbPosition(m: Mapping): Position { (m.tmdbSeason, m.tmdbEpisode) }

  predicate DatesAgree(a: Option<int>, b: Option<int>) {
    a.None? || b.None? || -1 <= a.value - b.value <= 1
  }

  /** The last listed episode with this id, as a dictionary by id holds it. */
  function ById(tvdb: seq<TvdbEpisode>, id: int): (r: Option<TvdbEpisode>)
    ensures r.Some? ==> r.value in tvdb && r.value.id == id
    ensures r.None? ==> forall e :: e in tvdb ==> e.id != id
  {
    if tvdb == [] then None
    else if tvdb[|tvdb| - 1].id == id then Some(tvdb[|tvdb| - 1])
    else ById(tvdb[..|tvdb| - 1], id)
  }

  predicate SameTitle(e: TmdbEpisode, c: TvdbEpisode) {
    e.title != "" && c.title == e.title && DatesAgree(e.airDate, c.aired)
  }

  function Candidates(e: TmdbEpisode, tvdb: seq<TvdbEpisode>, used: set<int>): (r: seq<TvdbEpisode>)
    ensures forall c :: c in r ==> c in tvdb && c.id !in used && SameTitle(e, c)
  {
    if tvdb == [] then []
    else (if tvdb[0].id !in used && SameTitle(e, tvdb[0]) then [tvdb[0]] else []) + Candidates(e, tvdb[1..], used)
  }

  function External(p: Providers, e: TmdbEpisode): Option<int> {
    var id := p.externalId(PositionOf(e));
    if id == Some(0) then None else id
  }

  /** The one TVDB episode this TMDB episode is mapped to, if any. */
  function MatchOne(p: Providers, e: TmdbEpisode, used: set<int>): Option<(TvdbEpisode, Method)> {
    var external := External(p, e);
    var direct := if external.Some? && external.value !in used then ById(p.tvdb, external.value) else None;
    if direct.Some? then Some((direct.value, ExternalId))
    else
      var candidates := Candidates(e, p.tvdb, used);
      if |candidates| == 1 then Some((candidates[0], TitleDate)) else None
  }

  function MappingOf(e: TmdbEpisode, c: TvdbEpisode, how: Method): Option<Mapping> {
    if c.season.None? || c.number.None? then None
    else Some(Mapping(e.season, e.episode, e.id, c.id, c.season.value, c.number.value, how))
  }

  function Step(p: Providers, e: TmdbEpisode, used: set<int>): Option<Mapping> {
    var found := MatchOne(p, e, used);
    if found.None? then None else MappingOf(e, found.value.0, found.value.1)
  }

  function Matched(p: Providers, episodes: seq<TmdbEpisode>, used: set<int>): seq<Mapping> {
    if episodes == [] then []
    else
      var m := Step(p, episodes[0], used);
      if m.None? then Matched(p, episodes[1..], used)
      else [m.value] + Matched(p, episodes[1..], used + {m.value.tvdbId})
  }

  function UsedBy(rows: seq<Mapping>): set<int> {
    set i | 0 <= i < |rows| :: rows[i].tvdbId
  }

  predicate DistinctPositions(episodes: seq<TmdbEpisode>) {
    forall i, j :: 0 <= i < j < |episodes| ==> PositionOf(episodes[i]) != PositionOf(episodes[j])
  }

  /** No TMDB position and no TVDB episode is mapped twice. */
  predicate Injective(rows: seq<Mapping>) {
    forall i, j :: 0 <= i < j < |rows| ==>
      TmdbPosition(rows[i]) != TmdbPosition(rows[j]) && rows[i].tvdbId != rows[j].tvdbId
  }

  /** The mapping's TVDB side is a listed episode, found by the provider's cross-reference or by title and date. */
  ghost predicate Grounded(p: Providers, m: Mapping) {
    exists e, c :: e in p.tmdb && c in p.tvdb && MappingOf(e, c, m.how) == Some(m)
      && (if m.how.ExternalId? then External(p, e) == Some(c.id) else SameTitle(e, c))
  }

  lemma StepFacts(p: Providers, e: TmdbEpisode, used: set<int>)
    requires e in p.tmdb && Step(p, e, used).Some?
    ensures var m := Step(p, e, used).value;
            m.tvdbId !in used && TmdbPosition(m) == PositionOf(e) && Grounded(p, m)
  {
    var (c, how) := MatchOne(p, e, used).value;
    if how.TitleDate? {
      assert c in Candidates(e, p.tvdb, used);
    }
    assert MappingOf(e, c, how) == Step(p, e, used);
  }

  ghost predicate ListedIn(episodes: seq<TmdbEpisode>, m: Mapping) {
    exists e :: e in episodes && PositionOf(e) == TmdbPosition(m)
  }

  /** Each match uses a TVDB episode nobody used before, for an episode of the list, in list order. */
  lemma {:induction false} MatchedFacts(p: Providers, episodes: seq<TmdbEpisode>, used: set<int>)
    requires forall e :: e in episodes ==> e in p.tmdb
    ensures forall i :: 0 <= i < |Matched(p, episodes, used)| ==>
      var m := Matched(p, episodes, used)[i];
      m.tvdbId !in used && Grounded(p, m) && ListedIn(episodes, m)
    ensures DistinctPositions(episodes) ==> Injective(Matched(p, episodes, used))
  {
    hide Step, Grounded;
    if episodes != [] {
      var m := Step(p, episodes[0], used);
      var rest := Matched(p, episodes[1..], if m.Some? then used + {m.value.tvdbId} else used);
      MatchedFacts(p, episodes[1..], if m.Some? then used + {m.value.tvdbId} else used);
      if m.Some? {
        StepFacts(p, episodes[0], used);
        forall i | 0 <= i < |rest| && DistinctPositions(episodes)
          ensures TmdbPosition(rest[i]) != TmdbPosition(m.value)
        {
          var e :| e in episodes[1..] && PositionOf(e) == TmdbPosition(rest[i]);
          var k :| 0 <= k < |episodes[1..]| && episodes[1..][k] == e;
          assert episodes[k + 1] == e;
        }
      }
      assert DistinctPositions(episodes) ==> DistinctPositions(episodes[1..]);
    }
  }

  // ----- the probe

  predicate WouldMatch(p: Providers, e: TmdbEpisode) {
    || (External(p, e).Some? && ById(p.tvdb, External(p, e).value).Some?)
    || exists c :: c in p.tvdb && SameTitle(e, c)
  }

  function Sample(n: nat): set<int> {
    set i | 0 <= i < PROBE_SIZE :: (i * n) / PROBE_SIZE
  }

  predicate ProbeFails(p: Providers, episodes: seq<TmdbEpisode>) {
    && |episodes| > PROBE_SIZE
    && forall i :: i in Sample(|episodes|) && 0 <= i < |episodes| ==> !WouldMatch(p, episodes[i])
  }

  /** A raised ValueError is None. */
  function Build(p: Providers, episodes: seq<TmdbEpisode>, used: set<int>): Option<seq<Mapping>> {
    if episodes == [] || p.tvdb == [] || ProbeFails(p, episodes) then None
    else Some(Matched(p, episodes, used))
  }

  method MatchEpisode(p: Providers, e: TmdbEpisode, used: set<int>) returns (m: Option<Mapping>)
    ensures m == Step(p, e, used)
  {
    var external := External(p, e);
    var found: Option<TvdbEpisode> := None;
    var how := ExternalId;
    if external.Some? && external.value !in used {
      found := ById(p.tvdb, external.value);
    }
    if found.None? {
      var candidates := Candidates(e, p.tvdb, used);
      if |candidates| == 1 {
        found, how := Some(candidates[0]), TitleDate;
      }
    }
    if found.None? || found.value.season.None? || found.value.number.None? {
      return None;
    }
    m := Some(Mapping(e.season, e.episode, e.id, found.value.id, found.value.season.value, found.value.number.value,
                      how));
  }

  method MatchEpisodes(p: Providers, episodes: seq<TmdbEpisode>, usedBefore: set<int>) returns (r: Option<seq<Mapping>>)
    ensures r == Build(p, episodes, usedBefore)
  {
    hide Step;
    if episodes == [] || p.tvdb == [] || ProbeFails(p, episodes) {
      return None;
    }
    var used := usedBefore;
    var mappings: seq<Mapping> := [];
    for i := 0 to |episodes|
      invariant mappings + Matched(p, episodes[i..], used) == Matched(p, episodes, usedBefore)
    {
      assert episodes[i..][0] == episodes[i] && episodes[i..][1..] == episodes[i + 1..];
      var m := MatchEpisode(p, episodes[i], used);
      if m.Some? {
        used := used + {m.value.tvdbId};
        mappings := mappings + [m.value];
      }
    }
    assert mappings + [] == mappings;
    r := Some(mappings);
  }

  // ----- the stored mapping of a show

  datatype Request = Full(force: bool, p: Providers) | Season(season: int, allowed: bool, p: Providers)

  function Unmapped(rows: seq<Mapping>, episodes: seq<TmdbEpisode>): (r: seq<TmdbEpisode>)
    ensures forall e :: e in r ==> e in episodes && forall m :: m in rows ==> TmdbPosition(m) != PositionOf(e)
  {
    if episodes == [] then []
    else (if forall m :: m in rows ==> TmdbPosition(m) != PositionOf(episodes[0]) then [episodes[0]] else [])
         + Unmapped(rows, episodes[1..])
  }

  lemma {:induction false} UnmappedDistinct(rows: seq<Mapping>, episodes: seq<TmdbEpisode>)
    requires DistinctPositions(episodes)
    ensures DistinctPositions(Unmapped(rows, episodes))
  {
    if episodes != [] {
      UnmappedDistinct(rows, episodes[1..]);
      var rest := Unmapped(rows, episodes[1..]);
      forall j | 0 <= j < |rest|
        ensures PositionOf(rest[j]) != PositionOf(episodes[0])
      {
        assert rest[j] in episodes[1..];
        var k :| 0 <= k < |episodes[1..]| && episodes[1..][k] == rest[j];
        assert episodes[k + 1] == rest[j];
      }
    }
  }

  /** The rows a request leaves behind: a full build replaces them all, a season build only adds. */
  function After(rows: seq<Mapping>, request: Request): seq<Mapping> {
    match request
    case Full(force, p) =>
      if rows != [] && !force then rows
      else
        var built := Build(p, p.tmdb, {});
        if built.None? || built.value == [] then rows else built.value
    case Season(season, allowed, p) =>
      if !allowed || exists m :: m in rows && m.tvdbSeason == season then rows
      else
        var built := Build(p, Unmapped(rows, p.tmdb), UsedBy(rows));
        if built.None? then rows else rows + built.value
  }

  function AfterAll(rows: seq<Mapping>, requests: seq<Request>): seq<Mapping> {
    if requests == [] then rows
    else After(AfterAll(rows, requests[..|requests| - 1]), requests[|requests| - 1])
  }

  lemma AfterKeepsInjective(rows: seq<Mapping>, request: Request)
    requires Injective(rows) && DistinctPositions(request.p.tmdb)
    ensures Injective(After(rows, request))
  {
    hide Matched, ProbeFails;
    var p := request.p;
    match request
    case Full(_, _) =>
      MatchedFacts(p, p.tmdb, {});
    case Season(_, _, _) =>
      var episodes := Unmapped(rows, p.tmdb);
      UnmappedDistinct(rows, p.tmdb);
      MatchedFacts(p, episodes, UsedBy(rows));
      var added := Matched(p, episodes, UsedBy(rows));
      forall i, j | 0 <= i < |rows| && 0 <= j < |added|
        ensures TmdbPosition(rows[i]) != TmdbPosition(added[j]) && rows[i].tvdbId != added[j].tvdbId
      {
        assert rows[i].tvdbId in UsedBy(rows);
        assert ListedIn(episodes, added[j]);
        var e :| e in episodes && PositionOf(e) == TmdbPosition(added[j]);
      }
  }

  /** Any sequence of full and incremental builds keeps the stored mapping injective on both sides. */
  lemma {:induction false} BuildsKeepInjective(requests: seq<Request>)
    requires forall i :: 0 <= i < |requests| ==> DistinctPositions(requests[i].p.tmdb)
    ensures Injective(AfterAll([], requests))
  {
    if requests != [] {
      var init := requests[..|requests| - 1];
      BuildsKeepInjective(init);
      AfterKeepsInjective(AfterAll([], init), requests[|requests| - 1]);
    }
  }

  /** An incremental build never touches a row that is already there. */
  lemma SeasonBuildOnlyAdds(rows: seq<Mapping>, season: int, allowed: bool, p: Providers)
    ensures rows <= After(rows, Season(season, allowed, p))
  {}

  class MappingStore {
    var rows: seq<Mapping>

    constructor ()
      ensures rows == []
    {
      rows := [];
    }

    /** Replaces the whole mapping unless a cached one may be used; None is a raised ValueError. */
    method EnsureMapping(force: bool, p: Providers) returns (matched: Option<nat>)
      modifies this
      ensures rows == After(old(rows), Full(force, p))
      ensures matched.Some? ==> matched.value == |rows| > 0
      ensures matched.None? ==> rows == old(rows)
      ensures old(rows) != [] && !force ==> rows == old(rows) && matched.Some?
      ensures old(rows) == [] || force ==>
        (matched.Some? <==> Build(p, p.tmdb, {}).Some? && Matched(p, p.tmdb, {}) != [])
      ensures (old(rows) == [] || force) && matched.Some? ==> rows == Matched(p, p.tmdb, {})
    {
      if rows != [] && !force {
        return Some(|rows|);
      }
      var built := MatchEpisodes(p, p.tmdb, {});
      if built.None? || built.value == [] {
        return None;
      }
      rows := built.value;
      matched := Some(|rows|);
    }

    /** Adds mappings for episodes that have none; allowed is the per-show attempt throttle. */
    method EnsureMappingForSeason(season: int, allowed: bool, p: Providers) returns (added: seq<Mapping>)
      modifies this
      ensures rows == After(old(rows), Season(season, allowed, p)) == old(rows) + added
      ensures !allowed || (exists m :: m in old(rows) && m.tvdbSeason == season) ==> added == []
      ensures allowed && (forall m :: m in old(rows) ==> m.tvdbSeason != season) ==>
        var unmapped := Unmapped(old(rows), p.tmdb);
        var used := UsedBy(old(rows));
        added == if Build(p, unmapped, used).Some? then Matched(p, unmapped, used) else []
    {
      added := [];
      if !allowed || exists m :: m in rows && m.tvdbSeason == season {
        return;
      }
      var unmapped := Unmapped(rows, p.tmdb);
      if unmapped == [] {
        return;
      }
      var built := MatchEpisodes(p, unmapped, UsedBy(rows));
      if built.None? || built.value == [] {
        return;
      }
      added := built.value;
      rows := rows + added;
    }
  }
}
