/** Everything that refers to an episode row, the merge of two twins, and the sweep over a show's mappings. */
module EpisodeLibrary {
  import opened TextOrder
  import opened EpisodeMerge

  datatype Media = Media(show: int, season: int, episode: int, tmdbId: Option<int>, tvdbId: Option<int>)
  datatype Watch = Watch(user: int, media: MediaId, data: int)

  /** A row of any other table with a foreign key to media; key is set when (table, key, media) is unique. */
  datatype Other = Other(table: int, key: Option<int>, media: MediaId)

  datatype Comment = Comment(tmdbId: int, season: int, episode: int, data: int)

  datatype Library = Library(
    media: map<MediaId, Media>, watches: map<RowId, Watch>,
    rewatch: Table, playback: Table, ratings: Table, listItems: Table,
    collections: Table, files: Files, others: map<RowId, Other>, comments: map<RowId, Comment>)

  // ----- collections with their files

  function FilesIn(files: Files, collection: RowId): Files {
    map f | f in files && files[f].collection == collection :: files[f]
  }

  function WithoutFilesOf(files: Files, collection: RowId): Files {
    map f | f in files && files[f].collection != collection :: files[f]
  }

  /** The files of `to` after absorbing those of `from`: everything it had, plus one file per missing source. */
  ghost predicate Absorbed(from: Files, to: Files, result: Files, collection: RowId) {
    && (forall f :: f in to ==> f in result && result[f] == to[f])
    && (forall f :: f in result && f !in to ==>
          && f in from && result[f] == from[f].(collection := collection)
          && forall g :: g in to ==> SourceOf(to[g]) != SourceOf(from[f]))
    && (forall f, g | f in result && g in result && f != g && f !in to && g !in to ::
          SourceOf(result[f]) != SourceOf(result[g]))
    && (forall f :: f in from ==> exists g :: g in result && SourceOf(result[g]) == SourceOf(from[f]))
  }

  /** A merged file is either as it was, or came from the absorbed collection as the only one of its source. */
  lemma MergedFile(before: Files, after: Files, from: RowId, to: RowId, f: RowId)
    requires FilesMerged(before, after, from, to) && from != to && f in after
    ensures f in before
    ensures before[f].collection != from ==> after[f] == before[f]
    ensures before[f].collection == from ==>
      && after[f] == before[f].(collection := to) && !Holds(before, to, SourceOf(before[f]))
      && forall g :: g in after && g != f && before[g].collection == from ==> SourceOf(before[f]) != SourceOf(before[g])
  {
    var have :| FilesPass(before, after, {}, have, from, to);
    assert before[f].collection == from ==> Moved(before, after, f, from);
    assert forall g :: g in after && before[g].collection == from ==> Moved(before, after, g, from);
  }

  lemma KeptFile(before: Files, after: Files, from: RowId, to: RowId, f: RowId)
    requires FilesMerged(before, after, from, to) && f in before
    ensures before[f].collection != from ==> f in after && after[f] == before[f]
    ensures before[f].collection == from ==> Holds(after, to, SourceOf(before[f]))
  {}

  lemma MergedFilesAbsorb(before: Files, after: Files, from: RowId, to: RowId)
    requires FilesMerged(before, after, from, to) && from != to
    ensures Absorbed(FilesIn(before, from), FilesIn(before, to), FilesIn(after, to), to)
    ensures FilesIn(after, from) == map[]
  {
    hide FilesMerged;
    var a, b, r := FilesIn(before, from), FilesIn(before, to), FilesIn(after, to);
    forall f | f in after
      ensures f in before && (before[f].collection == from ==> after[f].collection == to)
      ensures after[f].collection == from ==> false
    {
      MergedFile(before, after, from, to, f);
    }
    forall f | f in b
      ensures f in r && r[f] == b[f]
    {
      KeptFile(before, after, from, to, f);
    }
    forall f | f in r && f !in b
      ensures f in a && r[f] == a[f].(collection := to) && forall g :: g in b ==> SourceOf(b[g]) != SourceOf(a[f])
    {
      MergedFile(before, after, from, to, f);
      assert forall g :: g in b ==> Holds(before, to, SourceOf(b[g]));
    }
    forall f, g | f in r && g in r && f != g && f !in b && g !in b
      ensures SourceOf(r[f]) != SourceOf(r[g])
    {
      MergedFile(before, after, from, to, f);
      MergedFile(before, after, from, to, g);
    }
    forall f | f in a
      ensures exists g :: g in r && SourceOf(r[g]) == SourceOf(a[f])
    {
      KeptFile(before, after, from, to, f);
      var g :| g in after && after[g].collection == to && SourceOf(after[g]) == SourceOf(before[f]);
      assert g in r;
    }
  }

  lemma MergedFilesFrame(before: Files, after: Files, from: RowId, to: RowId, x: RowId)
    requires FilesMerged(before, after, from, to) && x != from && x != to
    ensures FilesIn(after, x) == FilesIn(before, x)
  {
    var have :| FilesPass(before, after, {}, have, from, to);
    forall f | f in after && before[f].collection == from
      ensures after[f].collection == to
    {
      assert Moved(before, after, f, from);
    }
  }

  /** The canonical collection of the same user, if there is one. */
  predicate Twin(collections: Table, r: RowId, k: RowId, canonical: MediaId) {
    && r in collections && k in collections && collections[k].key == collections[r].key
    && collections[k].media == canonical
  }

  /** What happens to the files of the divergent row's collections that are not in todo. */
  ghost predicate FilesSettled(collections: Table, before: Files, after: Files, todo: set<RowId>,
                               canonical: MediaId, divergent: MediaId, keep: bool) {
    && (forall r, k | Twin(collections, r, k, canonical) && collections[r].media == divergent && r !in todo ::
          && FilesIn(after, r) == map[]
          && (if keep then Absorbed(FilesIn(before, r), FilesIn(before, k), FilesIn(after, k), k)
              else FilesIn(after, k) == FilesIn(before, k)))
    && (forall x :: Aside(collections, x, todo, canonical, divergent) ==> FilesIn(after, x) == FilesIn(before, x))
    && after.Keys <= before.Keys
  }

  /** x is neither a dropped collection nor the twin of one. */
  predicate Aside(collections: Table, x: RowId, todo: set<RowId>, canonical: MediaId, divergent: MediaId) {
    && !(x in collections && collections[x].media == divergent && x !in todo
         && Has(collections, collections[x].key, canonical))
    && !(exists r :: r in collections && collections[r].media == divergent && r !in todo
                     && Twin(collections, r, x, canonical))
  }

  function CollectionsSoFar(collections: Table, todo: set<RowId>, canonical: MediaId, divergent: MediaId): Table {
    map r | r in collections
      && (collections[r].media != divergent || r in todo || !Has(collections, collections[r].key, canonical)) ::
      if collections[r].media == divergent && r !in todo then collections[r].(media := canonical) else collections[r]
  }

  method MergeCollections(collections: Table, files: Files, canonical: MediaId, divergent: MediaId, keep: bool)
    returns (collections': Table, files': Files)
    requires canonical != divergent && Unique(collections)
    ensures collections' == KeyedResult(collections, canonical, divergent)
    ensures FilesSettled(collections, files, files', {}, canonical, divergent, keep)
  {
    hide FilesSettled, Aside;
    collections', files' := collections, files;
    var todo := set r | r in collections && collections[r].media == divergent;
    FilesUnsettled(collections, files, todo, canonical, divergent, keep);
    while todo != {}
      invariant todo <= collections.Keys && forall r :: r in todo ==> collections[r].media == divergent
      invariant collections' == CollectionsSoFar(collections, todo, canonical, divergent)
      invariant FilesSettled(collections, files, files', todo, canonical, divergent, keep)
      decreases |todo|
    {
      var r :| r in todo;
      if Has(collections', collections[r].key, canonical) {
        TwinFound(collections, todo, canonical, divergent, r);
        var k :| k in collections' && collections'[k].key == collections[r].key && collections'[k].media == canonical;
        var kept := files';
        if keep {
          kept := MoveFiles(files', r, k);
        }
        assert Twin(collections, r, k, canonical);
        SettleOne(collections, files, files', kept, todo, canonical, divergent, keep, r, k);
        files' := WithoutFilesOf(kept, r);
        collections' := collections' - {r};
      } else {
        NoTwin(collections, todo, canonical, divergent, r);
        SettleNone(collections, files, files', todo, canonical, divergent, keep, r);
        collections' := collections'[r := collections[r].(media := canonical)];
      }
      todo := todo - {r};
    }
  }

  lemma FilesUnsettled(collections: Table, files: Files, todo: set<RowId>, canonical: MediaId, divergent: MediaId,
                       keep: bool)
    requires forall r :: r in collections && collections[r].media == divergent ==> r in todo
    ensures FilesSettled(collections, files, files, todo, canonical, divergent, keep)
  {}

  /** With one collection per user and media, the clash found is a collection canonical had from the start. */
  lemma TwinFound(collections: Table, todo: set<RowId>, canonical: MediaId, divergent: MediaId, r: RowId)
    requires Unique(collections) && canonical != divergent && r in todo && r in collections
             && collections[r].media == divergent
    requires Has(CollectionsSoFar(collections, todo, canonical, divergent), collections[r].key, canonical)
    ensures Has(collections, collections[r].key, canonical)
    ensures var now := CollectionsSoFar(collections, todo, canonical, divergent);
            forall k :: k in now && now[k].key == collections[r].key && now[k].media == canonical ==>
              Twin(collections, r, k, canonical)
    ensures CollectionsSoFar(collections, todo - {r}, canonical, divergent)
         == CollectionsSoFar(collections, todo, canonical, divergent) - {r}
  {
    var now := CollectionsSoFar(collections, todo, canonical, divergent);
    forall k | k in now && now[k].key == collections[r].key && now[k].media == canonical
      ensures Twin(collections, r, k, canonical)
    {
      assert collections[k].media == divergent ==> k == r;
    }
  }

  lemma NoTwin(collections: Table, todo: set<RowId>, canonical: MediaId, divergent: MediaId, r: RowId)
    requires canonical != divergent && r in todo && r in collections && collections[r].media == divergent
    requires !Has(CollectionsSoFar(collections, todo, canonical, divergent), collections[r].key, canonical)
    ensures !Has(collections, collections[r].key, canonical)
    ensures CollectionsSoFar(collections, todo - {r}, canonical, divergent)
         == CollectionsSoFar(collections, todo, canonical, divergent)[r := collections[r].(media := canonical)]
  {
    var now := CollectionsSoFar(collections, todo, canonical, divergent);
    assert forall k :: k in collections && collections[k].media == canonical ==> k in now && now[k] == collections[k];
  }

  lemma SettleNone(collections: Table, before: Files, after: Files, todo: set<RowId>,
                   canonical: MediaId, divergent: MediaId, keep: bool, r: RowId)
    requires FilesSettled(collections, before, after, todo, canonical, divergent, keep)
    requires r in collections && !Has(collections, collections[r].key, canonical)
    ensures FilesSettled(collections, before, after, todo - {r}, canonical, divergent, keep)
  {
    hide Absorbed, FilesIn;
    forall x | Aside(collections, x, todo - {r}, canonical, divergent)
      ensures Aside(collections, x, todo, canonical, divergent)
    {}
  }

  lemma WithoutFacts(files: Files, r: RowId)
    ensures FilesIn(WithoutFilesOf(files, r), r) == map[]
    ensures forall x :: x != r ==> FilesIn(WithoutFilesOf(files, r), x) == FilesIn(files, x)
    ensures WithoutFilesOf(files, r).Keys <= files.Keys
  {}

  /** The step over one clash, seen from every collection. */
  lemma KeptFacts(files: Files, kept: Files, keep: bool, r: RowId, k: RowId)
    requires r != k && (if keep then FilesMerged(files, kept, r, k) else kept == files)
    ensures forall x :: x != r && x != k ==> FilesIn(kept, x) == FilesIn(files, x)
    ensures if keep then Absorbed(FilesIn(files, r), FilesIn(files, k), FilesIn(kept, k), k)
            else FilesIn(kept, k) == FilesIn(files, k)
    ensures kept.Keys <= files.Keys
  {
    if keep {
      MergedFilesAbsorb(files, kept, r, k);
      forall x | x != r && x != k
        ensures FilesIn(kept, x) == FilesIn(files, x)
      {
        MergedFilesFrame(files, kept, r, k, x);
      }
    }
  }

  lemma PairIsAside(collections: Table, todo: set<RowId>, canonical: MediaId, divergent: MediaId, r: RowId, k: RowId)
    requires Unique(collections) && canonical != divergent
    requires Twin(collections, r, k, canonical) && collections[r].media == divergent && r in todo
    ensures Aside(collections, r, todo, canonical, divergent) && Aside(collections, k, todo, canonical, divergent)
    ensures forall x :: Aside(collections, x, todo - {r}, canonical, divergent) ==>
      x != r && x != k && Aside(collections, x, todo, canonical, divergent)
    ensures forall s, l :: Twin(collections, s, l, canonical) && collections[s].media == divergent && s != r ==>
      s != k && l != r && l != k
  {
    assert Has(collections, collections[r].key, canonical);
  }

  lemma SettleOne(collections: Table, before: Files, files: Files, kept: Files, todo: set<RowId>,
                  canonical: MediaId, divergent: MediaId, keep: bool, r: RowId, k: RowId)
    requires Unique(collections) && canonical != divergent
    requires FilesSettled(collections, before, files, todo, canonical, divergent, keep)
    requires Twin(collections, r, k, canonical) && collections[r].media == divergent && r in todo
    requires if keep then FilesMerged(files, kept, r, k) else kept == files
    ensures FilesSettled(collections, before, WithoutFilesOf(kept, r), todo - {r}, canonical, divergent, keep)
  {
    hide Absorbed, FilesIn, Aside, FilesMerged, WithoutFilesOf, Unique;
    assert r != k;
    KeptFacts(files, kept, keep, r, k);
    WithoutFacts(kept, r);
    PairIsAside(collections, todo, canonical, divergent, r, k);
    forall s, l | Twin(collections, s, l, canonical) && collections[s].media == divergent && s !in todo - {r}
      ensures s == r ==> l == k
    {
      TwinIsOne(collections, s, l, k, canonical);
    }
  }

  lemma TwinIsOne(collections: Table, r: RowId, k: RowId, l: RowId, canonical: MediaId)
    requires Unique(collections) && Twin(collections, r, k, canonical)
    ensures Twin(collections, r, l, canonical) ==> k == l
  {}

  // ----- the whole merge

  function Repointed(media: MediaId, canonical: MediaId, divergent: MediaId): MediaId {
    if media == divergent then canonical else media
  }

  /** Every play re-pointed: none is lost, added or altered. */
  function RepointWatches(watches: map<RowId, Watch>, canonical: MediaId, divergent: MediaId): map<RowId, Watch> {
    map r | r in watches :: watches[r].(media := Repointed(watches[r].media, canonical, divergent))
  }

  function RepointOthers(others: map<RowId, Other>, canonical: MediaId, divergent: MediaId): map<RowId, Other> {
    map r | r in others :: others[r].(media := Repointed(others[r].media, canonical, divergent))
  }

  predicate OthersUnique(others: map<RowId, Other>) {
    forall r, s | r in others && s in others && r != s ::
      others[r].key.Some? && others[r].key == others[s].key && others[r].table == others[s].table ==>
        others[r].media != others[s].media
  }

  predicate CommentMatches(c: Comment, m: Media) {
    m.tmdbId == Some(c.tmdbId) && c.season == m.season && c.episode == m.episode
  }

  /** Comments written against the divergent identity, re-keyed to the canonical one. */
  function RekeyComments(comments: map<RowId, Comment>, canonical: Media, divergent: Media): map<RowId, Comment> {
    map r | r in comments ::
      if CommentMatches(comments[r], divergent) && canonical.tmdbId.Some?
      then comments[r].(tmdbId := canonical.tmdbId.value, season := canonical.season, episode := canonical.episode)
      else comments[r]
  }

  /** The update would write NULL into comments.tmdb_id. */
  predicate CommentsBlock(comments: map<RowId, Comment>, canonical: Media, divergent: Media) {
    canonical.tmdbId.None? && exists r :: r in comments && CommentMatches(comments[r], divergent)
  }

  /** The unique constraints of the keyed tables. */
  predicate AllUnique(lib: Library) {
    && Unique(lib.rewatch) && Unique(lib.playback) && Unique(lib.ratings) && Unique(lib.listItems)
    && Unique(lib.collections) && OthersUnique(lib.others)
  }

  ghost predicate Merged(lib: Library, lib': Library, canonical: MediaId, divergent: MediaId, keep: bool)
    requires canonical in lib.media && divergent in lib.media
  {
    && lib'.media == lib.media - {divergent}
    && lib'.watches == RepointWatches(lib.watches, canonical, divergent)
    && KeyedMerged(lib.rewatch, lib'.rewatch, canonical, divergent)
    && KeyedMerged(lib.playback, lib'.playback, canonical, divergent)
    && KeyedMerged(lib.ratings, lib'.ratings, canonical, divergent)
    && KeyedMerged(lib.listItems, lib'.listItems, canonical, divergent)
    && lib'.collections == KeyedResult(lib.collections, canonical, divergent)
    && FilesSettled(lib.collections, lib.files, lib'.files, {}, canonical, divergent, keep)
    && lib'.others == RepointOthers(lib.others, canonical, divergent) && OthersUnique(lib'.others)
    && lib'.comments == RekeyComments(lib.comments, lib.media[canonical], lib.media[divergent])
    && !CommentsBlock(lib.comments, lib.media[canonical], lib.media[divergent])
  }

  /** Proof that a row at a raw TVDB position is this mapping's mis-tracked episode. */
  datatype Mapping = Mapping(tmdbSeason: int, tmdbEpisode: int, tvdbId: int, tvdbSeason: int, tvdbEpisode: int)

  predicate At(m: Media, show: int, season: int, episode: int) {
    m.show == show && m.season == season && m.episode == episode
  }

  predicate Proves(mapping: Mapping, m: Media, show: int) {
    && At(m, show, mapping.tvdbSeason, mapping.tvdbEpisode)
    && (if m.tvdbId.Some? then m.tvdbId.value == mapping.tvdbId else m.tmdbId == Some(mapping.tvdbId))
  }

  predicate SamePlay(w: Watch, w': Watch) {
    w'.user == w.user && w'.data == w.data
  }

  /** Only rows a mapping proves to be mis-tracked disappear; no row changes. */
  ghost predicate SweptMedia(lib: Library, lib': Library, show: int, mappings: seq<Mapping>) {
    && lib'.media.Keys <= lib.media.Keys
    && (forall m :: m in lib'.media ==> lib'.media[m] == lib.media[m])
    && (forall m :: m in lib.media && m !in lib'.media ==> exists x :: x in mappings && Proves(x, lib.media[m], show))
  }

  /** No play is lost, added or altered, and none is left without its episode. */
  ghost predicate SweptWatches(lib: Library, lib': Library) {
    && lib'.watches.Keys == lib.watches.Keys
    && (forall r :: r in lib.watches ==> SamePlay(lib.watches[r], lib'.watches[r]))
    && (forall r :: r in lib.watches && lib.watches[r].media in lib.media ==> lib'.watches[r].media in lib'.media)
  }

  /** What any number of merges keeps. */
  ghost predicate Swept(lib: Library, lib': Library, show: int, mappings: seq<Mapping>) {
    SweptMedia(lib, lib', show, mappings) && SweptWatches(lib, lib') && (AllUnique(lib) ==> AllUnique(lib'))
  }

  /** The two positions of a mapping are not one. */
  predicate Differs(x: Mapping) {
    (x.tmdbSeason, x.tmdbEpisode) != (x.tvdbSeason, x.tvdbEpisode)
  }

  /** How many mappings a sweep checks. */
  function Differing(mappings: seq<Mapping>): nat {
    if mappings == [] then 0
    else Differing(mappings[..|mappings| - 1]) + if Differs(mappings[|mappings| - 1]) then 1 else 0
  }

  /** Rows at the two positions of a mapping. */
  predicate IsPair(lib: Library, show: int, x: Mapping, c: MediaId, d: MediaId) {
    && c in lib.media && d in lib.media
    && lib.media[c].show == show && lib.media[d].show == show
    && lib.media[c].season == x.tmdbSeason && lib.media[c].episode == x.tmdbEpisode
    && lib.media[d].season == x.tvdbSeason && lib.media[d].episode == x.tvdbEpisode
  }

  /** No unique key of another table and no comment stands against the merge. */
  predicate Mergeable(lib: Library, c: MediaId, d: MediaId)
    requires c in lib.media && d in lib.media
  {
    OthersUnique(RepointOthers(lib.others, c, d)) && !CommentsBlock(lib.comments, lib.media[c], lib.media[d])
  }

  /** The rows would share a unique key of another table, once both are of one episode. */
  predicate Clash(a: Other, b: Other, c: MediaId, d: MediaId) {
    && a.table == b.table && a.key.Some? && a.key == b.key
    && (a.media == b.media || (a.media in {c, d} && b.media in {c, d}))
  }

  /**
   Two rows of another table stand against a merge, or comments on the divergent row that the canonical one, without a
   TMDB id, cannot take over.
   */
  lemma MergeableMeans(lib: Library, c: MediaId, d: MediaId)
    requires c in lib.media && d in lib.media
    ensures Mergeable(lib, c, d) <==>
            && (forall r, s | r in lib.others && s in lib.others && r != s ::
                  !Clash(lib.others[r], lib.others[s], c, d))
            && (lib.media[c].tmdbId == None ==>
                  forall r :: r in lib.comments ==>
                    !(lib.media[d].tmdbId == Some(lib.comments[r].tmdbId)
                      && lib.media[d].season == lib.comments[r].season
                      && lib.media[d].episode == lib.comments[r].episode))
  {
    var moved := RepointOthers(lib.others, c, d);
    forall r, s | r in lib.others && s in lib.others && r != s
      ensures Clash(lib.others[r], lib.others[s], c, d) <==>
              moved[r].key.Some? && moved[r].key == moved[s].key && moved[r].table == moved[s].table
              && moved[r].media == moved[s].media
    {}
    hide Clash;
    if OthersUnique(moved) {
      forall r, s | r in lib.others && s in lib.others && r != s
        ensures !Clash(lib.others[r], lib.others[s], c, d)
      {
        assert r in moved && s in moved;
      }
    }
  }

  /**
   What the sweep does for one mapping: if there are rows at its two, different positions, it takes some such pair and
   merges it exactly when the divergent row's id proves the mapping and nothing stands against it. Else nothing
   happens.
   */
  ghost predicate SweepStep(lib: Library, lib': Library, show: int, x: Mapping) {
    if !Differs(x) || !(exists c, d :: IsPair(lib, show, x, c, d)) then lib' == lib
    else
      exists c, d :: IsPair(lib, show, x, c, d)
                     && if Proves(x, lib.media[d], show) && Mergeable(lib, c, d) then Merged(lib, lib', c, d, false)
                        else lib' == lib
  }

  ghost predicate Sweep(trace: seq<Library>, show: int, mappings: seq<Mapping>) {
    |trace| == |mappings| + 1
    && forall i :: 0 <= i < |mappings| ==> SweepStep(trace[i], trace[i + 1], show, mappings[i])
  }

  class EpisodeStore {
    var media: map<MediaId, Media>
    var watches: map<RowId, Watch>
    var rewatch: Table
    var playback: Table
    var ratings: Table
    var listItems: Table
    var collections: Table
    var files: Files
    var others: map<RowId, Other>
    var comments: map<RowId, Comment>

    function State(): Library
      reads this
    {
      Library(media, watches, rewatch, playback, ratings, listItems, collections, files, others, comments)
    }

    /** Merges inside a savepoint: a uniqueness conflict of another table rolls everything back. */
    method MergeEpisodeMedia(canonical: MediaId, divergent: MediaId, keep: bool) returns (ok: bool)
      requires canonical != divergent && canonical in media && divergent in media && Unique(collections)
      modifies this
      ensures ok <==> OthersUnique(RepointOthers(old(others), canonical, divergent))
                      && !CommentsBlock(old(comments), old(media)[canonical], old(media)[divergent])
      ensures if ok then Merged(old(State()), State(), canonical, divergent, keep) else State() == old(State())
    {
      hide KeyedPass, FilesSettled, OthersUnique;
      var moved := RepointOthers(others, canonical, divergent);
      if !OthersUnique(moved) || CommentsBlock(comments, media[canonical], media[divergent]) {
        return false;
      }
      others := moved;
      watches := RepointWatches(watches, canonical, divergent);
      rewatch := MergeKeyed(rewatch, canonical, divergent);
      playback := MergeKeyed(playback, canonical, divergent);
      ratings := MergeKeyed(ratings, canonical, divergent);
      listItems := MergeKeyed(listItems, canonical, divergent);
      collections, files := MergeCollections(collections, files, canonical, divergent, keep);
      comments := RekeyComments(comments, media[canonical], media[divergent]);
      media := media - {divergent};
      ok := true;
    }

    /**
     Walks the mappings and merges each proved twin; a pair that cannot be merged is skipped. trace holds the library
     before each mapping and at the end.
     */
    method ReconcileDivergent(show: int, mappings: seq<Mapping>)
      returns (merged: nat, checked: nat, ghost trace: seq<Library>)
      requires Unique(collections)
      modifies this
      ensures Sweep(trace, show, mappings) && trace[0] == old(State()) && trace[|mappings|] == State()
      ensures checked == Differing(mappings)
      ensures Swept(old(State()), State(), show, mappings)
      ensures merged <= checked && |media| + merged == old(|media|)
    {
      hide Merged, Unique, Swept, SweepStep, Differs;
      ghost var start := State();
      merged, checked, trace := 0, 0, [start];
      NothingSwept(start, show, mappings);
      for i := 0 to |mappings|
        invariant Swept(start, State(), show, mappings) && Unique(collections)
        invariant merged <= checked == Differing(mappings[..i]) && |media| + merged == |start.media|
        invariant |trace| == i + 1 && trace[0] == start && trace[i] == State()
        invariant forall k :: 0 <= k < i ==> SweepStep(trace[k], trace[k + 1], show, mappings[k])
      {
        var x := mappings[i];
        ghost var before := State();
        assert mappings[..i + 1][..i] == mappings[..i];
        var did := ReconcileMapping(show, x);
        if Differs(x) {
          checked := checked + 1;
        }
        ghost var c, d :| did ==> IsPair(before, show, x, c, d) && Proves(x, before.media[d], show)
                                  && Merged(before, State(), c, d, false);
        if did {
          merged := merged + 1;
          PairDiffers(before, show, x, c, d);
          SweptOneMore(start, before, State(), show, mappings, i, c, d);
          assert |before.media - {d}| == |before.media| - 1 by { OneLess(before.media, d); }
          MergedMedia(before, State(), c, d);
        }
        trace := trace + [State()];
      }
      assert mappings[..|mappings|] == mappings;
    }

    /** One mapping of the sweep. */
    method ReconcileMapping(show: int, x: Mapping) returns (did: bool)
      requires Unique(collections)
      modifies this
      ensures SweepStep(old(State()), State(), show, x)
      ensures did ==> Differs(x)
      ensures did ==> exists c, d :: IsPair(old(State()), show, x, c, d) && Proves(x, old(media)[d], show)
                                     && Merged(old(State()), State(), c, d, false)
      ensures !did ==> State() == old(State())
    {
      hide Merged, Unique, OthersUnique, CommentsBlock;
      did := false;
      if x.tmdbSeason == x.tvdbSeason && x.tmdbEpisode == x.tvdbEpisode {
        return;
      }
      var canonical := FindEpisode(show, x.tmdbSeason, x.tmdbEpisode);
      var divergent := FindEpisode(show, x.tvdbSeason, x.tvdbEpisode);
      if canonical.None? || divergent.None? || canonical == divergent {
        return;
      }
      assert IsPair(State(), show, x, canonical.value, divergent.value);
      var found := media[divergent.value];
      var foundTvdbId := if found.tvdbId.Some? then found.tvdbId else found.tmdbId;
      if foundTvdbId != Some(x.tvdbId) {
        return;
      }
      did := MergeEpisodeMedia(canonical.value, divergent.value, false);
    }

    /** The first episode found at a position, in no particular order. */
    method FindEpisode(show: int, season: int, episode: int) returns (m: Option<MediaId>)
      ensures m.Some? ==> m.value in media && media[m.value].show == show
                          && media[m.value].season == season && media[m.value].episode == episode
      ensures m.None? ==> forall x :: x in media ==>
        media[x].show != show || media[x].season != season || media[x].episode != episode
    {
      if x :| x in media && At(media[x], show, season, episode) {
        m := Some(x);
      } else {
        m := None;
      }
    }
  }

  lemma OneLess(media: map<MediaId, Media>, m: MediaId)
    requires m in media
    ensures |media - {m}| == |media| - 1
  {
    assert (media - {m}).Keys == media.Keys - {m};
  }

  lemma MergedMedia(lib: Library, lib': Library, canonical: MediaId, divergent: MediaId)
    requires canonical in lib.media && divergent in lib.media && Merged(lib, lib', canonical, divergent, false)
    ensures lib'.media == lib.media - {divergent}
  {}

  lemma NothingSwept(lib: Library, show: int, mappings: seq<Mapping>)
    ensures Swept(lib, lib, show, mappings)
  {}

  // ----- what a merge guarantees

  predicate Unreferenced(rows: Table, m: MediaId) {
    forall r :: r in rows ==> rows[r].media != m
  }

  /** The identity that comments refer to: TMDB id, season and episode. */
  predicate SameIdentity(m: Media, n: Media) {
    m.tmdbId == n.tmdbId && m.season == n.season && m.episode == n.episode
  }

  predicate Uncommented(comments: map<RowId, Comment>, m: Media) {
    forall r :: r in comments ==> !CommentMatches(comments[r], m)
  }

  /** A comment stored at a position under some id: the show's, as the comment table is documented to hold. */
  predicate StoredAt(c: Comment, id: int, m: Media) {
    c.tmdbId == id && c.season == m.season && c.episode == m.episode
  }

  /**
   A comment stored under a show's id at the divergent position comes to the canonical episode exactly when the
   divergent row carries that very id; otherwise the merge leaves it where it is.
   */
  lemma ShowCommentsMove(lib: Library, lib': Library, canonical: MediaId, divergent: MediaId, keep: bool, r: RowId,
                         show: int)
    requires canonical in lib.media && divergent in lib.media && Merged(lib, lib', canonical, divergent, keep)
    requires r in lib.comments && StoredAt(lib.comments[r], show, lib.media[divergent])
    requires !CommentMatches(lib.comments[r], lib.media[canonical])
    ensures r in lib'.comments
    ensures CommentMatches(lib'.comments[r], lib.media[canonical]) <==> lib.media[divergent].tmdbId == Some(show)
    ensures lib'.comments[r] == lib.comments[r] <==> lib.media[divergent].tmdbId != Some(show)
  {
    hide KeyedMerged, FilesSettled, OthersUnique;
    if lib.media[divergent].tmdbId == Some(show) {
      assert CommentMatches(lib.comments[r], lib.media[divergent]);
    }
  }

  /** Show 77 with twins that have episode ids of their own: the merge leaves a comment at the position that is gone. */
  lemma ShowCommentStaysBehind()
    ensures var canonical, divergent := Media(1, 1, 13, Some(900), None), Media(1, 2, 1, Some(901), Some(5));
            var comments := map[0 := Comment(77, 2, 1, 0)];
            StoredAt(comments[0], 77, divergent) && RekeyComments(comments, canonical, divergent) == comments
  {}

  /** Nothing refers to the divergent row any more; of comments, if none did or the twins differ in identity. */
  lemma NoReferenceLeft(lib: Library, lib': Library, canonical: MediaId, divergent: MediaId, keep: bool)
    requires canonical in lib.media && divergent in lib.media && canonical != divergent
    requires Merged(lib, lib', canonical, divergent, keep)
    ensures divergent !in lib'.media && canonical in lib'.media
    ensures forall r :: r in lib'.watches ==> lib'.watches[r].media != divergent
    ensures Unreferenced(lib'.rewatch, divergent) && Unreferenced(lib'.playback, divergent)
         && Unreferenced(lib'.ratings, divergent) && Unreferenced(lib'.listItems, divergent)
         && Unreferenced(lib'.collections, divergent)
    ensures forall r :: r in lib'.others ==> lib'.others[r].media != divergent
    ensures Uncommented(lib'.comments, lib.media[divergent]) <==>
            Uncommented(lib.comments, lib.media[divergent]) || !SameIdentity(lib.media[canonical], lib.media[divergent])
  {
    hide KeyedPass, FilesSettled, OthersUnique;
    CommentsLeft(lib.comments, lib.media[canonical], lib.media[divergent]);
    KeyedOutcome(lib.rewatch, lib'.rewatch, canonical, divergent, 0);
    KeyedOutcome(lib.playback, lib'.playback, canonical, divergent, 0);
    KeyedOutcome(lib.ratings, lib'.ratings, canonical, divergent, 0);
    KeyedOutcome(lib.listItems, lib'.listItems, canonical, divergent, 0);
  }

  lemma CommentsLeft(comments: map<RowId, Comment>, canonical: Media, divergent: Media)
    requires !CommentsBlock(comments, canonical, divergent)
    ensures Uncommented(RekeyComments(comments, canonical, divergent), divergent) <==>
            Uncommented(comments, divergent) || !SameIdentity(canonical, divergent)
  {
    var after := RekeyComments(comments, canonical, divergent);
    if !Uncommented(comments, divergent) {
      var r :| r in comments && CommentMatches(comments[r], divergent);
      assert r in after && after[r].tmdbId == canonical.tmdbId.value;
    }
  }

  lemma MergeKeepsUnique(lib: Library, lib': Library, canonical: MediaId, divergent: MediaId, keep: bool)
    requires canonical in lib.media && divergent in lib.media && canonical != divergent
    requires Merged(lib, lib', canonical, divergent, keep) && AllUnique(lib)
    ensures AllUnique(lib')
  {
    hide KeyedPass, Unique, OthersUnique;
    KeyedKeepsUnique(lib.rewatch, lib'.rewatch, canonical, divergent);
    KeyedKeepsUnique(lib.playback, lib'.playback, canonical, divergent);
    KeyedKeepsUnique(lib.ratings, lib'.ratings, canonical, divergent);
    KeyedKeepsUnique(lib.listItems, lib'.listItems, canonical, divergent);
    ResultKeepsUnique(lib.collections, canonical, divergent);
  }

  lemma ResultKeepsUnique(before: Table, canonical: MediaId, divergent: MediaId)
    requires Unique(before) && canonical != divergent
    ensures Unique(KeyedResult(before, canonical, divergent))
  {
    var after := KeyedResult(before, canonical, divergent);
    assert forall r :: r in after && after[r] != before[r] ==> !Has(before, before[r].key, canonical);
  }

  lemma RepointedWatches(lib: Library, canonical: MediaId, divergent: MediaId)
    requires canonical in lib.media && canonical != divergent
    ensures var w' := RepointWatches(lib.watches, canonical, divergent);
            && w'.Keys == lib.watches.Keys
            && forall r :: r in lib.watches ==>
                 SamePlay(lib.watches[r], w'[r])
                 && (lib.watches[r].media in lib.media ==> w'[r].media in lib.media - {divergent})
  {}

  lemma SweptMediaMore(start: Library, lib: Library, lib': Library, show: int, mappings: seq<Mapping>, i: nat,
                       divergent: MediaId)
    requires SweptMedia(start, lib, show, mappings) && i < |mappings|
    requires divergent in lib.media && lib'.media == lib.media - {divergent}
             && Proves(mappings[i], lib.media[divergent], show)
    ensures SweptMedia(start, lib', show, mappings)
  {
    forall m | m in start.media && m !in lib'.media
      ensures exists x :: x in mappings && Proves(x, start.media[m], show)
    {
      if m == divergent {
        assert mappings[i] in mappings;
      }
    }
  }

  lemma SweptWatchesMore(start: Library, lib: Library, lib': Library, canonical: MediaId, divergent: MediaId)
    requires SweptWatches(start, lib) && canonical in lib.media && canonical != divergent
    requires lib'.media == lib.media - {divergent}
    requires lib'.watches == RepointWatches(lib.watches, canonical, divergent)
    ensures SweptWatches(start, lib')
  {
    RepointedWatches(lib, canonical, divergent);
    hide RepointWatches;
  }

  lemma SweptOneMore(start: Library, lib: Library, lib': Library, show: int, mappings: seq<Mapping>, i: nat,
                     canonical: MediaId, divergent: MediaId)
    requires Swept(start, lib, show, mappings) && Unique(lib.collections) && i < |mappings|
    requires canonical in lib.media && divergent in lib.media && canonical != divergent
    requires Merged(lib, lib', canonical, divergent, false) && Proves(mappings[i], lib.media[divergent], show)
    ensures Swept(start, lib', show, mappings) && Unique(lib'.collections)
  {
    hide AllUnique, SweptMedia, SweptWatches, KeyedMerged, FilesSettled, OthersUnique, Unique;
    if AllUnique(lib) {
      MergeKeepsUnique(lib, lib', canonical, divergent, false);
    }
    ResultKeepsUnique(lib.collections, canonical, divergent);
    SweptMediaMore(start, lib, lib', show, mappings, i, divergent);
    SweptWatchesMore(start, lib, lib', canonical, divergent);
  }

  // ----- what a sweep achieves

  lemma PairDiffers(lib: Library, show: int, x: Mapping, c: MediaId, d: MediaId)
    requires IsPair(lib, show, x, c, d) && Differs(x)
    ensures c != d
  {}

  /** A show has one row for each position. */
  ghost predicate OnePerPosition(lib: Library, show: int) {
    forall c, d | c in lib.media && d in lib.media && c != d ::
      At(lib.media[c], show, lib.media[c].season, lib.media[c].episode) ==>
        !At(lib.media[d], show, lib.media[c].season, lib.media[c].episode)
  }

  ghost predicate Shrinks(lib: Library, lib': Library) {
    forall m :: m in lib'.media ==> m in lib.media && lib'.media[m] == lib.media[m]
  }

  lemma StepShrinks(lib: Library, lib': Library, show: int, x: Mapping)
    requires SweepStep(lib, lib', show, x)
    ensures Shrinks(lib, lib')
  {
    hide KeyedMerged, FilesSettled, OthersUnique;
  }

  lemma {:induction false} SweepShrinks(trace: seq<Library>, show: int, mappings: seq<Mapping>, i: nat, j: nat)
    requires Sweep(trace, show, mappings) && i <= j <= |mappings|
    ensures Shrinks(trace[i], trace[j])
    decreases j - i
  {
    hide SweepStep;
    if i < j {
      SweepShrinks(trace, show, mappings, i, j - 1);
      StepShrinks(trace[j - 1], trace[j], show, mappings[j - 1]);
    }
  }

  /**
   When a show has one row for each position, the sweep leaves a proved twin beside its canonical row only where the
   merge was not possible: some table's unique key or a comment stood against it when its mapping came up.
   */
  lemma TwinsLeftWereBlocked(trace: seq<Library>, show: int, mappings: seq<Mapping>, i: nat, c: MediaId, d: MediaId)
    requires Sweep(trace, show, mappings) && OnePerPosition(trace[0], show) && i < |mappings| && Differs(mappings[i])
    requires IsPair(trace[|mappings|], show, mappings[i], c, d)
    requires Proves(mappings[i], trace[|mappings|].media[d], show)
    ensures IsPair(trace[i], show, mappings[i], c, d) && !Mergeable(trace[i], c, d)
  {
    hide Sweep, Mergeable, SweepStep;
    StepOf(trace, show, mappings, i);
    SweepShrinks(trace, show, mappings, 0, i);
    SweepShrinks(trace, show, mappings, i, i + 1);
    SweepShrinks(trace, show, mappings, i + 1, |mappings|);
    PairMerged(trace[0], trace[i], trace[i + 1], show, mappings[i], c, d);
  }

  lemma StepOf(trace: seq<Library>, show: int, mappings: seq<Mapping>, i: nat)
    requires Sweep(trace, show, mappings) && i < |mappings|
    ensures |trace| == |mappings| + 1
    ensures SweepStep(trace[i], trace[i + 1], show, mappings[i])
  {}

  /** The one pair at a mapping's positions is merged unless something stands against it. */
  lemma PairMerged(start: Library, lib: Library, lib': Library, show: int, x: Mapping, c: MediaId, d: MediaId)
    requires OnePerPosition(start, show) && Shrinks(start, lib) && SweepStep(lib, lib', show, x) && Differs(x)
    requires IsPair(lib, show, x, c, d) && Proves(x, lib.media[d], show)
    ensures Mergeable(lib, c, d) ==> Merged(lib, lib', c, d, false) && d !in lib'.media
  {
    hide KeyedMerged, FilesSettled, Mergeable;
    var c', d' :| IsPair(lib, show, x, c', d')
                  && if Proves(x, lib.media[d'], show) && Mergeable(lib, c', d') then Merged(lib, lib', c', d', false)
                     else lib' == lib;
    assert c' == c && d' == d;
  }
}
