/**
 Paged studio timeline: saved works, movie discovery and series discovery merged newest first.
 A call fetches at most eight provider pages and returns at most 24 works; a cursor holding five
 positions resumes it. Provider replies are a function of (kind, page), fixed during a run.
 */
module StudioTimeline {
  import opened TextOrder
  import opened Timeline

  const PAGE_SIZE := 24
  const MAX_REQUESTS := 8
  const LAST_PAGE := 500
  const EXHAUSTED := 501
  const MAX_OFFSET := 1_000_000
  const MAX_NATIVE_ID := 2147483647

  datatype Raw = Raw(id: int, title: string, adult: bool, releaseDate: string)
  datatype Reply = Reply(results: seq<Raw>, totalPages: int)

  datatype Query = Query(
    known: seq<Work>,                  // complete saved works
    mediaType: Option<Kind>,           // None is "all"
    hideListed: bool,                  // list scope "out"
    scope: string,
    visible: (Kind, Raw) -> bool,      // result filters and the anime preference
    listed: (Kind, int) -> bool,       // the viewer's list status
    fetch: (Kind, int) -> Reply)

  /** A decoded cursor; Malformed stands for JSON of another shape. */
  datatype Cursor = Malformed | Cursor(scope: string, positions: seq<int>)
  datatype Outcome = InvalidCursor | Page(works: seq<Work>, more: bool, next: Option<Cursor>)

  // ----- streams

  function Decimal(n: nat): string {
    if n < 10 then ["0123456789"[n]] else Decimal(n / 10) + ["0123456789"[n % 10]]
  }

  function WorkKey(kind: Kind, id: nat): string {
    (if kind == Movie then "movie:" else "series:") + Decimal(id)
  }

  predicate Wanted(q: Query, kind: Kind) {
    q.mediaType.None? || q.mediaType == Some(kind)
  }

  function KnownExternal(q: Query): set<(Kind, int)> {
    set w | w in q.known && w.tmdbId.Some? && w.tmdbId.value != 0 :: (w.kind, w.tmdbId.value)
  }

  /** A discovery row becomes a hole when it is unusable, already known or filtered out. */
  function Candidate(q: Query, kind: Kind, raw: Raw): Option<Work> {
    if 0 < raw.id <= MAX_NATIVE_ID && raw.title != "" && !raw.adult
       && (kind, raw.id) !in KnownExternal(q) && q.visible(kind, raw)
       && !(q.hideListed && q.listed(kind, raw.id))
    then Some(Work(kind, Some(raw.id), WorkKey(kind, raw.id), raw.releaseDate, q.listed(kind, raw.id)))
    else None
  }

  function Candidates(q: Query, kind: Kind, page: int): (r: seq<Option<Work>>)
    ensures |r| == |q.fetch(kind, page).results|
  {
    var results := q.fetch(kind, page).results;
    seq(|results|, i requires 0 <= i < |results| => Candidate(q, kind, results[i]))
  }

  function Min(a: int, b: int): int {
    if a < b then a else b
  }

  predicate HasNext(q: Query, kind: Kind, page: int) {
    var total := q.fetch(kind, page).totalPages;
    page < Min(if total == 0 then 1 else total, LAST_PAGE)
  }

  function Present(s: seq<Option<Work>>): seq<Work> {
    if s == [] then []
    else (if s[0].Some? then [s[0].value] else []) + Present(s[1..])
  }

  function From<T>(s: seq<T>, n: nat): seq<T> {
    if n < |s| then s[n..] else []
  }

  /** Everything discovery of this kind still has to offer from (page, index) on. */
  function Stream(q: Query, kind: Kind, page: nat, index: nat): seq<Work>
    decreases EXHAUSTED - page
  {
    if !Wanted(q, kind) || page > LAST_PAGE then []
    else Present(From(Candidates(q, kind, page), index))
         + (if HasNext(q, kind, page) then Stream(q, kind, page + 1, 0) else [])
  }

  function Selected(q: Query, works: seq<Work>): (r: seq<Work>)
    ensures forall w :: w in r <==> w in works && Wanted(q, w.kind) && !(q.hideListed && w.listed)
  {
    if works == [] then []
    else (if Wanted(q, works[0].kind) && !(q.hideListed && works[0].listed) then [works[0]] else [])
         + Selected(q, works[1..])
  }

  function Local(q: Query): seq<Work> {
    SortNewestFirst(Selected(q, q.known))
  }

  // ----- positions

  /** The five-slot position vector, slot by slot. */
  datatype Positions = Positions(local: nat, moviePage: nat, movieIndex: nat, seriesPage: nat, seriesIndex: nat) {
    predicate Standing() {
      1 <= moviePage <= EXHAUSTED && 1 <= seriesPage <= EXHAUSTED
    }

    function PageOf(kind: Kind): nat { if kind == Movie then moviePage else seriesPage }
    function IndexOf(kind: Kind): nat { if kind == Movie then movieIndex else seriesIndex }

    function At(kind: Kind, page: nat, index: nat): Positions {
      if kind == Movie then this.(moviePage := page, movieIndex := index)
      else this.(seriesPage := page, seriesIndex := index)
    }

    /** positions[slot] += 1 */
    function Step(slot: nat): Positions {
      if slot == 0 then this.(local := local + 1)
      else if slot == 2 then this.(movieIndex := movieIndex + 1)
      else this.(seriesIndex := seriesIndex + 1)
    }

    function ToList(): seq<int> {
      [local, moviePage, movieIndex, seriesPage, seriesIndex]
    }

    /** Only forward: local offset, and (page, index) lexicographically for each kind. */
    predicate UpTo(p: Positions) {
      && local <= p.local
      && (moviePage < p.moviePage || (moviePage == p.moviePage && movieIndex <= p.movieIndex))
      && (seriesPage < p.seriesPage || (seriesPage == p.seriesPage && seriesIndex <= p.seriesIndex))
    }
  }

  /** The input validation applied to a cursor's positions. */
  predicate Accepted(p: seq<int>) {
    && |p| == 5
    && (forall i :: 0 <= i < 5 ==> 0 <= p[i] <= MAX_OFFSET)
    && 1 <= p[1] <= EXHAUSTED && 1 <= p[3] <= EXHAUSTED
    && p[2] <= 20 && p[4] <= 20
  }

  function FromList(p: seq<int>): Positions
    requires Accepted(p)
  {
    Positions(p[0], p[1], p[2], p[3], p[4])
  }

  const START := Positions(0, 1, 0, 1, 0)

  /** The works an uninterrupted merge would still return from these positions. */
  function Left(q: Query, p: Positions): seq<Work> {
    Merge(From(Local(q), p.local), Stream(q, Movie, p.moviePage, p.movieIndex),
          Stream(q, Series, p.seriesPage, p.seriesIndex))
  }

  predicate MoreLeft(q: Query, p: Positions) {
    p.local < |Local(q)| || p.moviePage <= LAST_PAGE || p.seriesPage <= LAST_PAGE
  }

  /** Pages not passed plus works not returned: falls with every continuing call. */
  function Measure(q: Query, p: Positions): int {
    |Left(q, p)| + (EXHAUSTED - p.moviePage) + (EXHAUSTED - p.seriesPage)
  }

  /** The provider's page size, at most 20 rows. */
  ghost predicate SmallPages(q: Query) {
    forall kind, page :: |q.fetch(kind, page).results| <= 20
  }

  // ----- one provider stream

  type Buffers = map<(Kind, int), (seq<Option<Work>>, bool)>

  ghost predicate Faithful(q: Query, buffers: Buffers) {
    forall k :: k in buffers ==>
      1 <= k.1 <= LAST_PAGE && buffers[k] == (Candidates(q, k.0, k.1), HasNext(q, k.0, k.1))
  }

  function Held(buffers: Buffers, kind: Kind, page: int): nat {
    if (kind, page) in buffers then 1 else 0
  }

  /** One stream advanced to (page', index') without losing a work it still offers. */
  ghost predicate Moved(q: Query, kind: Kind, page: nat, index: nat, page': nat, index': nat) {
    && (page < page' || (page == page' && index <= index'))
    && page' <= EXHAUSTED
    && Stream(q, kind, page', index') == Stream(q, kind, page, index)
    && (SmallPages(q) && index <= 20 ==> index' <= 20)
  }

  lemma PresentFrom(c: seq<Option<Work>>, index: nat)
    requires index < |c|
    ensures Present(From(c, index)) == (if c[index].Some? then [c[index].value] else []) + Present(From(c, index + 1))
  {
    assert c[index..][0] == c[index] && c[index..][1..] == c[index + 1..];
    assert From(c, index)[1..] == From(c, index + 1);
  }

  lemma SkipHole(q: Query, kind: Kind, page: nat, index: nat)
    requires page <= LAST_PAGE && index < |Candidates(q, kind, page)|
    requires Candidates(q, kind, page)[index].None?
    ensures Stream(q, kind, page, index) == Stream(q, kind, page, index + 1)
  {
    PresentFrom(Candidates(q, kind, page), index);
  }

  lemma TakeHead(q: Query, kind: Kind, page: nat, index: nat)
    requires Wanted(q, kind) && page <= LAST_PAGE && index < |Candidates(q, kind, page)|
    requires Candidates(q, kind, page)[index].Some?
    ensures HeadOf(q, kind, page, index, Candidates(q, kind, page)[index].value)
  {
    var c := Candidates(q, kind, page);
    PresentFrom(c, index);
    var rest := if HasNext(q, kind, page) then Stream(q, kind, page + 1, 0) else [];
    Reassociate(c[index].value, Present(From(c, index + 1)), rest);
  }

  lemma Reassociate(w: Work, s: seq<Work>, t: seq<Work>)
    ensures ([w] + s) + t == [w] + (s + t)
  {}

  lemma NextPage(q: Query, kind: Kind, page: nat, index: nat)
    requires page <= LAST_PAGE && index >= |Candidates(q, kind, page)|
    ensures Stream(q, kind, page, index)
         == Stream(q, kind, if HasNext(q, kind, page) then page + 1 else EXHAUSTED, 0)
  {
    assert Present(From(Candidates(q, kind, page), index)) == [];
  }

  lemma Unwanted(q: Query, kind: Kind, page: nat, index: nat)
    requires !Wanted(q, kind)
    ensures Stream(q, kind, page, index) == []
  {}

  /** What one stream's fetching may do to the buffers and the request count. */
  ghost predicate Fetched(q: Query, kind: Kind, b0: Buffers, r0: nat, b: Buffers, r: nat) {
    && Faithful(q, b) && r0 <= r == |b| <= MAX_REQUESTS
    && (forall k :: k in b0 ==> k in b)
    && (forall k :: k in b && k !in b0 ==> k.0 == kind)
  }

  /** Fetches a page that is not buffered yet, unless the request budget is spent. */
  method FetchPage(q: Query, kind: Kind, page: nat, buffers0: Buffers, requests0: nat)
    returns (buffers: Buffers, requests: nat, unresolved: bool)
    requires 1 <= page <= LAST_PAGE && Fetched(q, kind, buffers0, requests0, buffers0, requests0)
    ensures Fetched(q, kind, buffers0, requests0, buffers, requests)
    ensures unresolved <==> (kind, page) !in buffers
    ensures unresolved ==> requests == requests0 == MAX_REQUESTS
    ensures requests + Held(buffers0, kind, page) == requests0 + Held(buffers, kind, page)
  {
    buffers, requests, unresolved := buffers0, requests0, false;
    if (kind, page) !in buffers {
      if requests >= MAX_REQUESTS {
        unresolved := true;
        return;
      }
      requests := requests + 1;
      buffers := buffers[(kind, page) := (Candidates(q, kind, page), HasNext(q, kind, page))];
    }
  }

  /** Finds the head of one discovery stream, fetching pages while the request budget lasts. */
  method NextHead(q: Query, kind: Kind, page0: nat, index0: nat, buffers0: Buffers, requests0: nat)
    returns (page: nat, index: nat, buffers: Buffers, requests: nat, head: Option<Work>, unresolved: bool)
    requires 1 <= page0 <= EXHAUSTED && Fetched(q, kind, buffers0, requests0, buffers0, requests0)
    ensures Moved(q, kind, page0, index0, page, index)
    ensures Fetched(q, kind, buffers0, requests0, buffers, requests)
    ensures requests + Held(buffers0, kind, page0) + page0 <= requests0 + Held(buffers, kind, page) + page
    ensures unresolved ==> head.None? && requests == MAX_REQUESTS && page <= LAST_PAGE
    ensures head.Some? ==> HeadOf(q, kind, page, index, head.value)
    ensures head.None? && !unresolved ==> page == EXHAUSTED
  {
    hide Stream, SmallPages, Candidates;
    page, index, buffers, requests, head, unresolved := page0, index0, buffers0, requests0, None, false;
    if !Wanted(q, kind) {
      Unwanted(q, kind, page, index);
      Unwanted(q, kind, EXHAUSTED, index);
      page := EXHAUSTED;
    }
    while page <= LAST_PAGE
      invariant Moved(q, kind, page0, index0, page, index)
      invariant Fetched(q, kind, buffers0, requests0, buffers, requests)
      invariant requests + Held(buffers0, kind, page0) + page0 <= requests0 + Held(buffers, kind, page) + page
      invariant page <= LAST_PAGE ==> Wanted(q, kind)
      decreases EXHAUSTED - page
    {
      buffers, requests, unresolved := FetchPage(q, kind, page, buffers, requests);
      if unresolved {
        break;
      }
      var (candidates, more) := buffers[(kind, page)];
      index := SkipHoles(q, kind, page, index, candidates);
      if index < |candidates| {
        head := candidates[index];
        TakeHead(q, kind, page, index);
        break;
      }
      NextPage(q, kind, page, index);
      page, index := if more then page + 1 else EXHAUSTED, 0;
    }
  }

  ghost predicate HeadOf(q: Query, kind: Kind, page: nat, index: nat, head: Work) {
    && page <= LAST_PAGE
    && Stream(q, kind, page, index) == [head] + Stream(q, kind, page, index + 1)
    && (SmallPages(q) ==> index < 20)
  }

  /** Moves the index of the current page past its holes. */
  method SkipHoles(q: Query, kind: Kind, page: nat, index0: nat, candidates: seq<Option<Work>>)
    returns (index: nat)
    requires page <= LAST_PAGE && candidates == Candidates(q, kind, page)
    ensures Moved(q, kind, page, index0, page, index)
    ensures index < |candidates| ==> candidates[index].Some?
  {
    index := index0;
    while index < |candidates| && candidates[index].None?
      invariant Moved(q, kind, page, index0, page, index)
      decreases |candidates| - index
    {
      SkipHole(q, kind, page, index);
      index := index + 1;
    }
  }

  /** After the last work of a call: leaves an exhausted buffered page for the next one. */
  method Settle(q: Query, kind: Kind, page0: nat, index0: nat, buffers: Buffers) returns (page: nat, index: nat)
    requires 1 <= page0 <= EXHAUSTED && Faithful(q, buffers)
    ensures Moved(q, kind, page0, index0, page, index)
    ensures (kind, page0) !in buffers ==> page == page0
    ensures Held(buffers, kind, page0) + page0 <= Held(buffers, kind, page) + page
  {
    page, index := page0, index0;
    if (kind, page) in buffers {
      var (candidates, hasNext) := buffers[(kind, page)];
      index := SkipHoles(q, kind, page, index, candidates);
      if index >= |candidates| {
        NextPage(q, kind, page, index);
        page, index := if hasNext then page + 1 else EXHAUSTED, 0;
      }
    }
  }

  // ----- choosing among the heads

  /** The first of the pairs whose work no later pair's work is newer than. */
  function FirstMax(heads: seq<(Work, nat)>): (Work, nat)
    requires heads != []
  {
    var last := heads[|heads| - 1];
    if |heads| == 1 then last
    else
      var best := FirstMax(heads[..|heads| - 1]);
      if Newer(last.0, best.0) then last else best
  }

  function HeadPair(head: Option<Work>, slot: nat): seq<(Work, nat)> {
    if head.None? then [] else [(head.value, slot)]
  }

  function HeadOption(s: seq<Work>): Option<Work> {
    if s == [] then None else Some(s[0])
  }

  lemma FirstMaxOf(heads: seq<(Work, nat)>, last: (Work, nat))
    requires heads != []
    ensures FirstMax(heads + [last])
         == if Newer(last.0, FirstMax(heads).0) then last else FirstMax(heads)
  {
    assert (heads + [last])[..|heads|] == heads;
  }

  lemma FirstMaxIsLeader(a: seq<Work>, b: seq<Work>, c: seq<Work>)
    requires a != [] || b != [] || c != []
    ensures var heads := HeadPair(HeadOption(a), 0) + HeadPair(HeadOption(b), 2) + HeadPair(HeadOption(c), 4);
            var i := Leader(a, b, c);
            heads != [] && FirstMax(heads) == (if i == 0 then (a[0], 0) else if i == 1 then (b[0], 2) else (c[0], 4))
  {
    var ha, hb, hc := HeadPair(HeadOption(a), 0), HeadPair(HeadOption(b), 2), HeadPair(HeadOption(c), 4);
    var ab := if a == [] || (b != [] && Newer(b[0], a[0])) then 1 else 0;
    if a != [] && b != [] {
      FirstMaxOf(ha, (b[0], 2));
    } else if b != [] {
      assert ha + hb == hb;
    } else {
      assert ha + hb == ha;
    }
    if c != [] && ha + hb != [] {
      FirstMaxOf(ha + hb, (c[0], 4));
    } else if c != [] {
      assert ha + hb + hc == hc;
    } else {
      assert ha + hb + hc == ha + hb;
    }
  }

  // ----- one call

  /** What a call from these positions returns. */
  ghost predicate PageFrom(q: Query, start: Positions, page: Outcome) {
    && page.Page? && |page.works| <= PAGE_SIZE
    && (page.more <==> page.next.Some?)
    && (page.more ==>
          exists p: Positions ::
            ContinuesAt(q, start, page.works, p) && page.next == Some(Cursor(q.scope, p.ToList())))
    && (!page.more ==> page.works == Left(q, start))
  }

  /** The page is exactly the next stretch of the merge, and the call made progress. */
  ghost predicate ContinuesAt(q: Query, start: Positions, works: seq<Work>, p: Positions) {
    && p.Standing() && start.UpTo(p) && MoreLeft(q, p)
    && Left(q, start) == works + Left(q, p)
    && Measure(q, p) < Measure(q, start)
    && (p.local == start.local || p.local <= |Local(q)|)
    && (SmallPages(q) && start.movieIndex <= 20 && start.seriesIndex <= 20 ==>
          p.movieIndex <= 20 && p.seriesIndex <= 20)
  }

  /** The state of a call between two iterations of its loop. */
  ghost predicate Running(q: Query, start: Positions, p: Positions, b: Buffers, requests: nat, output: seq<Work>) {
    && p.Standing() && start.UpTo(p)
    && Left(q, start) == output + Left(q, p)
    && |output| <= PAGE_SIZE
    && (p.local == start.local || p.local <= |Local(q)|)
    && Faithful(q, b) && requests == |b| <= MAX_REQUESTS
    && requests + start.moviePage + start.seriesPage
       <= Held(b, Movie, p.moviePage) + p.moviePage + Held(b, Series, p.seriesPage) + p.seriesPage
    && (SmallPages(q) && start.movieIndex <= 20 && start.seriesIndex <= 20 ==>
          p.movieIndex <= 20 && p.seriesIndex <= 20)
  }

  /** Advancing one stream without losing a work keeps the call's state. */
  lemma StreamMoved(q: Query, kind: Kind, start: Positions, p: Positions, output: seq<Work>,
                    b0: Buffers, r0: nat, b: Buffers, r: nat, page: nat, index: nat)
    requires Running(q, start, p, b0, r0, output) && Fetched(q, kind, b0, r0, b, r)
    requires Moved(q, kind, p.PageOf(kind), p.IndexOf(kind), page, index)
    requires r + Held(b0, kind, p.PageOf(kind)) + p.PageOf(kind) <= r0 + Held(b, kind, page) + page
    ensures Running(q, start, p.At(kind, page, index), b, r, output)
  {
    var other := if kind == Movie then Series else Movie;
    assert Held(b, other, p.PageOf(other)) == Held(b0, other, p.PageOf(other));
    assert Left(q, p.At(kind, page, index)) == Left(q, p);
  }

  /** The head found for one stream, or the reason there is none. */
  ghost predicate Resolved(q: Query, kind: Kind, page: nat, index: nat, head: Option<Work>, unresolved: bool) {
    && (head.Some? ==> HeadOf(q, kind, page, index, head.value))
    && (head.None? && !unresolved ==> page == EXHAUSTED)
    && (unresolved ==> page <= LAST_PAGE)
  }

  /** One turn of the loop over the two discovery streams. */
  method ResolveHead(q: Query, kind: Kind, ghost start: Positions, positions0: Positions, buffers0: Buffers,
                     requests0: nat, ghost output: seq<Work>)
    returns (positions: Positions, buffers: Buffers, requests: nat, head: Option<Work>, unresolved: bool)
    requires Running(q, start, positions0, buffers0, requests0, output)
    ensures Running(q, start, positions, buffers, requests, output)
    ensures positions == positions0.At(kind, positions.PageOf(kind), positions.IndexOf(kind))
    ensures Resolved(q, kind, positions.PageOf(kind), positions.IndexOf(kind), head, unresolved)
    ensures requests0 <= requests <= MAX_REQUESTS
    ensures unresolved ==> requests == MAX_REQUESTS
  {
    var page, index;
    page, index, buffers, requests, head, unresolved :=
      NextHead(q, kind, positions0.PageOf(kind), positions0.IndexOf(kind), buffers0, requests0);
    StreamMoved(q, kind, start, positions0, output, buffers0, requests0, buffers, requests, page, index);
    positions := positions0.At(kind, page, index);
  }

  /** The three streams left at p; a stream whose page slot is exhausted is empty. */
  function MovieLeft(q: Query, p: Positions): seq<Work> { Stream(q, Movie, p.moviePage, p.movieIndex) }
  function SeriesLeft(q: Query, p: Positions): seq<Work> { Stream(q, Series, p.seriesPage, p.seriesIndex) }
  function LocalLeft(q: Query, p: Positions): seq<Work> { From(Local(q), p.local) }

  lemma MergeStep(a: seq<Work>, b: seq<Work>, c: seq<Work>)
    requires a != [] || b != [] || c != []
    ensures var i := Leader(a, b, c);
            && (i == 0 ==> a != [] && Merge(a, b, c) == [a[0]] + Merge(a[1..], b, c))
            && (i == 1 ==> b != [] && Merge(a, b, c) == [b[0]] + Merge(a, b[1..], c))
            && (i != 0 && i != 1 ==> i == 2 && c != [] && Merge(a, b, c) == [c[0]] + Merge(a, b, c[1..]))
  {}

  /** A resolved head is the first work of its stream; without one the stream is at its end. */
  lemma ResolvedHead(q: Query, kind: Kind, page: nat, index: nat, head: Option<Work>)
    requires Resolved(q, kind, page, index, head, false)
    ensures Stream(q, kind, page, index) == [] <==> head.None?
    ensures head.Some? ==> Stream(q, kind, page, index)[0] == head.value
    ensures head.Some? ==> Stream(q, kind, page, index)[1..] == Stream(q, kind, page, index + 1)
  {
    if head.Some? {
      hide Stream;
      assert Stream(q, kind, page, index) == [head.value] + Stream(q, kind, page, index + 1);
    }
  }

  /** Stepping over the leading head leaves exactly the rest of the merge. */
  lemma LeaderTaken(q: Query, p: Positions, m: Option<Work>, s: Option<Work>)
    requires Resolved(q, Movie, p.moviePage, p.movieIndex, m, false)
    requires Resolved(q, Series, p.seriesPage, p.seriesIndex, s, false)
    requires LocalLeft(q, p) != [] || m.Some? || s.Some?
    ensures MovieLeft(q, p) == [] <==> m.None?
    ensures m.Some? ==> MovieLeft(q, p)[0] == m.value
    ensures SeriesLeft(q, p) == [] <==> s.None?
    ensures s.Some? ==> SeriesLeft(q, p)[0] == s.value
    ensures var i := Leader(LocalLeft(q, p), MovieLeft(q, p), SeriesLeft(q, p));
            && i <= 2
            && var item := if i == 0 then LocalLeft(q, p) else if i == 1 then MovieLeft(q, p) else SeriesLeft(q, p);
            && item != []
            && Left(q, p) == [item[0]] + Left(q, p.Step(2 * i))
  {
    hide Stream, Merge, Leader, Resolved, Local;
    ResolvedHead(q, Movie, p.moviePage, p.movieIndex, m);
    ResolvedHead(q, Series, p.seriesPage, p.seriesIndex, s);
    var x, y, z := LocalLeft(q, p), MovieLeft(q, p), SeriesLeft(q, p);
    var i := Leader(x, y, z);
    MergeStep(x, y, z);
    if i == 0 {
      assert LocalLeft(q, p.Step(0)) == x[1..];
    } else if i == 1 {
      assert MovieLeft(q, p.Step(2)) == y[1..];
    } else {
      assert SeriesLeft(q, p.Step(4)) == z[1..];
    }
  }

  /** Taking one more work keeps the call's state. */
  lemma ItemTaken(q: Query, start: Positions, p: Positions, b: Buffers, r: nat, output: seq<Work>,
                  slot: nat, item: Work)
    requires Running(q, start, p, b, r, output) && |output| < PAGE_SIZE
    requires slot in {0, 2, 4} && Left(q, p) == [item] + Left(q, p.Step(slot))
    requires slot == 0 ==> p.local < |Local(q)|
    requires slot == 2 ==> p.moviePage <= LAST_PAGE && (SmallPages(q) ==> p.movieIndex < 20)
    requires slot == 4 ==> p.seriesPage <= LAST_PAGE && (SmallPages(q) ==> p.seriesIndex < 20)
    ensures Running(q, start, p.Step(slot), b, r, output + [item])
  {
    Extended(Left(q, start), output, Left(q, p), item, Left(q, p.Step(slot)));
    assert Running(q, start, p.Step(slot), b, r, output + [item]);
  }

  lemma Extended(whole: seq<Work>, output: seq<Work>, left: seq<Work>, item: Work, rest: seq<Work>)
    requires whole == output + left && left == [item] + rest
    ensures whole == (output + [item]) + rest
  {}

  /** A call that returned something, or spent its budget, is strictly further on. */
  lemma Progress(q: Query, start: Positions, p: Positions, b: Buffers, r: nat, output: seq<Work>)
    requires Running(q, start, p, b, r, output) && (output != [] || r == MAX_REQUESTS)
    ensures Measure(q, p) < Measure(q, start)
  {
    assert |Left(q, start)| == |output| + |Left(q, p)|;
  }

  lemma NothingLeft(q: Query, p: Positions)
    requires !MoreLeft(q, p)
    ensures Left(q, p) == []
  {}

  /** The second phase of a call: both streams leave the pages they have used up. */
  method SettleBoth(q: Query, ghost start: Positions, positions0: Positions, buffers: Buffers, ghost requests: nat,
                    ghost output: seq<Work>)
    returns (positions: Positions)
    requires Running(q, start, positions0, buffers, requests, output)
    ensures Running(q, start, positions, buffers, requests, output)
    ensures !MoreLeft(q, positions0) ==> !MoreLeft(q, positions)
    ensures positions.local == positions0.local
  {
    var page, index := Settle(q, Movie, positions0.moviePage, positions0.movieIndex, buffers);
    StreamMoved(q, Movie, start, positions0, output, buffers, requests, buffers, requests, page, index);
    positions := positions0.At(Movie, page, index);
    page, index := Settle(q, Series, positions.seriesPage, positions.seriesIndex, buffers);
    StreamMoved(q, Series, start, positions, output, buffers, requests, buffers, requests, page, index);
    positions := positions.At(Series, page, index);
  }

  /** The candidates for the next work: local, movie and series head, in this order. */
  function HeadsOf(q: Query, p: Positions, m: Option<Work>, s: Option<Work>): seq<(Work, nat)> {
    var local := Local(q);
    HeadPair(if p.local < |local| then Some(local[p.local]) else None, 0) + HeadPair(m, 2) + HeadPair(s, 4)
  }

  /** The maximum of the heads is the next work of the merge. */
  lemma BestIsNext(q: Query, start: Positions, p: Positions, b: Buffers, r: nat, output: seq<Work>,
                   m: Option<Work>, s: Option<Work>)
    requires Running(q, start, p, b, r, output) && |output| < PAGE_SIZE
    requires Resolved(q, Movie, p.moviePage, p.movieIndex, m, false)
    requires Resolved(q, Series, p.seriesPage, p.seriesIndex, s, false)
    requires HeadsOf(q, p, m, s) != []
    ensures var (item, slot) := FirstMax(HeadsOf(q, p, m, s));
            Running(q, start, p.Step(slot), b, r, output + [item])
  {
    hide Merge, Stream, SmallPages, Running, Newer, Local;
    LeaderTaken(q, p, m, s);
    FirstMaxIsLeader(LocalLeft(q, p), MovieLeft(q, p), SeriesLeft(q, p));
    assert HeadsOf(q, p, m, s) == HeadPair(HeadOption(LocalLeft(q, p)), 0) + HeadPair(m, 2) + HeadPair(s, 4);
    var (item, slot) := FirstMax(HeadsOf(q, p, m, s));
    ItemTaken(q, start, p, b, r, output, slot, item);
  }

  /** One iteration of the merging loop: the next work, or the reason to stop. */
  method Turn(q: Query, ghost start: Positions, positions0: Positions, buffers0: Buffers, requests0: nat,
              output0: seq<Work>)
    returns (positions: Positions, buffers: Buffers, requests: nat, output: seq<Work>, stop: bool)
    requires Running(q, start, positions0, buffers0, requests0, output0) && |output0| < PAGE_SIZE
    ensures Running(q, start, positions, buffers, requests, output)
    ensures if stop then output == output0 && (requests == MAX_REQUESTS || !MoreLeft(q, positions))
            else |output| == |output0| + 1
  {
    hide Merge, Stream, Local, Running, HeadOf, FirstMax;
    var m, s, blockedMovies, blockedSeries;
    output := output0;
    positions, buffers, requests, m, blockedMovies :=
      ResolveHead(q, Movie, start, positions0, buffers0, requests0, output0);
    positions, buffers, requests, s, blockedSeries :=
      ResolveHead(q, Series, start, positions, buffers, requests, output0);
    var heads := HeadsOf(q, positions, m, s);
    stop := blockedMovies || blockedSeries || heads == [];
    if !stop {
      BestIsNext(q, start, positions, buffers, requests, output, m, s);
      var (item, slot) := FirstMax(heads);
      positions := positions.Step(slot);
      output := output + [item];
    }
  }

  /** The merging loop of a call. */
  method Fill(q: Query, start: Positions)
    returns (positions: Positions, buffers: Buffers, requests: nat, output: seq<Work>)
    requires start.Standing()
    ensures Running(q, start, positions, buffers, requests, output)
    ensures |output| < PAGE_SIZE ==> requests == MAX_REQUESTS || !MoreLeft(q, positions)
  {
    positions, buffers, requests, output := start, map[], 0, [];
    var stop := false;
    while |output| < PAGE_SIZE && !stop
      invariant Running(q, start, positions, buffers, requests, output)
      invariant stop ==> requests == MAX_REQUESTS || !MoreLeft(q, positions)
      decreases !stop, PAGE_SIZE - |output|
    {
      positions, buffers, requests, output, stop := Turn(q, start, positions, buffers, requests, output);
    }
  }

  function StartOf(cursor: Option<Cursor>): Positions
    requires cursor.Some? ==> cursor.value.Cursor? && Accepted(cursor.value.positions)
  {
    if cursor.None? then START else FromList(cursor.value.positions)
  }

  predicate Resumable(q: Query, cursor: Option<Cursor>) {
    cursor.Some? ==> cursor.value.Cursor? && cursor.value.scope == q.scope && Accepted(cursor.value.positions)
  }

  /** The answer to one call. */
  ghost predicate Answer(q: Query, cursor: Option<Cursor>, r: Outcome) {
    if Resumable(q, cursor) then PageFrom(q, StartOf(cursor), r) else r == InvalidCursor
  }

  method Call(q: Query, cursor: Option<Cursor>) returns (r: Outcome, requests: nat)
    ensures Answer(q, cursor, r)
    ensures requests <= 8 && (r.Page? ==> |r.works| <= 24)
    ensures r.Page? && r.more && |r.works| < 24 ==> requests == 8
  {
    hide Merge, Stream, Local, SmallPages, Candidates;
    var start := START;
    if cursor.Some? {
      if cursor.value.Malformed? || cursor.value.scope != q.scope || !Accepted(cursor.value.positions) {
        return InvalidCursor, 0;
      }
      start := FromList(cursor.value.positions);
    }
    var positions, buffers, output;
    positions, buffers, requests, output := Fill(q, start);
    positions := SettleBoth(q, start, positions, buffers, requests, output);
    var more := MoreLeft(q, positions);
    r := Page(output, more, if more then Some(Cursor(q.scope, positions.ToList())) else None);
    if more {
      Progress(q, start, positions, buffers, requests, output);
      assert ContinuesAt(q, start, output, positions);
    } else {
      NothingLeft(q, positions);
    }
  }

  // ----- whole runs

  /** The uninterrupted timeline of a query. */
  function WholeTimeline(q: Query): seq<Work> {
    Merge(Local(q), Stream(q, Movie, 1, 0), Stream(q, Series, 1, 0))
  }

  /** Answers to consecutive calls, each resuming from the previous answer's cursor. */
  ghost predicate Chain(q: Query, cursor: Option<Cursor>, pages: seq<Outcome>)
    decreases |pages|
  {
    pages != [] ==>
      && Answer(q, cursor, pages[0])
      && (|pages| > 1 ==> pages[0].Page? && pages[0].more && Chain(q, pages[0].next, pages[1..]))
  }

  function Shown(pages: seq<Outcome>): seq<Work> {
    if pages == [] then []
    else (if pages[0].Page? then pages[0].works else []) + Shown(pages[1..])
  }

  lemma FromListToList(p: Positions)
    requires Accepted(p.ToList())
    ensures FromList(p.ToList()) == p
  {}

  /** With the provider's page size, a cursor is rejected exactly when its local offset is too large. */
  lemma EmittedCursor(q: Query, cursor: Option<Cursor>, r: Outcome)
    requires SmallPages(q) && Resumable(q, cursor) && Answer(q, cursor, r) && r.more
    ensures Resumable(q, r.next) <==> r.next.value.positions[0] <= MAX_OFFSET
    ensures r.next.value.positions[0] <= MAX_OFFSET || r.next.value.positions[0] <= |Local(q)|
  {
    hide Merge, Stream, Local, SmallPages, Left;
    var p: Positions :| ContinuesAt(q, StartOf(cursor), r.works, p) && r.next == Some(Cursor(q.scope, p.ToList()));
    assert p.ToList()[0] == p.local && p.ToList()[1] == p.moviePage && p.ToList()[2] == p.movieIndex;
    assert p.ToList()[3] == p.seriesPage && p.ToList()[4] == p.seriesIndex;
  }

  /** The cursor a call emits stands for exactly the works that call has not returned. */
  lemma NextStart(q: Query, cursor: Option<Cursor>, r: Outcome)
    requires Resumable(q, cursor) && Answer(q, cursor, r) && r.more && Resumable(q, r.next)
    ensures ContinuesAt(q, StartOf(cursor), r.works, StartOf(r.next))
  {
    hide Merge, Stream, Local, SmallPages, Left;
    var p: Positions :| ContinuesAt(q, StartOf(cursor), r.works, p) && r.next == Some(Cursor(q.scope, p.ToList()));
    FromListToList(p);
  }

  /**
   Main result. Following the cursors never meets a rejected one, the pages shown so far are a prefix of
   the uninterrupted merge, the chain is finite, and once there is no cursor they are the whole merge.
   */
  lemma {:induction false} ChainIsMerge(q: Query, cursor: Option<Cursor>, pages: seq<Outcome>)
    requires SmallPages(q) && |Local(q)| <= MAX_OFFSET
    requires Resumable(q, cursor) && Chain(q, cursor, pages) && pages != []
    ensures forall i :: 0 <= i < |pages| ==> pages[i].Page?
    ensures Shown(pages) <= Left(q, StartOf(cursor))
    ensures |pages| - 1 <= Measure(q, StartOf(cursor))
    ensures !pages[|pages| - 1].more ==> Shown(pages) == Left(q, StartOf(cursor))
    decreases |pages|
  {
    hide Merge, Stream, Local, SmallPages, Left;
    if |pages| == 1 {
      assert Shown(pages) == pages[0].works + Shown(pages[1..]) == pages[0].works;
      if pages[0].more && Resumable(q, pages[0].next) {
        NextStart(q, cursor, pages[0]);
      } else if pages[0].more {
        var p: Positions :| ContinuesAt(q, StartOf(cursor), pages[0].works, p);
      }
    } else {
      EmittedCursor(q, cursor, pages[0]);
      NextStart(q, cursor, pages[0]);
      ChainIsMerge(q, pages[0].next, pages[1..]);
    }
  }

  lemma PagesFollowedByCursor(q: Query, pages: seq<Outcome>)
    requires SmallPages(q) && |Local(q)| <= MAX_OFFSET
    requires Chain(q, None, pages) && pages != []
    ensures forall i :: 0 <= i < |pages| ==> pages[i].Page? && |pages[i].works| <= PAGE_SIZE
    ensures Shown(pages) <= WholeTimeline(q)
    ensures |pages| <= |WholeTimeline(q)| + 1001
    ensures !pages[|pages| - 1].more ==> Shown(pages) == WholeTimeline(q)
  {
    ChainIsMerge(q, None, pages);
    ChainPageSize(q, None, pages);
    assert From(Local(q), 0) == Local(q);
  }

  /** Beyond the validated offset range no run finishes: every answered call still has more to come. */
  lemma {:induction false} TooManyKnownWorks(q: Query, cursor: Option<Cursor>, pages: seq<Outcome>)
    requires |Local(q)| > MAX_OFFSET + PAGE_SIZE
    requires Chain(q, cursor, pages)
    ensures forall i :: 0 <= i < |pages| && pages[i].Page? ==> pages[i].more
    decreases |pages|
  {
    hide Merge, Stream, Local, ContinuesAt;
    if pages != [] {
      if Resumable(q, cursor) {
        LeftCoversLocal(q, StartOf(cursor));
      }
      if |pages| > 1 {
        TooManyKnownWorks(q, pages[0].next, pages[1..]);
      }
      assert forall i :: 1 <= i < |pages| ==> pages[i] == pages[1..][i - 1];
    }
  }

  /** A viewer with n saved films and nothing to discover. */
  function Collector(n: nat): Query {
    Query(seq(n, i requires 0 <= i => Work(Movie, None, WorkKey(Movie, i), "", false)), None, false, "studio",
          (kind, raw) => true, (kind, id) => false, (kind, page) => Reply([], 0))
  }

  lemma {:induction false} AllSelected(q: Query, works: seq<Work>)
    requires q.mediaType.None? && !q.hideListed
    ensures Selected(q, works) == works
  {
    if works != [] {
      AllSelected(q, works[1..]);
    }
  }

  /** With 1,000,025 saved films every answered call, from the first on, still has more to come. */
  lemma CollectorNeverFinishes(pages: seq<Outcome>)
    requires Chain(Collector(1_000_025), None, pages)
    ensures forall i :: 0 <= i < |pages| && pages[i].Page? ==> pages[i].more
  {
    hide Chain, Selected, SortNewestFirst;
    var q := Collector(1_000_025);
    AllSelected(q, q.known);
    assert |Local(q)| == |multiset(Local(q))| == |multiset(q.known)| == |q.known|;
    TooManyKnownWorks(q, None, pages);
  }

  lemma LeftCoversLocal(q: Query, p: Positions)
    ensures |Left(q, p)| >= |Local(q)| - p.local
  {
    hide Stream, Local, Merge;
    MergeLength(From(Local(q), p.local), Stream(q, Movie, p.moviePage, p.movieIndex),
                Stream(q, Series, p.seriesPage, p.seriesIndex));
  }

  lemma {:induction false} ChainPageSize(q: Query, cursor: Option<Cursor>, pages: seq<Outcome>)
    requires Chain(q, cursor, pages)
    ensures forall i :: 0 <= i < |pages| && pages[i].Page? ==> |pages[i].works| <= PAGE_SIZE
    decreases |pages|
  {
    hide ContinuesAt, Left;
    if |pages| > 1 {
      ChainPageSize(q, pages[0].next, pages[1..]);
      assert forall i :: 1 <= i < |pages| ==> pages[i] == pages[1..][i - 1];
    }
  }

  /** The timeline holds every selected work exactly as often as its streams do, newest first if they are. */
  lemma WholeTimelineIsSortedUnion(q: Query)
    ensures multiset(WholeTimeline(q))
         == multiset(Selected(q, q.known)) + multiset(Stream(q, Movie, 1, 0)) + multiset(Stream(q, Series, 1, 0))
    ensures NewestFirst(Stream(q, Movie, 1, 0)) && NewestFirst(Stream(q, Series, 1, 0))
      ==> NewestFirst(WholeTimeline(q))
  {
    hide Merge, Stream, Selected;
    MergeKeepsEveryRow(Local(q), Stream(q, Movie, 1, 0), Stream(q, Series, 1, 0));
    SortSorts(Selected(q, q.known));
    if NewestFirst(Stream(q, Movie, 1, 0)) && NewestFirst(Stream(q, Series, 1, 0)) {
      MergeSorted(Local(q), Stream(q, Movie, 1, 0), Stream(q, Series, 1, 0));
    }
  }

  /** A work that a provider page lists and the result filters and the anime preference let through. */
  ghost predicate Discovered(q: Query, kind: Kind, w: Work) {
    exists page: nat, raw :: raw in q.fetch(kind, page).results && q.visible(kind, raw) && Shows(q, kind, raw, w)
  }

  predicate Shows(q: Query, kind: Kind, raw: Raw, w: Work) {
    w.kind == kind && w.tmdbId == Some(raw.id) && w.releaseDate == raw.releaseDate && w.listed == q.listed(kind, raw.id)
  }

  /** A discovered work of its kind that is not saved yet and passes the filters. */
  ghost predicate New(q: Query, kind: Kind, w: Work) {
    && w.tmdbId.Some? && (kind, w.tmdbId.value) !in KnownExternal(q)
    && !(q.hideListed && w.listed) && Discovered(q, kind, w)
  }

  /** Discovery never repeats a saved work, and shows only works of its kind that pass the filters. */
  lemma {:induction false} StreamIsNew(q: Query, kind: Kind, page: nat, index: nat)
    ensures forall w :: w in Stream(q, kind, page, index) ==> New(q, kind, w)
    decreases EXHAUSTED - page
  {
    hide New, Candidates, HasNext, Present;
    if Wanted(q, kind) && page <= LAST_PAGE {
      CandidatesAreNew(q, kind, page);
      PresentMembers(From(Candidates(q, kind, page), index));
      if HasNext(q, kind, page) {
        StreamIsNew(q, kind, page + 1, 0);
      }
    }
  }

  lemma CandidatesAreNew(q: Query, kind: Kind, page: nat)
    ensures forall w :: Some(w) in Candidates(q, kind, page) ==> New(q, kind, w)
  {
    var results := q.fetch(kind, page).results;
    forall w | Some(w) in Candidates(q, kind, page)
      ensures New(q, kind, w)
    {
      var i :| 0 <= i < |results| && Candidates(q, kind, page)[i] == Some(w);
      assert results[i] in results && Shows(q, kind, results[i], w);
    }
  }

  lemma {:induction false} PresentMembers(c: seq<Option<Work>>)
    ensures forall w :: w in Present(c) ==> Some(w) in c
  {
    if c != [] {
      PresentMembers(c[1..]);
      assert forall x :: x in c[1..] ==> x in c;
    }
  }
}
