/**
 What a finished studio timeline contains, said of the saved works and of the provider's rows alone: every selected
 saved work and every usable row of every announced page, each as often as it occurs.
 */
module StudioContents {
  import opened TextOrder
  import opened Timeline
  import opened StudioTimeline

  ghost predicate Wishes(q: Query, kind: Kind) {
    q.mediaType != Some(if kind == Movie then Series else Movie)
  }

  lemma WishesWanted(q: Query, kind: Kind)
    ensures Wishes(q, kind) == Wanted(q, kind)
  {
    match q.mediaType {
      case None =>
      case Some(Movie) =>
      case Some(Series) =>
    }
  }

  ghost predicate Saved(q: Query, kind: Kind, id: int) {
    exists w :: w in q.known && w.kind == kind && w.tmdbId == Some(id)
  }

  /** A row that the timeline shows. */
  ghost predicate Usable(q: Query, kind: Kind, raw: Raw) {
    && 1 <= raw.id <= 0x7fff_ffff && |raw.title| > 0 && !raw.adult
    && !Saved(q, kind, raw.id) && q.visible(kind, raw) && (q.hideListed ==> !q.listed(kind, raw.id))
  }

  function WorkOf(q: Query, kind: Kind, raw: Raw): Work
    requires raw.id >= 0
  {
    Work(kind, Some(raw.id), WorkKey(kind, raw.id), raw.releaseDate, q.listed(kind, raw.id))
  }

  ghost function UsableRows(q: Query, kind: Kind, rows: seq<Raw>): seq<Work> {
    if rows == [] then []
    else if Usable(q, kind, rows[0]) then [WorkOf(q, kind, rows[0])] + UsableRows(q, kind, rows[1..])
    else UsableRows(q, kind, rows[1..])
  }

  /** The usable rows of the pages from first to last. */
  ghost function Discoverable(q: Query, kind: Kind, first: nat, last: nat): seq<Work>
    decreases last + 1 - first
  {
    if first > last then []
    else UsableRows(q, kind, q.fetch(kind, first).results) + Discoverable(q, kind, first + 1, last)
  }

  /** The provider announces one total on all its pages. */
  ghost predicate Announces(q: Query, kind: Kind, total: int) {
    forall page :: page >= 1 ==> q.fetch(kind, page).totalPages == total
  }

  /** At least one page is read, and 500 at most. */
  function LastOf(total: int): nat {
    if total <= 1 then 1 else if total <= 500 then total else 500
  }

  lemma UsableCandidate(q: Query, kind: Kind, raw: Raw)
    ensures Candidate(q, kind, raw) == if Usable(q, kind, raw) then Some(WorkOf(q, kind, raw)) else None
  {
    if raw.id != 0 && (kind, raw.id) in KnownExternal(q) {
      assert Saved(q, kind, raw.id);
    }
  }

  lemma {:induction false} PresentUsable(q: Query, kind: Kind, page: nat, i: nat)
    requires i <= |q.fetch(kind, page).results|
    ensures Present(Candidates(q, kind, page)[i..]) == UsableRows(q, kind, q.fetch(kind, page).results[i..])
    decreases |q.fetch(kind, page).results| - i
  {
    hide Usable;
    var results := q.fetch(kind, page).results;
    if i < |results| {
      PresentUsable(q, kind, page, i + 1);
      UsableCandidate(q, kind, results[i]);
      assert results[i..][0] == results[i] && results[i..][1..] == results[i + 1..];
      assert Candidates(q, kind, page)[i..][1..] == Candidates(q, kind, page)[i + 1..];
    }
  }

  lemma {:induction false} StreamPages(q: Query, kind: Kind, total: int, page: nat)
    requires Announces(q, kind, total) && Wishes(q, kind) && 1 <= page <= LastOf(total)
    ensures Stream(q, kind, page, 0) == Discoverable(q, kind, page, LastOf(total))
    decreases LastOf(total) - page
  {
    hide Candidates, UsableRows, Present;
    PresentUsable(q, kind, page, 0);
    var results, candidates := q.fetch(kind, page).results, Candidates(q, kind, page);
    assert From(candidates, 0) == candidates && candidates[0..] == candidates && results[0..] == results;
    WishesWanted(q, kind);
    assert q.fetch(kind, page).totalPages == total;
    if page < LastOf(total) {
      StreamPages(q, kind, total, page + 1);
    } else {
      assert Discoverable(q, kind, page + 1, LastOf(total)) == [];
    }
  }

  /** Discovery offers, in the provider's order, exactly the usable rows of its pages. */
  lemma StreamIsDiscoverable(q: Query, kind: Kind, total: int)
    requires Announces(q, kind, total)
    ensures Stream(q, kind, 1, 0) == if Wishes(q, kind) then Discoverable(q, kind, 1, LastOf(total)) else []
  {
    WishesWanted(q, kind);
    if Wishes(q, kind) {
      StreamPages(q, kind, total, 1);
    }
  }

  /** How often a saved work belongs to the timeline. */
  ghost function SavedCount(q: Query, w: Work): nat {
    if Wishes(q, w.kind) && (q.hideListed ==> !w.listed) then multiset(q.known)[w] else 0
  }

  lemma {:induction false} SelectedCount(q: Query, works: seq<Work>, w: Work)
    ensures multiset(Selected(q, works))[w] ==
            if Wishes(q, w.kind) && (q.hideListed ==> !w.listed) then multiset(works)[w] else 0
  {
    if works != [] {
      SelectedCount(q, works[1..], w);
      WishesWanted(q, works[0].kind);
      assert works == [works[0]] + works[1..];
      var first := if Wanted(q, works[0].kind) && !(q.hideListed && works[0].listed) then [works[0]] else [];
      assert multiset(first + Selected(q, works[1..])) == multiset(first) + multiset(Selected(q, works[1..]));
    }
  }

  /** The rows of a kind that belong to the timeline. */
  ghost function Discovered(q: Query, kind: Kind, total: int): multiset<Work> {
    if Wishes(q, kind) then multiset(Discoverable(q, kind, 1, LastOf(total))) else multiset{}
  }

  /**
   A chain of calls that has come to its end has shown every selected saved work and, of each wanted kind, every usable
   row of pages one to the last, with the same multiplicity, and nothing else.
   */
  lemma FinishedTimelineShowsAll(q: Query, pages: seq<Outcome>, movies: int, series: int, w: Work)
    requires SmallPages(q) && |Local(q)| <= 1_000_000
    requires Announces(q, Movie, movies) && Announces(q, Series, series)
    requires Chain(q, None, pages) && pages != [] && pages[|pages| - 1].Page? && !pages[|pages| - 1].more
    ensures multiset(Shown(pages))[w] ==
            SavedCount(q, w) + Discovered(q, Movie, movies)[w] + Discovered(q, Series, series)[w]
  {
    hide Stream, Discoverable, Selected, Chain, SmallPages, Announces;
    PagesFollowedByCursor(q, pages);
    WholeTimelineIsSortedUnion(q);
    StreamIsDiscoverable(q, Movie, movies);
    StreamIsDiscoverable(q, Series, series);
    SelectedCount(q, q.known, w);
  }

  // ----- what the order means

  /** a and b agree on their first k characters, and there b ends later or goes on with a greater one. */
  ghost predicate BelowAt(a: string, b: string, k: nat) {
    k <= |a| && k < |b| && a[..k] == b[..k] && (k == |a| || a[k] < b[k])
  }

  lemma SameHead(a: string, b: string, k: nat)
    requires BelowAt(a, b, k) && k > 0
    ensures a[0] == b[0]
  {
    assert a[..k][0] == b[..k][0];
  }

  lemma SameHeads(a: string, b: string)
    ensures forall k: nat :: BelowAt(a, b, k) && k > 0 ==> |a| > 0 && |b| > 0 && a[0] == b[0]
  {
    forall k: nat | BelowAt(a, b, k) && k > 0
      ensures |a| > 0 && |b| > 0 && a[0] == b[0]
    {
      SameHead(a, b, k);
    }
  }

  lemma {:induction false} BelowMeans(a: string, b: string)
    ensures Below(a, b) <==> exists k: nat :: BelowAt(a, b, k)
  {
    SameHeads(a, b);
    if a == "" || b == "" || a[0] != b[0] {
      if Below(a, b) {
        assert BelowAt(a, b, 0);
      }
    } else {
      BelowMeans(a[1..], b[1..]);
      if k: nat :| BelowAt(a[1..], b[1..], k) {
        assert a[..k + 1] == [a[0]] + a[1..][..k] && b[..k + 1] == [b[0]] + b[1..][..k];
        assert BelowAt(a, b, k + 1);
      }
      if k: nat :| BelowAt(a, b, k) {
        assert k > 0;
        assert a[1..][..k - 1] == a[..k][1..] && b[1..][..k - 1] == b[..k][1..];
        assert BelowAt(a[1..], b[1..], k - 1);
      }
    }
  }

  /** Newest first is by release date, and by key among works of one date; a work without a date comes last. */
  lemma NewestFirstByDate(s: seq<Work>, i: nat, j: nat)
    requires NewestFirst(s) && i < j < |s|
    ensures s[i].releaseDate == s[j].releaseDate || exists k: nat :: BelowAt(s[j].releaseDate, s[i].releaseDate, k)
    ensures s[i].releaseDate == s[j].releaseDate && s[i].key != s[j].key ==>
      exists k: nat :: BelowAt(s[j].key, s[i].key, k)
  {
    BelowTotal(s[i].releaseDate, s[j].releaseDate);
    BelowTotal(s[i].key, s[j].key);
    BelowMeans(s[j].releaseDate, s[i].releaseDate);
    BelowMeans(s[j].key, s[i].key);
  }

  // ----- keys

  function ValueOf(digits: string): int {
    if digits == "" then 0 else ValueOf(digits[..|digits| - 1]) * 10 + (digits[|digits| - 1] as int - '0' as int)
  }

  lemma {:induction false} DecimalValue(n: nat)
    ensures ValueOf(Decimal(n)) == n && |Decimal(n)| > 0
    ensures n > 0 ==> Decimal(n)[0] != '0'
  {
    if n < 10 {
      assert Decimal(n)[..0] == "";
    } else {
      DecimalValue(n / 10);
      assert Decimal(n)[..|Decimal(n)| - 1] == Decimal(n / 10);
    }
  }

  /** A discovered work's key is its kind and number; different works have different keys. */
  lemma WorkKeyIsUnique(kind: Kind, id: nat, kind': Kind, id': nat)
    requires WorkKey(kind, id) == WorkKey(kind', id')
    ensures kind == kind' && id == id'
  {
    var key, key' := WorkKey(kind, id), WorkKey(kind', id');
    assert key[0] == (if kind == Movie then 'm' else 's') && key'[0] == (if kind' == Movie then 'm' else 's');
    var n := if kind == Movie then 6 else 7;
    assert key[n..] == Decimal(id) && key'[n..] == Decimal(id');
    DecimalValue(id);
    DecimalValue(id');
  }

  // ----- cursors

  /** A cursor is refused exactly when it is malformed, of another query, or holds numbers that no call emits. */
  lemma RefusedCursors(q: Query, cursor: Option<Cursor>, r: Outcome)
    requires Answer(q, cursor, r)
    ensures r == InvalidCursor <==>
            cursor.Some? && !(cursor.value.Cursor? && cursor.value.scope == q.scope && Valid(cursor.value.positions))
  {}

  predicate Valid(p: seq<int>) {
    |p| == 5 && 0 <= p[0] <= 1_000_000 && 1 <= p[1] <= 501 && 0 <= p[2] <= 20 && 1 <= p[3] <= 501 && 0 <= p[4] <= 20
  }
}
