/**
 Browsing a ranked feed lazily. One path resumes a bounded scan from a release cursor, the other scans
 title details until one page plus one title is known. Both must show what filtering the whole feed and
 slicing it would show.
 */
module RankedFeed {
  import opened TextOrder

  const PAGE_SIZE := 24
  const SCAN_LIMIT := 96   // PAGE_SIZE * 4 candidates per release call

  datatype Item = Item(id: int, payload: int)

  /**
   The ranked rows and the evidence the calls gather about them: basic is the cached-field filter, evidence
   the row enriched by its details (None when the details reject it), released the release-date check.
   */
  datatype Feed = Feed(rows: seq<Item>, basic: Item -> bool, evidence: Item -> Option<Item>, released: Item -> bool)

  function Filtered(rows: seq<Item>, keep: Item -> bool): (r: seq<Item>)
    ensures forall x :: x in r ==> x in rows && keep(x)
  {
    if rows == [] then []
    else (if keep(rows[0]) then [rows[0]] else []) + Filtered(rows[1..], keep)
  }

  function Candidates(f: Feed): seq<Item> {
    Filtered(f.rows, f.basic)
  }

  /** What the release filter keeps of some rows, in rank order. */
  function Kept(f: Feed, rows: seq<Item>): seq<Item> {
    if rows == [] then []
    else Verdict(f, rows[0]) + Kept(f, rows[1..])
  }

  function Verdict(f: Feed, row: Item): seq<Item> {
    var item := f.evidence(row);
    if item.Some? && f.released(item.value) then [item.value] else []
  }

  /** What the detail filter keeps of some rows, in rank order. */
  function Detailed(f: Feed, rows: seq<Item>): seq<Item> {
    if rows == [] then []
    else (if f.evidence(rows[0]).Some? then [f.evidence(rows[0]).value] else []) + Detailed(f, rows[1..])
  }

  /** The feed holds each title once, and a title's details carry its own id. */
  ghost predicate Coherent(f: Feed) {
    && DistinctIds(f.rows)
    && (forall row :: row in f.rows && f.evidence(row).Some? ==> f.evidence(row).value.id == row.id)
  }

  predicate DistinctIds(rows: seq<Item>) {
    forall i, j :: 0 <= i < j < |rows| ==> rows[i].id != rows[j].id
  }

  lemma {:induction false} FilteredKeepsIdsApart(rows: seq<Item>, keep: Item -> bool)
    requires DistinctIds(rows)
    ensures DistinctIds(Filtered(rows, keep))
  {
    if rows != [] {
      FilteredKeepsIdsApart(rows[1..], keep);
      var r := Filtered(rows[1..], keep);
      forall j | 0 <= j < |r|
        ensures r[j].id != rows[0].id
      {
        assert r[j] in r;
        var k :| 0 <= k < |rows[1..]| && rows[1..][k] == r[j];
        assert rows[k + 1] == r[j];
      }
      assert Filtered(rows, keep) == if keep(rows[0]) then [rows[0]] + r else r;
    }
  }

  lemma Reassociate(a: seq<Item>, b: seq<Item>, c: seq<Item>)
    ensures (a + b) + c == a + (b + c)
  {}

  lemma {:induction false} KeptConcat(f: Feed, a: seq<Item>, b: seq<Item>)
    ensures Kept(f, a + b) == Kept(f, a) + Kept(f, b)
  {
    if a == [] {
      assert a + b == b;
    } else {
      KeptConcat(f, a[1..], b);
      assert (a + b)[1..] == a[1..] + b;
      Reassociate(Verdict(f, a[0]), Kept(f, a[1..]), Kept(f, b));
    }
  }

  lemma {:induction false} DetailedConcat(f: Feed, a: seq<Item>, b: seq<Item>)
    ensures Detailed(f, a + b) == Detailed(f, a) + Detailed(f, b)
  {
    if a == [] {
      assert a + b == b;
    } else {
      DetailedConcat(f, a[1..], b);
      assert (a + b)[1..] == a[1..] + b;
    }
  }

  lemma KeptSnoc(f: Feed, rows: seq<Item>, lo: nat, hi: nat)
    requires lo <= hi < |rows|
    ensures Kept(f, rows[lo..hi + 1]) == Kept(f, rows[lo..hi]) + Verdict(f, rows[hi])
  {
    assert rows[lo..hi + 1] == rows[lo..hi] + [rows[hi]];
    KeptConcat(f, rows[lo..hi], [rows[hi]]);
    assert Kept(f, [rows[hi]]) == Verdict(f, rows[hi]) + Kept(f, []);
  }

  // ----- release cursors

  /** The items of a batch that have a release, by id. */
  method AcceptedOf(f: Feed, batch: seq<Item>) returns (accepted: map<int, Item>)
    requires DistinctIds(batch)
    requires forall row :: row in batch && f.evidence(row).Some? ==> f.evidence(row).value.id == row.id
    ensures forall row :: row in batch ==>
      (if row.id in accepted then [accepted[row.id]] else []) == Verdict(f, row)
  {
    accepted := map[];
    for i := 0 to |batch|
      invariant forall id :: id in accepted ==> exists j :: 0 <= j < i && batch[j].id == id
      invariant forall j :: 0 <= j < i ==>
        (if batch[j].id in accepted then [accepted[batch[j].id]] else []) == Verdict(f, batch[j])
    {
      var item := f.evidence(batch[i]);
      if item.Some? && f.released(item.value) {
        accepted := accepted[item.value.id := item.value];
      }
    }
  }

  /** One page of a release scan that stopped before candidate next. */
  ghost predicate ReleasePageFrom(f: Feed, offset: nat, items: seq<Item>, next: nat, hasMore: bool) {
    var all := Candidates(f);
    && offset <= next && (next <= |all| || next == offset)
    && items == Kept(f, Slice(all, offset, next))
    && |items| <= 24 && next <= offset + 96
    && (hasMore <==> next < |all|)
    && (hasMore ==> offset < next && (|items| == 24 || next == offset + 96))
  }

  /** Python's s[lo:hi] for non-negative bounds. */
  function Slice(s: seq<Item>, lo: nat, hi: nat): seq<Item> {
    if lo >= |s| || hi <= lo then [] else s[lo..if hi < |s| then hi else |s|]
  }

  function Min(a: int, b: int): int { if a < b then a else b }
  function Max(a: int, b: int): int { if a < b then b else a }

  /** Takes candidates of one batch in rank order until the batch ends or the page is full. */
  method ConsumeBatch(f: Feed, all: seq<Item>, offset: nat, start: nat, end: nat, items0: seq<Item>)
    returns (items: seq<Item>, next: nat)
    requires offset <= start < end <= |all| && |items0| < PAGE_SIZE
    requires DistinctIds(all)
    requires forall row :: row in all && f.evidence(row).Some? ==> f.evidence(row).value.id == row.id
    requires items0 == Kept(f, all[offset..start])
    ensures start < next <= end && items == Kept(f, all[offset..next])
    ensures |items| <= PAGE_SIZE && (|items| < PAGE_SIZE ==> next == end)
  {
    hide Kept, Verdict;
    var batch := all[start..end];
    var accepted := AcceptedOf(f, batch);
    items, next := items0, start;
    while next < end && |items| != PAGE_SIZE
      invariant start <= next <= end && (next == start ==> |items| < PAGE_SIZE)
      invariant |items| <= PAGE_SIZE && items == Kept(f, all[offset..next])
      decreases end - next
    {
      var row := all[next];
      assert row == batch[next - start];
      KeptSnoc(f, all, offset, next);
      if row.id in accepted {
        items := items + [accepted[row.id]];
      }
      next := next + 1;
    }
  }

  method ReleasePage(f: Feed, page: int, feedOffset: Option<int>)
    returns (items: seq<Item>, next: nat, hasMore: bool)
    requires Coherent(f)
    ensures ReleasePageFrom(f, Max(0, if feedOffset.Some? && feedOffset.value >= 0 then feedOffset.value
                                      else (page - 1) * 24), items, next, hasMore)
  {
    hide Filtered, Verdict;
    var all := Candidates(f);
    FilteredKeepsIdsApart(f.rows, f.basic);
    var offset := Max(0, if feedOffset.Some? && feedOffset.value >= 0 then feedOffset.value
                         else (page - 1) * PAGE_SIZE);
    items, next := [], offset;
    var start := offset;
    while start < Min(|all|, offset + SCAN_LIMIT) && |items| != PAGE_SIZE
      invariant offset <= start <= offset + SCAN_LIMIT && (start - offset) % PAGE_SIZE == 0
      invariant |items| <= PAGE_SIZE && items == Kept(f, Slice(all, offset, next))
      invariant offset <= next <= offset + SCAN_LIMIT && (next <= |all| || next == offset)
      invariant |items| < PAGE_SIZE ==> next == Max(offset, Min(start, |all|))
      invariant offset < start && offset < |all| ==> offset < next
      decreases offset + SCAN_LIMIT - start
    {
      assert Slice(all, offset, next) == all[offset..start];
      items, next := ConsumeBatch(f, all, offset, start, Min(|all|, start + PAGE_SIZE), items);
      assert Slice(all, offset, next) == all[offset..next];
      start := start + PAGE_SIZE;
    }
    hasMore := next < |all|;
  }

  /** Calls that resume one another from offset on. */
  ghost predicate ReleaseChain(f: Feed, offset: nat, pages: seq<(seq<Item>, nat, bool)>)
    decreases |pages|
  {
    pages != [] ==>
      && ReleasePageFrom(f, offset, pages[0].0, pages[0].1, pages[0].2)
      && (|pages| > 1 ==> pages[0].2 && ReleaseChain(f, pages[0].1, pages[1..]))
  }

  function Shown(pages: seq<(seq<Item>, nat, bool)>): seq<Item> {
    if pages == [] then [] else pages[0].0 + Shown(pages[1..])
  }

  /** Following the cursors visits every accepted candidate once, in rank order, and ends. */
  lemma {:induction false} ReleaseCursorsScanTheFeed(f: Feed, offset: nat, pages: seq<(seq<Item>, nat, bool)>)
    requires ReleaseChain(f, offset, pages) && pages != [] && offset <= |Candidates(f)|
    ensures var last := pages[|pages| - 1];
            && offset <= last.1 <= |Candidates(f)| && (!last.2 ==> last.1 == |Candidates(f)|)
            && Shown(pages) == Kept(f, Candidates(f)[offset..last.1])
            && (!last.2 ==> Shown(pages) == Kept(f, Candidates(f)[offset..]))
    ensures |pages| <= |Candidates(f)| - offset + 1
    decreases |pages|
  {
    hide Kept, Filtered;
    var all := Candidates(f);
    var next := pages[0].1;
    assert Slice(all, offset, next) == all[offset..next];
    if |pages| == 1 {
      assert Shown(pages) == pages[0].0;
      assert !pages[0].2 ==> all[offset..next] == all[offset..];
    } else {
      ReleaseCursorsScanTheFeed(f, next, pages[1..]);
      var last := pages[|pages| - 1];
      assert last == pages[1..][|pages| - 2];
      assert all[offset..last.1] == all[offset..next] + all[next..last.1];
      KeptConcat(f, all[offset..next], all[next..last.1]);
      assert !last.2 ==> all[offset..last.1] == all[offset..];
    }
  }

  // ----- numbered pages

  method DetailPage(f: Feed, page: nat) returns (selected: seq<Item>, hasMore: bool)
    requires page >= 1
    ensures selected == Slice(Detailed(f, Candidates(f)), (page - 1) * 24, page * 24)
    ensures hasMore <==> |Detailed(f, Candidates(f))| > page * 24
  {
    hide Filtered;
    var all := Candidates(f);
    var items: seq<Item> := [];
    var target := page * PAGE_SIZE + 1;
    var start := 0;
    assert all[..0] == [];
    while start < |all| && |items| < target
      invariant items == Detailed(f, all[..Min(start, |all|)])
      decreases |all| - start
    {
      var end := Min(|all|, start + PAGE_SIZE);
      var batch := all[start..end];
      assert all[..end] == all[..start] + batch;
      DetailedConcat(f, all[..start], batch);
      var found := DetailBatch(f, batch);
      items := items + found;
      start := start + PAGE_SIZE;
    }
    var seen := Min(start, |all|);
    assert all == all[..seen] + all[seen..];
    DetailedConcat(f, all[..seen], all[seen..]);
    if seen == |all| {
      assert all[seen..] == [];
    }
    hasMore := |items| > page * PAGE_SIZE;
    selected := Slice(items, (page - 1) * PAGE_SIZE, page * PAGE_SIZE);
  }

  method DetailBatch(f: Feed, batch: seq<Item>) returns (found: seq<Item>)
    ensures found == Detailed(f, batch)
  {
    found := [];
    assert batch[..0] == [];
    for i := 0 to |batch|
      invariant found == Detailed(f, batch[..i])
    {
      assert batch[..i + 1] == batch[..i] + [batch[i]];
      DetailedConcat(f, batch[..i], [batch[i]]);
      assert Detailed(f, [batch[i]][1..]) == [];
      if f.evidence(batch[i]).Some? {
        found := found + [f.evidence(batch[i]).value];
      }
    }
    assert batch[..|batch|] == batch;
  }
}
