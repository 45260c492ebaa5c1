/**
 Paging through releases in 180-day windows, newest first. One integer names both a window and a position in it, which
 loses its way when a window holds too many rows.
 */
module ReleaseWindows {
  import opened TextOrder

  const WINDOW_DAYS := 180
  const CURSOR_STRIDE := 10_000
  /** 1880-01-01, counted in days from 0001-01-01 as day 1. */
  const EARLIEST_RELEASE := 686_291

  /** A search with its filters; rows(lower, upper) is the finalized selection between two days. */
  datatype Search<Row> = Search(start: Option<int>, end: Option<int>, today: int, rows: (int, int) -> seq<Row>)

  datatype Reply<Row> = Reply(rows: seq<Row>, hasMore: bool, scanNext: int, windowHasMore: bool, moreWindows: bool,
                              lower: int, upper: int)

  function Start(s: Search): int {
    if s.start.Some? then s.start.value else EARLIEST_RELEASE
  }

  function End(s: Search): int {
    if s.end.Some? then s.end.value else s.today
  }

  function Min(a: int, b: int): int { if a <= b then a else b }
  function Max(a: int, b: int): int { if a >= b then a else b }

  /** One page of a historical search. */
  function Page<Row>(s: Search<Row>, offset: int, size: nat): Reply<Row> {
    var index, position := Max(offset, 0) / CURSOR_STRIDE, Max(offset, 0) % CURSOR_STRIDE;
    var upper := End(s) - index * WINDOW_DAYS;
    var lower := Max(upper - (WINDOW_DAYS - 1), Start(s));
    var moreWindows := lower > Start(s);
    var selected := s.rows(lower, upper);
    var rows := selected[Min(position, |selected|)..Min(position + size, |selected|)];
    var next := position + |rows|;
    var moreRows := next < |selected|;
    Reply(rows, moreRows || moreWindows,
          if moreRows then index * CURSOR_STRIDE + next else (index + 1) * CURSOR_STRIDE,
          moreRows, moreWindows, lower, upper)
  }

  // ----- The windows

  function Upper(s: Search, k: nat): int { End(s) - k * WINDOW_DAYS }
  function Lower(s: Search, k: nat): int { Max(Upper(s, k) - (WINDOW_DAYS - 1), Start(s)) }

  /** How many windows a search has. */
  function Windows(s: Search): (n: nat)
    ensures n >= 1
  {
    if End(s) < Start(s) then 1 else (End(s) - Start(s)) / WINDOW_DAYS + 1
  }

  /** The k-th call to leave a window says there is another one exactly when there is. */
  lemma MoreWindows<Row>(s: Search<Row>, offset: nat, size: nat)
    requires offset / CURSOR_STRIDE < Windows(s)
    ensures Page(s, offset, size).moreWindows <==> offset / CURSOR_STRIDE + 1 < Windows(s)
    ensures Page(s, offset, size).lower == Lower(s, offset / CURSOR_STRIDE)
    ensures Page(s, offset, size).upper == Upper(s, offset / CURSOR_STRIDE)
  {}

  /**
   The windows lie inside the searched dates, from the last date back to the first, which is 1880-01-01 if none is
   given; each ends the day before the next newer one begins, and all but the oldest hold 180 days.
   */
  lemma WindowInside(s: Search, k: nat)
    requires Start(s) <= End(s) && k < Windows(s)
    ensures Start(s) <= Lower(s, k) <= Upper(s, k) <= End(s)
    ensures Upper(s, 0) == if s.end == None then s.today else s.end.value
    ensures if k + 1 < Windows(s) then Upper(s, k) - Lower(s, k) == 179 && Upper(s, k + 1) == Lower(s, k) - 1
            else Lower(s, k) == if s.start == None then 686_291 else s.start.value
  {}

  /** Every searched day lies in exactly one window. */
  lemma DayInOneWindow(s: Search, d: int)
    requires Start(s) <= d <= End(s)
    ensures exists k: nat :: k < Windows(s) && Lower(s, k) <= d <= Upper(s, k)
    ensures forall j: nat, k: nat :: Lower(s, j) <= d <= Upper(s, j) && Lower(s, k) <= d <= Upper(s, k) ==> j == k
  {
    var k: nat := (End(s) - d) / WINDOW_DAYS;
    assert k < Windows(s) && Lower(s, k) <= d <= Upper(s, k);
  }

  // ----- Following the cursor

  function RowsIn<Row>(s: Search<Row>, k: nat): seq<Row> {
    s.rows(Lower(s, k), Upper(s, k))
  }

  /** Row i of window k. */
  datatype Place = Place(window: nat, row: nat)

  function RowAt<Row>(s: Search<Row>, a: Place): Option<Row> {
    var rows := RowsIn(s, a.window);
    if a.row < |rows| then Some(rows[a.row]) else None
  }

  /** Rows a up to b of window k. */
  function Stretch(k: nat, a: nat, b: nat): (r: seq<Place>)
    ensures |r| == if a <= b then b - a else 0
    ensures forall i :: 0 <= i < |r| ==> r[i] == Place(k, a + i)
  {
    if a <= b then seq(b - a, i requires 0 <= i => Place(k, a + i)) else []
  }

  /** The rows from row p of window k on: the rest of that window, and every later window. */
  ghost function From(s: Search, k: nat, p: nat): seq<Place>
    decreases Windows(s) - k
  {
    if k >= Windows(s) then [] else Stretch(k, p, |RowsIn(s, k)|) + From(s, k + 1, 0)
  }

  /** The rows one call shows. */
  ghost function Shown(s: Search, offset: nat, size: nat): seq<Place> {
    var k, p := offset / CURSOR_STRIDE, offset % CURSOR_STRIDE;
    Stretch(k, p, Min(p + size, |RowsIn(s, k)|))
  }

  lemma PageShows<Row>(s: Search<Row>, offset: nat, size: nat)
    requires offset / CURSOR_STRIDE < Windows(s)
    ensures var r, shown := Page(s, offset, size), Shown(s, offset, size);
            |r.rows| == |shown| && forall i :: 0 <= i < |shown| ==> RowAt(s, shown[i]) == Some(r.rows[i])
    ensures var r, p := Page(s, offset, size), offset % 10_000;
            r.rows != [] ==> p + |r.rows| <= |s.rows(r.lower, r.upper)| && |r.rows| <= size
                             && r.rows == s.rows(r.lower, r.upper)[p..p + |r.rows|]
  {
    MoreWindows(s, offset, size);
  }

  /** What the first n calls show, starting at an offset and following the cursor while there is more. */
  ghost function Walk(s: Search, offset: nat, size: nat, n: nat): seq<Place>
    decreases n
  {
    if n == 0 then []
    else
      var r := Page(s, offset, size);
      Shown(s, offset, size) + if r.hasMore && r.scanNext >= 0 then Walk(s, r.scanNext, size, n - 1) else []
  }

  /** The walk ends within n calls. */
  ghost predicate Ends(s: Search, offset: nat, size: nat, n: nat)
    decreases n
  {
    n > 0 && var r := Page(s, offset, size);
             r.hasMore ==> r.scanNext >= 0 && Ends(s, r.scanNext, size, n - 1)
  }

  /** Every continuing call moves on. */
  lemma CursorAdvances<Row>(s: Search<Row>, offset: nat, size: nat)
    requires size > 0 && Page(s, offset, size).hasMore
    ensures Page(s, offset, size).scanNext > offset
  {}

  /** One call in window k at row p: it shows what is left, up to a page, and then names the row after it. */
  lemma Turn<Row>(s: Search<Row>, k: nat, p: nat, size: nat)
    requires size > 0 && k < Windows(s) && p < CURSOR_STRIDE
    ensures var r, total := Page(s, k * CURSOR_STRIDE + p, size), |RowsIn(s, k)|;
            Shown(s, k * CURSOR_STRIDE + p, size) == Stretch(k, p, Min(p + size, total))
            && r.hasMore == (p + size < total || k + 1 < Windows(s))
            && r.scanNext == if p + size < total then k * CURSOR_STRIDE + (p + size) else (k + 1) * CURSOR_STRIDE
  {
    var offset := k * CURSOR_STRIDE + p;
    assert offset / CURSOR_STRIDE == k && offset % CURSOR_STRIDE == p;
    MoreWindows(s, offset, size);
  }

  // ----- How many rows of a window can be reached

  /** Where page j of a window starts. */
  function Boundary(size: nat, j: nat): nat { size * j }

  /** The first page boundary that no longer fits below the stride: 10008 for pages of 24. */
  function Reach(size: nat): nat
    requires size > 0
  {
    Boundary(size, (CURSOR_STRIDE + size - 1) / size)
  }

  lemma ReachOfTwentyFour()
    ensures Reach(24) == 10_008
  {}

  lemma Boundaries(size: nat, j: nat)
    requires size > 0
    ensures Boundary(size, 0) == 0 && Boundary(size, j + 1) == Boundary(size, j) + size
    ensures CURSOR_STRIDE <= Reach(size) < CURSOR_STRIDE + size
    ensures Boundary(size, j) < CURSOR_STRIDE ==> Boundary(size, j + 1) <= Reach(size)
    ensures Boundary(size, j) >= CURSOR_STRIDE ==> Boundary(size, j) >= Reach(size)
  {
    var m := (CURSOR_STRIDE + size - 1) / size;
    Ceiling(size);
    Product(size, m);
    Product(size, j);
    if j < m {
      Monotone(size, j + 1, m);
    } else {
      Monotone(size, m, j);
    }
  }

  lemma Ceiling(size: nat)
    requires size > 0
    ensures var m := (CURSOR_STRIDE + size - 1) / size; CURSOR_STRIDE <= size * m < CURSOR_STRIDE + size
  {
    var m := (CURSOR_STRIDE + size - 1) / size;
    assert size * m == CURSOR_STRIDE + size - 1 - (CURSOR_STRIDE + size - 1) % size;
  }

  lemma Monotone(size: nat, a: nat, b: nat)
    requires a <= b
    ensures size * a <= size * b
  {
    assert size * b == size * a + size * (b - a);
  }

  lemma Product(size: nat, j: nat)
    ensures size * (j + 1) == size * j + size
  {}

  ghost predicate Whole(s: Search, size: nat, k: nat, p: nat, n: nat) {
    Ends(s, k * CURSOR_STRIDE + p, size, n) && Walk(s, k * CURSOR_STRIDE + p, size, n) == From(s, k, p)
  }

  lemma WholeOnePage<Row>(s: Search<Row>, size: nat, k: nat, p: nat)
    requires size > 0 && k < Windows(s) && p < CURSOR_STRIDE && k + 1 == Windows(s) && p + size >= |RowsIn(s, k)|
    ensures Whole(s, size, k, p, 1)
  {
    hide Page, Shown;
    Turn(s, k, p, size);
    assert From(s, k + 1, 0) == [];
    assert Walk(s, k * CURSOR_STRIDE + p, size, 1) == Stretch(k, p, |RowsIn(s, k)|);
  }

  lemma WholeNextPage<Row>(s: Search<Row>, size: nat, k: nat, p: nat, n: nat)
    requires size > 0 && k < Windows(s) && p < CURSOR_STRIDE && p + size < |RowsIn(s, k)|
    requires Whole(s, size, k, p + size, n)
    ensures Whole(s, size, k, p, n + 1)
  {
    hide Page, Shown;
    Turn(s, k, p, size);
    var total := |RowsIn(s, k)|;
    assert Stretch(k, p, p + size) + Stretch(k, p + size, total) == Stretch(k, p, total);
  }

  lemma WholeNextWindow<Row>(s: Search<Row>, size: nat, k: nat, p: nat, n: nat)
    requires size > 0 && k + 1 < Windows(s) && p < CURSOR_STRIDE && p + size >= |RowsIn(s, k)|
    requires Whole(s, size, k + 1, 0, n)
    ensures Whole(s, size, k, p, n + 1)
  {
    hide Page, Shown;
    Turn(s, k, p, size);
    assert (k + 1) * CURSOR_STRIDE + 0 == Page(s, k * CURSOR_STRIDE + p, size).scanNext;
  }

  /** From a page boundary inside a window the walk shows the rest of that window and all later ones. */
  lemma {:induction false} WalkFrom<Row>(s: Search<Row>, k: nat, j: nat, size: nat) returns (n: nat)
    requires size > 0 && k < Windows(s)
    requires forall w: nat :: w < Windows(s) ==> |RowsIn(s, w)| <= Reach(size)
    requires j == 0 || Boundary(size, j) < |RowsIn(s, k)|
    ensures Whole(s, size, k, Boundary(size, j), n)
    decreases Windows(s) - k, |RowsIn(s, k)| - Boundary(size, j)
  {
    hide Boundary, Reach, Whole, RowsIn;
    var p := Boundary(size, j);
    Boundaries(size, j);
    if p + size < |RowsIn(s, k)| {
      n := WalkFrom(s, k, j + 1, size);
      WholeNextPage(s, size, k, p, n);
      n := n + 1;
    } else if k + 1 < Windows(s) {
      n := WalkFrom(s, k + 1, 0, size);
      WholeNextWindow(s, size, k, p, n);
      n := n + 1;
    } else {
      n := 1;
      WholeOnePage(s, size, k, p);
    }
  }

  /** A walk never goes back to an earlier window. */
  lemma {:induction false} WalkStaysBeyond<Row>(s: Search<Row>, offset: nat, size: nat, n: nat, k: nat)
    requires size > 0 && k * CURSOR_STRIDE <= offset
    ensures forall a :: a in Walk(s, offset, size, n) ==> a.window >= k
    decreases n
  {
    assert offset / CURSOR_STRIDE >= k;
    if n > 0 && Page(s, offset, size).hasMore {
      CursorAdvances(s, offset, size);
      WalkStaysBeyond(s, Page(s, offset, size).scanNext, size, n - 1, k);
    }
  }

  /** The row at Reach of the first window that has one is never shown. */
  lemma {:induction false} RowMissed<Row>(s: Search<Row>, k: nat, j: nat, size: nat, n: nat, long: nat)
    requires size > 0 && k <= long < Windows(s)
    requires |RowsIn(s, long)| > Reach(size)
    requires forall w: nat :: w < long ==> |RowsIn(s, w)| <= Reach(size)
    requires j == 0 || Boundary(size, j) < |RowsIn(s, k)|
    requires Boundary(size, j) <= Reach(size)
    ensures Place(long, Reach(size)) !in Walk(s, k * CURSOR_STRIDE + Boundary(size, j), size, n)
    decreases n
  {
    hide Boundary, Reach, RowsIn, Page, Shown, Windows, Walk;
    var p := Boundary(size, j);
    Boundaries(size, j);
    if n > 0 {
      if p >= CURSOR_STRIDE {
        WalkStaysBeyond(s, k * CURSOR_STRIDE + p, size, n, k + 1);
      } else {
        WalkTurn(s, k, p, size, n);
        if p + size < |RowsIn(s, k)| {
          RowMissed(s, k, j + 1, size, n - 1, long);
        } else if k < long {
          RowMissed(s, k + 1, 0, size, n - 1, long);
        }
      }
    } else {
      EmptyWalk(s, k * CURSOR_STRIDE + p, size);
    }
  }

  lemma EmptyWalk<Row>(s: Search<Row>, offset: nat, size: nat)
    ensures Walk(s, offset, size, 0) == []
  {}

  /** One call of a walk in window k at row p, and where it goes on. */
  lemma WalkTurn<Row>(s: Search<Row>, k: nat, p: nat, size: nat, n: nat)
    requires size > 0 && k < Windows(s) && p < CURSOR_STRIDE && n > 0
    ensures var total := |RowsIn(s, k)|;
            var shown := Stretch(k, p, Min(p + size, total));
            Walk(s, k * CURSOR_STRIDE + p, size, n) ==
            if p + size < total then shown + Walk(s, k * CURSOR_STRIDE + (p + size), size, n - 1)
            else if k + 1 < Windows(s) then shown + Walk(s, (k + 1) * CURSOR_STRIDE, size, n - 1)
            else shown
  {
    hide Page, Shown, RowsIn, Windows;
    Turn(s, k, p, size);
  }

  lemma {:induction false} LeastLong<Row>(s: Search<Row>, size: nat, k: nat) returns (long: nat)
    requires size > 0 && |RowsIn(s, k)| > Reach(size)
    ensures long <= k && |RowsIn(s, long)| > Reach(size)
    ensures forall w: nat :: w < long ==> |RowsIn(s, w)| <= Reach(size)
  {
    if w: nat :| w < k && |RowsIn(s, w)| > Reach(size) {
      long := LeastLong(s, size, w);
    } else {
      long := k;
    }
  }

  lemma {:induction false} FromHolds<Row>(s: Search<Row>, k: nat, a: Place)
    requires k <= a.window < Windows(s) && a.row < |RowsIn(s, a.window)|
    ensures a in From(s, k, 0)
    decreases Windows(s) - k
  {
    if k == a.window {
      var stretch := Stretch(k, 0, |RowsIn(s, k)|);
      assert stretch[a.row] == a;
    } else {
      FromHolds(s, k + 1, a);
    }
  }

  /** The n calls from the start show everything, in order, and the last of them says that there is no more. */
  ghost predicate ShowsAll(s: Search, size: nat, n: nat) {
    Ends(s, 0, size, n) && Walk(s, 0, size, n) == From(s, 0, 0)
  }

  ghost predicate WindowsFit(s: Search, size: nat)
    requires size > 0
  {
    forall k: nat :: k < Windows(s) ==> |RowsIn(s, k)| <= Reach(size)
  }

  /**
   Following the cursor from the start shows every row of every window, once and in order, and stops: exactly when no
   window holds more than Reach(size) rows.
   */
  lemma EveryRowOnce<Row>(s: Search<Row>, size: nat)
    requires size > 0
    ensures (exists n: nat :: ShowsAll(s, size, n)) <==> WindowsFit(s, size)
  {
    hide Boundary, Reach, RowsIn, Walk, Ends, From, Page;
    Boundaries(size, 0);
    if WindowsFit(s, size) {
      var n := WalkFrom(s, 0, 0, size);
      assert 0 * CURSOR_STRIDE + 0 == 0;
      assert ShowsAll(s, size, n);
    } else {
      var k: nat :| k < Windows(s) && |RowsIn(s, k)| > Reach(size);
      var long := LeastLong(s, size, k);
      forall n: nat
        ensures !ShowsAll(s, size, n)
      {
        RowMissed(s, 0, 0, size, n, long);
        FromHolds(s, 0, Place(long, Reach(size)));
      }
    }
  }

  /** One day with 10,009 releases: no number of calls shows them all. */
  lemma BusyDayIsCut(n: nat)
    ensures !ShowsAll(Search(Some(0), Some(0), 0, (lower: int, upper: int) => seq(10_009, i => i)), 24, n)
  {
    hide ShowsAll;
    var s := Search(Some(0), Some(0), 0, (lower: int, upper: int) => seq(10_009, i => i));
    ReachOfTwentyFour();
    EveryRowOnce(s, 24);
    assert |RowsIn(s, 0)| == 10_009;
  }
}
