/**
 Activity cards of one title: every card covers the 24 hours after its first event and shows the net effect of the edits
 in that time.
 */
module ActivityCards {
  import opened TextOrder
  import opened SeasonProgress

  /** Microseconds. */
  const HOUR := 3_600_000_000
  const DAY := 24 * HOUR

  type Score = real

  datatype Rating = Rating(changed: bool, first: bool, start: Option<Score>, previous: Option<Score>,
                           ratedAt: Option<int>)

  const NO_RATING := Rating(false, false, None, None, None)

  /** A position within the series; positions is the full list when exact evidence is known. */
  datatype Span = Span(first: Option<(int, int)>, last: Option<(int, int)>, positions: Option<seq<(int, int)>>)

  /** start is progress_start, startIds is watched_start_ids, statusStart is missing until a status change. */
  datatype Details = Details(count: nat, start: nat, progress: nat, startIds: Option<set<int>>, span: Span,
                             finished: set<int>, statusStart: Option<Option<string>>, statusChanged: bool,
                             startedWatching: bool, rating: Rating)

  datatype Card = Card(id: nat, windowStart: int, createdAt: int, status: string, score: Option<Score>,
                       details: Details)

  /** next is the value the primary key's sequence gives out next. */
  datatype Log = Log(cards: seq<Card>, next: nat)

  datatype Edit = Edit(previousProgress: nat, progress: nat, status: string, score: Option<Score>,
                       statusChanged: bool, ratingChanged: bool, previousStatus: Option<string>,
                       firstWatching: Option<bool>, previousScore: Option<Score>,
                       previousIds: Option<set<int>>, watchedIds: Option<set<int>>)

  predicate HasEvent(status: string, d: Details) {
    || (d.statusChanged && (status != "watching" || d.startedWatching))
    || d.rating.changed || d.count > 0 || d.finished != {}
  }

  // ----- Progress

  function Position(e: Episode): (int, int) { (e.season, e.number) }

  function Positions(episodes: seq<Episode>): (r: seq<(int, int)>)
    ensures |r| == |episodes|
    ensures forall i :: 0 <= i < |r| ==> r[i] == (episodes[i].season, episodes[i].number)
  {
    seq(|episodes|, i requires 0 <= i < |episodes| => Position(episodes[i]))
  }

  function Excess(a: int, b: int): nat {
    if a > b then a - b else 0
  }

  function Take<T>(s: seq<T>, n: nat): (r: seq<T>)
    ensures r <= s && (|r| == n || (|s| < n && r == s))
  {
    if n <= |s| then s[..n] else s
  }

  /** The episodes between two cumulative progress values; nothing when the catalogue does not reach that far. */
  function SpanBetween(c: Catalogue, start: nat, end: nat): (Option<(int, int)>, Option<(int, int)>, set<int>) {
    if !c.isSeries || end <= start || start >= |c.episodes| || end > |c.episodes| then (None, None, {})
    else (Some(Position(c.episodes[start])), Some(Position(c.episodes[end - 1])),
          Finished(c, c.episodes[..end]) - Finished(c, c.episodes[..start]))
  }

  /** What was watched when the window opened, as exact evidence. */
  function StartIds(c: Catalogue, row: Option<Details>, e: Edit, start: nat): set<int> {
    if row.Some? && row.value.startIds.Some? then row.value.startIds.value * Ids(c.episodes)
    else
      var previous := Among(c.episodes, if e.previousIds.Some? then e.previousIds.value else Ids(c.episodes));
      Ids(if row.Some? then Take(previous, start) else previous)
  }

  function ExactSpan(c: Catalogue, startIds: set<int>, current: set<int>): Span {
    var added := Among(c.episodes, current - startIds);
    if added != [] && |current| > |startIds|
    then Span(Some(Position(added[0])), Some(Position(added[|added| - 1])), Some(Positions(added)))
    else Span(None, None, Some(Positions(added)))
  }

  function StartOf(row: Option<Details>, e: Edit): nat {
    if row.Some? then row.value.start else e.previousProgress
  }

  predicate Exact(row: Option<Details>, e: Edit) {
    e.watchedIds.Some? || (row.Some? && row.value.startIds.Some?)
  }

  /** The watched episodes that count: those given, or else the watch history's. */
  function Evidence(c: Catalogue, e: Edit, history: set<int>): set<int> {
    (if e.watchedIds.Some? then e.watchedIds.value else history) * Ids(c.episodes)
  }

  const BLANK := Details(0, 0, 0, None, Span(None, None, None), {}, None, false, false, NO_RATING)

  function WithProgress(c: Catalogue, row: Option<Details>, e: Edit, history: set<int>): Details {
    var d := if row.Some? then row.value else BLANK;
    var start := StartOf(row, e);
    if Exact(row, e) then
      var current, startIds := Evidence(c, e, history), StartIds(c, row, e, start);
      d.(start := start, progress := e.progress, startIds := Some(startIds), count := Excess(|current|, |startIds|),
         span := ExactSpan(c, startIds, current),
         finished := Finished(c, Among(c.episodes, current)) - Finished(c, Among(c.episodes, startIds)))
    else
      var (first, last, finished) := SpanBetween(c, start, e.progress);
      d.(start := start, progress := e.progress, count := Excess(e.progress, start),
         span := Span(first, last, d.span.positions), finished := finished)
  }

  // ----- Status and rating

  function WithStatus(d: Details, e: Edit): Details {
    if !e.statusChanged then d
    else
      var start := if d.statusStart.Some? then d.statusStart.value else e.previousStatus;
      d.(statusStart := Some(start), statusChanged := start != Some(e.status),
         startedWatching := if e.status == "watching"
                            then d.startedWatching
                                 || (if e.firstWatching.Some? then e.firstWatching.value else e.previousStatus.None?)
                            else d.startedWatching)
  }

  function WithRating(d: Details, e: Edit, ratingChanged: bool, now: int): Details {
    if !ratingChanged then d
    else if e.previousScore.None? then d.(rating := Rating(true, true, None, None, Some(now)))
    else
      var r := d.rating;
      var start := if r.start.Some? then r.start else if r.previous.Some? then r.previous else e.previousScore;
      d.(rating := r.(start := start, changed := start != e.score, first := false,
                      previous := if start != e.score then start else None))
  }

  // ----- Finding cards

  predicate InWindow(card: Card, now: int) {
    card.windowStart <= now < card.windowStart + DAY
  }

  /** The card whose window is open. */
  function ActiveIndex(cards: seq<Card>, now: int): (r: Option<nat>)
    ensures r.Some? ==> r.value < |cards| && InWindow(cards[r.value], now)
    ensures r.None? ==> forall i :: 0 <= i < |cards| ==> !InWindow(cards[i], now)
  {
    if cards == [] then None
    else if InWindow(cards[|cards| - 1], now) then Some(|cards| - 1)
    else ActiveIndex(cards[..|cards| - 1], now)
  }

  predicate Recent(card: Card, now: int, hours: int) {
    now - hours * HOUR <= card.createdAt <= now
  }

  /** Rating evidence is stripped from the past week's cards, and those that show nothing else go. */
  function Cleared(cards: seq<Card>, now: int): seq<Card> {
    if cards == [] then []
    else
      var card, before := cards[|cards| - 1], Cleared(cards[..|cards| - 1], now);
      if !Recent(card, now, 7 * 24) then before + [card]
      else
        var stripped := card.(score := None, details := card.details.(rating := NO_RATING));
        if HasEvent(card.status, stripped.details) then before + [stripped] else before
  }

  predicate Rated(card: Card, now: int) {
    Recent(card, now, 72) && card.details.rating.ratedAt.Some?
  }

  /** The card of the latest first rating in the last 72 hours. */
  function Original(cards: seq<Card>, now: int): (r: Option<nat>)
    ensures r.None? <==> forall i :: 0 <= i < |cards| ==> !Rated(cards[i], now)
    ensures r.Some? ==> r.value < |cards| && Rated(cards[r.value], now)
    ensures r.Some? ==> forall i :: 0 <= i < |cards| && Rated(cards[i], now) ==>
      cards[i].details.rating.ratedAt.value <= cards[r.value].details.rating.ratedAt.value
  {
    if cards == [] then None
    else
      var last, before := |cards| - 1, Original(cards[..|cards| - 1], now);
      if Rated(cards[last], now)
         && (before.None?
             || cards[before.value].details.rating.ratedAt.value < cards[last].details.rating.ratedAt.value)
      then Some(last) else before
  }

  function Corrected(card: Card, e: Edit): Card {
    card.(score := e.score,
          details := card.details.(rating := card.details.rating.(changed := true, first := true, previous := None)))
  }

  function Grace(status: string): int {
    if status == "completed" || status == "dropped" then 72 * HOUR else 24 * HOUR
  }

  predicate Correctable(card: Card, e: Edit, now: int)
    requires card.details.rating.ratedAt.Some?
  {
    card.details.rating.ratedAt.value <= now < card.details.rating.ratedAt.value + Grace(e.status)
  }

  /** A withdrawn score clears ratings, and a quick correction lands on the card of the first rating. */
  function Prepared(cards: seq<Card>, e: Edit, now: int): (seq<Card>, bool) {
    if !e.ratingChanged then (cards, false)
    else if e.score.None? then (Cleared(cards, now), false)
    else if e.previousScore.None? then (cards, true)
    else
      var i := Original(cards, now);
      if i.Some? && Correctable(cards[i.value], e, now) then (cards[i.value := Corrected(cards[i.value], e)], false)
      else (cards, true)
  }

  // ----- Recording an edit

  function NewDetails(c: Catalogue, row: Option<Details>, e: Edit, history: set<int>, ratingChanged: bool,
                      now: int): Details {
    WithRating(WithStatus(WithProgress(c, row, e, history), e), e, ratingChanged, now)
  }

  function Recorded(log: Log, c: Catalogue, e: Edit, history: set<int>, now: int): Log {
    var (cards, ratingChanged) := Prepared(log.cards, e, now);
    match ActiveIndex(cards, now)
    case Some(i) =>
      var d := NewDetails(c, Some(cards[i].details), e, history, ratingChanged, now);
      if HasEvent(e.status, d)
      then log.(cards := cards[i := Card(cards[i].id, cards[i].windowStart, now, e.status, e.score, d)])
      else log.(cards := cards[..i] + cards[i + 1..])
    case None =>
      var d := NewDetails(c, None, e, history, ratingChanged, now);
      if HasEvent(e.status, d)
      then Log(cards + [Card(log.next, now, now, e.status, e.score, d)], log.next + 1)
      else log.(cards := cards)
  }

  // ----- Windows

  /** A card's last event lies in its own window, and windows follow one another without overlap. */
  predicate Timely(card: Card, next: nat, now: int) {
    card.windowStart <= card.createdAt <= now && card.createdAt < card.windowStart + DAY && card.id < next
  }

  ghost predicate Tidy(cards: seq<Card>, next: nat, now: int) {
    (forall i :: 0 <= i < |cards| ==> Timely(cards[i], next, now))
    && (forall i, j :: 0 <= i < j < |cards| ==>
          cards[i].windowStart + DAY <= cards[j].windowStart && cards[i].id < cards[j].id)
  }

  /** Everything but score and rating. */
  predicate SameCore(a: Card, b: Card) {
    b == a.(score := b.score, details := a.details.(rating := b.details.rating))
  }

  ghost predicate HasStem(before: seq<Card>, b: Card) {
    exists i :: 0 <= i < |before| && SameCore(before[i], b)
  }

  /** Every card of after comes from one of before, with nothing but score and rating changed. */
  ghost predicate Stems(before: seq<Card>, after: seq<Card>) {
    forall k :: 0 <= k < |after| ==> HasStem(before, after[k])
  }

  lemma StemsLonger(cards: seq<Card>, n: nat, after: seq<Card>)
    requires n <= |cards| && Stems(cards[..n], after)
    ensures Stems(cards, after)
  {
    forall k | 0 <= k < |after|
      ensures HasStem(cards, after[k])
    {
      var i :| 0 <= i < n && SameCore(cards[..n][i], after[k]);
      assert SameCore(cards[i], after[k]);
    }
  }

  /** Keeping the last card, changed in score and rating at most, keeps the order. */
  lemma AppendTidy(cards: seq<Card>, after: seq<Card>, x: Card, next: nat, now: int)
    requires cards != [] && Tidy(cards, next, now) && Tidy(after, next, now)
    requires Stems(cards[..|cards| - 1], after) && SameCore(cards[|cards| - 1], x)
    ensures Tidy(after + [x], next, now) && Stems(cards, after + [x])
  {
    var n := |cards| - 1;
    StemsLonger(cards, n, after);
    assert HasStem(cards, x);
    forall k | 0 <= k < |after|
      ensures after[k].windowStart + DAY <= x.windowStart && after[k].id < x.id
    {
      var i :| 0 <= i < n && SameCore(cards[..n][i], after[k]);
      assert cards[i].windowStart + DAY <= cards[n].windowStart;
    }
  }

  lemma {:induction false} ClearedTidy(cards: seq<Card>, next: nat, now: int)
    requires Tidy(cards, next, now)
    ensures Tidy(Cleared(cards, now), next, now) && Stems(cards, Cleared(cards, now))
  {
    hide HasEvent, HasStem;
    if cards != [] {
      var n := |cards| - 1;
      ClearedTidy(cards[..n], next, now);
      var before := Cleared(cards[..n], now);
      StemsLonger(cards, n, before);
      AppendTidy(cards, before, cards[n], next, now);
      AppendTidy(cards, before, cards[n].(score := None, details := cards[n].details.(rating := NO_RATING)), next, now);
    }
  }

  lemma OneChanged(cards: seq<Card>, i: nat, x: Card, next: nat, now: int)
    requires i < |cards| && Tidy(cards, next, now) && SameCore(cards[i], x)
    ensures Tidy(cards[i := x], next, now) && Stems(cards, cards[i := x])
  {
    var after := cards[i := x];
    forall k | 0 <= k < |after|
      ensures HasStem(cards, after[k])
    {
      assert SameCore(cards[k], cards[k]) && SameCore(cards[k], after[k]);
    }
  }

  lemma PreparedTidy(cards: seq<Card>, e: Edit, next: nat, now: int)
    requires Tidy(cards, next, now)
    ensures Tidy(Prepared(cards, e, now).0, next, now) && Stems(cards, Prepared(cards, e, now).0)
  {
    hide Tidy, Cleared, Rated, Stems, Corrected;
    ClearedTidy(cards, next, now);
    StemsItself(cards);
    var i := Original(cards, now);
    if i.Some? {
      CorrectedCore(cards[i.value], e);
      OneChanged(cards, i.value, Corrected(cards[i.value], e), next, now);
    }
  }

  lemma StemsItself(cards: seq<Card>)
    ensures Stems(cards, cards)
  {
    forall k | 0 <= k < |cards|
      ensures HasStem(cards, cards[k])
    {
      assert SameCore(cards[k], cards[k]);
    }
  }

  lemma CorrectedCore(card: Card, e: Edit)
    ensures SameCore(card, Corrected(card, e))
  {}

  lemma Later(cards: seq<Card>, next: nat, now: int, later: int)
    requires Tidy(cards, next, now) && now <= later
    ensures Tidy(cards, next, later)
  {}

  /** An edit keeps the windows of a title apart. */
  lemma RecordedTidy(log: Log, c: Catalogue, e: Edit, history: set<int>, now: int)
    requires Tidy(log.cards, log.next, now)
    ensures var r := Recorded(log, c, e, history, now); Tidy(r.cards, r.next, now)
  {
    hide NewDetails, HasEvent, Prepared;
    PreparedTidy(log.cards, e, log.next, now);
  }

  datatype Step = Step(edit: Edit, history: set<int>, now: int)

  predicate Monotone(steps: seq<Step>) {
    forall i, j :: 0 <= i < j < |steps| ==> steps[i].now <= steps[j].now
  }

  function Run(log: Log, c: Catalogue, steps: seq<Step>): Log {
    if steps == [] then log
    else
      var s := steps[|steps| - 1];
      Recorded(Run(log, c, steps[..|steps| - 1]), c, s.edit, s.history, s.now)
  }

  /** Whatever the edits, no two windows of a title overlap. */
  lemma {:induction false} WindowsNeverOverlap(c: Catalogue, steps: seq<Step>)
    requires Monotone(steps)
    ensures var log := Run(Log([], 0), c, steps);
            Tidy(log.cards, log.next, if steps == [] then 0 else steps[|steps| - 1].now)
  {
    hide Recorded;
    if steps != [] {
      var n := |steps| - 1;
      WindowsNeverOverlap(c, steps[..n]);
      var before := Run(Log([], 0), c, steps[..n]);
      if n > 0 {
        Later(before.cards, before.next, steps[n - 1].now, steps[n].now);
      }
      RecordedTidy(before, c, steps[n].edit, steps[n].history, steps[n].now);
    }
  }
}
