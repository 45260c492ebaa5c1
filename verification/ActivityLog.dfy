/** The activity table of one title, and the operation that records an edit of its progress. */
module ActivityLog {
  import opened TextOrder
  import opened SeasonProgress
  import opened ActivityCards

  class CardLog {
    var cards: seq<Card>
    var next: nat

    constructor ()
      ensures Rows() == Log([], 0)
    {
      cards, next := [], 0;
    }

    function Rows(): Log
      reads this
    {
      Log(cards, next)
    }

    /**
     The most recently updated card of the last 24 hours, if its own window is still open. As windows do not overlap,
     that is the card whose window is open.
     */
    method FindActive(now: int) returns (r: Option<nat>)
      requires Tidy(cards, next, now)
      ensures r == ActiveIndex(cards, now)
    {
      r := None;
      for i := 0 to |cards|
        invariant r.None? ==> forall k :: 0 <= k < i ==> !Newly(cards[k], now)
        invariant r.Some? ==> r.value < i && Newly(cards[r.value], now)
        invariant r.Some? ==> forall k :: r.value < k < i ==> !Newly(cards[k], now)
      {
        if now - DAY < cards[i].createdAt <= now
           && (r.None? || MoreRecent(cards[i], cards[r.value]))
        {
          r := Some(i);
        }
      }
      ActiveIsLast(cards, next, now);
      if r.Some? && !(cards[r.value].windowStart <= now < cards[r.value].windowStart + DAY) {
        r := None;
      }
    }

    /** The card of the latest first rating of the last three days. */
    method FindOriginal(now: int) returns (r: Option<nat>)
      ensures r == Original(cards, now)
    {
      r := None;
      for i := 0 to |cards|
        invariant r == Original(cards[..i], now)
      {
        assert cards[..i + 1][..i] == cards[..i];
        var card := cards[i];
        if now - 72 * HOUR <= card.createdAt <= now && card.details.rating.ratedAt.Some?
           && (r.None? || cards[r.value].details.rating.ratedAt.value < card.details.rating.ratedAt.value)
        {
          r := Some(i);
        }
      }
      assert cards[..|cards|] == cards;
    }

    method ClearRecentRatings(now: int)
      modifies this`cards
      ensures cards == Cleared(old(cards), now)
    {
      var rows := cards;
      var kept: seq<Card> := [];
      for i := 0 to |rows|
        invariant kept == Cleared(rows[..i], now)
      {
        assert rows[..i + 1][..i] == rows[..i];
        var card := rows[i];
        if now - 7 * 24 * HOUR <= card.createdAt <= now {
          card := card.(score := None, details := card.details.(rating := NO_RATING));
          if HasEvent(card.status, card.details) {
            kept := kept + [card];
          }
        } else {
          kept := kept + [card];
        }
      }
      assert rows[..|rows|] == rows;
      cards := kept;
    }

    /** Whether the edit still counts as a rating change of its own. */
    method PrepareRating(e: Edit, now: int) returns (ratingChanged: bool)
      modifies this`cards
      ensures (cards, ratingChanged) == Prepared(old(cards), e, now)
    {
      if !e.ratingChanged {
        return false;
      }
      if e.score.None? {
        ClearRecentRatings(now);
        return false;
      }
      if e.previousScore.None? {
        return true;
      }
      var i := FindOriginal(now);
      if i.Some? {
        var started := cards[i.value].details.rating.ratedAt.value;
        var duration := if e.status == "completed" || e.status == "dropped" then 72 * HOUR else 24 * HOUR;
        if started <= now < started + duration {
          cards := cards[i.value := Corrected(cards[i.value], e)];
          return false;
        }
      }
      return true;
    }

    /** Records an edit on the open card, or on a new one; a card that shows nothing any more is removed. */
    method RecordProgress(c: Catalogue, e: Edit, history: set<int>, now: int)
      requires Tidy(cards, next, now)
      modifies this
      ensures Rows() == Recorded(old(Rows()), c, e, history, now)
      ensures Tidy(cards, next, now)
    {
      hide Tidy, Prepared, ActiveIndex, HasEvent, WithStatus, WithRating, ExactSpan, SpanBetween, Finished, StartIds;
      PreparedTidy(cards, e, next, now);
      RecordedTidy(Rows(), c, e, history, now);
      var ratingChanged := PrepareRating(e, now);
      var i := FindActive(now);
      var row := if i.Some? then Some(cards[i.value].details) else None;
      var d := if row.Some? then row.value else BLANK;
      var start := StartOf(row, e);
      d := d.(count := Excess(e.progress, start), start := start, progress := e.progress);
      if e.watchedIds.Some? || d.startIds.Some? {
        var current := Evidence(c, e, history);
        var startIds := StartIds(c, row, e, start);
        var before := FinishedSeasons(c, Among(c.episodes, startIds));
        var after := FinishedSeasons(c, Among(c.episodes, current));
        d := d.(startIds := Some(startIds), count := Excess(|current|, |startIds|),
                span := ExactSpan(c, startIds, current),
                finished := after - before);
      } else {
        var (first, last, finished) := SpanBetween(c, start, e.progress);
        d := d.(span := Span(first, last, d.span.positions), finished := finished);
      }
      assert d == WithProgress(c, row, e, history);
      d := WithRating(WithStatus(d, e), e, ratingChanged, now);
      if !HasEvent(e.status, d) {
        if i.Some? {
          cards := cards[..i.value] + cards[i.value + 1..];
        }
      } else if i.Some? {
        cards := cards[i.value := cards[i.value].(createdAt := now, status := e.status, score := e.score,
                                                  details := d)];
      } else {
        cards := cards + [Card(next, now, now, e.status, e.score, d)];
        next := next + 1;
      }
    }
  }

  /** By time of the last update, and then by number. */
  predicate MoreRecent(a: Card, b: Card) {
    b.createdAt < a.createdAt || (b.createdAt == a.createdAt && b.id < a.id)
  }

  /** Updated in the last 24 hours. */
  predicate Newly(card: Card, now: int) {
    now - DAY < card.createdAt <= now
  }

  /** The open card, when there is one, is the last of those updated in the last 24 hours. */
  lemma ActiveIsLast(cards: seq<Card>, next: nat, now: int)
    requires Tidy(cards, next, now)
    ensures forall i, j :: 0 <= i < j < |cards| ==> cards[i].createdAt < cards[j].createdAt
    ensures forall i :: 0 <= i < |cards| && InWindow(cards[i], now) ==>
      Newly(cards[i], now) && i == |cards| - 1 && ActiveIndex(cards, now) == Some(i)
  {
    forall i, j | 0 <= i < j < |cards|
      ensures cards[i].createdAt < cards[j].createdAt
    {
      assert Timely(cards[i], next, now) && Timely(cards[j], next, now);
    }
    forall i | 0 <= i < |cards| && InWindow(cards[i], now)
      ensures Newly(cards[i], now) && i == |cards| - 1
    {
      assert Timely(cards[i], next, now) && Timely(cards[|cards| - 1], next, now);
    }
  }
}
