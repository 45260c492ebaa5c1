/** Which cards an edit leaves, and what becomes of ratings, said of the cards alone. */
module ActivityLaws {
  import opened TextOrder
  import opened SeasonProgress
  import opened ActivityCards

  /**
   The card tells of something: of episodes, of a season, of a rating, or of a status; that a title is being watched is
   told only when it was started.
   */
  predicate Tells(status: string, d: Details) {
    || d.count > 0
    || d.finished != {}
    || d.rating.changed
    || (d.statusChanged && (status == "watching" ==> d.startedWatching))
  }

  /** The 24 hours of the card have begun and not ended. */
  predicate IsOpen(card: Card, now: int) {
    card.windowStart <= now < card.windowStart + 86_400_000_000
  }

  lemma EventsTell(status: string, d: Details)
    ensures HasEvent(status, d) <==> Tells(status, d)
  {}

  // ----- the open card

  /** row is the open card once rating corrections are done, if there is one. */
  predicate IsOpenCard(cards: seq<Card>, row: Option<Card>, now: int) {
    match row
    case Some(card) => card in cards && IsOpen(card, now)
    case None => forall card :: card in cards ==> !IsOpen(card, now)
  }

  /**
   After an edit there is an open card exactly when what it would show tells of something. It shows the edit's status
   and score at the time of the edit, under the number and window of the open card before, or else under the next
   number and a window that begins now. Every other card is as the rating correction left it.
   */
  lemma OpenCardTells(log: Log, c: Catalogue, s: Step, row: Option<Card>)
    requires Tidy(log.cards, log.next, s.now)
    requires IsOpenCard(Prepared(log.cards, s.edit, s.now).0, row, s.now)
    ensures var (cards, ratingChanged) := Prepared(log.cards, s.edit, s.now);
            var details := if row.Some? then Some(row.value.details) else None;
            var d := NewDetails(c, details, s.edit, s.history, ratingChanged, s.now);
            var (id, since) := if row.Some? then (row.value.id, row.value.windowStart) else (log.next, s.now);
            var left := Recorded(log, c, s.edit, s.history, s.now).cards;
            && (forall b :: b in left && IsOpen(b, s.now) <==>
                  Tells(s.edit.status, d) && b == Card(id, since, s.now, s.edit.status, s.edit.score, d))
            && (forall b :: !IsOpen(b, s.now) ==> (b in left <==> b in cards))
  {
    hide NewDetails, Prepared, HasEvent, Tells;
    PreparedTidy(log.cards, s.edit, log.next, s.now);
    var (cards, ratingChanged) := Prepared(log.cards, s.edit, s.now);
    var details := if row.Some? then Some(row.value.details) else None;
    var d := NewDetails(c, details, s.edit, s.history, ratingChanged, s.now);
    EventsTell(s.edit.status, d);
    var i := ActiveIndex(cards, s.now);
    OnlyOneOpen(cards, log.next, s.now, row);
    if i.Some? {
      var b := Card(cards[i.value].id, cards[i.value].windowStart, s.now, s.edit.status, s.edit.score, d);
      assert row == Some(cards[i.value]) && IsOpen(b, s.now);
      var left := Recorded(log, c, s.edit, s.history, s.now).cards;
      if HasEvent(s.edit.status, d) {
        Replaced(cards, i.value, b, s.now);
        assert left == cards[i.value := b];
      } else {
        Removed(cards, i.value, s.now);
        assert left == cards[..i.value] + cards[i.value + 1..];
      }
    } else {
      Added(cards, Card(log.next, s.now, s.now, s.edit.status, s.edit.score, d), s.now);
    }
  }

  lemma OnlyOneOpen(cards: seq<Card>, next: nat, now: int, row: Option<Card>)
    requires Tidy(cards, next, now) && IsOpenCard(cards, row, now)
    ensures var i := ActiveIndex(cards, now);
            row.Some? <==> i.Some?
    ensures var i := ActiveIndex(cards, now);
            i.Some? ==> row == Some(cards[i.value])
                        && forall k :: 0 <= k < |cards| && k != i.value ==> !IsOpen(cards[k], now)
  {
    var i := ActiveIndex(cards, now);
    if row.Some? {
      var k :| 0 <= k < |cards| && cards[k] == row.value;
      assert InWindow(cards[k], now);
    }
    if i.Some? {
      assert cards[i.value] in cards && IsOpen(cards[i.value], now);
    }
  }

  lemma Replaced(cards: seq<Card>, i: nat, b: Card, now: int)
    requires i < |cards| && IsOpen(b, now) && IsOpen(cards[i], now)
    requires forall k :: 0 <= k < |cards| && k != i ==> !IsOpen(cards[k], now)
    ensures forall x :: x in cards[i := b] && IsOpen(x, now) <==> x == b
    ensures forall x :: !IsOpen(x, now) ==> (x in cards[i := b] <==> x in cards)
  {
    var after := cards[i := b];
    assert after[i] == b;
    forall x | x in cards && !IsOpen(x, now)
      ensures x in after
    {
      var k :| 0 <= k < |cards| && cards[k] == x;
      assert after[k] == x;
    }
  }

  lemma Removed(cards: seq<Card>, i: nat, now: int)
    requires i < |cards| && IsOpen(cards[i], now)
    requires forall k :: 0 <= k < |cards| && k != i ==> !IsOpen(cards[k], now)
    ensures forall x :: x in cards[..i] + cards[i + 1..] ==> !IsOpen(x, now)
    ensures forall x :: !IsOpen(x, now) ==> (x in cards[..i] + cards[i + 1..] <==> x in cards)
  {
    forall x | x in cards && !IsOpen(x, now)
      ensures x in cards[..i] + cards[i + 1..]
    {
      var k :| 0 <= k < |cards| && cards[k] == x;
      assert k != i;
      assert k < i ==> cards[..i][k] == x;
      assert k > i ==> cards[i + 1..][k - i - 1] == x;
    }
  }

  lemma Added(cards: seq<Card>, b: Card, now: int)
    requires IsOpen(b, now) && forall x :: x in cards ==> !IsOpen(x, now)
    ensures forall x :: x in cards + [b] && IsOpen(x, now) <==> x == b
    ensures forall x :: !IsOpen(x, now) ==> (x in cards + [b] <==> x in cards)
  {}

  ghost predicate AllTell(cards: seq<Card>) {
    forall b :: b in cards ==> Tells(b.status, b.details)
  }

  /** After any run of edits every card tells of something. */
  lemma {:induction false} EveryCardTells(c: Catalogue, steps: seq<Step>)
    ensures AllTell(Run(Log([], 0), c, steps).cards)
  {
    hide Recorded, AllTell;
    if steps == [] {
      NothingUntold();
    } else {
      var n := |steps| - 1;
      EveryCardTells(c, steps[..n]);
      TellsAfter(Run(Log([], 0), c, steps[..n]), c, steps[n]);
    }
  }

  lemma NothingUntold()
    ensures AllTell([])
  {}

  lemma TellsAfter(log: Log, c: Catalogue, s: Step)
    requires AllTell(log.cards)
    ensures AllTell(Recorded(log, c, s.edit, s.history, s.now).cards)
  {
    hide NewDetails, Prepared, HasEvent, Tells, ActiveIndex;
    PreparedTells(log.cards, s.edit, s.now);
    var (cards, ratingChanged) := Prepared(log.cards, s.edit, s.now);
    var i := ActiveIndex(cards, s.now);
    var details := if i.Some? then Some(cards[i.value].details) else None;
    EventsTell(s.edit.status, NewDetails(c, details, s.edit, s.history, ratingChanged, s.now));
  }

  lemma PreparedTells(cards: seq<Card>, e: Edit, now: int)
    requires AllTell(cards)
    ensures AllTell(Prepared(cards, e, now).0)
  {
    hide Cleared, Original, HasEvent;
    ClearedMeans(cards, now);
    forall b | b in Cleared(cards, now)
      ensures Tells(b.status, b.details)
    {
      var i :| 0 <= i < |cards| && AfterWithdrawal(cards[i], b, now);
      assert cards[i] in cards;
    }
  }

  // ----- ratings

  /** Last updated within the 7 days before now. */
  predicate LastWeek(card: Card, now: int) {
    now - 604_800_000_000 <= card.createdAt <= now
  }

  /** What a withdrawn score makes of a card: of last week's, the card without score and rating, if it tells of more. */
  predicate AfterWithdrawal(card: Card, b: Card, now: int) {
    if LastWeek(card, now) then
      b == Card(card.id, card.windowStart, card.createdAt, card.status, None,
                card.details.(rating := Rating(false, false, None, None, None)))
      && Tells(b.status, b.details)
    else b == card
  }

  lemma {:induction false} ClearedMeans(cards: seq<Card>, now: int)
    ensures forall b :: b in Cleared(cards, now) <==> exists i :: 0 <= i < |cards| && AfterWithdrawal(cards[i], b, now)
  {
    hide HasEvent, Tells;
    if cards != [] {
      var n := |cards| - 1;
      var card := cards[n];
      ClearedMeans(cards[..n], now);
      EventsTell(card.status, card.details.(rating := NO_RATING));
      forall b
        ensures b in Cleared(cards, now) <==> exists i :: 0 <= i < |cards| && AfterWithdrawal(cards[i], b, now)
      {
        assert b in Cleared(cards, now) <==> b in Cleared(cards[..n], now) || AfterWithdrawal(card, b, now);
        if i :| 0 <= i < n && AfterWithdrawal(cards[..n][i], b, now) {
          assert AfterWithdrawal(cards[i], b, now);
        }
        if i :| 0 <= i < |cards| && AfterWithdrawal(cards[i], b, now) && i != n {
          assert AfterWithdrawal(cards[..n][i], b, now);
        }
      }
    }
  }

  /**
   A withdrawn score takes score and rating from the past week's cards, and with them those that showed nothing else.
   */
  lemma ScoreWithdrawn(cards: seq<Card>, e: Edit, now: int)
    requires e.ratingChanged && e.score.None?
    ensures !Prepared(cards, e, now).1
    ensures forall b :: b in Prepared(cards, e, now).0 <==>
      exists i :: 0 <= i < |cards| && AfterWithdrawal(cards[i], b, now)
  {
    ClearedMeans(cards, now);
    hide Cleared, AfterWithdrawal;
  }

  /** Card i is the first of those with the latest first rating of the last 72 hours. */
  predicate LastFirstRating(cards: seq<Card>, i: nat, now: int) {
    && i < |cards| && FirstRated(cards[i], now)
    && forall k :: 0 <= k < |cards| && FirstRated(cards[k], now) ==>
         && cards[k].details.rating.ratedAt.value <= cards[i].details.rating.ratedAt.value
         && (k < i ==> cards[k].details.rating.ratedAt.value < cards[i].details.rating.ratedAt.value)
  }

  predicate FirstRated(card: Card, now: int) {
    now - 259_200_000_000 <= card.createdAt <= now && card.details.rating.ratedAt.Some?
  }

  lemma {:induction false} OriginalMeans(cards: seq<Card>, now: int)
    ensures Original(cards, now).Some? ==> LastFirstRating(cards, Original(cards, now).value, now)
    ensures Original(cards, now).None? ==> forall k :: 0 <= k < |cards| ==> !FirstRated(cards[k], now)
  {
    if cards != [] {
      var n := |cards| - 1;
      OriginalMeans(cards[..n], now);
      var before := Original(cards[..n], now);
      assert forall k :: 0 <= k < n ==> cards[..n][k] == cards[k];
    }
  }

  /**
   A new score within 24 hours of the first rating, or within 72 when the title is completed or dropped, lands on the
   card of that rating as another first score; any other replacement of a score is a change of its own.
   */
  lemma CorrectionLands(cards: seq<Card>, e: Edit, now: int, i: nat)
    requires e.ratingChanged && e.score.Some? && e.previousScore.Some? && LastFirstRating(cards, i, now)
    ensures var ratedAt, card := cards[i].details.rating.ratedAt.value, cards[i];
            var hours := if e.status == "completed" || e.status == "dropped" then 72 else 24;
            Prepared(cards, e, now) ==
            if ratedAt <= now < ratedAt + hours * 3_600_000_000 then
              var rating := Rating(true, true, card.details.rating.start, None, Some(ratedAt));
              (cards[i := Card(card.id, card.windowStart, card.createdAt, card.status, e.score,
                               card.details.(rating := rating))], false)
            else (cards, true)
  {
    OriginalMeans(cards, now);
    hide Original;
    var k := Original(cards, now).value;
    assert FirstRated(cards[i], now) && FirstRated(cards[k], now);
  }

  lemma NothingToCorrect(cards: seq<Card>, e: Edit, now: int)
    requires e.ratingChanged && e.score.Some? && forall k :: 0 <= k < |cards| ==> !FirstRated(cards[k], now)
    ensures Prepared(cards, e, now) == (cards, true)
  {
    OriginalMeans(cards, now);
  }

  /** A first score makes the open card one of a first rating, whatever it showed before. */
  lemma FirstRatingShown(log: Log, c: Catalogue, s: Step)
    requires Tidy(log.cards, log.next, s.now)
    requires s.edit.ratingChanged && s.edit.score.Some? && s.edit.previousScore.None?
    ensures exists b :: b in Recorded(log, c, s.edit, s.history, s.now).cards && IsOpen(b, s.now)
    ensures forall b :: b in Recorded(log, c, s.edit, s.history, s.now).cards && IsOpen(b, s.now) ==>
      b.score == s.edit.score && b.details.rating == Rating(true, true, None, None, Some(s.now))
  {
    hide Recorded, WithStatus, WithProgress, Tidy;
    var i := ActiveIndex(log.cards, s.now);
    var row := if i.Some? then Some(log.cards[i.value]) else None;
    assert forall card :: card in log.cards && IsOpen(card, s.now) ==> InWindow(card, s.now);
    OpenCardTells(log, c, s, row);
    var d := NewDetails(c, if row.Some? then Some(row.value.details) else None, s.edit, s.history, true, s.now);
    assert Tells(s.edit.status, d);
    var (id, since) := if row.Some? then (row.value.id, row.value.windowStart) else (log.next, s.now);
    assert IsOpen(Card(id, since, s.now, s.edit.status, s.edit.score, d), s.now);
  }
}
