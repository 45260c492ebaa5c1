/** What a card shows after any edits in its window: the difference between its first and its last edit. */
module ActivityNet {
  import opened TextOrder
  import opened SeasonProgress
  import opened ActivityCards

  /** The status before the first recorded change. */
  function FirstStatus(steps: seq<Step>): Option<Option<string>> {
    if steps == [] then None
    else
      var before := FirstStatus(steps[..|steps| - 1]);
      var e := steps[|steps| - 1].edit;
      if before.Some? then before else if e.statusChanged then Some(e.previousStatus) else None
  }

  /** The status after the last recorded change. */
  function LastStatus(steps: seq<Step>): Option<string> {
    if steps == [] then None
    else
      var e := steps[|steps| - 1].edit;
      if e.statusChanged then Some(e.status) else LastStatus(steps[..|steps| - 1])
  }

  /** The edit starts the title; without word from the caller that is a first status. */
  predicate Starts(e: Edit) {
    e.statusChanged && e.status == "watching"
    && (e.firstWatching == Some(true) || (e.firstWatching.None? && e.previousStatus.None?))
  }

  predicate NetStatus(steps: seq<Step>, d: Details) {
    d.statusStart == FirstStatus(steps)
    && d.statusChanged == (FirstStatus(steps).Some? && FirstStatus(steps).value != LastStatus(steps))
    && d.startedWatching == exists s :: s in steps && Starts(s.edit)
  }

  /** What had been watched when the first edit arrived; everything, when the edit does not say. */
  function Before(c: Catalogue, e: Edit): set<int> {
    if e.previousIds.Some? then e.previousIds.value * Ids(c.episodes) else Ids(c.episodes)
  }

  /**
   The evidence later evidence is compared with: that of the first edit, or, when a later edit is the first to bring
   any, as many episodes as had been counted when the card began.
   */
  function FirstEvidence(c: Catalogue, steps: seq<Step>): Option<set<int>> {
    if steps == [] then None
    else
      var n := |steps| - 1;
      var before, e := FirstEvidence(c, steps[..n]), steps[n].edit;
      if before.Some? then before
      else if e.watchedIds.None? then None
      else if n == 0 then Some(Before(c, e))
      else Some(Ids(Take(Among(c.episodes, if e.previousIds.Some? then e.previousIds.value else Ids(c.episodes)),
                         steps[0].edit.previousProgress)))
  }

  /** With exact evidence: the episodes watched now but not then, in catalogue order, and the seasons they finish. */
  predicate NetEpisodes(c: Catalogue, start: set<int>, now: set<int>, d: Details) {
    var added := Among(c.episodes, now - start);
    var shown := added != [] && |now| > |start|;
    d.startIds == Some(start)
    && d.count == (if |now| > |start| then |now| - |start| else 0)
    && d.span.first == (if shown then Some((added[0].season, added[0].number)) else None)
    && d.span.last == (if shown then Some((added[|added| - 1].season, added[|added| - 1].number)) else None)
    && d.span.positions == Some(Positions(added))
    && d.finished == Finished(c, Among(c.episodes, now)) - Finished(c, Among(c.episodes, start))
  }

  /** Without: the difference in cumulative progress. */
  predicate NetProgress(c: Catalogue, d: Details) {
    d.startIds == None && d.count == (if d.progress > d.start then d.progress - d.start else 0)
    && if c.isSeries && d.start < d.progress <= |c.episodes| then
         var first, last := c.episodes[d.start], c.episodes[d.progress - 1];
         && d.span.first == Some((first.season, first.number)) && d.span.last == Some((last.season, last.number))
         && d.finished == Finished(c, c.episodes[..d.progress]) - Finished(c, c.episodes[..d.start])
       else d.span.first == None && d.span.last == None && d.finished == {}
  }

  predicate NetChange(c: Catalogue, steps: seq<Step>, d: Details)
    requires steps != []
  {
    var first, last := steps[0], steps[|steps| - 1];
    d.start == first.edit.previousProgress && d.progress == last.edit.progress
    && NetStatus(steps, d)
    && (match FirstEvidence(c, steps)
        case Some(start) => NetEpisodes(c, start, Evidence(c, last.edit, last.history), d)
        case None => NetProgress(c, d))
  }

  lemma {:induction false} IdsAmong(episodes: seq<Episode>, ids: set<int>)
    ensures Ids(Among(episodes, ids)) == ids * Ids(episodes)
  {
    var chosen := Among(episodes, ids);
    assert forall e :: e in chosen <==> e in episodes && e.id in ids;
  }

  lemma ExactSpanMeans(c: Catalogue, start: set<int>, now: set<int>)
    ensures var s := ExactSpan(c, start, now);
            var added := Among(c.episodes, now - start);
            var shown := added != [] && |now| > |start|;
            s.first == (if shown then Some((added[0].season, added[0].number)) else None)
            && s.last == (if shown then Some((added[|added| - 1].season, added[|added| - 1].number)) else None)
            && s.positions == Some(Positions(added))
  {}

  lemma SpanBetweenMeans(c: Catalogue, start: nat, end: nat)
    ensures var (first, last, finished) := SpanBetween(c, start, end);
            if c.isSeries && start < end <= |c.episodes| then
              && first == Some((c.episodes[start].season, c.episodes[start].number))
              && last == Some((c.episodes[end - 1].season, c.episodes[end - 1].number))
              && finished == Finished(c, c.episodes[..end]) - Finished(c, c.episodes[..start])
            else first == None && last == None && finished == {}
  {}

  lemma FirstNetStatus(d: Details, e: Edit, s: Step)
    requires d.statusStart.None? && !d.statusChanged && !d.startedWatching && s.edit == e
    ensures NetStatus([s], WithStatus(d, e))
  {
    assert [s][..|[s]| - 1] == [];
    assert FirstStatus([s]) ==
           (if e.statusChanged then Some(e.previousStatus) else None) by { assert FirstStatus([]) == None; }
    assert LastStatus([s]) == (if e.statusChanged then Some(e.status) else None) by { assert LastStatus([]) == None; }
    assert s in [s];
  }

  lemma StartOfFirst(c: Catalogue, e: Edit)
    ensures StartIds(c, None, e, e.previousProgress) == Before(c, e)
  {
    var ids := if e.previousIds.Some? then e.previousIds.value else Ids(c.episodes);
    IdsAmong(c.episodes, ids);
    assert Before(c, e) == ids * Ids(c.episodes);
  }

  lemma FirstProgress(c: Catalogue, s: Step)
    ensures var d := WithStatus(WithProgress(c, None, s.edit, s.history), s.edit);
            match FirstEvidence(c, [s])
            case Some(start) => NetEpisodes(c, start, Evidence(c, s.edit, s.history), d)
            case None => NetProgress(c, d)
  {
    hide Among, Finished, ExactSpan, SpanBetween, Positions, StartIds, Before, Ids, Evidence;
    var e := s.edit;
    StartOfFirst(c, e);
    ExactSpanMeans(c, Before(c, e), Evidence(c, e, s.history));
    SpanBetweenMeans(c, e.previousProgress, e.progress);
    assert [s][..|[s]| - 1] == [];
    assert FirstEvidence(c, [s]) ==
           (if e.watchedIds.Some? then Some(Before(c, e)) else None) by { assert FirstEvidence(c, []) == None; }
  }

  /** The edit that opens a card. */
  lemma NetOfFirst(c: Catalogue, s: Step)
    ensures NetChange(c, [s], WithStatus(WithProgress(c, None, s.edit, s.history), s.edit))
  {
    FirstProgress(c, s);
    FirstNetStatus(WithProgress(c, None, s.edit, s.history), s.edit, s);
    hide Among, Finished, ExactSpan, SpanBetween, NetStatus, NetEpisodes, NetProgress;
    hide FirstEvidence, StartIds, Evidence;
  }

  lemma NetStatusStep(c: Catalogue, steps: seq<Step>, d: Details, s: Step)
    requires NetStatus(steps, d)
    ensures NetStatus(steps + [s], WithStatus(WithProgress(c, Some(d), s.edit, s.history), s.edit))
  {
    hide Among, Finished, ExactSpan, SpanBetween, StartIds, Evidence;
    assert (steps + [s])[..|steps|] == steps;
  }

  lemma ProgressStep(c: Catalogue, steps: seq<Step>, d: Details, s: Step)
    requires steps != [] && NetChange(c, steps, d)
    ensures var m := WithStatus(WithProgress(c, Some(d), s.edit, s.history), s.edit);
            m.start == d.start && m.progress == s.edit.progress
            && (match FirstEvidence(c, steps + [s])
                case Some(start) => NetEpisodes(c, start, Evidence(c, s.edit, s.history), m)
                case None => NetProgress(c, m))
  {
    hide Among, Finished, ExactSpan, SpanBetween, FirstStatus, LastStatus, FirstEvidence, Ids, Take, NetStatus;
    EvidenceNext(c, steps, s);
    EvidenceListed(c, steps + [s]);
    match FirstEvidence(c, steps + [s]) {
      case Some(start) =>
        assert start * Ids(c.episodes) == start;
        ExactSpanMeans(c, start, Evidence(c, s.edit, s.history));
      case None =>
        SpanBetweenMeans(c, d.start, s.edit.progress);
    }
  }

  lemma EvidenceNext(c: Catalogue, steps: seq<Step>, s: Step)
    requires steps != []
    ensures var previous := if s.edit.previousIds.Some? then s.edit.previousIds.value else Ids(c.episodes);
            FirstEvidence(c, steps + [s]) ==
            if FirstEvidence(c, steps).Some? then FirstEvidence(c, steps)
            else if s.edit.watchedIds.None? then None
            else Some(Ids(Take(Among(c.episodes, previous), steps[0].edit.previousProgress)))
  {
    assert (steps + [s])[..|steps|] == steps && (steps + [s])[0] == steps[0];
  }

  /** It consists of catalogue episodes. */
  lemma {:induction false} EvidenceListed(c: Catalogue, steps: seq<Step>)
    ensures FirstEvidence(c, steps).Some? ==> FirstEvidence(c, steps).value <= Ids(c.episodes)
  {
    if steps != [] {
      EvidenceListed(c, steps[..|steps| - 1]);
      var e := steps[|steps| - 1].edit;
      var previous := Among(c.episodes, if e.previousIds.Some? then e.previousIds.value else Ids(c.episodes));
      assert forall x :: x in Take(previous, steps[0].edit.previousProgress) ==> x in previous;
    }
  }

  /** Every further edit of the card. */
  lemma NetOfNext(c: Catalogue, steps: seq<Step>, d: Details, s: Step)
    requires steps != [] && NetChange(c, steps, d)
    ensures NetChange(c, steps + [s], WithStatus(WithProgress(c, Some(d), s.edit, s.history), s.edit))
  {
    hide WithStatus, WithProgress, NetStatus, NetEpisodes, NetProgress, Evidence, Before, FirstEvidence;
    NetStatusStep(c, steps, d, s);
    ProgressStep(c, steps, d, s);
    var all := steps + [s];
    assert all[0] == steps[0] && all[|all| - 1] == s;
  }

  // ----- Ratings

  /** The score before the first rating change, and the score after the last. */
  function FirstScore(steps: seq<Step>): Option<Score> {
    if steps == [] then None
    else
      var before, e := FirstScore(steps[..|steps| - 1]), steps[|steps| - 1].edit;
      if before.Some? then before else if e.ratingChanged then e.previousScore else None
  }

  function LastScore(steps: seq<Step>): Option<Score> {
    if steps == [] then None
    else
      var e := steps[|steps| - 1].edit;
      if e.ratingChanged then e.score else LastScore(steps[..|steps| - 1])
  }

  /** The card shows the change from the score before the first rating change to the last score. */
  predicate NetRating(steps: seq<Step>, d: Details) {
    var first, last, r := FirstScore(steps), LastScore(steps), d.rating;
    r.start == first && r.changed == (first.Some? && first != last) && !r.first && r.ratedAt.None?
    && r.previous == if r.changed then first else None
  }

  /** Every rating change replaces one score by another: nothing is rated first or withdrawn. */
  predicate Rescored(steps: seq<Step>) {
    forall s :: s in steps && s.edit.ratingChanged ==> s.edit.previousScore.Some? && s.edit.score.Some?
  }

  predicate Unrated(cards: seq<Card>) {
    forall b :: b in cards ==> b.details.rating.ratedAt.None?
  }

  lemma NetRatingStep(steps: seq<Step>, d: Details, s: Step)
    requires NetRating(steps, d) && Rescored([s])
    ensures NetRating(steps + [s], WithRating(d, s.edit, s.edit.ratingChanged, s.now))
  {
    assert (steps + [s])[..|steps|] == steps && s in [s];
  }

  lemma NothingRated(c: Catalogue, row: Option<Details>, e: Edit, history: set<int>)
    ensures WithStatus(WithProgress(c, row, e, history), e).rating == if row.Some? then row.value.rating else NO_RATING
  {
    hide Among, Finished, ExactSpan, SpanBetween, StartIds, Evidence;
  }

  /** Without a first rating to correct, an edit goes to the open card itself. */
  lemma PreparedPlain(cards: seq<Card>, s: Step)
    requires Unrated(cards) && Rescored([s])
    ensures Prepared(cards, s.edit, s.now) == (cards, s.edit.ratingChanged)
  {
    assert s in [s];
    assert forall i :: 0 <= i < |cards| ==> cards[i] in cards;
  }

  lemma NewRating(c: Catalogue, row: Option<Details>, s: Step)
    requires Rescored([s]) && (row.Some? ==> row.value.rating.ratedAt.None?)
    ensures NewDetails(c, row, s.edit, s.history, s.edit.ratingChanged, s.now).rating.ratedAt.None?
  {
    hide WithProgress, WithStatus;
    assert s in [s];
    NothingRated(c, row, s.edit, s.history);
  }

  lemma StaysUnrated(log: Log, c: Catalogue, s: Step)
    requires Unrated(log.cards) && Rescored([s])
    ensures Unrated(Recorded(log, c, s.edit, s.history, s.now).cards)
  {
    hide NewDetails, Prepared, HasEvent, Rescored;
    PreparedPlain(log.cards, s);
    var i := ActiveIndex(log.cards, s.now);
    if i.Some? {
      assert log.cards[i.value] in log.cards;
      NewRating(c, Some(log.cards[i.value].details), s);
    } else {
      NewRating(c, None, s);
    }
  }

  /** The open card after one more edit. */
  lemma RatingStep(log: Log, c: Catalogue, before: seq<Step>, s: Step, id: nat, since: int)
    requires Tidy(log.cards, log.next, s.now) && id < log.next && since <= s.now < since + DAY
    requires Unrated(log.cards) && Rescored([s])
    requires forall x :: x in log.cards && x.id == id ==> x.windowStart == since && NetRating(before, x.details)
    ensures var r := Recorded(log, c, s.edit, s.history, s.now);
            forall b :: b in r.cards && b.id == id ==> b.windowStart == since && NetRating(before + [s], b.details)
  {
    hide Recorded, Tidy, NetRating, Rescored, Prepared;
    PreparedPlain(log.cards, s);
    if m :| 0 <= m < |log.cards| && log.cards[m].id == id {
      var x := log.cards[m];
      assert x in log.cards;
      TouchedPlain(log, c, s, x, m);
      RatingThrough(c, before, x.details, s);
    } else {
      GoneStaysGone(log, c, s, id);
    }
  }

  lemma RatingThrough(c: Catalogue, before: seq<Step>, d: Details, s: Step)
    requires NetRating(before, d) && Rescored([s])
    ensures NetRating(before + [s], NewDetails(c, Some(d), s.edit, s.history, s.edit.ratingChanged, s.now))
  {
    hide WithProgress, WithStatus, WithRating, Rescored;
    NothingRated(c, Some(d), s.edit, s.history);
    var m := WithStatus(WithProgress(c, Some(d), s.edit, s.history), s.edit);
    assert NetRating(before, m);
    NetRatingStep(before, m, s);
  }

  lemma TouchedPlain(log: Log, c: Catalogue, s: Step, x: Card, m: nat)
    requires Tidy(log.cards, log.next, s.now) && m < |log.cards| && log.cards[m] == x && InWindow(x, s.now)
    requires Prepared(log.cards, s.edit, s.now) == (log.cards, s.edit.ratingChanged)
    ensures forall b :: b in Recorded(log, c, s.edit, s.history, s.now).cards && b.id == x.id ==>
      b == Card(x.id, x.windowStart, s.now, s.edit.status, s.edit.score,
                NewDetails(c, Some(x.details), s.edit, s.history, s.edit.ratingChanged, s.now))
  {
    hide NewDetails, HasEvent, Prepared;
    assert ActiveIndex(log.cards, s.now) == Some(m);
  }

  /** The card opened by the first step. */
  lemma RatingOpened(log: Log, c: Catalogue, s: Step)
    requires Tidy(log.cards, log.next, s.now) && (forall x :: x in log.cards ==> !InWindow(x, s.now))
    requires Unrated(log.cards) && Rescored([s])
    requires Recorded(log, c, s.edit, s.history, s.now).next > log.next
    ensures forall b :: b in Recorded(log, c, s.edit, s.history, s.now).cards && b.id == log.next ==>
      b.windowStart == s.now && NetRating([s], b.details)
  {
    hide HasEvent, Prepared, WithProgress, WithStatus, WithRating, NetRating, Rescored;
    PreparedPlain(log.cards, s);
    NothingRated(c, None, s.edit, s.history);
    var m := WithStatus(WithProgress(c, None, s.edit, s.history), s.edit);
    NothingNet(m);
    NetRatingStep([], m, s);
    assert [] + [s] == [s];
    forall k | 0 <= k < |log.cards|
      ensures log.cards[k].id != log.next
    {
      assert Timely(log.cards[k], log.next, s.now);
    }
  }

  lemma NothingNet(d: Details)
    requires d.rating == NO_RATING
    ensures NetRating([], d)
  {}

  lemma RescoredParts(steps: seq<Step>, n: nat)
    requires Rescored(steps) && n < |steps|
    ensures Rescored(steps[..n]) && Rescored([steps[n]])
  {}

  /**
   A card opened by the first of some edits, all within its window, shows the net change of the score: over any run, as
   long as scores only replace scores and no card carries a first rating, which corrections would go to.
   */
  lemma {:induction false} RatingShowsNetChange(log: Log, c: Catalogue, steps: seq<Step>)
    requires steps != [] && Monotone(steps) && Rescored(steps) && Unrated(log.cards)
    requires forall s :: s in steps ==> s.now < steps[0].now + DAY
    requires Tidy(log.cards, log.next, steps[0].now) && forall x :: x in log.cards ==> !InWindow(x, steps[0].now)
    requires Run(log, c, steps[..1]).next > log.next
    ensures Unrated(Run(log, c, steps).cards)
    ensures forall b :: b in Run(log, c, steps).cards && b.id == log.next ==>
      b.windowStart == steps[0].now && NetRating(steps, b.details)
  {
    hide Recorded, NetRating, Tidy, Monotone, Unrated, NetChange, Run, Rescored;
    var n := |steps| - 1;
    var s := steps[n];
    LastStep(log, c, steps);
    RescoredParts(steps, n);
    if n == 0 {
      assert steps == [s];
      RatingOpened(log, c, s);
      StaysUnrated(log, c, s);
    } else {
      var before := steps[..n];
      assert before[..1] == steps[..1] && steps == before + [s];
      MonotonePrefix(steps, n);
      assert forall x :: x in before ==> x in steps;
      RatingShowsNetChange(log, c, before);
      CardShowsNetChange(log, c, before);
      var was := Run(log, c, before);
      Later(was.cards, was.next, before[n - 1].now, s.now);
      RatingStep(was, c, before, s, log.next, steps[0].now);
      StaysUnrated(was, c, s);
    }
  }

  /** A first rating makes its card the one that a later correction finds. */
  lemma FirstRatingIsFound(log: Log, c: Catalogue, s: Step, later: int)
    requires s.edit.ratingChanged && s.edit.score.Some? && s.edit.previousScore.None?
    requires Tidy(log.cards, log.next, s.now) && s.now <= later <= s.now + 72 * HOUR
    ensures var r := Recorded(log, c, s.edit, s.history, s.now);
            && Original(r.cards, later).Some?
            && r.cards[Original(r.cards, later).value].details.rating.ratedAt.value >= s.now
  {
    hide WithProgress, WithStatus, Original, Cleared;
    var cards := Recorded(log, c, s.edit, s.history, s.now).cards;
    var i := ActiveIndex(log.cards, s.now);
    var k := if i.Some? then i.value else |log.cards|;
    assert cards[k].createdAt == s.now && cards[k].details.rating.ratedAt == Some(s.now);
    assert Rated(cards[k], later);
  }

  // ----- Following a card through the log

  /** An edit that finds x in its window updates x, or removes it; no other card takes its number. */
  lemma Touched(log: Log, c: Catalogue, s: Step, x: Card, m: nat)
    requires Tidy(log.cards, log.next, s.now) && m < |log.cards| && log.cards[m] == x && InWindow(x, s.now)
    ensures forall b :: b in Recorded(log, c, s.edit, s.history, s.now).cards && b.id == x.id ==>
      exists y, r :: SameCore(x, y) && b == Card(x.id, x.windowStart, s.now, s.edit.status, s.edit.score,
                                                 NewDetails(c, Some(y.details), s.edit, s.history, r, s.now))
  {
    hide NewDetails, HasEvent, Prepared;
    PreparedTidy(log.cards, s.edit, log.next, s.now);
    var (cards, r) := Prepared(log.cards, s.edit, s.now);
    var i := ActiveIndex(cards, s.now);
    forall b | b in Recorded(log, c, s.edit, s.history, s.now).cards && b.id == x.id
      ensures exists y, r :: SameCore(x, y) && b == Card(x.id, x.windowStart, s.now, s.edit.status, s.edit.score,
                                                         NewDetails(c, Some(y.details), s.edit, s.history, r, s.now))
    {
      if k :| 0 <= k < |cards| && cards[k].id == x.id {
        StemOf(log.cards, cards, log.next, s.now, m, k);
        assert i == Some(k);
      }
    }
  }

  /** Cards of one number are one card. */
  lemma StemOf(cards: seq<Card>, after: seq<Card>, next: nat, now: int, m: nat, k: nat)
    requires Tidy(cards, next, now) && Stems(cards, after) && m < |cards| && k < |after| && cards[m].id == after[k].id
    ensures SameCore(cards[m], after[k])
  {
    assert HasStem(cards, after[k]);
    var j :| 0 <= j < |cards| && SameCore(cards[j], after[k]);
    assert j == m;
  }

  /** The cards after an edit: those prepared, a new one, or the open one updated. */
  lemma RecordedCards(log: Log, c: Catalogue, s: Step, b: Card)
    requires b in Recorded(log, c, s.edit, s.history, s.now).cards
    ensures var cards := Prepared(log.cards, s.edit, s.now).0;
            b in cards || b.id == log.next
            || (ActiveIndex(cards, s.now).Some? && b.id == cards[ActiveIndex(cards, s.now).value].id)
  {
    hide NewDetails, HasEvent, Prepared, ActiveIndex;
  }

  /** A card whose window has closed keeps all but its score and rating for as long as it exists. */
  lemma ClosedCardStays(log: Log, c: Catalogue, s: Step, x: Card, m: nat)
    requires Tidy(log.cards, log.next, s.now) && m < |log.cards| && log.cards[m] == x && !InWindow(x, s.now)
    ensures forall b :: b in Recorded(log, c, s.edit, s.history, s.now).cards && b.id == x.id ==> SameCore(x, b)
  {
    hide Recorded, Prepared, SameCore, Stems, ActiveIndex;
    PreparedTidy(log.cards, s.edit, log.next, s.now);
    var cards := Prepared(log.cards, s.edit, s.now).0;
    forall b | b in Recorded(log, c, s.edit, s.history, s.now).cards && b.id == x.id
      ensures SameCore(x, b)
    {
      RecordedCards(log, c, s, b);
      if k :| 0 <= k < |cards| && cards[k] == b {
        StemOf(log.cards, cards, log.next, s.now, m, k);
      } else {
        var i := ActiveIndex(cards, s.now).value;
        StemOf(log.cards, cards, log.next, s.now, m, i);
        CoreWindow(x, cards[i], s.now);
      }
    }
  }

  lemma CoreWindow(x: Card, y: Card, now: int)
    requires SameCore(x, y)
    ensures InWindow(x, now) == InWindow(y, now) && x.id == y.id
  {}

  /** Numbers are not given out twice: a card that is gone stays gone. */
  lemma GoneStaysGone(log: Log, c: Catalogue, s: Step, id: nat)
    requires Tidy(log.cards, log.next, s.now) && id < log.next && forall x :: x in log.cards ==> x.id != id
    ensures forall b :: b in Recorded(log, c, s.edit, s.history, s.now).cards ==> b.id != id
  {
    hide NewDetails, HasEvent, Prepared;
    PreparedTidy(log.cards, s.edit, log.next, s.now);
    var (cards, r) := Prepared(log.cards, s.edit, s.now);
    forall k | 0 <= k < |cards|
      ensures cards[k].id != id
    {
      assert HasStem(log.cards, cards[k]);
    }
  }

  /** The card opened by the first step. */
  lemma Opened(log: Log, c: Catalogue, s: Step)
    requires Tidy(log.cards, log.next, s.now) && (forall x :: x in log.cards ==> !InWindow(x, s.now))
    requires Recorded(log, c, s.edit, s.history, s.now).next > log.next
    ensures forall b :: b in Recorded(log, c, s.edit, s.history, s.now).cards && b.id == log.next ==>
      b.windowStart == s.now && NetChange(c, [s], b.details)
  {
    hide HasEvent, Prepared, WithProgress, WithStatus, NetStatus, NetEpisodes, NetProgress;
    PreparedTidy(log.cards, s.edit, log.next, s.now);
    var (cards, r) := Prepared(log.cards, s.edit, s.now);
    NetOfFirst(c, s);
    RatingAside(c, [s], WithStatus(WithProgress(c, None, s.edit, s.history), s.edit), s.edit, r, s.now);
    forall k | 0 <= k < |cards|
      ensures cards[k].id != log.next
    {
      assert Timely(cards[k], log.next, s.now);
    }
  }

  lemma RatingAside(c: Catalogue, steps: seq<Step>, d: Details, e: Edit, r: bool, now: int)
    requires steps != [] && NetChange(c, steps, d)
    ensures NetChange(c, steps, WithRating(d, e, r, now))
  {
    hide FirstStatus, LastStatus, FirstEvidence, Evidence, Among, Finished, SpanBetween, Positions;
  }

  lemma CoreAside(c: Catalogue, steps: seq<Step>, x: Card, y: Card)
    requires steps != [] && NetChange(c, steps, x.details) && SameCore(x, y)
    ensures NetChange(c, steps, y.details)
  {
    hide FirstStatus, LastStatus, FirstEvidence, Evidence, Among, Finished, SpanBetween, Positions;
  }

  /**
   A card opened by the first of some edits, all within its window, shows after the last of them the net change between
   the first and the last, whatever happened in between.
   */
  lemma {:induction false} CardShowsNetChange(log: Log, c: Catalogue, steps: seq<Step>)
    requires steps != [] && Monotone(steps)
    requires forall s :: s in steps ==> s.now < steps[0].now + DAY
    requires Tidy(log.cards, log.next, steps[0].now) && forall x :: x in log.cards ==> !InWindow(x, steps[0].now)
    requires Run(log, c, steps[..1]).next > log.next
    ensures var r := Run(log, c, steps);
            Tidy(r.cards, r.next, steps[|steps| - 1].now) && r.next > log.next
    ensures forall b :: b in Run(log, c, steps).cards && b.id == log.next ==>
      b.windowStart == steps[0].now && NetChange(c, steps, b.details)
  {
    hide Recorded, NetChange, Tidy, SameCore, Monotone;
    var n := |steps| - 1;
    var s := steps[n];
    LastStep(log, c, steps);
    if n == 0 {
      assert steps == [s];
      RecordedTidy(log, c, s.edit, s.history, s.now);
      Opened(log, c, s);
    } else {
      var before := steps[..n];
      assert before[..1] == steps[..1] && steps == before + [s];
      MonotonePrefix(steps, n);
      assert forall x :: x in before ==> x in steps;
      CardShowsNetChange(log, c, before);
      var was := Run(log, c, before);
      Later(was.cards, was.next, before[n - 1].now, s.now);
      RecordedTidy(was, c, s.edit, s.history, s.now);
      FollowOn(was, c, before, s, log.next, steps[0].now);
    }
  }

  lemma LastStep(log: Log, c: Catalogue, steps: seq<Step>)
    requires steps != []
    ensures var s := steps[|steps| - 1];
            Run(log, c, steps) == Recorded(Run(log, c, steps[..|steps| - 1]), c, s.edit, s.history, s.now)
    ensures Run(log, c, []) == log && steps[..0] == []
    ensures |steps| == 1 ==> Run(log, c, steps[..1]) == Run(log, c, steps)
  {
    hide Recorded;
    assert |steps| == 1 ==> steps[..1] == steps;
  }

  lemma MonotonePrefix(steps: seq<Step>, n: nat)
    requires Monotone(steps) && 0 < n < |steps|
    ensures Monotone(steps[..n]) && steps[n - 1].now <= steps[n].now && steps[0].now <= steps[n].now
  {}

  /** The open card of some steps, after one more in its window. */
  lemma FollowOn(log: Log, c: Catalogue, before: seq<Step>, s: Step, id: nat, since: int)
    requires Tidy(log.cards, log.next, s.now) && id < log.next && since <= s.now < since + DAY && before != []
    requires forall x :: x in log.cards && x.id == id ==> x.windowStart == since && NetChange(c, before, x.details)
    ensures var r := Recorded(log, c, s.edit, s.history, s.now);
            r.next > id
            && forall b :: b in r.cards && b.id == id ==>
                 b.windowStart == since && NetChange(c, before + [s], b.details)
  {
    hide Recorded, NetChange, Tidy, SameCore, NewDetails;
    NextOnlyGrows(log, c, s);
    if m :| 0 <= m < |log.cards| && log.cards[m].id == id {
      var x := log.cards[m];
      Touched(log, c, s, x, m);
      forall b | b in Recorded(log, c, s.edit, s.history, s.now).cards && b.id == id
        ensures b.windowStart == since && NetChange(c, before + [s], b.details)
      {
        var y, r :| SameCore(x, y) && b == Card(x.id, x.windowStart, s.now, s.edit.status, s.edit.score,
                                                NewDetails(c, Some(y.details), s.edit, s.history, r, s.now));
        NetThrough(c, before, x, y, s, r);
      }
    } else {
      GoneStaysGone(log, c, s, id);
    }
  }

  lemma NetThrough(c: Catalogue, before: seq<Step>, x: Card, y: Card, s: Step, r: bool)
    requires before != [] && NetChange(c, before, x.details) && SameCore(x, y)
    ensures NetChange(c, before + [s], NewDetails(c, Some(y.details), s.edit, s.history, r, s.now))
  {
    hide NetChange, WithStatus, WithProgress, WithRating;
    CoreAside(c, before, x, y);
    NetOfNext(c, before, y.details, s);
    RatingAside(c, before + [s], WithStatus(WithProgress(c, Some(y.details), s.edit, s.history), s.edit), s.edit, r,
                s.now);
  }

  lemma NextOnlyGrows(log: Log, c: Catalogue, s: Step)
    ensures Recorded(log, c, s.edit, s.history, s.now).next >= log.next
  {
    hide NewDetails, HasEvent, Prepared;
  }
}
