/**
 Leased metadata refresh. Workers claim a snapshot row, call a provider without holding a lock, and publish
 or record a failure only while the row still carries their token. Times are in seconds.
 */
module MetadataLease {
  import opened TextOrder

  const LEASE := 180
  const DAY := 86400

  type Token = nat

  /** The columns of a snapshot row that the protocol reads or writes. */
  datatype Snapshot = Snapshot(
    leaseToken: Option<Token>, leaseUntil: Option<int>,
    payload: Option<int>, fetchedAt: Option<int>, expiresAt: Option<int>,
    attempts: nat, nextAttempt: Option<int>, error: Option<string>)

  const EMPTY_ROW := Snapshot(None, None, None, None, None, 0, None, None)

  datatype Status = Refreshing | Cached | LastGood | RetryPending | Updated | Failed

  predicate Later(t: Option<int>, now: int) {
    t.Some? && t.value > now
  }

  function CachedStatus(row: Snapshot, now: int): Option<Status> {
    if Later(row.leaseUntil, now) then Some(Refreshing)
    else if Later(row.expiresAt, now) then Some(Cached)
    else if Later(row.nextAttempt, now) then Some(if row.fetchedAt.Some? then LastGood else RetryPending)
    else None
  }

  function Power2(n: nat): nat {
    if n == 0 then 1 else 2 * Power2(n - 1)
  }

  function Min(a: int, b: int): int { if a < b then a else b }
  function Max(a: int, b: int): int { if a < b then b else a }

  /** Seconds before the next attempt after this many failures in a row. */
  function Delay(baseDelay: nat, attempts: nat, retryAfter: int): int {
    Max(retryAfter, Min(DAY, baseDelay * Power2(Min(attempts, 10))))
  }

  /** What Delay is: twice the base after the first failure, twice as much after each further one, up to the tenth... */
  lemma DelayDoubles(baseDelay: nat, attempts: nat)
    ensures Delay(baseDelay, 1, 0) == Min(86_400, 2 * baseDelay)
    ensures 1 <= attempts < 10 ==> Delay(baseDelay, attempts + 1, 0) == Min(86_400, 2 * Delay(baseDelay, attempts, 0))
    ensures attempts >= 10 ==> Delay(baseDelay, attempts, 0) == Delay(baseDelay, 10, 0)
  {
    if 1 <= attempts < 10 {
      var n := Power2(attempts);
      assert Power2(attempts + 1) == 2 * n;
      assert baseDelay * (2 * n) == 2 * (baseDelay * n);
    }
    assert Power2(1) == 2 * Power2(0);
  }

  /** ...but never less than the provider asked for. */
  lemma DelayHonoursProvider(baseDelay: nat, attempts: nat, retryAfter: int)
    ensures Delay(baseDelay, attempts, retryAfter)
         == if retryAfter > Delay(baseDelay, attempts, 0) then retryAfter else Delay(baseDelay, attempts, 0)
  {}

  /** No lease, no fresh payload and no retry delay stands. */
  predicate Free(row: Snapshot, now: int) {
    && (row.leaseUntil.Some? ==> row.leaseUntil.value <= now)
    && (row.expiresAt.Some? ==> row.expiresAt.value <= now)
    && (row.nextAttempt.Some? ==> row.nextAttempt.value <= now)
  }

  function ClaimRow(row: Snapshot, token: Token, now: int): Snapshot {
    row.(leaseToken := Some(token), leaseUntil := Some(now + LEASE))
  }

  function PublishRow(row: Snapshot, payload: int, now: int, lifetime: int): Snapshot {
    Snapshot(None, None, Some(payload), Some(now), Some(now + lifetime), 0, None, None)
  }

  function FailRow(row: Snapshot, error: string, now: int, baseDelay: nat, retryAfter: int): Snapshot {
    row.(leaseToken := None, leaseUntil := None, attempts := row.attempts + 1, error := Some(error),
         nextAttempt := Some(now + Delay(baseDelay, row.attempts + 1, retryAfter)))
  }

  /** The stored row; each method is one committed transaction under the write lock. */
  class SnapshotRow {
    var row: Snapshot

    constructor ()
      ensures row == EMPTY_ROW
    {
      row := EMPTY_ROW;
    }

    method Claim(token: Token, now: int) returns (cached: Option<Status>)
      modifies this
      ensures cached == CachedStatus(old(row), now)
      ensures row == if cached.None? then ClaimRow(old(row), token, now) else old(row)
      ensures cached.None? <==> Free(old(row), now)
      ensures cached.None? ==> row == old(row).(leaseToken := Some(token), leaseUntil := Some(now + 180))
      ensures cached == Some(Refreshing) <==> old(row).leaseUntil.Some? && now < old(row).leaseUntil.value
      ensures cached == Some(LastGood) ==> old(row).fetchedAt.Some?
      ensures cached == Some(RetryPending) ==> old(row).fetchedAt.None?
    {
      cached := CachedStatus(row, now);
      if cached.Some? {
        return;
      }
      row := row.(leaseToken := Some(token));
      row := row.(leaseUntil := Some(now + LEASE));
    }

    method Publish(token: Token, payload: int, now: int, lifetime: int) returns (status: Status)
      modifies this
      ensures if old(row).leaseToken == Some(token)
              then status == Updated && row == PublishRow(old(row), payload, now, lifetime)
                   && row == Snapshot(None, None, Some(payload), Some(now), Some(now + lifetime), 0, None, None)
              else status == Refreshing && row == old(row)
    {
      if row.leaseToken != Some(token) {
        return Refreshing;
      }
      row := row.(payload := Some(payload), fetchedAt := Some(now));
      row := row.(expiresAt := Some(now + lifetime), attempts := 0, error := None, nextAttempt := None);
      row := row.(leaseToken := None, leaseUntil := None);
      status := Updated;
    }

    method RecordFailure(token: Token, error: string, now: int, baseDelay: nat, retryAfter: int)
      returns (status: Status)
      modifies this
      ensures if old(row).leaseToken == Some(token)
              then status == (if old(row).fetchedAt.Some? then LastGood else Failed)
                   && row == FailRow(old(row), error, now, baseDelay, retryAfter)
                   && row == old(row).(leaseToken := None, leaseUntil := None, attempts := old(row).attempts + 1,
                                       error := Some(error), nextAttempt := row.nextAttempt)
                   && row.nextAttempt == Some(now + Delay(baseDelay, old(row).attempts + 1, retryAfter))
              else status == Refreshing && row == old(row)
    {
      if row.leaseToken != Some(token) {
        return Refreshing;
      }
      row := row.(attempts := row.attempts + 1);
      row := row.(error := Some(error));
      row := row.(nextAttempt := Some(now + Delay(baseDelay, row.attempts, retryAfter)));
      row := row.(leaseToken := None, leaseUntil := None);
      status := if row.fetchedAt.Some? then LastGood else Failed;
    }
  }

  // ----- runs: any interleaving of workers, crashes and clock ticks

  datatype Event =
    | Granted(claim: nat, at: int)
    | Published(claim: nat, at: int, payload: int, lifetime: int)
    | Failure(claim: nat, at: int, delay: int)

  /** claims[i] is the token of the i-th claim; working holds the claims whose worker has not ended. */
  datatype World = World(row: Snapshot, now: int, claims: seq<Token>, working: set<nat>, history: seq<Event>)

  datatype Action =
    | Tick(seconds: nat)
    | TryClaim(token: Token)
    | TryPublish(claim: nat, payload: int, lifetime: nat)
    | TryFail(claim: nat, error: string, retryAfter: int)
    | Crash(claim: nat)

  predicate Owns(w: World, claim: nat) {
    claim in w.working && claim < |w.claims| && w.row.leaseToken == Some(w.claims[claim])
  }

  /** One step; tokens are fresh (uuid4), and a worker acts at most once. */
  function Do(w: World, a: Action, baseDelay: nat): World {
    match a
    case Tick(seconds) => w.(now := w.now + seconds)
    case TryClaim(token) =>
      if token in w.claims || CachedStatus(w.row, w.now).Some? then w
      else w.(row := ClaimRow(w.row, token, w.now), claims := w.claims + [token],
              working := w.working + {|w.claims|}, history := w.history + [Granted(|w.claims|, w.now)])
    case TryPublish(claim, payload, lifetime) =>
      if Owns(w, claim)
      then w.(row := PublishRow(w.row, payload, w.now, lifetime), working := w.working - {claim},
              history := w.history + [Published(claim, w.now, payload, lifetime)])
      else w.(working := w.working - {claim})
    case TryFail(claim, error, retryAfter) =>
      if Owns(w, claim)
      then w.(row := FailRow(w.row, error, w.now, baseDelay, retryAfter), working := w.working - {claim},
              history := w.history + [Failure(claim, w.now, Delay(baseDelay, w.row.attempts + 1, retryAfter))])
      else w.(working := w.working - {claim})
    case Crash(claim) => w.(working := w.working - {claim})
  }

  function Run(w: World, actions: seq<Action>, baseDelay: nat): World {
    if actions == [] then w
    else Do(Run(w, actions[..|actions| - 1], baseDelay), actions[|actions| - 1], baseDelay)
  }

  function Start(now: int): World {
    World(EMPTY_ROW, now, [], {}, [])
  }

  // ----- what every history looks like

  function LastPublished(h: seq<Event>): (r: Option<Event>)
    ensures r.Some? ==> r.value.Published?
  {
    if h == [] then None
    else if h[|h| - 1].Published? then Some(h[|h| - 1])
    else LastPublished(h[..|h| - 1])
  }

  /** Failures recorded since the last publication. */
  function FailuresInARow(h: seq<Event>): nat {
    if h == [] || h[|h| - 1].Published? then 0
    else (if h[|h| - 1].Failure? then 1 else 0) + FailuresInARow(h[..|h| - 1])
  }

  function GrantsIn(h: seq<Event>): nat {
    if h == [] then 0 else (if h[|h| - 1].Granted? then 1 else 0) + GrantsIn(h[..|h| - 1])
  }

  /** The earliest time the event allows another claim. */
  function WaitUntil(e: Event): int {
    match e
    case Granted(_, at) => at + LEASE
    case Published(_, at, _, lifetime) => at + lifetime
    case Failure(_, at, delay) => at + delay
  }

  /**
   Claims are numbered in the order they are granted; a claim publishes or fails only directly after it was
   granted, so late workers leave no trace; and a claim is granted only after the wait imposed by the event
   before it and after the last published payload has expired.
   */
  ghost predicate Orderly(h: seq<Event>, baseDelay: nat) {
    h != [] ==>
      var init, last := h[..|h| - 1], h[|h| - 1];
      && Orderly(init, baseDelay)
      && match last
         case Granted(claim, at) =>
           && claim == GrantsIn(init)
           && (init != [] ==> WaitUntil(init[|init| - 1]) <= at)
           && (LastPublished(init).Some? ==> WaitUntil(LastPublished(init).value) <= at)
         case Published(claim, at, _, _) =>
           init != [] && init[|init| - 1].Granted? && init[|init| - 1].claim == claim && init[|init| - 1].at <= at
         case Failure(claim, at, delay) =>
           && init != [] && init[|init| - 1].Granted? && init[|init| - 1].claim == claim && init[|init| - 1].at <= at
           && delay >= Min(DAY, baseDelay * Power2(Min(FailuresInARow(init) + 1, 10)))
  }

  /** The row is what the history says: last good data of the last publication, lease of a trailing grant. */
  ghost predicate Reflects(w: World) {
    var h, row := w.history, w.row;
    && (match LastPublished(h)
        case None => row.payload.None? && row.fetchedAt.None? && row.expiresAt.None?
        case Some(p) => row.payload == Some(p.payload) && row.fetchedAt == Some(p.at)
                        && row.expiresAt == Some(p.at + p.lifetime))
    && row.attempts == FailuresInARow(h)
    && (if h == [] then row.leaseToken.None? && row.leaseUntil.None? && row.nextAttempt.None?
        else match h[|h| - 1]
          case Granted(claim, at) =>
            claim + 1 == |w.claims| && row.leaseToken == Some(w.claims[claim]) && row.leaseUntil == Some(at + LEASE)
          case Published(_, _, _, _) => row.leaseToken.None? && row.leaseUntil.None? && row.nextAttempt.None?
          case Failure(_, at, delay) =>
            row.leaseToken.None? && row.leaseUntil.None? && row.nextAttempt == Some(at + delay))
  }

  ghost predicate Sound(w: World, baseDelay: nat) {
    && Orderly(w.history, baseDelay) && Reflects(w)
    && |w.claims| == GrantsIn(w.history)
    && (forall i, j :: 0 <= i < j < |w.claims| ==> w.claims[i] != w.claims[j])
    && (w.history != [] ==> w.history[|w.history| - 1].at <= w.now)
  }

  lemma Appended(h: seq<Event>, e: Event)
    ensures (h + [e])[..|h|] == h && (h + [e])[|h|] == e && |h + [e]| == |h| + 1
  {}

  lemma GrantKeepsSound(w: World, token: Token, baseDelay: nat)
    requires Sound(w, baseDelay) && token !in w.claims && CachedStatus(w.row, w.now).None?
    ensures Sound(Do(w, TryClaim(token), baseDelay), baseDelay)
  {
    hide Power2, Min, Delay;
    Appended(w.history, Granted(|w.claims|, w.now));
  }

  lemma PublishKeepsSound(w: World, claim: nat, payload: int, lifetime: nat, baseDelay: nat)
    requires Sound(w, baseDelay) && Owns(w, claim)
    ensures Sound(Do(w, TryPublish(claim, payload, lifetime), baseDelay), baseDelay)
  {
    hide Power2, Min, Delay;
    OwnerIsLast(w, claim, baseDelay);
    Appended(w.history, Published(claim, w.now, payload, lifetime));
  }

  lemma FailKeepsSound(w: World, claim: nat, error: string, retryAfter: int, baseDelay: nat)
    requires Sound(w, baseDelay) && Owns(w, claim)
    ensures Sound(Do(w, TryFail(claim, error, retryAfter), baseDelay), baseDelay)
  {
    hide Power2;
    OwnerIsLast(w, claim, baseDelay);
    Appended(w.history, Failure(claim, w.now, Delay(baseDelay, w.row.attempts + 1, retryAfter)));
  }

  /** The row's token is the newest claim's, and nothing happened since it was granted. */
  lemma OwnerIsLast(w: World, claim: nat, baseDelay: nat)
    requires Sound(w, baseDelay) && Owns(w, claim)
    ensures claim + 1 == |w.claims| && w.history != []
    ensures w.history[|w.history| - 1].Granted? && w.history[|w.history| - 1].claim == claim
  {}

  lemma StepKeepsSound(w: World, a: Action, baseDelay: nat)
    requires Sound(w, baseDelay)
    ensures Sound(Do(w, a, baseDelay), baseDelay)
  {
    hide Orderly;
    match a
    case Tick(_) =>
    case TryClaim(token) =>
      if token !in w.claims && CachedStatus(w.row, w.now).None? {
        GrantKeepsSound(w, token, baseDelay);
      }
    case TryPublish(claim, payload, lifetime) =>
      if Owns(w, claim) {
        PublishKeepsSound(w, claim, payload, lifetime, baseDelay);
      }
    case TryFail(claim, error, retryAfter) =>
      if Owns(w, claim) {
        FailKeepsSound(w, claim, error, retryAfter, baseDelay);
      }
    case Crash(_) =>
  }

  /** Every reachable world is sound, whatever the interleaving. */
  lemma {:induction false} EveryRunIsSound(now: int, actions: seq<Action>, baseDelay: nat)
    ensures Sound(Run(Start(now), actions, baseDelay), baseDelay)
  {
    if actions != [] {
      EveryRunIsSound(now, actions[..|actions| - 1], baseDelay);
      StepKeepsSound(Run(Start(now), actions[..|actions| - 1], baseDelay), actions[|actions| - 1], baseDelay);
    }
  }

  /** In an orderly history every completion names a claim granted before it, and none completes twice. */
  lemma {:induction false} ClaimsAreOrdered(h: seq<Event>, baseDelay: nat)
    requires Orderly(h, baseDelay)
    ensures forall i :: 0 <= i < |h| ==> h[i].claim < GrantsIn(h)
    ensures forall i, j :: 0 <= i < j < |h| ==>
      h[i].claim < h[j].claim || (h[i].claim == h[j].claim && h[i].Granted? && !h[j].Granted? && j == i + 1)
    ensures h != [] ==> h[|h| - 1].claim + 1 == GrantsIn(h)
  {
    if h != [] {
      var init := h[..|h| - 1];
      ClaimsAreOrdered(init, baseDelay);
      forall i | 0 <= i < |init|
        ensures h[i].claim < h[|h| - 1].claim
             || (h[i].claim == h[|h| - 1].claim && h[i].Granted? && !h[|h| - 1].Granted? && |h| - 1 == i + 1)
      {
        assert h[i] == init[i];
        if i < |init| - 1 {
          assert init[i].claim < init[|init| - 1].claim
              || (init[i].Granted? && !init[|init| - 1].Granted? && |init| - 1 == i + 1);
        }
      }
    }
  }

  /** Published payloads appear in strictly increasing claim order, each claim at most once. */
  lemma PublicationsInClaimOrder(now: int, actions: seq<Action>, baseDelay: nat, i: nat, j: nat)
    requires var h := Run(Start(now), actions, baseDelay).history;
             i < j < |h| && h[i].Published? && h[j].Published?
    ensures var h := Run(Start(now), actions, baseDelay).history; h[i].claim < h[j].claim
  {
    EveryRunIsSound(now, actions, baseDelay);
    ClaimsAreOrdered(Run(Start(now), actions, baseDelay).history, baseDelay);
  }

  /** A worker that fails, crashes or comes late leaves payload, fetch time and expiry as they were. */
  lemma OnlyOwnersPublish(now: int, actions: seq<Action>, a: Action, baseDelay: nat)
    ensures var w := Run(Start(now), actions, baseDelay);
            var w' := Do(w, a, baseDelay);
            (w'.row.payload, w'.row.fetchedAt, w'.row.expiresAt) == (w.row.payload, w.row.fetchedAt, w.row.expiresAt)
            || (a.TryPublish? && a.claim + 1 == |w.claims| && a.claim in w.working
                && w.history != [] && w.history[|w.history| - 1].Granted?
                && w.history[|w.history| - 1].claim == a.claim)
  {
    var w := Run(Start(now), actions, baseDelay);
    EveryRunIsSound(now, actions, baseDelay);
    if a.TryPublish? && Owns(w, a.claim) {
      assert w.row.leaseToken.Some?;
      assert w.claims[a.claim] == w.claims[|w.claims| - 1];
    }
  }

  lemma WaitsForLast(h: seq<Event>, baseDelay: nat, i: nat)
    requires Orderly(h, baseDelay) && i + 1 < |h| && h[i + 1].Granted?
    ensures WaitUntil(h[i]) <= h[i + 1].at
  {
    OrderlyPrefix(h, baseDelay, i + 2);
    hide Power2, GrantsIn, FailuresInARow, LastPublished;
  }

  /**
   A grant waits three minutes after another one without completion, for the lifetime of what was just published, and
   for the delay of a failure.
   */
  lemma GrantSpacing(now: int, actions: seq<Action>, baseDelay: nat, i: nat)
    requires var h := Run(Start(now), actions, baseDelay).history; i + 1 < |h| && h[i + 1].Granted?
    ensures var h := Run(Start(now), actions, baseDelay).history;
            h[i + 1].at >= match h[i]
                           case Granted(_, at) => at + 180
                           case Published(_, at, _, lifetime) => at + lifetime
                           case Failure(_, at, delay) => at + delay
  {
    EveryRunIsSound(now, actions, baseDelay);
    hide Orderly, Run;
    WaitsForLast(Run(Start(now), actions, baseDelay).history, baseDelay, i);
  }

  /** The last n events up to i are failures, each of a grant of its own. */
  predicate FailedLast(h: seq<Event>, i: int, n: nat) {
    n == 0 || (0 <= i < |h| && h[i].Failure? && FailedLast(h, i - 2, n - 1))
  }

  /** The n-th failure in a row delays by the base doubled n times, up to ten times and up to a day. */
  lemma FailureBackoff(now: int, actions: seq<Action>, baseDelay: nat, i: nat, n: nat)
    requires 1 <= n <= 10 && FailedLast(Run(Start(now), actions, baseDelay).history, i, n)
    ensures Run(Start(now), actions, baseDelay).history[i].delay >= Min(86_400, baseDelay * Power2(n))
  {
    var h := Run(Start(now), actions, baseDelay).history;
    EveryRunIsSound(now, actions, baseDelay);
    LastOfPrefix(h, baseDelay, i);
    RowOfFailures(h, baseDelay, i, n);
    hide Orderly, FailuresInARow, Run, Power2, FailedLast;
    var m := Min(FailuresInARow(h[..i + 1]), 10);
    Power2Grows(n, m);
    Scaled(baseDelay, Power2(n), Power2(m));
  }

  lemma Scaled(a: nat, b: nat, c: nat)
    requires b <= c
    ensures a * b <= a * c
  {}

  lemma LastOfPrefix(h: seq<Event>, baseDelay: nat, i: nat)
    requires Orderly(h, baseDelay) && i < |h| && h[i].Failure?
    ensures i > 0 && h[i - 1].Granted?
    ensures FailuresInARow(h[..i + 1]) == 1 + FailuresInARow(h[..i])
    ensures FailuresInARow(h[..i]) == FailuresInARow(h[..i - 1])
    ensures h[i].delay >= Min(86_400, baseDelay * Power2(Min(FailuresInARow(h[..i + 1]), 10)))
  {
    OrderlyPrefix(h, baseDelay, i + 1);
    hide Power2;
    assert h[..i + 1][..i] == h[..i];
    assert h[..i][..i - 1] == h[..i - 1];
  }

  lemma {:induction false} RowOfFailures(h: seq<Event>, baseDelay: nat, i: nat, n: nat)
    requires Orderly(h, baseDelay) && n >= 1 && FailedLast(h, i, n)
    ensures FailuresInARow(h[..i + 1]) >= n
  {
    hide Orderly, FailuresInARow;
    LastOfPrefix(h, baseDelay, i);
    if n > 1 {
      RowOfFailures(h, baseDelay, i - 2, n - 1);
    }
  }

  lemma {:induction false} Power2Grows(n: nat, m: nat)
    requires n <= m
    ensures Power2(n) <= Power2(m)
  {
    if n < m {
      Power2Grows(n, m - 1);
    }
  }

  lemma {:induction false} OrderlyPrefix(h: seq<Event>, baseDelay: nat, n: nat)
    requires Orderly(h, baseDelay) && n <= |h|
    ensures Orderly(h[..n], baseDelay)
  {
    if n < |h| {
      OrderlyPrefix(h[..|h| - 1], baseDelay, n);
      assert h[..|h| - 1][..n] == h[..n];
    } else {
      assert h[..n] == h;
    }
  }
}
