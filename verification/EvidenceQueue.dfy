/**
 The contributor-evidence queue: bounded admission under an advisory lock, leased work with fenced
 completion, a two-page lifetime budget per media kind and a retry limit. Times are in seconds.
 */
module EvidenceQueue {
  import opened TextOrder

  const MAX_PENDING := 256
  const LEASE := 45
  const DAY := 86400
  const HOUR := 3600

  datatype Kind = Person | Studio
  datatype Key = Key(kind: Kind, nativeId: int, variant: string)

  /** Evidence gathered so far; a page of None means that media kind is finished. */
  datatype Payload = Payload(works: seq<int>, moviePage: Option<nat>, seriesPage: Option<nat>, complete: bool)

  datatype Row = Row(payload: Option<Payload>, attempts: nat, nextAttempt: Option<int>, expiresAt: Option<int>,
                     leaseToken: Option<nat>, leaseUntil: Option<int>)

  /** A provider reply: the eligible rows of a page and how many pages there are. */
  datatype Reply = Reply(eligible: seq<int>, totalPages: int)

  type Table = map<Key, Row>

  function Min(a: int, b: int): int { if a < b then a else b }
  function Max(a: int, b: int): int { if a < b then b else a }

  function Power2(n: nat): nat {
    if n == 0 then 1 else 2 * Power2(n - 1)
  }

  predicate Passed(t: Option<int>, now: int) {
    t.None? || t.value <= now
  }

  predicate Pending(row: Row) {
    row.nextAttempt.Some?
  }

  function PendingKeys(rows: Table): (r: set<Key>)
    ensures forall k :: k in r <==> k in rows && rows[k].nextAttempt.Some?
  {
    set k | k in rows && Pending(rows[k])
  }

  function KeySet(keys: seq<Key>): set<Key> {
    set k | k in keys
  }

  // ----- gathering evidence

  function NextPage(page: Option<nat>, reply: Reply): Option<nat> {
    if page.Some? && page.value < Min(reply.totalPages, 2) then Some(page.value + 1) else None
  }

  function PageRows(page: Option<nat>, reply: Reply): seq<int> {
    if page.Some? then reply.eligible else []
  }

  function LoadEvidence(kind: Kind, previous: Option<Payload>, movies: Reply, series: Reply): Payload {
    if kind == Person then Payload(movies.eligible + series.eligible, None, None, true)
    else
      var resume := previous.Some? && !previous.value.complete;
      var moviePage := if resume then previous.value.moviePage else Some(1);
      var seriesPage := if resume then previous.value.seriesPage else Some(1);
      var nextMovie, nextSeries := NextPage(moviePage, movies), NextPage(seriesPage, series);
      var works := if resume then previous.value.works else [];
      Payload(works + PageRows(moviePage, movies) + PageRows(seriesPage, series),
              nextMovie, nextSeries, nextMovie.None? && nextSeries.None?)
  }

  // ----- the three transactions

  /** The conflict clause of the admission insert. */
  predicate Admissible(row: Row, current: int) {
    Passed(row.expiresAt, current) && Passed(row.leaseUntil, current) && Passed(row.nextAttempt, current)
  }

  function AdmitRow(rows: Table, k: Key, current: int): Row {
    if k !in rows then Row(None, 0, Some(current), None, None, None)
    else if Admissible(rows[k], current) then rows[k].(nextAttempt := Some(current))
    else rows[k]
  }

  function AdmitRows(rows: Table, due: set<Key>, current: int): Table {
    map k | k in rows.Keys + due :: if k in due then AdmitRow(rows, k, current) else rows[k]
  }

  predicate Claimable(rows: Table, k: Key, now: int) {
    k in rows && rows[k].nextAttempt.Some? && rows[k].nextAttempt.value <= now && Passed(rows[k].leaseUntil, now)
  }

  function ClaimRow(row: Row, token: nat, now: int): Row {
    row.(leaseToken := Some(token), leaseUntil := Some(now + LEASE))
  }

  function SucceedRow(row: Row, payload: Payload, now: int): Row {
    row.(payload := Some(payload), attempts := 0, expiresAt := Some(now + if payload.works != [] then 7 * DAY else DAY),
         nextAttempt := if payload.complete then None else Some(now + 2), leaseToken := None, leaseUntil := None)
  }

  function FailRow(row: Row, attempts: nat, now: int): Row {
    var failed := row.(attempts := attempts + 1, leaseToken := None, leaseUntil := None);
    if attempts >= 4 then failed.(nextAttempt := None, expiresAt := Some(now + 6 * HOUR))
    else failed.(nextAttempt := Some(now + Min(HOUR, 60 * Power2(Min(attempts, 6)))))
  }

  /** Nothing stands against scheduling the row: no valid evidence, no lease and no attempt to come. */
  predicate Open(row: Row, now: int) {
    && (row.expiresAt.Some? ==> row.expiresAt.value <= now)
    && (row.leaseUntil.Some? ==> row.leaseUntil.value <= now)
    && (row.nextAttempt.Some? ==> row.nextAttempt.value <= now)
  }

  /** Its attempt is due, and nobody holds it. */
  predicate Due(row: Row, now: int) {
    && row.nextAttempt.Some? && row.nextAttempt.value <= now
    && (row.leaseUntil.Some? ==> row.leaseUntil.value <= now)
  }

  /**
   A success keeps what it found for a week, or for a day when there is nothing, and comes back in two seconds when
   pages are left. A failure waits one, two, four and eight minutes; the fifth gives up for six hours.
   */
  function Completed(row: Row, outcome: Option<Payload>, attempts: nat, now: int): Row {
    match outcome
    case Some(found) =>
      Row(outcome, 0, if found.complete then None else Some(now + 2),
          Some(now + if |found.works| > 0 then 604_800 else 86_400), None, None)
    case None =>
      if attempts < 4
      then Row(row.payload, attempts + 1, Some(now + 60 * [1, 2, 4, 8][attempts]), row.expiresAt, None, None)
      else Row(row.payload, attempts + 1, None, Some(now + 21_600), None, None)
  }

  lemma FailureTimes(row: Row, attempts: nat, now: int)
    ensures FailRow(row, attempts, now) == Completed(row, None, attempts, now)
  {
    assert Power2(0) == 1 && Power2(1) == 2 && Power2(2) == 4 && Power2(3) == 8;
    assert attempts == 0 || attempts == 1 || attempts == 2 || attempts == 3 || attempts >= 4;
  }

  /** The stored queue. */
  class EvidenceTable {
    var rows: Table

    constructor ()
      ensures rows == map[]
    {
      rows := map[];
    }

    /** Truncates the due keys to the free capacity; called with the admission lock held. */
    method Capacity(due: seq<Key>) returns (admitted: seq<Key>)
      ensures admitted <= due && |admitted| <= Max(0, MAX_PENDING - |PendingKeys(rows)|)
      ensures admitted == due || |admitted| == Max(0, 256 - |PendingKeys(rows)|)
    {
      var free := Max(0, MAX_PENDING - |PendingKeys(rows)|);
      admitted := due[..Min(free, |due|)];
    }

    method Admit(due: seq<Key>, current: int)
      modifies this
      ensures rows == AdmitRows(old(rows), KeySet(due), current)
      ensures forall k :: k in rows <==> k in old(rows) || k in due
      ensures forall k :: k in old(rows) ==>
        rows[k] == if k in due && Open(old(rows)[k], current) then old(rows)[k].(nextAttempt := Some(current))
                   else old(rows)[k]
      ensures forall k :: k in due && k !in old(rows) ==> rows[k] == Row(None, 0, Some(current), None, None, None)
    {
      ghost var before := rows;
      for i := 0 to |due|
        invariant rows == AdmitRows(before, KeySet(due[..i]), current)
      {
        var k := due[i];
        assert KeySet(due[..i + 1]) == KeySet(due[..i]) + {k};
        if k !in rows {
          rows := rows[k := Row(None, 0, Some(current), None, None, None)];
        } else if Admissible(rows[k], current) {
          rows := rows[k := rows[k].(nextAttempt := Some(current))];
        }
      }
      assert due[..|due|] == due;
    }

    method Claim(k: Key, token: nat, now: int) returns (ok: bool)
      modifies this
      ensures ok == Claimable(old(rows), k, now)
      ensures ok <==> k in old(rows) && Due(old(rows)[k], now)
      ensures rows == if ok then old(rows)[k := ClaimRow(old(rows)[k], token, now)] else old(rows)
      ensures ok ==> rows[k] == old(rows)[k].(leaseToken := Some(token), leaseUntil := Some(now + 45))
    {
      ok := k in rows && rows[k].nextAttempt.Some? && rows[k].nextAttempt.value <= now
        && Passed(rows[k].leaseUntil, now);
      if ok {
        rows := rows[k := rows[k].(leaseToken := Some(token), leaseUntil := Some(now + LEASE))];
      }
    }

    /** UPDATE ... WHERE lease_token = token: a worker that lost its lease changes nothing. */
    method Complete(k: Key, token: nat, outcome: Option<Payload>, attempts: nat, now: int)
      modifies this
      ensures if k in old(rows) && old(rows)[k].leaseToken == Some(token)
              then rows == old(rows)[k := if outcome.Some? then SucceedRow(old(rows)[k], outcome.value, now)
                                          else FailRow(old(rows)[k], attempts, now)]
              else rows == old(rows)
      ensures k in old(rows) && old(rows)[k].leaseToken == Some(token) ==>
        k in rows && rows[k] == Completed(old(rows)[k], outcome, attempts, now)
    {
      forall row: Row
        ensures FailRow(row, attempts, now) == Completed(row, None, attempts, now)
      {
        FailureTimes(row, attempts, now);
      }
      if k in rows && rows[k].leaseToken == Some(token) {
        rows := rows[k := if outcome.Some? then SucceedRow(rows[k], outcome.value, now)
                          else FailRow(rows[k], attempts, now)];
      }
    }
  }

  // ----- runs

  /** What a worker copied from its row when it claimed it. */
  datatype Job = Job(key: Key, payload: Option<Payload>, attempts: nat)

  /** An admission that holds the lock and has counted, but not inserted yet. */
  datatype Admission = Admission(due: set<Key>, current: int)

  /**
   spent and tries count, per key, the successful and all fenced completions since the key last became
   pending; they observe the run and influence nothing.
   */
  datatype World = World(rows: Table, now: int, admission: Option<Admission>, jobs: map<nat, Job>,
                         spent: map<Key, nat>, tries: map<Key, nat>)

  datatype Action =
    | Tick(seconds: nat)
    | Count(due: seq<Key>)        // take the lock and truncate the due keys
    | Insert                      // insert them and release the lock
    | Abandon                     // the admitting request ends without inserting
    | Claim(key: Key, token: nat)
    | Succeed(token: nat, movies: Reply, series: Reply)
    | Fail(token: nat)
    | Lose(token: nat)            // the worker disappears

  function Free(rows: Table): nat {
    Max(0, MAX_PENDING - |PendingKeys(rows)|)
  }

  function CountOf(m: map<Key, nat>, k: Key): nat {
    if k in m then m[k] else 0
  }

  predicate Fenced(w: World, token: nat) {
    token in w.jobs && w.jobs[token].key in w.rows && w.rows[w.jobs[token].key].leaseToken == Some(token)
  }

  function Finish(w: World, token: nat, row: Row, success: bool): World
    requires Fenced(w, token)
  {
    var k := w.jobs[token].key;
    w.(rows := w.rows[k := row], jobs := w.jobs - {token},
       spent := w.spent[k := CountOf(w.spent, k) + if success then 1 else 0],
       tries := w.tries[k := CountOf(w.tries, k) + 1])
  }

  /** The keys that were not pending before and are now. */
  function Woken(before: Table, after: Table): set<Key> {
    set k | k in after && Pending(after[k]) && !(k in before && Pending(before[k]))
  }

  function Reset(counts: map<Key, nat>, keys: set<Key>): map<Key, nat> {
    map k | k in counts.Keys + keys :: if k in keys then 0 else counts[k]
  }

  function Do(w: World, a: Action): World {
    match a
    case Tick(seconds) => w.(now := w.now + seconds)
    case Count(due) =>
      if w.admission.Some? then w
      else
        var admitted := due[..Min(Free(w.rows), |due|)];
        w.(admission := Some(Admission(KeySet(admitted), w.now)))
    case Insert =>
      if w.admission.None? then w
      else
        var rows := AdmitRows(w.rows, w.admission.value.due, w.admission.value.current);
        World(rows, w.now, None, w.jobs, Reset(w.spent, Woken(w.rows, rows)), Reset(w.tries, Woken(w.rows, rows)))
    case Abandon => w.(admission := None)
    case Claim(k, token) =>
      if token in w.jobs || !Claimable(w.rows, k, w.now)
         || (exists x :: x in w.rows && w.rows[x].leaseToken == Some(token)) then w
      else w.(rows := w.rows[k := ClaimRow(w.rows[k], token, w.now)],
              jobs := w.jobs[token := Job(k, w.rows[k].payload, w.rows[k].attempts)])
    case Succeed(token, movies, series) =>
      if Fenced(w, token)
      then Finish(w, token, SucceedRow(w.rows[w.jobs[token].key],
             LoadEvidence(w.jobs[token].key.kind, w.jobs[token].payload, movies, series), w.now), true)
      else w.(jobs := w.jobs - {token})
    case Fail(token) =>
      if Fenced(w, token)
      then Finish(w, token, FailRow(w.rows[w.jobs[token].key], w.jobs[token].attempts, w.now), false)
      else w.(jobs := w.jobs - {token})
    case Lose(token) => w.(jobs := w.jobs - {token})
  }

  function Run(w: World, actions: seq<Action>): World {
    if actions == [] then w else Do(Run(w, actions[..|actions| - 1]), actions[|actions| - 1])
  }

  function Start(now: int): World {
    World(map[], now, None, map[], map[], map[])
  }

  // ----- budgets

  function PageTicks(page: Option<nat>): nat {
    if page.None? then 0 else if page.value <= 1 then 2 else 1
  }

  /** Successful ticks a job can still spend before it is complete. */
  function TicksLeft(kind: Kind, payload: Option<Payload>): nat {
    if kind == Person then 1
    else if payload.None? || payload.value.complete then 2
    else Max(PageTicks(payload.value.moviePage), PageTicks(payload.value.seriesPage))
  }

  /** Failures in a row that still leave the job pending. */
  function FailuresLeft(attempts: nat): nat {
    if attempts >= 4 then 0 else 4 - attempts
  }

  predicate PayloadOk(kind: Kind, payload: Payload) {
    && (payload.complete <==> payload.moviePage.None? && payload.seriesPage.None?)
    && (kind == Person ==> payload.complete)
    && (payload.moviePage.Some? ==> payload.moviePage.value == 2)
    && (payload.seriesPage.Some? ==> payload.seriesPage.value == 2)
  }

  ghost predicate RowOk(w: World, k: Key)
    requires k in w.rows
  {
    var row := w.rows[k];
    && (row.leaseToken.Some? ==> Pending(row))
    && (row.payload.Some? ==> PayloadOk(k.kind, row.payload.value))
    && CountOf(w.spent, k) <= 2
    && (Pending(row) ==>
          && CountOf(w.spent, k) + TicksLeft(k.kind, row.payload) <= 2
          && CountOf(w.tries, k) + 5 * TicksLeft(k.kind, row.payload) + FailuresLeft(row.attempts) <= 14)
    && CountOf(w.tries, k) <= 15
  }

  /** A worker that still holds the lease works from what the row contains. */
  ghost predicate JobOk(w: World, token: nat)
    requires token in w.jobs
  {
    Fenced(w, token) ==>
      && w.jobs[token].payload == w.rows[w.jobs[token].key].payload
      && w.jobs[token].attempts == w.rows[w.jobs[token].key].attempts
  }

  ghost predicate Sound(w: World) {
    && |PendingKeys(w.rows)| <= MAX_PENDING
    && (w.admission.Some? ==> |PendingKeys(w.rows)| + |w.admission.value.due| <= MAX_PENDING)
    && (forall k :: k in w.rows ==> RowOk(w, k))
    && (forall token :: token in w.jobs ==> JobOk(w, token))
  }

  lemma SuccessSpendsATick(k: Key, row: Row, movies: Reply, series: Reply, now: int)
    requires row.payload.Some? ==> PayloadOk(k.kind, row.payload.value)
    ensures var row' := SucceedRow(row, LoadEvidence(k.kind, row.payload, movies, series), now);
            && PayloadOk(k.kind, row'.payload.value)
            && (Pending(row') ==> TicksLeft(k.kind, row'.payload) < TicksLeft(k.kind, row.payload))
  {}

  lemma FailureSpendsATry(row: Row, now: int)
    ensures var row' := FailRow(row, row.attempts, now);
            Pending(row') ==> FailuresLeft(row'.attempts) < FailuresLeft(row.attempts)
  {}

  lemma FewKeys(keys: seq<Key>)
    ensures |KeySet(keys)| <= |keys|
  {
    if keys != [] {
      FewKeys(keys[..|keys| - 1]);
      assert KeySet(keys) == KeySet(keys[..|keys| - 1]) + {keys[|keys| - 1]};
    }
  }

  lemma SmallerSet<T>(a: set<T>, b: set<T>)
    requires a <= b
    ensures |a| <= |b|
  {
    if a != {} {
      var x :| x in a;
      SmallerSet(a - {x}, b - {x});
    }
  }

  lemma CountKeepsSound(w: World, due: seq<Key>)
    requires Sound(w)
    ensures Sound(Do(w, Count(due)))
  {
    if w.admission.None? {
      FewKeys(due[..Min(Free(w.rows), |due|)]);
    }
  }

  lemma InsertPending(rows: Table, due: set<Key>, current: int)
    ensures PendingKeys(AdmitRows(rows, due, current)) <= PendingKeys(rows) + due
    ensures forall k :: k in rows ==> k in AdmitRows(rows, due, current)
  {}

  /** Admission touches only the schedule of a row. */
  lemma AdmittedRow(rows: Table, k: Key, current: int)
    ensures var row := AdmitRow(rows, k, current);
            if k in rows then row == rows[k].(nextAttempt := row.nextAttempt) && (Pending(rows[k]) ==> Pending(row))
            else row == Row(None, 0, Some(current), None, None, None)
  {}

  lemma AdmittedTable(rows: Table, due: set<Key>, current: int, k: Key)
    requires k in AdmitRows(rows, due, current)
    ensures k in due || k in rows
    ensures AdmitRows(rows, due, current)[k] == if k in due then AdmitRow(rows, k, current) else rows[k]
  {}

  lemma ResetCount(counts: map<Key, nat>, keys: set<Key>, k: Key)
    ensures CountOf(Reset(counts, keys), k) == if k in keys then 0 else CountOf(counts, k)
  {}

  lemma InsertRow(w: World, k: Key)
    requires Sound(w) && w.admission.Some? && k in Do(w, Insert).rows
    ensures RowOk(Do(w, Insert), k)
  {
    hide AdmitRow, AdmitRows, Reset, CountOf;
    var w' := Do(w, Insert);
    AdmittedTable(w.rows, w.admission.value.due, w.admission.value.current, k);
    AdmittedRow(w.rows, k, w.admission.value.current);
    ResetCount(w.spent, Woken(w.rows, w'.rows), k);
    ResetCount(w.tries, Woken(w.rows, w'.rows), k);
    if k in w.rows {
      assert RowOk(w, k);
    }
  }

  lemma InsertKeepsSound(w: World)
    requires Sound(w) && w.admission.Some?
    ensures Sound(Do(w, Insert))
  {
    hide AdmitRow, AdmitRows, RowOk, Reset, Woken, PendingKeys;
    var w' := Do(w, Insert);
    var due, current := w.admission.value.due, w.admission.value.current;
    InsertPending(w.rows, due, current);
    SmallerSet(PendingKeys(w'.rows), PendingKeys(w.rows) + due);
    forall k | k in w'.rows
      ensures RowOk(w', k)
    {
      InsertRow(w, k);
    }
    forall token | token in w'.jobs
      ensures JobOk(w', token)
    {
      assert JobOk(w, token);
      var k := w.jobs[token].key;
      AdmittedRow(w.rows, k, current);
      if k in w'.rows {
        AdmittedTable(w.rows, due, current, k);
      }
    }
  }

  lemma ClaimKeepsSound(w: World, k: Key, token: nat)
    requires Sound(w) && token !in w.jobs && Claimable(w.rows, k, w.now)
    requires forall x :: x in w.rows ==> w.rows[x].leaseToken != Some(token)
    ensures Sound(Do(w, Claim(k, token)))
  {
    var w' := Do(w, Claim(k, token));
    assert PendingKeys(w'.rows) == PendingKeys(w.rows);
    forall x | x in w'.rows
      ensures RowOk(w', x)
    {
      assert RowOk(w, x);
    }
    forall t | t in w'.jobs
      ensures JobOk(w', t)
    {
      if t != token {
        assert JobOk(w, t);
      }
    }
  }

  /** A fenced completion's new row stays within the budgets. */
  ghost predicate WithinBudget(w: World, token: nat, row: Row, success: bool)
    requires Fenced(w, token)
  {
    var k := w.jobs[token].key;
    var was := w.rows[k];
    && row.leaseToken.None?
    && (row.payload.Some? ==> PayloadOk(k.kind, row.payload.value))
    && (Pending(row) ==>
          && TicksLeft(k.kind, row.payload) + (if success then 1 else 0) <= TicksLeft(k.kind, was.payload)
          && 5 * TicksLeft(k.kind, row.payload) + FailuresLeft(row.attempts) + 1
             <= 5 * TicksLeft(k.kind, was.payload) + FailuresLeft(was.attempts))
    && (success ==> TicksLeft(k.kind, was.payload) >= 1)
  }

  lemma FinishedRowOk(w: World, token: nat, row: Row, success: bool)
    requires Sound(w) && Fenced(w, token) && WithinBudget(w, token, row, success)
    ensures RowOk(Finish(w, token, row, success), w.jobs[token].key)
  {
    hide TicksLeft, FailuresLeft, PayloadOk;
    assert RowOk(w, w.jobs[token].key);
  }

  lemma FinishKeepsSound(w: World, token: nat, row: Row, success: bool)
    requires Sound(w) && Fenced(w, token) && WithinBudget(w, token, row, success)
    ensures Sound(Finish(w, token, row, success))
  {
    hide TicksLeft, FailuresLeft, PayloadOk;
    var k := w.jobs[token].key;
    var w' := Finish(w, token, row, success);
    assert RowOk(w, k);
    assert PendingKeys(w'.rows) <= PendingKeys(w.rows);
    SmallerSet(PendingKeys(w'.rows), PendingKeys(w.rows));
    FinishedRowOk(w, token, row, success);
    forall x | x in w'.rows && x != k
      ensures RowOk(w', x)
    {
      assert RowOk(w, x);
    }
    forall t | t in w'.jobs
      ensures JobOk(w', t)
    {
      assert JobOk(w, t);
    }
  }

  /** Dropping a worker's job changes nothing else. */
  lemma DropKeepsSound(w: World, token: nat)
    requires Sound(w)
    ensures Sound(w.(jobs := w.jobs - {token}))
  {
    var w' := w.(jobs := w.jobs - {token});
    forall k | k in w'.rows
      ensures RowOk(w', k)
    {
      assert RowOk(w, k);
    }
    forall t | t in w'.jobs
      ensures JobOk(w', t)
    {
      assert JobOk(w, t);
    }
  }

  lemma SomeTickLeft(kind: Kind, payload: Option<Payload>)
    requires payload.Some? ==> PayloadOk(kind, payload.value)
    ensures TicksLeft(kind, payload) >= 1
  {}

  /** Every fenced completion that leaves the job pending lowers (ticks left, failures left) lexicographically. */
  lemma CompletionDescends(w: World, a: Action, token: nat)
    requires Sound(w) && Fenced(w, token)
    requires a == Fail(token) || (a.Succeed? && a.token == token)
    ensures var k := w.jobs[token].key;
            var was, row := w.rows[k], Do(w, a).rows[k];
            Pending(row) ==>
              || TicksLeft(k.kind, row.payload) < TicksLeft(k.kind, was.payload)
              || (row.payload == was.payload && FailuresLeft(row.attempts) < FailuresLeft(was.attempts))
    ensures Sound(Do(w, a))
  {
    hide Sound, Finish, LoadEvidence, FailRow;
    var k := w.jobs[token].key;
    JobFacts(w, token);
    SomeTickLeft(k.kind, w.rows[k].payload);
    if a.Fail? {
      FailureSpendsATry(w.rows[k], w.now);
      FailureKeepsPayload(w.rows[k], w.now);
      FinishKeepsSound(w, token, FailRow(w.rows[k], w.rows[k].attempts, w.now), false);
      FinishRow(w, token, FailRow(w.rows[k], w.rows[k].attempts, w.now), false);
    } else {
      var row := SucceedRow(w.rows[k], LoadEvidence(k.kind, w.rows[k].payload, a.movies, a.series), w.now);
      SuccessSpendsATick(k, w.rows[k], a.movies, a.series, w.now);
      FinishKeepsSound(w, token, row, true);
      FinishRow(w, token, row, true);
    }
  }

  lemma FailureKeepsPayload(row: Row, now: int)
    ensures var row' := FailRow(row, row.attempts, now); row'.payload == row.payload && row'.leaseToken.None?
  {}

  lemma FinishRow(w: World, token: nat, row: Row, success: bool)
    requires Fenced(w, token)
    ensures w.jobs[token].key in Finish(w, token, row, success).rows
    ensures Finish(w, token, row, success).rows[w.jobs[token].key] == row
  {}

  lemma JobFacts(w: World, token: nat)
    requires Sound(w) && Fenced(w, token)
    ensures var k := w.jobs[token].key;
            && w.jobs[token].payload == w.rows[k].payload && w.jobs[token].attempts == w.rows[k].attempts
            && (w.rows[k].payload.Some? ==> PayloadOk(k.kind, w.rows[k].payload.value))
  {
    assert JobOk(w, token);
    assert RowOk(w, w.jobs[token].key);
  }

  lemma StepKeepsSound(w: World, a: Action)
    requires Sound(w)
    ensures Sound(Do(w, a))
  {
    hide Sound, Finish, LoadEvidence, FailRow;
    match a
    case Tick(seconds) => ClockKeepsSound(w, seconds);
    case Count(due) => CountKeepsSound(w, due);
    case Insert =>
      if w.admission.Some? {
        InsertKeepsSound(w);
      }
    case Abandon => AbandonKeepsSound(w);
    case Claim(k, token) =>
      if Do(w, a) != w {
        ClaimKeepsSound(w, k, token);
      }
    case Succeed(token, _, _) =>
      if Fenced(w, token) { CompletionDescends(w, a, token); } else { DropKeepsSound(w, token); }
    case Fail(token) =>
      if Fenced(w, token) { CompletionDescends(w, a, token); } else { DropKeepsSound(w, token); }
    case Lose(token) => DropKeepsSound(w, token);
  }

  lemma ClockKeepsSound(w: World, seconds: nat)
    requires Sound(w)
    ensures Sound(w.(now := w.now + seconds))
  {
    assert forall k :: k in w.rows ==> RowOk(w, k) == RowOk(w.(now := w.now + seconds), k);
    assert forall t :: t in w.jobs ==> JobOk(w, t) == JobOk(w.(now := w.now + seconds), t);
  }

  lemma AbandonKeepsSound(w: World)
    requires Sound(w)
    ensures Sound(w.(admission := None))
  {
    assert forall k :: k in w.rows ==> RowOk(w, k) == RowOk(w.(admission := None), k);
    assert forall t :: t in w.jobs ==> JobOk(w, t) == JobOk(w.(admission := None), t);
  }

  lemma {:induction false} EveryRunIsSound(now: int, actions: seq<Action>)
    ensures Sound(Run(Start(now), actions))
  {
    if actions != [] {
      EveryRunIsSound(now, actions[..|actions| - 1]);
      StepKeepsSound(Run(Start(now), actions[..|actions| - 1]), actions[|actions| - 1]);
    }
  }

  /**
   Main result: in every run the queue holds at most 256 pending jobs, a leased row is scheduled, and a job
   spends at most two successful ticks and fifteen completions in all between becoming pending and stopping.
   */
  lemma QueueStaysBounded(now: int, actions: seq<Action>)
    ensures var w := Run(Start(now), actions);
            && |PendingKeys(w.rows)| <= 256
            && forall k :: k in w.rows ==>
                 && (w.rows[k].leaseToken.Some? ==> Pending(w.rows[k]))
                 && CountOf(w.spent, k) <= 2 && CountOf(w.tries, k) <= 15
                 && (Pending(w.rows[k]) ==> CountOf(w.spent, k) <= 1 && CountOf(w.tries, k) <= 9 + 5)
  {
    hide Run;
    EveryRunIsSound(now, actions);
    var w := Run(Start(now), actions);
    forall k | k in w.rows
      ensures RowOk(w, k) && TicksLeft(k.kind, w.rows[k].payload) >= 1
    {
      assert RowOk(w, k);
      SomeTickLeft(k.kind, w.rows[k].payload);
    }
  }
}
