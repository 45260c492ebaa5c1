/** How cycles and their jobs end, over whole runs: which status a cycle takes, and which checkpoints its jobs keep. */
module AccountOutcome {
  import opened TextOrder
  import opened AccountCycle

  // ----- the status of a cycle

  ghost predicate HasChild(w: World, c: Id, s: Status) {
    exists k :: k in w.children && w.children[k].parent == c && w.children[k].status == s
  }

  /** The cycle's task ends with an error of its own. */
  ghost predicate Errs(w: World, a: Action, c: Id) {
    a == Finish(c, true) && c in w.cycles && c in w.runners
  }

  ghost predicate EndedWithError(actions: seq<Action>, c: Id) {
    actions != []
    && var before, a := actions[..|actions| - 1], actions[|actions| - 1];
       EndedWithError(before, c) || Errs(Run(START, before), a, c)
  }

  ghost predicate WasCancelled(w: World, c: Id)
    requires c in w.cycles
  {
    w.cycles[c].cancelRequested || HasChild(w, c, Cancelled)
  }

  /** Cancelled comes first, then failed; a completed cycle has completed jobs only. */
  ghost predicate RightStatus(w: World, c: Id, errored: bool)
    requires c in w.cycles
  {
    var s := w.cycles[c].status;
    && (s == Cancelled <==> WasCancelled(w, c))
    && (s == Failed <==> !WasCancelled(w, c) && (errored || HasChild(w, c, Failed)))
    && (s == Completed <==> !WasCancelled(w, c) && !errored && !HasChild(w, c, Failed))
    && (s == Completed ==>
          forall k :: k in w.children && w.children[k].parent == c ==> w.children[k].status == Completed)
  }

  lemma ChildOfCycle(w: World, c: Id, k: Id)
    requires Sound(w) && c in w.cycles && k in w.children
    ensures w.children[k].parent == c <==> k in w.cycles[c].children
  {
    hide Sound;
    ChildFacts(w, k);
    CycleParts(w, c);
  }

  /** The children right after the end: settled, and none else. */
  lemma EndedChildren(w: World, c: Id, errored: bool, s: Status)
    requires Sound(w) && c in w.cycles && c in w.runners
    ensures HasChild(Do(w, Finish(c, errored)), c, s) <==> SomeChild(w, c, s)
    ensures forall k :: k in Do(w, Finish(c, errored)).children && Do(w, Finish(c, errored)).children[k].parent == c ==>
      k in w.children && Do(w, Finish(c, errored)).children[k].status == Ended(w.children[k].status)
  {
    hide Sound, Do, Ended;
    var a := Finish(c, errored);
    var w' := Do(w, a);
    forall k | k in w'.children && w'.children[k].parent == c
      ensures k in w.children && w.children[k].parent == c && w'.children[k].status == Ended(w.children[k].status)
    {
      NoNewChild(w, a, c, k);
      ChildAfter(w, a, k);
      ChildOfCycle(w, c, k);
    }
    forall k | k in w.children && w.children[k].parent == c
      ensures k in w'.children && w'.children[k].parent == c && w'.children[k].status == Ended(w.children[k].status)
    {
      ChildAfter(w, a, k);
    }
    forall k | k in w.children
      ensures w.children[k].parent == c <==> k in w.cycles[c].children
    {
      ChildOfCycle(w, c, k);
    }
  }

  lemma FinishedRightly(w: World, c: Id, errored: bool)
    requires Sound(w) && c in w.cycles && c in w.runners
    ensures c in Do(w, Finish(c, errored)).cycles && RightStatus(Do(w, Finish(c, errored)), c, errored)
  {
    hide Sound, Do, SomeChild;
    var w' := Do(w, Finish(c, errored));
    CycleAfter(w, Finish(c, errored), c);
    EndedChildren(w, c, errored, Cancelled);
    EndedChildren(w, c, errored, Failed);
    forall k | k in w'.children && w'.children[k].parent == c
      ensures w'.children[k].status == Cancelled || w'.children[k].status == Failed
              || w'.children[k].status == Completed
    {}
  }

  /** Nothing happens any more to an ended cycle and its children. */
  lemma EndedStays(w: World, a: Action, c: Id)
    requires Sound(w) && c in w.cycles && !Active(w.cycles[c].status)
    ensures c in Do(w, a).cycles && !Errs(w, a, c)
    ensures Do(w, a).cycles[c].status == w.cycles[c].status && Do(w, a).cycles[c].aborted == w.cycles[c].aborted
    ensures Do(w, a).cycles[c].cancelRequested == w.cycles[c].cancelRequested
    ensures Do(w, a).cycles[c].reconciled == w.cycles[c].reconciled
    ensures forall k :: k in w.children && w.children[k].parent == c ==>
      k in Do(w, a).children && Do(w, a).children[k] == w.children[k]
    ensures forall k :: k in Do(w, a).children && Do(w, a).children[k].parent == c ==>
      k in w.children && w.children[k].parent == c
  {
    hide Sound, Do;
    StepPersists(w, a, c);
    NotRunning(w, c);
    forall k | k in w.children && w.children[k].parent == c
      ensures k in Do(w, a).children && Do(w, a).children[k] == w.children[k]
    {
      ChildFacts(w, k);
      ChildAfter(w, a, k);
    }
    forall k | k in Do(w, a).children && Do(w, a).children[k].parent == c
      ensures k in w.children && w.children[k].parent == c
    {
      NoNewChild(w, a, c, k);
    }
  }

  /** An active cycle that is ended by a step, other than by a restart, is ended by its own task. */
  lemma EndsByFinish(w: World, a: Action, c: Id)
    requires Sound(w) && c in w.cycles && Active(w.cycles[c].status)
    requires c in Do(w, a).cycles && !Active(Do(w, a).cycles[c].status) && !Do(w, a).cycles[c].aborted
    ensures a.Finish? && a.cycle == c && c in w.runners
  {
    hide Sound, Do, SomeChild;
    StateFacts(w, c);
    CycleAfter(w, a, c);
  }

  lemma {:induction false} ErrorEnds(actions: seq<Action>, c: Id)
    requires EndedWithError(actions, c)
    ensures var w := Run(START, actions); c in w.cycles && !Active(w.cycles[c].status)
  {
    hide Do, Sound;
    var before, a := actions[..|actions| - 1], actions[|actions| - 1];
    EveryRunIsSound(before);
    if EndedWithError(before, c) {
      ErrorEnds(before, c);
      EndedStays(Run(START, before), a, c);
    } else {
      CycleAfter(Run(START, before), a, c);
    }
  }

  /**
   However it came to its end, a cycle that no restart broke off is cancelled exactly when a cancellation was
   requested or one of its jobs was cancelled, failed exactly when it otherwise erred or one of its jobs failed, and
   else completed.
   */
  lemma {:induction false} CyclesEndRightly(actions: seq<Action>, c: Id)
    requires var w := Run(START, actions); c in w.cycles && !Active(w.cycles[c].status) && !w.cycles[c].aborted
    ensures RightStatus(Run(START, actions), c, EndedWithError(actions, c))
  {
    hide Do, Sound, RightStatus;
    var before, a := actions[..|actions| - 1], actions[|actions| - 1];
    var w := Run(START, before);
    EveryRunIsSound(before);
    NewCyclesAreActive(w, a, c);
    if !Active(w.cycles[c].status) {
      EndedStays(w, a, c);
      CyclesEndRightly(before, c);
      RightStatusStays(w, Do(w, a), c, EndedWithError(before, c));
    } else {
      EndsByFinish(w, a, c);
      FinishedRightly(w, c, a.errored);
      if EndedWithError(before, c) {
        ErrorEnds(before, c);
      }
    }
  }

  lemma RightStatusStays(w: World, w': World, c: Id, errored: bool)
    requires c in w.cycles && c in w'.cycles && RightStatus(w, c, errored)
    requires w'.cycles[c].status == w.cycles[c].status && w'.cycles[c].cancelRequested == w.cycles[c].cancelRequested
    requires forall k :: k in w.children && w.children[k].parent == c ==>
      k in w'.children && w'.children[k] == w.children[k]
    requires forall k :: k in w'.children && w'.children[k].parent == c ==>
      k in w.children && w.children[k].parent == c
    ensures RightStatus(w', c, errored)
  {
    assert forall s :: HasChild(w', c, s) <==> HasChild(w, c, s);
  }

  lemma NewCyclesAreActive(w: World, a: Action, c: Id)
    requires Sound(w) && c in Do(w, a).cycles && !Active(Do(w, a).cycles[c].status)
    ensures c in w.cycles
  {
    hide Sound, Idle, SomeChild, Settle, EndState, AbortCycle, CancelChild, Advance, Enqueue, Serve;
    match a {
      case Queue(u, targets, _) => NewCycleIsActive(w, u, targets, false);
      case Request(u, targets, _) => NewCycleIsActive(w, u, targets, true);
      case Retry(u, targets, _) =>
        NewCycleIsActive(w, u, targets, true);
        ServeFrame(w, u, targets);
      case _ =>
    }
  }

  lemma NewCycleIsActive(w: World, u: User, targets: nat, automatic: bool)
    requires Sound(w)
    ensures var w' := Enqueue(w, u, targets, automatic);
            forall c :: c in w'.cycles && c !in w.cycles ==> Active(w'.cycles[c].status)
  {
    hide Sound;
  }

  // ----- the checkpoint of a job

  ghost predicate ReportsJob(w: World, a: Action, k: Id) {
    a == Provider(k, Unchanged) && Collects(w, k) && w.children[k].status == Pending
  }

  ghost predicate HoldsJob(w: World, a: Action, k: Id) {
    a == Provider(k, SaveCheckpoint) && Collects(w, k) && w.children[k].status == Completed
  }

  ghost predicate Collects(w: World, k: Id) {
    k in w.children && RunnerOf(w, w.children[k].parent) == Some(Collecting)
  }

  /** Its provider reported no change while the job was pending. */
  ghost predicate ReportedJob(actions: seq<Action>, k: Id) {
    actions != []
    && var before, a := actions[..|actions| - 1], actions[|actions| - 1];
       ReportedJob(before, k) || ReportsJob(Run(START, before), a, k)
  }

  /** Its import was complete, and the checkpoint left with the cycle. */
  ghost predicate HeldJob(actions: seq<Action>, k: Id) {
    actions != []
    && var before, a := actions[..|actions| - 1], actions[|actions| - 1];
       HeldJob(before, k) || HoldsJob(Run(START, before), a, k)
  }

  /** While the cycle is active, and when a restart broke it off, checkpoint and held say just that. */
  ghost predicate Pristine(w: World, k: Id, reported: bool, held: bool) {
    k in w.children && w.children[k].checkpoint == reported && w.children[k].held == held
  }

  /** After its end: a held checkpoint is promoted by a reconciled cycle, and one that failed before leaves none. */
  ghost predicate Promoted(w: World, k: Id, reported: bool, held: bool, failed: bool) {
    && k in w.children && w.children[k].parent in w.cycles && !w.children[k].held
    && var reconciled := w.cycles[w.children[k].parent].reconciled;
       w.children[k].checkpoint == ((reported || (held && reconciled)) && (reconciled || !failed))
  }

  lemma JobStep(w: World, a: Action, k: Id)
    requires Sound(w) && k in w.children && Active(w.cycles[w.children[k].parent].status)
    ensures var c, w' := w.children[k].parent, Do(w, a);
            && c in w'.cycles && k in w'.children && w'.children[k].parent == c
            && (Active(w'.cycles[c].status) || w'.cycles[c].aborted ==>
                  && w'.children[k].checkpoint == (w.children[k].checkpoint || ReportsJob(w, a, k))
                  && w'.children[k].held == (w.children[k].held || HoldsJob(w, a, k)))
            && (!Active(w'.cycles[c].status) && !w'.cycles[c].aborted ==>
                  && a.Finish? && a.cycle == c && !ReportsJob(w, a, k) && !HoldsJob(w, a, k)
                  && Promoted(w', k, w.children[k].checkpoint, w.children[k].held, Fails(w, a, c)))
            && (a.Finish? && a.cycle == c && c in w.runners ==> !Active(w'.cycles[c].status))
  {
    hide Sound, Do, SomeChild;
    var c := w.children[k].parent;
    ChildFacts(w, k);
    StateFacts(w, c);
    CycleAfter(w, a, c);
    ChildAfter(w, a, k);
  }

  lemma QuietAfterEnd(w: World, a: Action, k: Id)
    requires Sound(w) && k in w.children && w.children[k].parent in w.cycles
    requires !Active(w.cycles[w.children[k].parent].status)
    ensures !ReportsJob(w, a, k) && !HoldsJob(w, a, k) && !Fails(w, a, w.children[k].parent)
  {
    hide Sound, Do;
    NotRunning(w, w.children[k].parent);
  }

  lemma NewJob(w: World, a: Action, k: Id)
    requires Sound(w) && k !in w.children && k in Do(w, a).children
    ensures var w' := Do(w, a);
            && w'.children[k].parent in w'.cycles && Active(w'.cycles[w'.children[k].parent].status)
            && !w'.children[k].checkpoint && !w'.children[k].held
  {
    hide Sound, Idle, SomeChild, Settle, EndState, AbortCycle, CancelChild, Advance, Enqueue, Serve, Owed;
    match a {
      case Queue(u, targets, _) => FreshJobs(w, u, targets, false);
      case Request(u, targets, _) => FreshJobs(w, u, targets, true);
      case Retry(u, targets, _) =>
        FreshJobs(w, u, targets, true);
        EnqueueFrame(w, u, targets, true);
        ServeFrame(w, u, targets);
      case _ =>
    }
  }

  lemma FreshJobs(w: World, u: User, targets: nat, automatic: bool)
    requires Sound(w)
    ensures var w' := Enqueue(w, u, targets, automatic);
            forall k :: k in w'.children && k !in w.children ==>
              && w'.children[k] == Child(u, w.nextId, Pending, false, false)
              && w.nextId in w'.cycles && Active(w'.cycles[w.nextId].status)
  {
    hide Sound;
  }

  lemma {:induction false} NoJobYet(actions: seq<Action>, k: Id)
    requires k !in Run(START, actions).children
    ensures !ReportedJob(actions, k) && !HeldJob(actions, k)
  {
    hide Do, Sound;
    if actions != [] {
      var before, a := actions[..|actions| - 1], actions[|actions| - 1];
      EveryRunIsSound(before);
      if k in Run(START, before).children {
        ChildAfter(Run(START, before), a, k);
      }
      NoJobYet(before, k);
    }
  }

  /**
   Over any run: while its cycle is active, or once a restart broke it off, a job has a checkpoint exactly when its
   provider reported no change, and a held one exactly when its import was complete. At the end of the cycle a held
   checkpoint becomes the job's exactly when the cycle reconciled, and a cycle that failed without reconciling leaves
   none.
   */
  lemma {:induction false} JobCheckpoints(actions: seq<Action>, k: Id)
    requires k in Run(START, actions).children
    ensures var w := Run(START, actions);
            var c := w.children[k].parent;
            && c in w.cycles
            && (if Active(w.cycles[c].status) || w.cycles[c].aborted
                then Pristine(w, k, ReportedJob(actions, k), HeldJob(actions, k))
                else Promoted(w, k, ReportedJob(actions, k), HeldJob(actions, k), FailedByItself(actions, c)))
  {
    hide Do, Sound, Fails, ReportsJob, HoldsJob;
    var before, a := actions[..|actions| - 1], actions[|actions| - 1];
    var w, w' := Run(START, before), Run(START, actions);
    EveryRunIsSound(before);
    EveryRunIsSound(actions);
    ChildFacts(w', k);
    if k !in w.children {
      NewJob(w, a, k);
      NoJobYet(before, k);
      NotReported(w, a, k);
    } else {
      var c := w.children[k].parent;
      ChildFacts(w, k);
      JobCheckpoints(before, k);
      if Active(w.cycles[c].status) {
        JobStep(w, a, k);
        if FailedByItself(before, c) {
          EndedForGood(before, c);
        }
        FailsOnlyThere(w, a, c);
      } else {
        EndedStays(w, a, c);
        QuietAfterEnd(w, a, k);
      }
    }
  }

  lemma NotReported(w: World, a: Action, k: Id)
    requires k !in w.children
    ensures !ReportsJob(w, a, k) && !HoldsJob(w, a, k)
  {}

  lemma FailsOnlyThere(w: World, a: Action, c: Id)
    ensures Fails(w, a, c) ==> a.Finish? && a.cycle == c && c in w.runners
  {}

  // ----- the status of a job

  /** What a step makes of a job's status. */
  ghost function StatusAfter(w: World, a: Action, k: Id): Status
    requires k in w.children && w.children[k].parent in w.cycles
  {
    var s, c := w.children[k].status, w.children[k].parent;
    var collecting := RunnerOf(w, c) == Some(Collecting);
    match a
    case Provider(j, step) =>
      if j != k || !collecting then s
      else if step.Import? then step.status
      else if step == Raised then (if s == Pending || s == Running then Failed else s)
      else if step == SaveCheckpoint || s != Pending then s
      else if step == Reject then Failed
      else Completed
    case Cancel(d) =>
      if d == c && (s == Pending || s == Running) && !w.cycles[c].reconciling
         && (w.cycles[c].status == Pending || w.cycles[c].status == Running)
      then Cancelled else s
    case Finish(d, _) => if d == c && c in w.runners && (s == Pending || s == Running) then Failed else s
    case Restart => if s == Pending || s == Running then Failed else s
    case _ => s
  }

  /**
   A job fails when it is rejected, raises, or is still open when its cycle ends or the server restarts; it completes
   when nothing is to be done; its import decides otherwise, and a cancellation takes every open job of its cycle.
   */
  lemma JobStatusStep(w: World, a: Action, k: Id)
    requires Sound(w) && k in w.children
    ensures w.children[k].parent in w.cycles && k in Do(w, a).children
    ensures Do(w, a).children[k].status == StatusAfter(w, a, k)
  {
    hide Sound, Do, SomeChild;
    ChildFacts(w, k);
    ChildAfter(w, a, k);
  }

  /** A queued cycle is pending, with the asked number of pending jobs of the same user. */
  lemma QueuedCycle(w: World, u: User, targets: nat, i: nat)
    requires Sound(w) && Idle(w, u) && i < targets
    ensures var w', c := Do(w, Queue(u, targets, false)), w.nextId;
            && c !in w.cycles && c in w'.cycles && w'.cycles[c].user == u && w'.cycles[c].status == Pending
            && |w'.cycles[c].children| == targets
            && var k := w'.cycles[c].children[i];
               k !in w.children && k in w'.children && w'.children[k] == Child(u, c, Pending, false, false)
  {
    hide Idle, CycleOk;
    EnqueueFrame(w, u, targets, false);
    assert forall k :: k in w.children ==> ChildOk(w, k) && k < w.nextId;
    assert ChildIds(w.nextId, targets)[i] in NewIds(w.nextId, targets);
  }
}
