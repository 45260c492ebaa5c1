/** The job table: each method is one transaction of the pull cycle, step by step as the workers do it. */
module AccountJobs {
  import opened TextOrder
  import opened AccountCycle

  /** What a provider worker finds before it imports. */
  datatype Check = NoConnection | Unconfirmed | Onboarding | Same | Changed

  /** The job exists and its cycle's task is collecting provider results. */
  predicate Collected(w: World, k: Id) {
    k in w.children && w.children[k].parent in w.runners && w.runners[w.children[k].parent] == Collecting
  }

  /** UPDATE ... WHERE id IN (ids). */
  function Updated(children: map<Id, Child>, ids: seq<Id>, f: Child -> Child): map<Id, Child> {
    map k | k in children :: if k in ids then f(children[k]) else children[k]
  }

  lemma TheLiveCycle(w: World, u: User, c: Id)
    requires Sound(w) && Live(w, u, c)
    ensures WithFollowup(w, u) == w.(cycles := w.cycles[c := w.cycles[c].(followup := true)])
  {
    hide CycleOk, ChildOk;
    assert forall d :: Live(w, u, d) ==> d == c;
  }

  function Fail(child: Child): Child {
    child.(status := Ended(child.status))
  }

  /** Moves a held checkpoint into place when the cycle reconciled, drops it otherwise. */
  function Release(child: Child, reconciled: bool): Child {
    if child.held then child.(held := false, checkpoint := child.checkpoint || reconciled) else child
  }

  function Strip(child: Child): Child {
    child.(checkpoint := false)
  }

  lemma FailTwice()
    ensures forall child :: Fail(Fail(child)) == Fail(child)
  {}

  lemma SettledInSteps(child: Child, reconciled: bool, failed: bool)
    ensures Settle(child, reconciled, failed)
         == if failed && !reconciled then Strip(Release(Fail(child), reconciled)) else Release(Fail(child), reconciled)
  {}

  lemma EndedChildren(w: World, c: Id, failed: bool)
    requires c in w.cycles && c in w.runners
    ensures var ids, reconciled := w.cycles[c].children, w.runners[c] == Reconciled;
            var released := Updated(Updated(w.children, ids, Fail), ids, (child: Child) => Release(child, reconciled));
            (map k | k in w.children :: if k in ids then Settle(w.children[k], reconciled, failed) else w.children[k])
            == if failed && !reconciled then Updated(released, ids, Strip) else released
  {
    forall k | k in w.children
      ensures Settle(w.children[k], w.runners[c] == Reconciled, failed)
           == if failed && w.runners[c] != Reconciled
              then Strip(Release(Fail(w.children[k]), w.runners[c] == Reconciled))
              else Release(Fail(w.children[k]), w.runners[c] == Reconciled)
    {
      SettledInSteps(w.children[k], w.runners[c] == Reconciled, failed);
    }
  }

  lemma SomeFailed(w: World, c: Id, s: Status)
    requires c in w.cycles
    ensures SomeChild(w, c, s)
       <==> exists k :: k in Updated(w.children, w.cycles[c].children, Fail) && k in w.cycles[c].children
                        && Updated(w.children, w.cycles[c].children, Fail)[k].status == s
  {
    var after := Updated(w.children, w.cycles[c].children, Fail);
    assert forall k :: k in w.children && k in w.cycles[c].children ==> after[k].status == Ended(w.children[k].status);
  }

  class JobTable {
    var cycles: map<Id, Cycle>
    var children: map<Id, Child>
    var runners: map<Id, Runner>
    var nextId: Id

    constructor ()
      ensures State() == START
    {
      cycles, children, runners, nextId := map[], map[], map[], 0;
    }

    function State(): World
      reads this
    {
      World(cycles, children, runners, nextId)
    }

    method UpdateChildren(ids: seq<Id>, f: Child -> Child)
      requires forall x :: f(f(x)) == f(x)
      modifies this`children
      ensures children == Updated(old(children), ids, f)
    {
      ghost var before := children;
      for i := 0 to |ids|
        invariant children == Updated(before, ids[..i], f)
      {
        assert ids[..i + 1] == ids[..i] + [ids[i]];
        if ids[i] in children {
          children := children[ids[i] := f(children[ids[i]])];
        }
      }
      assert ids[..|ids|] == ids;
    }

    /** Queues a parent and one child per target, or reports that the account is not idle or has no target. */
    method QueueAccountPull(u: User, targets: nat, busyElsewhere: bool, automatic: bool) returns (job: Option<Id>)
      requires Sound(State())
      modifies this
      ensures job == if CanQueue(old(State()), u, targets, busyElsewhere) then Some(old(nextId)) else None
      ensures State() == if job.Some? then Enqueue(old(State()), u, targets, automatic) else old(State())
    {
      if busyElsewhere || targets == 0 || !Idle(State(), u) {
        return None;
      }
      ChildIdsBelow(State());
      job := Some(nextId);
      AddCycle(u, targets, automatic);
    }

    method AddCycle(u: User, targets: nat, automatic: bool)
      requires forall k :: k in children ==> k < nextId
      modifies this
      ensures State() == Enqueue(old(State()), u, targets, automatic)
    {
      hide NewIds, Added;
      var parent := nextId;
      var ids: seq<Id> := [];
      ghost var before := children;
      AddedNone(before, u, parent);
      AddedIsEnqueued(State(), u, targets, automatic);
      nextId := nextId + 1;
      while |ids| < targets
        invariant |ids| <= targets && ids == ChildIds(parent, |ids|) && nextId == parent + 1 + |ids|
        invariant children == Added(before, u, parent, |ids|)
        invariant cycles == old(cycles) && runners == old(runners)
      {
        AddedNext(before, u, parent, |ids|);
        children := children[nextId := Child(u, parent, Pending, false, false)];
        ids := ids + [nextId];
        nextId := nextId + 1;
      }
      cycles := cycles[parent := Cycle(u, Pending, ids, automatic, false, false, false, false, false, None)];
    }

    method RequestAutomaticPull(u: User, targets: nat, busyElsewhere: bool) returns (job: Option<Id>)
      requires Sound(State())
      modifies this
      ensures State() == Do(old(State()), Request(u, targets, busyElsewhere))
      ensures job.Some? <==> nextId != old(nextId)
    {
      if c :| c in cycles && cycles[c].user == u && Active(cycles[c].status) {
        TheLiveCycle(State(), u, c);
        cycles := cycles[c := cycles[c].(followup := true)];
        job := None;
      } else {
        job := QueueAccountPull(u, targets, busyElsewhere, true);
      }
    }

    method MarkRunning(c: Id) returns (started: bool)
      modifies this
      ensures State() == Do(old(State()), Begin(c))
    {
      started := c in cycles && cycles[c].status == Pending;
      if started {
        cycles := cycles[c := cycles[c].(status := Running)];
        runners := runners[c := Collecting];
      }
    }

    /** Closes the cancellation window unless a cancel was accepted first. */
    method CloseWindow(c: Id)
      modifies this
      ensures State() == Do(old(State()), AccountCycle.CloseWindow(c))
    {
      if c in cycles && c in runners && runners[c] == Collecting {
        if cycles[c].cancelRequested {
          assert cycles == cycles[c := cycles[c]];
          runners := runners[c := SawCancel];
        } else {
          cycles := cycles[c := cycles[c].(reconciling := true)];
          runners := runners[c := Reconciling(cycles[c])];
        }
      }
    }

    method RequestCycleCancel(c: Id) returns (accepted: bool)
      requires c in cycles
      modifies this
      ensures accepted <==> CanCancel(old(cycles)[c])
      ensures State() == Do(old(State()), Cancel(c))
    {
      if cycles[c].reconciling || !Active(cycles[c].status) {
        return false;
      }
      UpdateChildren(cycles[c].children, (child: Child) => CancelChild(child));
      cycles := cycles[c := cycles[c].(cancelRequested := true)];
      accepted := true;
    }

    method AnyWithStatus(ids: seq<Id>, s: Status) returns (found: bool)
      ensures found <==> exists k :: k in children && k in ids && children[k].status == s
    {
      found := false;
      for i := 0 to |ids|
        invariant found <==> exists k :: k in children && k in ids[..i] && children[k].status == s
      {
        assert ids[..i + 1] == ids[..i] + [ids[i]];
        if ids[i] in children && children[ids[i]].status == s {
          found := true;
        }
      }
      assert ids[..|ids|] == ids;
    }

    /** Fails what is still active, reads the outcome, then moves or drops the checkpoints. */
    method SettleChildren(c: Id, errored: bool) returns (cancelled: bool, failed: bool)
      requires c in cycles && c in runners
      modifies this`children
      ensures cancelled == (cycles[c].cancelRequested || SomeChild(old(State()), c, Cancelled))
      ensures failed == (errored || SomeChild(old(State()), c, Failed))
      ensures children == map k | k in old(children) ::
        if k in cycles[c].children then Settle(old(children)[k], runners[c] == Reconciled, failed) else old(children)[k]
    {
      hide Settle, SomeChild, Ended;
      ghost var before := State();
      var ids, reconciled := cycles[c].children, runners[c] == Reconciled;
      FailTwice();
      UpdateChildren(ids, Fail);
      var cancelledChild := AnyWithStatus(ids, Cancelled);
      var failedChild := AnyWithStatus(ids, Failed);
      SomeFailed(before, c, Cancelled);
      SomeFailed(before, c, Failed);
      cancelled, failed := cycles[c].cancelRequested || cancelledChild, errored || failedChild;
      EndedChildren(before, c, failed);
      UpdateChildren(ids, (child: Child) => Release(child, reconciled));
      if failed && !reconciled {
        UpdateChildren(ids, Strip);
      }
    }

    /** The final block of a cycle; returns whether a follow-up is to be served next. */
    method FinishCycle(c: Id, errored: bool) returns (followup: bool)
      requires c in cycles && c in runners
      modifies this
      ensures State() == Do(old(State()), Finish(c, errored))
      ensures followup == cycles[c].followup
    {
      hide Settle, SomeChild, Ended, Do;
      FinishInParts(State(), c, errored);
      var cancelled, failed := SettleChildren(c, errored);
      followup := cycles[c].followup && !cancelled;
      cycles := cycles[c := cycles[c].(status := if cancelled then Cancelled else if failed then Failed else Completed,
                                       followup := followup)];
      runners := runners - {c};
    }

    /** Start-up: nothing survives a restart as active. */
    method AbortActive()
      modifies this
      ensures State() == Do(old(State()), Restart)
    {
      cycles := map c | c in cycles ::
        if Active(cycles[c].status) then cycles[c].(status := Failed, aborted := true) else cycles[c];
      children := map k | k in children ::
        if Active(children[k].status) then children[k].(status := Failed) else children[k];
      runners := map[];
    }

    /** What the provider check of a job found. */
    method Inspect(k: Id, found: Check) returns (goOn: bool)
      requires Collected(State(), k)
      modifies this`children
      ensures State() == match found
                         case NoConnection => Do(old(State()), Provider(k, Reject))
                         case Unconfirmed => Do(old(State()), Provider(k, Reject))
                         case Onboarding => Do(old(State()), Provider(k, ImportPending))
                         case Same => Do(old(State()), Provider(k, Unchanged))
                         case Changed => old(State())
      ensures goOn <==> old(children)[k].status == Pending && found == Changed
    {
      assert children[k := children[k]] == children;
      goOn := false;
      if children[k].status != Pending {
        return;
      }
      match found {
        case NoConnection => children := children[k := children[k].(status := Failed)];
        case Unconfirmed => children := children[k := children[k].(status := Failed)];
        case Onboarding => children := children[k := children[k].(status := Completed)];
        case Same => children := children[k := children[k].(status := Completed, checkpoint := true)];
        case Changed => goOn := true;
      }
    }

    /** The provider's import raised: a job that is still active fails, one that was cancelled stays so. */
    method ImportRaised(k: Id)
      requires Collected(State(), k)
      modifies this`children
      ensures State() == Do(old(State()), Provider(k, Raised))
    {
      assert children[k := children[k]] == children;
      if Active(children[k].status) {
        children := children[k := children[k].(status := Failed)];
      }
    }

    /** A complete import leaves its checkpoint with the cycle until that has reconciled. */
    method HoldCheckpoint(k: Id, complete: bool)
      requires Collected(State(), k)
      modifies this`children
      ensures State() == if complete then Do(old(State()), Provider(k, SaveCheckpoint)) else old(State())
    {
      assert children[k := children[k]] == children;
      if complete && children[k].status == Completed {
        children := children[k := children[k].(held := true)];
      }
    }

    /** Reconciliation commits with the job row as it was read when the window closed: later changes to its stats go. */
    method MarkReconciled(c: Id)
      requires c in cycles && c in runners && runners[c].Reconciling?
      modifies this
      ensures State() == Do(old(State()), Finalize(c))
    {
      var read := runners[c].read;
      cycles := cycles[c := read.(user := cycles[c].user, status := cycles[c].status, aborted := cycles[c].aborted,
                                  reconciled := true)];
      runners := runners[c := Reconciled];
    }

    /** Consumes the owed requests of a user and queues their cycle in one commit. */
    method RetryAutomaticPulls(u: User, targets: nat, busyElsewhere: bool)
      requires Sound(State())
      modifies this
      ensures State() == Do(old(State()), Retry(u, targets, busyElsewhere))
    {
      hide Sound, Idle, NewIds;
      var requests := set c | c in cycles && OwedTo(State(), u, c);
      if busyElsewhere || targets == 0 || requests == {} || !Idle(State(), u) {
        assert requests != {} ==> exists c :: c in requests;
        assert forall c :: c in cycles && OwedTo(State(), u, c) ==> c in requests;
        return;
      }
      ghost var before := State();
      ChildIdsBelow(before);
      var job := nextId;
      ghost var c0 :| c0 in requests;
      Stamp(requests, job);
      assert State() == before.(cycles := map c | c in before.cycles ::
        if OwedTo(before, u, c) then before.cycles[c].(followup := false, recovery := Some(before.nextId))
        else before.cycles[c]);
      AddCycle(u, targets, true);
    }

    method Stamp(requests: set<Id>, job: Id)
      requires requests <= cycles.Keys
      modifies this`cycles
      ensures cycles == map c | c in old(cycles) ::
        if c in requests then old(cycles)[c].(followup := false, recovery := Some(job)) else old(cycles)[c]
    {
      ghost var before := cycles;
      var todo := requests;
      while todo != {}
        invariant todo <= requests
        invariant cycles == map c | c in before ::
          if c in requests && c !in todo then before[c].(followup := false, recovery := Some(job)) else before[c]
        decreases |todo|
      {
        var c :| c in todo;
        cycles := cycles[c := cycles[c].(followup := false, recovery := Some(job))];
        todo := todo - {c};
      }
    }
  }

  lemma FinishInParts(w: World, c: Id, errored: bool)
    requires c in w.cycles && c in w.runners
    ensures var failed := errored || SomeChild(w, c, Failed);
            Do(w, Finish(c, errored)) ==
            World(w.cycles[c := EndState(w.cycles[c], EndsCancelled(w, c), failed)],
                  map k | k in w.children ::
                    if k in w.cycles[c].children then Settle(w.children[k], w.runners[c] == Reconciled, failed)
                    else w.children[k],
                  w.runners - {c}, w.nextId)
  {
    hide SomeChild, Settle, EndState;
  }

  /** The children of a new cycle, n of them so far. */
  function Added(before: map<Id, Child>, u: User, parent: Id, n: nat): map<Id, Child> {
    map k | k in before.Keys + NewIds(parent, n) ::
      if k in NewIds(parent, n) then Child(u, parent, Pending, false, false) else before[k]
  }

  lemma AddedNone(before: map<Id, Child>, u: User, parent: Id)
    ensures Added(before, u, parent, 0) == before
  {}

  lemma AddedNext(before: map<Id, Child>, u: User, parent: Id, n: nat)
    requires forall k :: k in before ==> k < parent
    ensures Added(before, u, parent, n)[parent + 1 + n := Child(u, parent, Pending, false, false)]
            == Added(before, u, parent, n + 1)
    ensures ChildIds(parent, n) + [parent + 1 + n] == ChildIds(parent, n + 1)
  {
    hide NewIds;
    assert NewIds(parent, n + 1) == NewIds(parent, n) + {parent + 1 + n};
  }

  lemma AddedIsEnqueued(w: World, u: User, targets: nat, automatic: bool)
    ensures Enqueue(w, u, targets, automatic) ==
            World(w.cycles[w.nextId := Cycle(u, Pending, ChildIds(w.nextId, targets), automatic, false, false, false,
                                             false, false, None)],
                  Added(w.children, u, w.nextId, targets), w.runners, w.nextId + targets + 1)
  {
    hide NewIds;
  }

  lemma ChildIdsBelow(w: World)
    requires Sound(w)
    ensures forall k :: k in w.children ==> k < w.nextId
  {
    hide CycleOk;
    assert forall k :: k in w.children ==> ChildOk(w, k);
  }
}
