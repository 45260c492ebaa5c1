/**
 Account pull cycles: one parent job per user with one child job per provider, cancellation,
 reconciliation, provider checkpoints, restart, and coalesced automatic follow-ups.
 Every action is one committed transaction.
 */
module AccountCycle {
  import opened TextOrder

  type Id = nat
  type User = int

  datatype Status = Pending | Running | Completed | Failed | Cancelled

  predicate Active(s: Status) {
    s == Pending || s == Running
  }

  /** A provider job. checkpoint and held are provider_checkpoint and provider_pending_checkpoint in its stats. */
  datatype Child = Child(user: User, parent: Id, status: Status, checkpoint: bool, held: bool)

  /** A pull cycle; the booleans are keys of its stats, aborted is the restart error message. */
  datatype Cycle = Cycle(
    user: User, status: Status, children: seq<Id>, automatic: bool,
    cancelRequested: bool, reconciling: bool, reconciled: bool,
    followup: bool, aborted: bool, recovery: Option<Id>)

  /**
   Where the task running a cycle is; lost on restart. While it reconciles it holds the job row as its session read it
   when the window closed.
   */
  datatype Runner = Collecting | SawCancel | Reconciling(read: Cycle) | Reconciled

  datatype World = World(cycles: map<Id, Cycle>, children: map<Id, Child>, runners: map<Id, Runner>, nextId: Id)

  /** What a provider worker does to its own job. Runner(s) is the provider's import code, which is not modelled. */
  datatype ProviderStep = Reject | ImportPending | Unchanged | Import(status: Status) | Raised | SaveCheckpoint

  datatype Action =
    | Queue(user: User, targets: nat, busyElsewhere: bool)
    | Request(user: User, targets: nat, busyElsewhere: bool)
    | Begin(cycle: Id)
    | Provider(child: Id, step: ProviderStep)
    | CloseWindow(cycle: Id)
    | Finalize(cycle: Id)
    | Finish(cycle: Id, errored: bool)
    | Cancel(cycle: Id)
    | Restart
    | Retry(user: User, targets: nat, busyElsewhere: bool)

  // ----- transactions

  predicate Live(w: World, u: User, c: Id) {
    c in w.cycles && w.cycles[c].user == u && Active(w.cycles[c].status)
  }

  /** Admission: no active pull, pull cycle or clear job of this user. */
  predicate Idle(w: World, u: User) {
    && (forall c :: c in w.cycles && w.cycles[c].user == u ==> !Active(w.cycles[c].status))
    && (forall k :: k in w.children && w.children[k].user == u ==> !Active(w.children[k].status))
  }

  predicate CanQueue(w: World, u: User, targets: nat, busyElsewhere: bool) {
    Idle(w, u) && !busyElsewhere && targets > 0
  }

  function ChildIds(parent: Id, targets: nat): seq<Id> {
    seq(targets, i => parent + 1 + i)
  }

  function NewIds(parent: Id, targets: nat): (r: set<Id>)
    ensures forall i: Id :: i in r <==> parent < i <= parent + targets
  {
    set i: Id | parent < i <= parent + targets && NewId(i, parent)
  }

  predicate NewId(i: Id, parent: Id) {
    i > parent
  }

  function Enqueue(w: World, u: User, targets: nat, automatic: bool): World {
    var c := w.nextId;
    World(w.cycles[c := Cycle(u, Pending, ChildIds(c, targets), automatic, false, false, false, false, false, None)],
          map k | k in w.children.Keys + NewIds(c, targets) ::
            if k in NewIds(c, targets) then Child(u, c, Pending, false, false) else w.children[k],
          w.runners, c + targets + 1)
  }

  function Advance(child: Child, step: ProviderStep): Child {
    match step
    case Reject => if child.status == Pending then child.(status := Failed) else child
    case ImportPending => if child.status == Pending then child.(status := Completed) else child
    case Unchanged => if child.status == Pending then child.(status := Completed, checkpoint := true) else child
    case Import(status) => child.(status := status)
    case Raised => if Active(child.status) then child.(status := Failed) else child
    case SaveCheckpoint => if child.status == Completed then child.(held := true) else child
  }

  /** No worker leaves an active child behind. */
  function Ended(s: Status): Status {
    if Active(s) then Failed else s
  }

  predicate SomeChild(w: World, c: Id, s: Status)
    requires c in w.cycles
  {
    exists k :: k in w.children && k in w.cycles[c].children && Ended(w.children[k].status) == s
  }

  /** A child once its cycle ends: held checkpoints are kept only if the cycle reconciled. */
  function Settle(child: Child, reconciled: bool, failed: bool): Child {
    child.(status := Ended(child.status), held := false,
           checkpoint := (child.checkpoint || (child.held && reconciled)) && !(failed && !reconciled))
  }

  function EndState(cycle: Cycle, cancelled: bool, failed: bool): Cycle {
    cycle.(status := if cancelled then Cancelled else if failed then Failed else Completed,
           followup := cycle.followup && !cancelled)
  }

  predicate EndsCancelled(w: World, c: Id)
    requires c in w.cycles
  {
    w.cycles[c].cancelRequested || SomeChild(w, c, Cancelled)
  }

  function EndCycle(w: World, c: Id, errored: bool): World
    requires c in w.cycles && c in w.runners
  {
    var failed := errored || SomeChild(w, c, Failed);
    World(w.cycles[c := EndState(w.cycles[c], EndsCancelled(w, c), failed)],
          map k | k in w.children ::
            if k in w.cycles[c].children then Settle(w.children[k], w.runners[c] == Reconciled, failed)
            else w.children[k],
          w.runners - {c}, w.nextId)
  }

  predicate CanCancel(cycle: Cycle) {
    !cycle.reconciling && Active(cycle.status)
  }

  function CancelChild(child: Child): Child {
    if Active(child.status) then child.(status := Cancelled) else child
  }

  function CancelCycle(w: World, c: Id): World
    requires c in w.cycles
  {
    w.(cycles := w.cycles[c := w.cycles[c].(cancelRequested := true)],
       children := map k | k in w.children ::
         if k in w.cycles[c].children then CancelChild(w.children[k]) else w.children[k])
  }

  function AbortCycle(cycle: Cycle): Cycle {
    if Active(cycle.status) then cycle.(status := Failed, aborted := true) else cycle
  }

  function RestartAll(w: World): World {
    World(map c | c in w.cycles :: AbortCycle(w.cycles[c]),
          map k | k in w.children :: w.children[k].(status := Ended(w.children[k].status)),
          map[], w.nextId)
  }

  /** A recorded request nobody has served: a follow-up, or an automatic cycle a restart interrupted. */
  predicate Owed(cycle: Cycle) {
    && !Active(cycle.status) && !cycle.cancelRequested && cycle.recovery.None?
    && (cycle.followup || (cycle.automatic && cycle.aborted && !cycle.reconciled))
  }

  predicate OwedTo(w: World, u: User, c: Id) {
    c in w.cycles && w.cycles[c].user == u && Owed(w.cycles[c])
  }

  /** Consumes every owed request of the user and queues their one recovery cycle in the same commit. */
  function Serve(w: World, u: User, targets: nat): World {
    var stamped := w.(cycles := map c | c in w.cycles ::
      if OwedTo(w, u, c) then w.cycles[c].(followup := false, recovery := Some(w.nextId)) else w.cycles[c]);
    Enqueue(stamped, u, targets, true)
  }

  function WithFollowup(w: World, u: User): World {
    w.(cycles := map c | c in w.cycles :: if Live(w, u, c) then w.cycles[c].(followup := true) else w.cycles[c])
  }

  function WithCycle(w: World, c: Id, cycle: Cycle, runner: Runner): World {
    w.(cycles := w.cycles[c := cycle], runners := w.runners[c := runner])
  }

  /** Saving the reconciliation writes the stats of the row as read, and none of its other columns. */
  function WriteBack(cycle: Cycle, read: Cycle): Cycle {
    read.(user := cycle.user, status := cycle.status, aborted := cycle.aborted, reconciled := true)
  }

  function Do(w: World, a: Action): World {
    match a
    case Queue(u, targets, busy) => if CanQueue(w, u, targets, busy) then Enqueue(w, u, targets, false) else w
    case Request(u, targets, busy) =>
      if exists c :: c in w.cycles && Live(w, u, c) then
        WithFollowup(w, u)
      else if CanQueue(w, u, targets, busy) then Enqueue(w, u, targets, true)
      else w
    case Begin(c) =>
      if c in w.cycles && w.cycles[c].status == Pending
      then WithCycle(w, c, w.cycles[c].(status := Running), Collecting)
      else w
    case Provider(k, step) =>
      if k in w.children && w.children[k].parent in w.runners && w.runners[w.children[k].parent] == Collecting
      then w.(children := w.children[k := Advance(w.children[k], step)])
      else w
    case CloseWindow(c) =>
      if c in w.cycles && c in w.runners && w.runners[c] == Collecting then
        if w.cycles[c].cancelRequested then WithCycle(w, c, w.cycles[c], SawCancel)
        else
          var closed := w.cycles[c].(reconciling := true);
          WithCycle(w, c, closed, Reconciling(closed))
      else w
    case Finalize(c) =>
      if c in w.cycles && c in w.runners && w.runners[c].Reconciling?
      then WithCycle(w, c, WriteBack(w.cycles[c], w.runners[c].read), Reconciled)
      else w
    case Finish(c, errored) => if c in w.cycles && c in w.runners then EndCycle(w, c, errored) else w
    case Cancel(c) => if c in w.cycles && CanCancel(w.cycles[c]) then CancelCycle(w, c) else w
    case Restart => RestartAll(w)
    case Retry(u, targets, busy) =>
      if CanQueue(w, u, targets, busy) && exists c :: c in w.cycles && OwedTo(w, u, c) then Serve(w, u, targets) else w
  }

  function Run(w: World, actions: seq<Action>): World {
    if actions == [] then w else Do(Run(w, actions[..|actions| - 1]), actions[|actions| - 1])
  }

  const START := World(map[], map[], map[], 0)

  // ----- what every run keeps

  function RunnerOf(w: World, c: Id): Option<Runner> {
    if c in w.runners then Some(w.runners[c]) else None
  }

  /** The row that was read differs from the stored one by a follow-up recorded since, if at all. */
  predicate Lags(cycle: Cycle, read: Cycle) {
    cycle == read.(followup := cycle.followup) && (read.followup ==> cycle.followup)
  }

  /** The state of one cycle and of the task running it. */
  ghost predicate StateOk(cycle: Cycle, runner: Option<Runner>) {
    && !(cycle.cancelRequested && cycle.reconciling)
    && (cycle.reconciled ==> cycle.reconciling)
    && (runner.Some? <==> cycle.status == Running)
    && (cycle.status == Pending || runner == Some(Collecting) ==> !cycle.reconciling)
    && (runner == Some(SawCancel) ==> cycle.cancelRequested)
    && (runner.Some? && runner.value.Reconciling? ==>
          cycle.reconciling && !cycle.reconciled && Lags(cycle, runner.value.read))
    && (runner == Some(Reconciled) ==> cycle.reconciled)
    && (Active(cycle.status) ==> !cycle.aborted && cycle.recovery.None?)
    && (cycle.followup ==> cycle.recovery.None?)
  }

  /** The child list of a cycle names its own children. */
  ghost predicate ListsOwn(w: World, c: Id)
    requires c in w.cycles
  {
    forall k :: k in w.cycles[c].children ==> k in w.children && w.children[k].parent == c
  }

  /** A stamped cycle was served by a later, automatic cycle of the same user. */
  ghost predicate RecoveryOk(w: World, c: Id)
    requires c in w.cycles
  {
    var cycle := w.cycles[c];
    cycle.recovery.Some? ==>
      var d := cycle.recovery.value;
      c < d && d in w.cycles && w.cycles[d].user == cycle.user && w.cycles[d].automatic
  }

  /** A cycle that failed by itself before reconciling has no checkpoint left on any child. */
  ghost predicate CheckpointsOk(w: World, c: Id)
    requires c in w.cycles
  {
    var cycle := w.cycles[c];
    cycle.status == Failed && !cycle.aborted && !cycle.reconciled ==> NoCheckpoints(w, c)
  }

  ghost predicate NoCheckpoints(w: World, c: Id)
    requires c in w.cycles
  {
    forall k :: k in w.children && w.children[k].parent == c ==> !w.children[k].checkpoint
  }

  ghost predicate CycleOk(w: World, c: Id)
    requires c in w.cycles
  {
    c < w.nextId && StateOk(w.cycles[c], RunnerOf(w, c)) && ListsOwn(w, c) && RecoveryOk(w, c) && CheckpointsOk(w, c)
  }

  /** One child: its cycle lists it, and it is active only while that cycle is. */
  ghost predicate ChildOk(w: World, k: Id)
    requires k in w.children
  {
    var child := w.children[k];
    && k < w.nextId && child.parent in w.cycles && k in w.cycles[child.parent].children
    && child.user == w.cycles[child.parent].user
    && (Active(child.status) ==> Active(w.cycles[child.parent].status))
  }

  ghost predicate OneLiveCycle(w: World) {
    forall u, c, d :: Live(w, u, c) && Live(w, u, d) ==> c == d
  }

  ghost predicate Sound(w: World) {
    && (forall c :: c in w.cycles ==> CycleOk(w, c))
    && (forall k :: k in w.children ==> ChildOk(w, k))
    && (forall c :: c in w.runners ==> c in w.cycles)
    && OneLiveCycle(w)
  }

  // ----- preservation

  /** No cycle or child appears, disappears, changes owner or becomes active. */
  ghost predicate SameJobs(w: World, w': World) {
    && w'.nextId == w.nextId && w'.cycles.Keys == w.cycles.Keys && w'.children.Keys == w.children.Keys
    && w'.runners.Keys <= w'.cycles.Keys
    && (forall c :: c in w.cycles ==> SameCycle(w.cycles[c], w'.cycles[c]))
    && (forall k :: k in w.children ==> w'.children[k].user == w.children[k].user
                                        && w'.children[k].parent == w.children[k].parent)
  }

  ghost predicate SameCycle(cycle: Cycle, cycle': Cycle) {
    && cycle'.user == cycle.user && cycle'.children == cycle.children && cycle'.automatic == cycle.automatic
    && cycle'.recovery == cycle.recovery
    && (Active(cycle'.status) ==> Active(cycle.status))
  }

  lemma SameJobsCycle(w: World, w': World, c: Id)
    requires SameJobs(w, w') && c in w.cycles && CycleOk(w, c)
    requires StateOk(w'.cycles[c], RunnerOf(w', c)) && CheckpointsOk(w', c)
    ensures CycleOk(w', c)
  {
    hide StateOk, CheckpointsOk, RunnerOf;
    assert ListsOwn(w, c) && RecoveryOk(w, c) && SameCycle(w.cycles[c], w'.cycles[c]);
  }

  lemma SameJobsChild(w: World, w': World, k: Id)
    requires SameJobs(w, w') && k in w.children && ChildOk(w, k)
    requires Active(w'.children[k].status) ==> Active(w'.cycles[w.children[k].parent].status)
    ensures ChildOk(w', k)
  {
    hide Active;
    assert SameCycle(w.cycles[w.children[k].parent], w'.cycles[w.children[k].parent]);
  }

  /** The frame of every step that neither creates nor revives a job. */
  lemma SameJobsSound(w: World, w': World)
    requires Sound(w) && SameJobs(w, w')
    requires forall c :: c in w'.cycles ==> StateOk(w'.cycles[c], RunnerOf(w', c)) && CheckpointsOk(w', c)
    requires forall k :: k in w'.children && Active(w'.children[k].status) ==>
               w.children[k].parent in w'.cycles && Active(w'.cycles[w.children[k].parent].status)
    ensures Sound(w')
  {
    hide StateOk, CheckpointsOk, CycleOk, ListsOwn, RecoveryOk;
    forall c | c in w'.cycles
      ensures CycleOk(w', c)
    {
      SameJobsCycle(w, w', c);
    }
    forall k | k in w'.children
      ensures ChildOk(w', k)
    {
      assert ChildOk(w, k);
      SameJobsChild(w, w', k);
    }
    forall u, c | Live(w', u, c)
      ensures Live(w, u, c)
    {
      assert SameCycle(w.cycles[c], w'.cycles[c]);
    }
  }

  /** Checkpoints are not affected when no child of the cycle gains one. */
  lemma CheckpointsCarry(w: World, w': World, c: Id)
    requires c in w.cycles && c in w'.cycles && CheckpointsOk(w, c)
    requires w'.cycles[c].status == Failed && !w'.cycles[c].aborted && !w'.cycles[c].reconciled
      ==> w.cycles[c].status == Failed && !w.cycles[c].aborted && !w.cycles[c].reconciled
    requires forall k :: k in w'.children && w'.children[k].parent == c && w'.children[k].checkpoint ==>
      k in w.children && w.children[k].parent == c && w.children[k].checkpoint
    ensures CheckpointsOk(w', c)
  {}

  lemma StateFacts(w: World, c: Id)
    requires Sound(w) && c in w.cycles
    ensures c < w.nextId && StateOk(w.cycles[c], RunnerOf(w, c)) && CheckpointsOk(w, c)
  {
    hide StateOk, CheckpointsOk;
    assert CycleOk(w, c);
  }

  lemma ChildFacts(w: World, k: Id)
    requires Sound(w) && k in w.children
    ensures var p := w.children[k].parent;
            && k < w.nextId && p in w.cycles && k in w.cycles[p].children
            && (Active(w.children[k].status) ==> Active(w.cycles[p].status))
            && (forall c :: c in w.cycles && k in w.cycles[c].children ==> c == p)
  {
    hide StateOk, CheckpointsOk, RecoveryOk;
    assert ChildOk(w, k);
    forall c | c in w.cycles && k in w.cycles[c].children
      ensures c == w.children[k].parent
    {
      assert CycleOk(w, c) && ListsOwn(w, c);
    }
  }

  lemma EnqueuedChild(w: World, u: User, targets: nat, automatic: bool, k: Id)
    requires Sound(w) && k in Enqueue(w, u, targets, automatic).children
    ensures ChildOk(Enqueue(w, u, targets, automatic), k)
  {
    hide StateOk, ListsOwn, RecoveryOk, CheckpointsOk;
    if k in NewIds(w.nextId, targets) {
      assert ChildIds(w.nextId, targets)[k - w.nextId - 1] == k;
    } else {
      assert ChildOk(w, k);
      assert CycleOk(w, w.children[k].parent);
    }
  }

  lemma NewestCycle(w: World, u: User, targets: nat, automatic: bool)
    requires Sound(w)
    ensures CycleOk(Enqueue(w, u, targets, automatic), w.nextId)
  {
    assert forall k :: k in w.children ==> ChildOk(w, k);
    assert forall c :: c in w.runners ==> CycleOk(w, c);
  }

  lemma EnqueueKeepsSound(w: World, u: User, targets: nat, automatic: bool)
    requires Sound(w) && Idle(w, u)
    ensures Sound(Enqueue(w, u, targets, automatic))
  {
    hide CycleOk, ChildOk;
    var w' := Enqueue(w, u, targets, automatic);
    forall k | k in w'.children
      ensures ChildOk(w', k)
    {
      EnqueuedChild(w, u, targets, automatic, k);
    }
    NewestCycle(w, u, targets, automatic);
    forall c | c in w'.cycles
      ensures CycleOk(w', c)
    {
      if c in w.cycles {
        OlderCycle(w, u, targets, automatic, c);
      }
    }
    forall v, c, d | Live(w', v, c) && Live(w', v, d)
      ensures c == d
    {
      assert c != w.nextId ==> Live(w, v, c);
      assert d != w.nextId ==> Live(w, v, d);
    }
  }

  /** A new cycle and its children take new numbers; all else stays. */
  lemma EnqueueFrame(w: World, u: User, targets: nat, automatic: bool)
    requires Sound(w)
    ensures var w' := Enqueue(w, u, targets, automatic);
            w'.runners == w.runners && w'.nextId > w.nextId && w.nextId !in w.cycles
            && (forall c :: c in w.cycles ==> c in w'.cycles && w'.cycles[c] == w.cycles[c])
            && (forall c :: c in w'.cycles ==> c in w.cycles || c == w.nextId)
            && (forall k :: k in w.children ==> k in w'.children && w'.children[k] == w.children[k])
            && (forall k :: k in w'.children && k !in w.children ==> w'.children[k].parent == w.nextId)
    ensures w.nextId !in w.runners
  {
    hide StateOk, ListsOwn, RecoveryOk, CheckpointsOk;
    assert forall c :: c in w.cycles ==> CycleOk(w, c) && c < w.nextId;
    assert forall k :: k in w.children ==> ChildOk(w, k) && k < w.nextId;
  }

  lemma OlderCycle(w: World, u: User, targets: nat, automatic: bool, c: Id)
    requires Sound(w) && c in w.cycles
    ensures CycleOk(Enqueue(w, u, targets, automatic), c)
  {
    hide StateOk, Enqueue, Sound;
    EnqueueFrame(w, u, targets, automatic);
    StateFacts(w, c);
    CycleParts(w, c);
  }

  lemma FollowupKeepsSound(w: World, u: User)
    requires Sound(w)
    ensures Sound(WithFollowup(w, u))
  {
    hide Sound;
    var w' := WithFollowup(w, u);
    forall c | c in w'.cycles
      ensures StateOk(w'.cycles[c], RunnerOf(w', c)) && CheckpointsOk(w', c)
    {
      StateFacts(w, c);
      CheckpointsCarry(w, w', c);
    }
    forall k | k in w'.children
      ensures w.children[k].parent in w'.cycles
              && (Active(w'.children[k].status) ==> Active(w'.cycles[w.children[k].parent].status))
    {
      ChildFacts(w, k);
    }
    RunnersExist(w);
    SameJobsSound(w, w');
  }

  lemma RunnersExist(w: World)
    requires Sound(w)
    ensures w.runners.Keys <= w.cycles.Keys
  {}

  /** Steps that change one active cycle and its runner, and no child. */
  lemma CycleStepKeepsSound(w: World, c: Id, cycle: Cycle, runner: Runner)
    requires Sound(w) && c in w.cycles && Active(w.cycles[c].status) && cycle.status == Running
    requires SameCycle(w.cycles[c], cycle) && StateOk(cycle, Some(runner))
    ensures Sound(WithCycle(w, c, cycle, runner))
  {
    hide Sound, StateOk;
    var w' := WithCycle(w, c, cycle, runner);
    forall d | d in w'.cycles
      ensures StateOk(w'.cycles[d], RunnerOf(w', d)) && CheckpointsOk(w', d)
    {
      StateFacts(w, d);
      CheckpointsCarry(w, w', d);
    }
    forall k | k in w'.children
      ensures w.children[k].parent in w'.cycles
              && (Active(w'.children[k].status) ==> Active(w'.cycles[w.children[k].parent].status))
    {
      ChildFacts(w, k);
    }
    RunnersExist(w);
    SameJobsSound(w, w');
  }

  lemma ProviderKeepsSound(w: World, k: Id, step: ProviderStep)
    requires Sound(w) && k in w.children && w.children[k].parent in w.runners
    ensures Sound(w.(children := w.children[k := Advance(w.children[k], step)]))
  {
    hide Sound, Advance;
    var w' := w.(children := w.children[k := Advance(w.children[k], step)]);
    AdvanceOwner(w.children[k], step);
    RunnersExist(w);
    StateFacts(w, w.children[k].parent);
    forall c | c in w'.cycles
      ensures StateOk(w'.cycles[c], RunnerOf(w', c)) && CheckpointsOk(w', c)
    {
      StateFacts(w, c);
      if c != w.children[k].parent {
        CheckpointsCarry(w, w', c);
      }
    }
    forall x | x in w'.children
      ensures w.children[x].parent in w'.cycles
              && (Active(w'.children[x].status) ==> Active(w'.cycles[w.children[x].parent].status))
    {
      ChildFacts(w, x);
    }
    SameJobsSound(w, w');
  }

  lemma AdvanceOwner(child: Child, step: ProviderStep)
    ensures Advance(child, step).user == child.user && Advance(child, step).parent == child.parent
  {}

  lemma EndStateOk(cycle: Cycle, runner: Runner, cancelled: bool, failed: bool)
    requires StateOk(cycle, Some(runner))
    ensures StateOk(EndState(cycle, cancelled, failed), None) && SameCycle(cycle, EndState(cycle, cancelled, failed))
    ensures runner != Reconciled ==> !cycle.reconciled
  {}

  /** How the end of a cycle leaves each child. */
  lemma SettledFacts(w: World, c: Id, errored: bool, k: Id)
    requires Sound(w) && c in w.cycles && c in w.runners && k in w.children
    ensures var w' := EndCycle(w, c, errored);
            if w.children[k].parent == c
            then !Active(w'.children[k].status) && !w'.children[k].held
                 && (w'.cycles[c].status == Failed && w.runners[c] != Reconciled ==> !w'.children[k].checkpoint)
                 && w'.children[k].user == w.children[k].user && w'.children[k].parent == c
            else w'.children[k] == w.children[k]
  {
    hide Sound;
    ChildFacts(w, k);
  }

  lemma EndKeepsSound(w: World, c: Id, errored: bool)
    requires Sound(w) && c in w.cycles && c in w.runners
    ensures Sound(EndCycle(w, c, errored))
  {
    hide Sound, SomeChild, StateOk, Settle, EndState;
    var w' := EndCycle(w, c, errored);
    StateFacts(w, c);
    EndStateOk(w.cycles[c], w.runners[c], EndsCancelled(w, c), errored || SomeChild(w, c, Failed));
    RunnersExist(w);
    forall k | k in w.children
      ensures w'.children[k].user == w.children[k].user && w'.children[k].parent == w.children[k].parent
      ensures w.children[k].parent in w'.cycles
              && (Active(w'.children[k].status) ==> Active(w'.cycles[w.children[k].parent].status))
    {
      SettledFacts(w, c, errored, k);
      ChildFacts(w, k);
    }
    forall d | d in w'.cycles
      ensures StateOk(w'.cycles[d], RunnerOf(w', d)) && CheckpointsOk(w', d)
    {
      StateFacts(w, d);
      EndedCheckpoints(w, c, errored, d);
    }
    SameJobsSound(w, w');
  }

  lemma EndedCheckpoints(w: World, c: Id, errored: bool, d: Id)
    requires Sound(w) && c in w.cycles && c in w.runners && d in w.cycles
    ensures CheckpointsOk(EndCycle(w, c, errored), d)
  {
    hide Sound, SomeChild;
    var w' := EndCycle(w, c, errored);
    StateFacts(w, d);
    forall k | k in w.children && w.children[k].parent == d
      ensures if d == c then w'.cycles[c].status == Failed && w.runners[c] != Reconciled ==> !w'.children[k].checkpoint
              else w'.children[k] == w.children[k]
    {
      SettledFacts(w, c, errored, k);
    }
    forall k | k in w'.children && w'.children[k].parent == d
      ensures w.children[k].parent == d
    {
      SettledFacts(w, c, errored, k);
    }
  }

  lemma CancelFacts(cycle: Cycle, runner: Option<Runner>)
    ensures StateOk(cycle, runner) && CanCancel(cycle) ==> StateOk(cycle.(cancelRequested := true), runner)
  {}

  lemma CancelledChild(child: Child)
    ensures var after := CancelChild(child);
            after.user == child.user && after.parent == child.parent && after.checkpoint == child.checkpoint
            && !Active(after.status)
  {}

  lemma CancelKeepsSound(w: World, c: Id)
    requires Sound(w) && c in w.cycles && CanCancel(w.cycles[c])
    ensures Sound(CancelCycle(w, c))
  {
    hide Sound, StateOk, CancelChild;
    var w' := CancelCycle(w, c);
    CancelFacts(w.cycles[c], RunnerOf(w, c));
    RunnersExist(w);
    forall k | k in w.children
      ensures w'.children[k].user == w.children[k].user && w'.children[k].parent == w.children[k].parent
      ensures w'.children[k].checkpoint == w.children[k].checkpoint
      ensures Active(w'.children[k].status) ==> Active(w.children[k].status)
    {
      CancelledChild(w.children[k]);
    }
    forall d | d in w'.cycles
      ensures StateOk(w'.cycles[d], RunnerOf(w', d)) && CheckpointsOk(w', d)
    {
      StateFacts(w, d);
      CheckpointsCarry(w, w', d);
    }
    forall k | k in w'.children
      ensures w.children[k].parent in w'.cycles
              && (Active(w'.children[k].status) ==> Active(w'.cycles[w.children[k].parent].status))
    {
      ChildFacts(w, k);
    }
    SameJobsSound(w, w');
  }

  lemma AbortStateOk(cycle: Cycle, runner: Option<Runner>)
    requires StateOk(cycle, runner)
    ensures StateOk(AbortCycle(cycle), None) && SameCycle(cycle, AbortCycle(cycle)) && !Active(AbortCycle(cycle).status)
    ensures AbortCycle(cycle).status == Failed && !AbortCycle(cycle).aborted ==> AbortCycle(cycle) == cycle
  {}

  lemma RestartKeepsSound(w: World)
    requires Sound(w)
    ensures Sound(RestartAll(w))
  {
    hide Sound, StateOk, AbortCycle;
    var w' := RestartAll(w);
    forall d | d in w'.cycles
      ensures StateOk(w'.cycles[d], RunnerOf(w', d)) && CheckpointsOk(w', d) && SameCycle(w.cycles[d], w'.cycles[d])
    {
      StateFacts(w, d);
      AbortStateOk(w.cycles[d], RunnerOf(w, d));
      CheckpointsCarry(w, w', d);
    }
    SameJobsSound(w, w');
  }

  lemma ServedCycle(w: World, u: User, targets: nat, c: Id)
    requires Sound(w) && Idle(w, u) && c in Serve(w, u, targets).cycles
    ensures CycleOk(Serve(w, u, targets), c)
  {
    hide Sound, Idle, Serve, Enqueue;
    EnqueueKeepsSound(w, u, targets, true);
    EnqueueFrame(w, u, targets, true);
    ServeFrame(w, u, targets);
    var queued, w' := Enqueue(w, u, targets, true), Serve(w, u, targets);
    StateFacts(queued, c);
    CheckpointsCarry(queued, w', c);
    CycleParts(queued, c);
    ServedState(w, u, targets, c);
    ServedRecovery(w, u, targets, c);
  }

  /** Serving is queueing, and stamping what is owed. */
  lemma ServeFrame(w: World, u: User, targets: nat)
    requires Sound(w)
    ensures var queued, w' := Enqueue(w, u, targets, true), Serve(w, u, targets);
            w'.children == queued.children && w'.runners == queued.runners && w'.nextId == queued.nextId
            && w'.cycles.Keys == queued.cycles.Keys
            && forall c :: c in w'.cycles ==>
                 w'.cycles[c] == if c in w.cycles && OwedTo(w, u, c)
                                 then queued.cycles[c].(followup := false, recovery := Some(w.nextId))
                                 else queued.cycles[c]
  {
    EnqueueFrame(w, u, targets, true);
    hide Sound, OwedTo;
  }

  lemma ServedState(w: World, u: User, targets: nat, c: Id)
    requires Sound(w) && Sound(Enqueue(w, u, targets, true)) && c in Serve(w, u, targets).cycles
    ensures StateOk(Serve(w, u, targets).cycles[c], RunnerOf(Serve(w, u, targets), c))
  {
    hide Sound, Serve, Enqueue, CheckpointsOk;
    EnqueueFrame(w, u, targets, true);
    ServeFrame(w, u, targets);
    StateFacts(Enqueue(w, u, targets, true), c);
    assert RunnerOf(Serve(w, u, targets), c) == RunnerOf(Enqueue(w, u, targets, true), c);
  }

  lemma ServedRecovery(w: World, u: User, targets: nat, c: Id)
    requires Sound(w) && Sound(Enqueue(w, u, targets, true)) && c in Serve(w, u, targets).cycles
    ensures RecoveryOk(Serve(w, u, targets), c)
  {
    hide Sound, Serve, StateOk, CheckpointsOk;
    EnqueueFrame(w, u, targets, true);
    ServeFrame(w, u, targets);
    CycleParts(Enqueue(w, u, targets, true), c);
    if c in w.cycles {
      StateFacts(w, c);
    }
  }

  lemma CycleParts(w: World, c: Id)
    requires Sound(w) && c in w.cycles
    ensures ListsOwn(w, c) && RecoveryOk(w, c)
  {
    assert CycleOk(w, c);
  }

  lemma ServedChild(w: World, u: User, targets: nat, k: Id)
    requires Sound(w) && Sound(Enqueue(w, u, targets, true)) && k in Serve(w, u, targets).children
    ensures ChildOk(Serve(w, u, targets), k)
  {
    hide CycleOk, Enqueue, Serve;
    ServeFrame(w, u, targets);
    assert ChildOk(Enqueue(w, u, targets, true), k);
  }

  lemma ServeKeepsSound(w: World, u: User, targets: nat)
    requires Sound(w) && Idle(w, u)
    ensures Sound(Serve(w, u, targets))
  {
    hide CycleOk, ChildOk, Enqueue, Serve, Idle;
    EnqueueKeepsSound(w, u, targets, true);
    ServeFrame(w, u, targets);
    var queued := Enqueue(w, u, targets, true);
    var w' := Serve(w, u, targets);
    forall c | c in w'.cycles
      ensures CycleOk(w', c)
    {
      ServedCycle(w, u, targets, c);
    }
    forall k | k in w'.children
      ensures ChildOk(w', k)
    {
      ServedChild(w, u, targets, k);
    }
    assert forall v, d :: Live(w', v, d) ==> Live(queued, v, d);
  }

  lemma StepKeepsSound(w: World, a: Action)
    requires Sound(w)
    ensures Sound(Do(w, a))
  {
    hide Sound, Enqueue, EndCycle, CancelCycle, RestartAll, Serve, Advance, WithFollowup, WithCycle;
    match a
    case Queue(u, targets, busy) =>
      if CanQueue(w, u, targets, busy) { EnqueueKeepsSound(w, u, targets, false); }
    case Request(u, targets, busy) =>
      if exists c :: c in w.cycles && Live(w, u, c) { FollowupKeepsSound(w, u); }
      else if CanQueue(w, u, targets, busy) { EnqueueKeepsSound(w, u, targets, true); }
    case Begin(c) =>
      if c in w.cycles && w.cycles[c].status == Pending {
        StateFacts(w, c);
        CycleStepKeepsSound(w, c, w.cycles[c].(status := Running), Collecting);
      }
    case Provider(k, step) =>
      if k in w.children && w.children[k].parent in w.runners { ProviderKeepsSound(w, k, step); }
    case CloseWindow(c) =>
      if c in w.cycles && c in w.runners && w.runners[c] == Collecting {
        StateFacts(w, c);
        if w.cycles[c].cancelRequested {
          CycleStepKeepsSound(w, c, w.cycles[c], SawCancel);
        } else {
          var closed := w.cycles[c].(reconciling := true);
          CycleStepKeepsSound(w, c, closed, Reconciling(closed));
        }
      }
    case Finalize(c) =>
      if c in w.cycles && c in w.runners && w.runners[c].Reconciling? {
        StateFacts(w, c);
        CycleStepKeepsSound(w, c, WriteBack(w.cycles[c], w.runners[c].read), Reconciled);
      }
    case Finish(c, errored) =>
      if c in w.cycles && c in w.runners { EndKeepsSound(w, c, errored); }
    case Cancel(c) =>
      if c in w.cycles && CanCancel(w.cycles[c]) { CancelKeepsSound(w, c); }
    case Restart => RestartKeepsSound(w);
    case Retry(u, targets, busy) =>
      if CanQueue(w, u, targets, busy) { ServeKeepsSound(w, u, targets); }
  }

  lemma {:induction false} EveryRunIsSound(actions: seq<Action>)
    ensures Sound(Run(START, actions))
  {
    if actions != [] {
      EveryRunIsSound(actions[..|actions| - 1]);
      StepKeepsSound(Run(START, actions[..|actions| - 1]), actions[|actions| - 1]);
    }
  }

  // ----- main results

  /** What holds after any run of queue, provider, cancel, finish, restart and retry steps. */
  lemma CyclesStayExclusive(actions: seq<Action>)
    ensures var w := Run(START, actions);
            && (forall u, c, d :: Live(w, u, c) && Live(w, u, d) ==> c == d)
            && (forall k :: k in w.children && Active(w.children[k].status) ==>
                  Live(w, w.children[k].user, w.children[k].parent) && k in w.cycles[w.children[k].parent].children)
            && (forall c, k :: c in w.cycles && !Active(w.cycles[c].status) && k in w.cycles[c].children ==>
                  k in w.children && !Active(w.children[k].status))
            && (forall c :: c in w.cycles ==> !(w.cycles[c].cancelRequested && w.cycles[c].reconciling))
            && (forall c :: c in w.cycles ==> CheckpointsOk(w, c))
  {
    hide Run, StateOk;
    EveryRunIsSound(actions);
    var w := Run(START, actions);
    forall k | k in w.children
      ensures ChildOk(w, k)
    {}
    forall c | c in w.cycles
      ensures ListsOwn(w, c) && CheckpointsOk(w, c) && !(w.cycles[c].cancelRequested && w.cycles[c].reconciling)
    {
      CycleParts(w, c);
      StateFacts(w, c);
      ExclusiveFlags(w.cycles[c], RunnerOf(w, c));
    }
  }

  lemma ExclusiveFlags(cycle: Cycle, runner: Option<Runner>)
    requires StateOk(cycle, runner)
    ensures !(cycle.cancelRequested && cycle.reconciling)
  {}

  // ----- one cycle, one child, one step

  /** What a step makes of a cycle. */
  ghost function NextCycle(w: World, a: Action, c: Id): Cycle
    requires c in w.cycles
  {
    var cycle := w.cycles[c];
    match a
    case Request(u, _, _) =>
      if cycle.user == u && (cycle.status == Pending || cycle.status == Running)
      then cycle.(followup := true)
      else cycle
    case Begin(d) => if d == c && cycle.status == Pending then cycle.(status := Running) else cycle
    case CloseWindow(d) =>
      if d == c && RunnerOf(w, c) == Some(Collecting) && !cycle.cancelRequested
      then cycle.(reconciling := true)
      else cycle
    case Finalize(d) => if d == c && Closing(w, c) then WriteBack(cycle, w.runners[c].read) else cycle
    case Finish(d, errored) =>
      if d == c && c in w.runners
      then EndState(cycle, EndsCancelled(w, c), errored || SomeChild(w, c, Failed))
      else cycle
    case Cancel(d) =>
      if d == c && !cycle.reconciling && (cycle.status == Pending || cycle.status == Running)
      then cycle.(cancelRequested := true)
      else cycle
    case Restart =>
      if cycle.status == Pending || cycle.status == Running then cycle.(status := Failed, aborted := true) else cycle
    case Retry(u, targets, busy) =>
      if && Idle(w, u) && !busy && targets > 0
         && cycle.user == u && cycle.status != Pending && cycle.status != Running
         && !cycle.cancelRequested && cycle.recovery == None
         && (cycle.followup || (cycle.automatic && cycle.aborted && !cycle.reconciled))
      then cycle.(followup := false, recovery := Some(w.nextId))
      else cycle
    case _ => cycle
  }

  /** And of the task running it. */
  ghost function NextRunner(w: World, a: Action, c: Id): Option<Runner>
    requires c in w.cycles
  {
    var cycle, runner := w.cycles[c], RunnerOf(w, c);
    match a
    case Begin(d) => if d == c && cycle.status == Pending then Some(Collecting) else runner
    case CloseWindow(d) =>
      if d == c && runner == Some(Collecting)
      then Some(if cycle.cancelRequested then SawCancel else Reconciling(cycle.(reconciling := true)))
      else runner
    case Finalize(d) => if d == c && Closing(w, c) then Some(Reconciled) else runner
    case Finish(d, _) => if d == c then None else runner
    case Restart => None
    case _ => runner
  }

  lemma CycleAfter(w: World, a: Action, c: Id)
    requires Sound(w) && c in w.cycles
    ensures var w' := Do(w, a);
            c in w'.cycles && w'.cycles[c] == NextCycle(w, a, c) && RunnerOf(w', c) == NextRunner(w, a, c)
  {
    hide Do, Sound, NextCycle, NextRunner;
    match a {
      case Queue(_, _, _) => CycleQueued(w, a, c);
      case Request(_, _, _) => CycleQueued(w, a, c);
      case Retry(_, _, _) => CycleRetried(w, a, c);
      case Finish(_, _) => CycleStopped(w, a, c);
      case Cancel(_) => CycleStopped(w, a, c);
      case Restart => CycleStopped(w, a, c);
      case _ => CycleMoved(w, a, c);
    }
  }

  lemma CycleQueued(w: World, a: Action, c: Id)
    requires Sound(w) && c in w.cycles && (a.Queue? || a.Request?)
    ensures var w' := Do(w, a);
            c in w'.cycles && w'.cycles[c] == NextCycle(w, a, c) && RunnerOf(w', c) == NextRunner(w, a, c)
  {
    hide Sound, Idle, Enqueue;
    EnqueueFrame(w, a.user, a.targets, a.Request?);
  }

  lemma OwedMeans(w: World, u: User, c: Id)
    requires c in w.cycles
    ensures var cycle := w.cycles[c];
            OwedTo(w, u, c) <==>
            cycle.user == u && cycle.status != Pending && cycle.status != Running
            && !cycle.cancelRequested && cycle.recovery == None
            && (cycle.followup || (cycle.automatic && cycle.aborted && !cycle.reconciled))
  {}

  lemma CycleRetried(w: World, a: Action, c: Id)
    requires Sound(w) && c in w.cycles && a.Retry?
    ensures var w' := Do(w, a);
            c in w'.cycles && w'.cycles[c] == NextCycle(w, a, c) && RunnerOf(w', c) == NextRunner(w, a, c)
  {
    OwedMeans(w, a.user, c);
    RetryDoes(w, a.user, a.targets, a.busyElsewhere);
    hide Sound, Idle, Enqueue, Serve, Owed, OwedTo, Do;
    EnqueueFrame(w, a.user, a.targets, true);
    ServeFrame(w, a.user, a.targets);
    assert OwedTo(w, a.user, c) ==> exists d :: d in w.cycles && OwedTo(w, a.user, d);
  }

  lemma RetryDoes(w: World, u: User, targets: nat, busy: bool)
    ensures Do(w, Retry(u, targets, busy)) ==
            if Idle(w, u) && !busy && targets > 0 && exists c :: c in w.cycles && OwedTo(w, u, c)
            then Serve(w, u, targets) else w
  {
    hide Idle, Serve, OwedTo;
  }

  lemma CycleStopped(w: World, a: Action, c: Id)
    requires Sound(w) && c in w.cycles && (a.Finish? || a.Cancel? || a.Restart?)
    ensures var w' := Do(w, a);
            c in w'.cycles && w'.cycles[c] == NextCycle(w, a, c) && RunnerOf(w', c) == NextRunner(w, a, c)
  {
    hide Sound, SomeChild, Settle, EndState, CancelChild;
  }

  lemma CycleMoved(w: World, a: Action, c: Id)
    requires Sound(w) && c in w.cycles && (a.Begin? || a.CloseWindow? || a.Finalize? || a.Provider?)
    ensures var w' := Do(w, a);
            c in w'.cycles && w'.cycles[c] == NextCycle(w, a, c) && RunnerOf(w', c) == NextRunner(w, a, c)
  {
    hide Sound, WriteBack, Advance;
  }

  /** What a step makes of a child. */
  ghost function NextChild(w: World, a: Action, k: Id): Child
    requires k in w.children && w.children[k].parent in w.cycles
  {
    var child, c := w.children[k], w.children[k].parent;
    match a
    case Provider(j, step) => if j == k && RunnerOf(w, c) == Some(Collecting) then Advance(child, step) else child
    case Finish(d, errored) =>
      if d == c && c in w.runners
      then Settle(child, w.runners[c] == Reconciled, errored || SomeChild(w, c, Failed))
      else child
    case Cancel(d) => if d == c && CanCancel(w.cycles[c]) then CancelChild(child) else child
    case Restart => child.(status := Ended(child.status))
    case _ => child
  }

  lemma ChildAfter(w: World, a: Action, k: Id)
    requires Sound(w) && k in w.children
    ensures var w' := Do(w, a);
            w.children[k].parent in w.cycles && k in w'.children && w'.children[k] == NextChild(w, a, k)
  {
    hide Do, Sound, NextChild;
    ChildFacts(w, k);
    if a.Queue? || a.Request? || a.Retry? {
      ChildQueued(w, a, k);
    } else {
      ChildMoved(w, a, k);
    }
  }

  lemma ChildQueued(w: World, a: Action, k: Id)
    requires Sound(w) && k in w.children && w.children[k].parent in w.cycles && (a.Queue? || a.Request? || a.Retry?)
    ensures k in Do(w, a).children && Do(w, a).children[k] == NextChild(w, a, k)
  {
    hide Sound, Idle, Enqueue, Serve, Owed;
    if a.Retry? {
      EnqueueFrame(w, a.user, a.targets, true);
      ServeFrame(w, a.user, a.targets);
    } else {
      EnqueueFrame(w, a.user, a.targets, a.Request?);
    }
  }

  lemma ChildMoved(w: World, a: Action, k: Id)
    requires Sound(w) && k in w.children && w.children[k].parent in w.cycles && !a.Queue? && !a.Request? && !a.Retry?
    ensures k in Do(w, a).children && Do(w, a).children[k] == NextChild(w, a, k)
  {
    hide Sound, SomeChild, Settle, EndState, AbortCycle, CancelChild, WriteBack, Advance, Ended;
    ChildFacts(w, k);
  }

  /** A step brings children to a new cycle only. */
  lemma ChildBefore(w: World, a: Action, k: Id)
    requires Sound(w) && k in Do(w, a).children
    ensures k in w.children || Do(w, a).children[k].parent == w.nextId
  {
    hide Sound, SomeChild, Idle, Settle, EndState, AbortCycle, CancelChild, Owed, WriteBack, Advance, Ended;
    match a {
      case Queue(u, targets, _) => EnqueueFrame(w, u, targets, false);
      case Request(u, targets, _) => EnqueueFrame(w, u, targets, true);
      case Retry(u, targets, _) =>
        EnqueueFrame(w, u, targets, true);
        ServeFrame(w, u, targets);
      case _ =>
    }
  }

  /** The task of the cycle has closed its window and not yet saved the reconciliation. */
  predicate Closing(w: World, c: Id) {
    c in w.runners && w.runners[c].Reconciling?
  }

  /** What no step ever takes back. */
  ghost predicate Persists(cycle: Cycle, cycle': Cycle) {
    && cycle'.user == cycle.user && cycle'.children == cycle.children && cycle'.automatic == cycle.automatic
    && (cycle.cancelRequested ==> cycle'.cancelRequested)
    && (cycle.reconciling ==> cycle'.reconciling) && (cycle.reconciled ==> cycle'.reconciled)
    && (!Active(cycle.status) ==>
          cycle'.status == cycle.status && cycle'.aborted == cycle.aborted && cycle'.reconciled == cycle.reconciled)
    && (!Active(cycle.status) ==> cycle'.cancelRequested == cycle.cancelRequested)
    && (cycle.recovery.Some? ==> cycle'.recovery == cycle.recovery && !cycle'.followup)
  }

  lemma StepPersists(w: World, a: Action, c: Id)
    requires Sound(w) && c in w.cycles
    ensures c in Do(w, a).cycles && Persists(w.cycles[c], Do(w, a).cycles[c])
  {
    assert AbortCycle(w.cycles[c]) ==
           if Active(w.cycles[c].status) then w.cycles[c].(status := Failed, aborted := true) else w.cycles[c];
    hide Sound, Do, SomeChild, Persists, StateOk, AbortCycle, EndState, Owed, WriteBack;
    StateFacts(w, c);
    CycleAfter(w, a, c);
    ActivePersists(w.cycles[c], RunnerOf(w, c));
  }

  /** What the steps do to a cycle they find active, or owed. */
  lemma ActivePersists(cycle: Cycle, runner: Option<Runner>)
    requires StateOk(cycle, runner)
    ensures Persists(cycle, cycle) && Persists(cycle, AbortCycle(cycle))
    ensures Active(cycle.status) ==> Persists(cycle, cycle.(followup := true))
    ensures Active(cycle.status) ==> Persists(cycle, cycle.(cancelRequested := true))
    ensures cycle.status == Pending ==> Persists(cycle, cycle.(status := Running))
    ensures runner.Some? ==> Persists(cycle, cycle.(reconciling := true))
    ensures runner.Some? && runner.value.Reconciling? ==> Persists(cycle, WriteBack(cycle, runner.value.read))
    ensures forall cancelled, failed :: runner.Some? ==> Persists(cycle, EndState(cycle, cancelled, failed))
    ensures forall d :: Owed(cycle) ==> Persists(cycle, cycle.(followup := false, recovery := Some(d)))
  {}

  /** Saving the reconciliation with a row that was read before the follow-up was recorded. */
  predicate Overwrites(w: World, a: Action, c: Id) {
    a == Finalize(c) && c in w.runners && w.runners[c].Reconciling? && !w.runners[c].read.followup
  }

  ghost predicate ServedNow(w: World, a: Action, c: Id)
    requires c in w.cycles
  {
    var w' := Do(w, a);
    && a.Retry? && w.nextId !in w.cycles && Live(w', w.cycles[c].user, w.nextId)
    && c in w'.cycles && w'.cycles[c].recovery == Some(w.nextId)
  }

  ghost predicate CancelledNow(w: World, a: Action, c: Id) {
    var w' := Do(w, a);
    a.Finish? && a.cycle == c && c in w.runners && c in w'.cycles && w'.cycles[c].status == Cancelled
  }

  /**
   One step: a recorded follow-up stays, unless it is served by a cycle created in this very step, or its cycle is
   cancelled, or the step saves a reconciliation that closed its window before the follow-up was recorded.
   */
  lemma FollowupStep(w: World, a: Action, c: Id)
    requires Sound(w) && c in w.cycles && w.cycles[c].followup
    ensures var w' := Do(w, a);
            && c in w'.cycles
            && (!w'.cycles[c].followup <==> ServedNow(w, a, c) || CancelledNow(w, a, c) || Overwrites(w, a, c))
  {
    hide Sound, SomeChild, CheckpointsOk, Idle;
    StateFacts(w, c);
    NextIdIsNew(w);
    CycleAfter(w, a, c);
    ServedIsNew(w, a, c);
    hide Do;
  }

  /** A stamp with the next number comes from the retry that queues that cycle. */
  lemma ServedIsNew(w: World, a: Action, c: Id)
    requires Sound(w) && c in w.cycles
    ensures a.Retry? && CanQueue(w, a.user, a.targets, a.busyElsewhere) && OwedTo(w, a.user, c) ==>
      Live(Do(w, a), a.user, w.nextId)
  {
    hide Sound, Idle;
    if a.Retry? {
      EnqueueFrame(w, a.user, a.targets, true);
      ServeFrame(w, a.user, a.targets);
    }
  }

  lemma NextIdIsNew(w: World)
    requires Sound(w)
    ensures w.nextId !in w.cycles
  {
    hide StateOk, CheckpointsOk, ListsOwn, RecoveryOk;
    assert forall d :: d in w.cycles ==> CycleOk(w, d) && d < w.nextId;
  }

  lemma RunSnoc(w: World, actions: seq<Action>, a: Action)
    ensures Run(w, actions + [a]) == Do(Run(w, actions), a)
  {
    hide Do;
    assert (actions + [a])[..|actions|] == actions;
  }

  /** The follow-up, once recorded, is still there, or was served, or its cycle was cancelled. */
  ghost predicate Kept(w: World, c: Id) {
    && c in w.cycles
    && (|| w.cycles[c].followup
        || (w.cycles[c].recovery.Some? && RecoveryOk(w, c))
        || w.cycles[c].status == Cancelled)
  }

  /** A follow-up that is recorded, and not only since the window of its cycle closed. */
  ghost predicate Durable(w: World, c: Id) {
    && c in w.cycles && w.cycles[c].followup
    && (c in w.runners && w.runners[c].Reconciling? ==> w.runners[c].read.followup)
  }

  lemma DurableStep(w: World, a: Action, c: Id)
    requires Sound(w) && Durable(w, c)
    ensures c in Do(w, a).cycles
    ensures Do(w, a).cycles[c].followup ==> Durable(Do(w, a), c)
    ensures !Overwrites(w, a, c)
  {
    hide Sound, Do, SomeChild, CheckpointsOk, Idle;
    StateFacts(w, c);
    CycleAfter(w, a, c);
  }

  lemma {:induction false} DurableKept(before: seq<Action>, later: seq<Action>, c: Id)
    requires Durable(Run(START, before), c)
    ensures var w := Run(START, before + later); Kept(w, c) && (w.cycles[c].followup ==> Durable(w, c))
  {
    hide Do, Sound, Durable, Overwrites;
    var w := Run(START, before + later);
    EveryRunIsSound(before + later);
    if later == [] {
      assert before + later == before;
      DurableIsRecorded(w, c);
    } else {
      var init, a := later[..|later| - 1], later[|later| - 1];
      DurableKept(before, init, c);
      var was := Run(START, before + init);
      assert before + later == before + init + [a];
      RunSnoc(START, before + init, a);
      EveryRunIsSound(before + init);
      StepPersists(was, a, c);
      CycleInSound(w);
      if was.cycles[c].followup {
        FollowupStep(was, a, c);
        DurableStep(was, a, c);
      } else {
        SettledStep(was, a, c);
      }
    }
  }

  /** Nothing is recorded on a cycle that was served or has ended. */
  lemma SettledStep(w: World, a: Action, c: Id)
    requires Sound(w) && Kept(w, c) && !w.cycles[c].followup
    ensures c in Do(w, a).cycles && !Do(w, a).cycles[c].followup
  {
    hide Sound, Do, SomeChild, CheckpointsOk, Idle;
    StateFacts(w, c);
    CycleAfter(w, a, c);
  }

  lemma DurableIsRecorded(w: World, c: Id)
    requires Durable(w, c)
    ensures Kept(w, c)
  {}

  /**
   A recorded follow-up is never lost, whatever happens next, exactly when the task running its cycle is not about to
   save a reconciliation that it read before.
   */
  lemma FollowupNeverLost(before: seq<Action>, c: Id)
    requires c in Run(START, before).cycles && Run(START, before).cycles[c].followup
    ensures (forall later :: Kept(Run(START, before + later), c)) <==> Durable(Run(START, before), c)
  {
    hide Sound, Run, Do;
    var w := Run(START, before);
    if Durable(w, c) {
      forall later
        ensures Kept(Run(START, before + later), c)
      {
        DurableKept(before, later, c);
      }
    } else {
      EveryRunIsSound(before);
      RunSnoc(START, before, Finalize(c));
      OverwrittenNow(w, c);
      assert !Kept(Run(START, before + [Finalize(c)]), c);
    }
  }

  lemma OverwrittenNow(w: World, c: Id)
    requires Sound(w) && c in w.cycles && w.cycles[c].followup && !Durable(w, c)
    ensures !Kept(Do(w, Finalize(c)), c)
  {
    hide Sound;
    StateFacts(w, c);
  }

  /** A first request for a live cycle is never lost exactly when it does not arrive while the cycle reconciles. */
  lemma RequestNeverLost(before: seq<Action>, u: User, targets: nat, busyElsewhere: bool, c: Id)
    requires var w := Run(START, before); Live(w, u, c) && !w.cycles[c].followup
    ensures var all := before + [Request(u, targets, busyElsewhere)];
            && c in Run(START, all).cycles && Run(START, all).cycles[c].followup
            && ((forall later :: Kept(Run(START, all + later), c)) <==> !Closing(Run(START, before), c))
  {
    hide Sound, Run, Do;
    var w, request := Run(START, before), Request(u, targets, busyElsewhere);
    EveryRunIsSound(before);
    RunSnoc(START, before, request);
    RequestRecorded(w, u, targets, busyElsewhere, c);
    FollowupNeverLost(before + [request], c);
  }

  lemma RequestRecorded(w: World, u: User, targets: nat, busyElsewhere: bool, c: Id)
    requires Sound(w) && Live(w, u, c) && !w.cycles[c].followup
    ensures var w' := Do(w, Request(u, targets, busyElsewhere));
            c in w'.cycles && w'.cycles[c].followup && (Durable(w', c) <==> !Closing(w, c))
  {
    hide Sound;
    StateFacts(w, c);
  }

  /** Requested while the cycle reconciles, saved and ended: nothing of the request is left to be served. */
  lemma LateRequestIsLost(w: World, u: User, c: Id)
    requires Sound(w) && Live(w, u, c) && Closing(w, c) && !w.cycles[c].followup && !SomeChild(w, c, Cancelled)
    ensures var requested := Do(w, Request(u, 0, true));
            var ended := Do(Do(requested, Finalize(c)), Finish(c, false));
            && c in requested.cycles && requested.cycles[c].followup
            && c in ended.cycles && !Kept(ended, c) && !Owed(ended.cycles[c])
  {
    hide Sound, Settle, Enqueue, Serve, SomeChild, Idle;
    StateFacts(w, c);
    var requested := Do(w, Request(u, 0, true));
    var saved := Do(requested, Finalize(c));
    assert saved.children == w.children && saved.cycles[c] == w.cycles[c].(reconciled := true);
    SameChildren(w, saved, c, Cancelled);
  }

  lemma SameChildren(w: World, w': World, c: Id, s: Status)
    requires c in w.cycles && c in w'.cycles && w'.children == w.children
             && w'.cycles[c].children == w.cycles[c].children
    ensures SomeChild(w', c, s) == SomeChild(w, c, s)
  {}

  /** A run, transaction after transaction, that loses a request: it came between closing the window and saving. */
  lemma FollowupMayBeOverwritten()
    ensures var closed := [Queue(7, 1, false), Begin(0), CloseWindow(0)];
            var requested, ended := Run(START, closed + [Request(7, 0, true)]),
                                    Run(START, closed + [Request(7, 0, true)] + [Finalize(0)] + [Finish(0, false)]);
            && 0 in requested.cycles && requested.cycles[0].followup
            && 0 in ended.cycles && !Kept(ended, 0) && !Owed(ended.cycles[0])
  {
    hide Do, Run, Kept, Owed, Live, Closing, SomeChild, Sound;
    var closed := [Queue(7, 1, false), Begin(0), CloseWindow(0)];
    var w := Run(START, closed);
    EveryRunIsSound(closed);
    WindowClosed();
    RunSnoc(START, closed, Request(7, 0, true));
    RunSnoc(START, closed + [Request(7, 0, true)], Finalize(0));
    RunSnoc(START, closed + [Request(7, 0, true)] + [Finalize(0)], Finish(0, false));
    LateRequestIsLost(w, 7, 0);
  }

  lemma WindowClosed()
    ensures var w := Run(START, [Queue(7, 1, false), Begin(0), CloseWindow(0)]);
            Live(w, 7, 0) && Closing(w, 0) && !w.cycles[0].followup && !SomeChild(w, 0, Cancelled)
  {
    var opening := [Queue(7, 1, false), Begin(0)];
    assert opening + [CloseWindow(0)] == [Queue(7, 1, false), Begin(0), CloseWindow(0)];
    OpenAndBegin();
    RunSnoc(START, opening, CloseWindow(0));
  }

  /** One user's first cycle, with one child, started. */
  lemma OpenAndBegin()
    ensures var w := Run(START, [Queue(7, 1, false), Begin(0)]);
            && w.cycles == map[0 := Cycle(7, Running, [1], false, false, false, false, false, false, None)]
            && w.children == map[1 := Child(7, 0, Pending, false, false)]
            && w.runners == map[0 := Collecting] && w.nextId == 2
  {
    assert [Queue(7, 1, false)] + [Begin(0)] == [Queue(7, 1, false), Begin(0)]
           && [] + [Queue(7, 1, false)] == [Queue(7, 1, false)];
    RunSnoc(START, [], Queue(7, 1, false));
    RunSnoc(START, [Queue(7, 1, false)], Begin(0));
    var w := Do(START, Queue(7, 1, false));
    assert ChildIds(0, 1) == [1] && NewIds(0, 1) == {1};
    assert w.children == map[1 := Child(7, 0, Pending, false, false)];
  }

  lemma CycleInSound(w: World)
    requires Sound(w)
    ensures forall c :: c in w.cycles ==> RecoveryOk(w, c)
  {
    forall c | c in w.cycles
      ensures RecoveryOk(w, c)
    {
      CycleParts(w, c);
    }
  }

  /** A request is served at most once: the stamp, once set, names the same cycle for ever. */
  lemma {:induction false} ServedOnce(before: seq<Action>, later: seq<Action>, c: Id)
    requires c in Run(START, before).cycles && Run(START, before).cycles[c].recovery.Some?
    ensures var w := Run(START, before + later);
            c in w.cycles && w.cycles[c].recovery == Run(START, before).cycles[c].recovery && !Owed(w.cycles[c])
  {
    hide Do, Sound;
    if later == [] {
      assert before + later == before;
    } else {
      var init := later[..|later| - 1];
      ServedOnce(before, init, c);
      assert (before + later)[..|before + later| - 1] == before + init;
      EveryRunIsSound(before + init);
      StepPersists(Run(START, before + init), later[|later| - 1], c);
    }
  }

  /** Admission depends on live cycles only: an ended cycle leaves no child that could block the next one. */
  lemma IdleWithoutLiveCycle(w: World, u: User)
    requires Sound(w)
    ensures Idle(w, u) <==> forall c :: c in w.cycles ==> !Live(w, u, c)
  {
    hide StateOk, CheckpointsOk, RecoveryOk, ListsOwn;
    if forall c :: c in w.cycles ==> !Live(w, u, c) {
      forall k | k in w.children && w.children[k].user == u
        ensures !Active(w.children[k].status)
      {
        assert ChildOk(w, k);
        assert !Live(w, u, w.children[k].parent);
      }
    }
  }

  /** An automatic request is recorded on the live cycle, or starts its own when one can be queued. */
  lemma RequestIsTaken(w: World, u: User, targets: nat, busyElsewhere: bool)
    requires Sound(w)
    ensures var w' := Do(w, Request(u, targets, busyElsewhere));
            if c :| Live(w, u, c) then Live(w', u, c) && w'.cycles[c].followup
            else if !busyElsewhere && targets > 0
            then Live(w', u, w.nextId) && w.nextId !in w.cycles && w'.cycles[w.nextId].automatic
                 && |w'.cycles[w.nextId].children| == targets
            else w' == w
  {
    hide Sound, NewIds;
    NextIdIsNew(w);
    IdleWithoutLiveCycle(w, u);
  }

  /** An owed request stays owed until a commit serves it. */
  lemma OwedStep(w: World, a: Action, c: Id)
    requires Sound(w) && c in w.cycles && Owed(w.cycles[c])
    ensures var w' := Do(w, a);
            && c in w'.cycles
            && (w'.cycles[c] == w.cycles[c]
                || (a.Retry? && w'.cycles[c].recovery == Some(w.nextId) && Live(w', w.cycles[c].user, w.nextId)))
  {
    hide Sound, SomeChild, CheckpointsOk, Idle, NewIds;
    StateFacts(w, c);
    NextIdIsNew(w);
  }

  lemma {:induction false} OwedNeverLost(before: seq<Action>, later: seq<Action>, c: Id)
    requires c in Run(START, before).cycles && Owed(Run(START, before).cycles[c])
    ensures var w := Run(START, before + later);
            && c in w.cycles
            && (w.cycles[c] == Run(START, before).cycles[c] || (w.cycles[c].recovery.Some? && RecoveryOk(w, c)))
  {
    hide Do, Sound;
    EveryRunIsSound(before + later);
    CycleInSound(Run(START, before + later));
    if later == [] {
      assert before + later == before;
    } else {
      var init := later[..|later| - 1];
      OwedNeverLost(before, init, c);
      assert (before + later)[..|before + later| - 1] == before + init;
      EveryRunIsSound(before + init);
      var w, a := Run(START, before + init), later[|later| - 1];
      StepPersists(w, a, c);
      if w.cycles[c].recovery.None? {
        OwedStep(w, a, c);
      }
    }
  }

  lemma NewestIsLive(w: World, u: User, targets: nat)
    ensures var w' := Enqueue(w, u, targets, true);
            Live(w', u, w.nextId) && |w'.cycles[w.nextId].children| == targets && !Owed(w'.cycles[w.nextId])
  {}

  lemma StampSettles()
    ensures forall cycle: Cycle, d :: !Owed(cycle.(followup := false, recovery := Some(d)))
  {}

  /** A retry for an idle user serves every owed request of that user with one new cycle, and only those. */
  lemma RetryServesAll(w: World, u: User, targets: nat)
    requires Sound(w) && Idle(w, u) && targets > 0 && exists c :: OwedTo(w, u, c)
    ensures var w' := Do(w, Retry(u, targets, false));
            && (forall c :: !OwedTo(w', u, c))
            && (forall c :: OwedTo(w, u, c) ==> c in w'.cycles && w'.cycles[c].recovery == Some(w.nextId))
            && (forall c :: c in w.cycles && !OwedTo(w, u, c) ==> c in w'.cycles && w'.cycles[c] == w.cycles[c])
            && Live(w', u, w.nextId) && |w'.cycles[w.nextId].children| == targets
  {
    hide Sound, Idle, Enqueue, Serve, Owed;
    NextIdIsNew(w);
    EnqueueFrame(w, u, targets, true);
    ServeFrame(w, u, targets);
    NewestIsLive(w, u, targets);
    StampSettles();
    var c :| OwedTo(w, u, c);
    assert c in w.cycles;
    assert Do(w, Retry(u, targets, false)) == Serve(w, u, targets);
  }

  /** Which of cancel and reconcile commits first decides for good. */
  lemma {:induction false} FirstDecisionIsFinal(before: seq<Action>, later: seq<Action>, c: Id)
    requires c in Run(START, before).cycles
    ensures var w, w' := Run(START, before), Run(START, before + later);
            && c in w'.cycles
            && (w.cycles[c].cancelRequested ==> !w'.cycles[c].reconciling && !w'.cycles[c].reconciled)
            && (w.cycles[c].reconciling ==> !w'.cycles[c].cancelRequested)
  {
    hide Do, Sound;
    FlagsPersist(before, later, c);
    CyclesStayExclusive(before + later);
    EveryRunIsSound(before + later);
    StateFacts(Run(START, before + later), c);
  }

  lemma {:induction false} FlagsPersist(before: seq<Action>, later: seq<Action>, c: Id)
    requires c in Run(START, before).cycles
    ensures var w, w' := Run(START, before), Run(START, before + later);
            && c in w'.cycles
            && (w.cycles[c].cancelRequested ==> w'.cycles[c].cancelRequested)
            && (w.cycles[c].reconciling ==> w'.cycles[c].reconciling)
  {
    hide Do, Sound;
    if later == [] {
      assert before + later == before;
    } else {
      var init := later[..|later| - 1];
      FlagsPersist(before, init, c);
      assert (before + later)[..|before + later| - 1] == before + init;
      EveryRunIsSound(before + init);
      StepPersists(Run(START, before + init), later[|later| - 1], c);
    }
  }

  /** A provider reports, on a pending job of the cycle, that nothing changed: the job completes with its checkpoint. */
  ghost predicate Reports(w: World, a: Action, c: Id) {
    && a.Provider? && a.step == Unchanged && c in w.runners && w.runners[c] == Collecting
    && a.child in w.children && w.children[a.child].parent == c && w.children[a.child].status == Pending
  }

  ghost predicate Reported(actions: seq<Action>, c: Id) {
    actions != []
    && var before, a := actions[..|actions| - 1], actions[|actions| - 1];
       Reported(before, c) || Reports(Run(START, before), a, c)
  }

  /** The cycle ends with an error, or with a child that failed or did not finish. */
  ghost predicate Fails(w: World, a: Action, c: Id) {
    a.Finish? && a.cycle == c && c in w.cycles && c in w.runners && (a.errored || SomeChild(w, c, Failed))
  }

  ghost predicate FailedByItself(actions: seq<Action>, c: Id) {
    actions != []
    && var before, a := actions[..|actions| - 1], actions[|actions| - 1];
       FailedByItself(before, c) || Fails(Run(START, before), a, c)
  }

  lemma AdvanceCheckpoint(child: Child, step: ProviderStep)
    ensures Advance(child, step).checkpoint == (child.checkpoint || (step == Unchanged && child.status == Pending))
    ensures Advance(child, step).parent == child.parent
  {}

  /** What each step does to the checkpoint of one child of a cycle that has not reconciled. */
  lemma ChildCheckpoint(w: World, a: Action, c: Id, k: Id)
    requires Sound(w) && c in w.cycles && k in w.children && w.children[k].parent == c
    requires c in Do(w, a).cycles && !Do(w, a).cycles[c].reconciled
    ensures var w' := Do(w, a);
            && k in w'.children && w'.children[k].parent == c
            && w'.children[k].checkpoint ==
               ((w.children[k].checkpoint || (Reports(w, a, c) && a.child == k)) && !Fails(w, a, c))
  {
    hide Sound, Do, SomeChild, Advance, CheckpointsOk, Idle;
    StateFacts(w, c);
    CycleAfter(w, a, c);
    ChildAfter(w, a, k);
    if a.Provider? {
      AdvanceCheckpoint(w.children[k], a.step);
    }
  }

  /** A step brings no child to a cycle that exists. */
  lemma NoNewChild(w: World, a: Action, c: Id, k: Id)
    requires Sound(w) && c in w.cycles && k in Do(w, a).children && Do(w, a).children[k].parent == c
    ensures k in w.children && w.children[k].parent == c
  {
    hide Sound, Do, Advance, Settle, CancelChild, SomeChild;
    ChildBefore(w, a, k);
    NextIdIsNew(w);
    if k in w.children {
      ChildAfter(w, a, k);
      if a.Provider? {
        AdvanceCheckpoint(w.children[k], a.step);
      }
      SettledOwner(w.children[k]);
    }
  }

  lemma CheckpointStep(w: World, a: Action, c: Id)
    requires Sound(w) && c in w.cycles && c in Do(w, a).cycles && !Do(w, a).cycles[c].reconciled
    ensures !NoCheckpoints(Do(w, a), c) <==> (!NoCheckpoints(w, c) || Reports(w, a, c)) && !Fails(w, a, c)
  {
    hide Sound, Do, Fails;
    var w' := Do(w, a);
    forall k | k in w'.children && w'.children[k].parent == c
      ensures k in w.children && w.children[k].parent == c
    {
      NoNewChild(w, a, c, k);
    }
    forall k | k in w.children && w.children[k].parent == c
      ensures k in w'.children && w'.children[k].parent == c
      ensures w'.children[k].checkpoint
              == ((w.children[k].checkpoint || (Reports(w, a, c) && a.child == k)) && !Fails(w, a, c))
    {
      ChildCheckpoint(w, a, c, k);
    }
  }

  lemma SettledOwner(child: Child)
    ensures forall reconciled, failed :: Settle(child, reconciled, failed).parent == child.parent
    ensures CancelChild(child).parent == child.parent
  {}

  /** No child of a new cycle has a checkpoint. */
  lemma FreshCycle(w: World, u: User, targets: nat, automatic: bool)
    requires Sound(w)
    ensures var w' := Enqueue(w, u, targets, automatic);
            && (forall c :: c in w'.cycles && c !in w.cycles ==> NoCheckpoints(w', c))
  {
    EnqueueFrame(w, u, targets, automatic);
    assert forall k :: k in w.children ==> ChildOk(w, k);
  }

  /** A cycle that just came into being has no checkpoint. */
  lemma NewCycleStep(w: World, a: Action, c: Id)
    requires Sound(w) && c !in w.cycles
    ensures !Reports(w, a, c) && !Fails(w, a, c)
    ensures c in Do(w, a).cycles ==> NoCheckpoints(Do(w, a), c)
  {
    hide StateOk, RecoveryOk, CheckpointsOk, ListsOwn, SomeChild, Settle;
    assert forall k :: k in w.children ==> ChildOk(w, k) && w.children[k].parent != c;
    hide Sound, Enqueue, Serve;
    match a {
      case Queue(u, targets, _) => FreshCycle(w, u, targets, false);
      case Request(u, targets, _) => FreshCycle(w, u, targets, true);
      case Retry(u, targets, _) =>
        FreshCycle(w, u, targets, true);
        ServeFrame(w, u, targets);
      case _ =>
    }
  }

  /** Only a cycle that has ended can have failed by itself, and no provider reports on it again. */
  lemma {:induction false} EndedForGood(actions: seq<Action>, c: Id)
    requires FailedByItself(actions, c)
    ensures var w := Run(START, actions); c in w.cycles && !Active(w.cycles[c].status) && c !in w.runners
  {
    hide Do, Sound, StateOk, Fails;
    var before, a := actions[..|actions| - 1], actions[|actions| - 1];
    var w := Run(START, before);
    EveryRunIsSound(before);
    EveryRunIsSound(actions);
    if Fails(w, a, c) {
      FailingEnds(w, a, c);
    } else {
      EndedForGood(before, c);
      StepPersists(w, a, c);
    }
    NotRunning(Run(START, actions), c);
  }

  lemma FailingEnds(w: World, a: Action, c: Id)
    requires Fails(w, a, c)
    ensures c in Do(w, a).cycles && !Active(Do(w, a).cycles[c].status)
  {}

  lemma NotRunning(w: World, c: Id)
    requires Sound(w) && c in w.cycles && !Active(w.cycles[c].status)
    ensures c !in w.runners
  {
    hide Sound;
    StateFacts(w, c);
  }

  /**
   A cycle that has not reconciled has a checkpoint exactly when some provider reported no change on one of its pending
   jobs and the cycle did not fail by itself: a restart and a cancellation both leave it there.
   */
  lemma {:induction false} CheckpointsLeft(actions: seq<Action>, c: Id)
    requires c in Run(START, actions).cycles && !Run(START, actions).cycles[c].reconciled
    ensures !NoCheckpoints(Run(START, actions), c) <==> Reported(actions, c) && !FailedByItself(actions, c)
  {
    hide Do, Sound, NoCheckpoints, Reports, Fails;
    var before, a := actions[..|actions| - 1], actions[|actions| - 1];
    var w := Run(START, before);
    EveryRunIsSound(before);
    if c in w.cycles {
      StepPersists(w, a, c);
      CheckpointsLeft(before, c);
      CheckpointStep(w, a, c);
      if FailedByItself(before, c) {
        EndedForGood(before, c);
        NoReportAfter(w, a, c);
      }
    } else {
      NewCycleStep(w, a, c);
      NothingYet(before, c);
    }
  }

  lemma NoReportAfter(w: World, a: Action, c: Id)
    requires c !in w.runners
    ensures !Reports(w, a, c)
  {}

  lemma {:induction false} NothingYet(actions: seq<Action>, c: Id)
    requires c !in Run(START, actions).cycles
    ensures !Reported(actions, c) && !FailedByItself(actions, c)
  {
    hide Do, Sound, Reports, Fails;
    if actions != [] {
      var before, a := actions[..|actions| - 1], actions[|actions| - 1];
      EveryRunIsSound(before);
      if c in Run(START, before).cycles {
        StepPersists(Run(START, before), a, c);
      }
      NothingYet(before, c);
      NewCycleStep(Run(START, before), a, c);
    }
  }

  /** A restart by itself takes no checkpoint away and adds none. */
  lemma RestartCheckpoints(w: World, c: Id)
    requires Sound(w) && c in w.cycles && Active(w.cycles[c].status)
    ensures var w' := Do(w, Restart);
            && w'.cycles[c].status == Failed && w'.cycles[c].aborted
            && (NoCheckpoints(w', c) <==> NoCheckpoints(w, c))
  {
    hide Sound;
    var w' := RestartAll(w);
    forall k | k in w.children
      ensures k in w'.children && w'.children[k].parent == w.children[k].parent
           && w'.children[k].checkpoint == w.children[k].checkpoint
    {}
  }

  /** The first cycle of a user, whose only provider reported no change. */
  lemma UnchangedProvider()
    ensures var w := Run(START, [Queue(7, 1, false), Begin(0), Provider(1, Unchanged)]);
            && w.cycles == map[0 := Cycle(7, Running, [1], false, false, false, false, false, false, None)]
            && w.children == map[1 := Child(7, 0, Completed, true, false)]
            && w.runners == map[0 := Collecting]
  {
    var opening := [Queue(7, 1, false), Begin(0)];
    assert opening + [Provider(1, Unchanged)] == [Queue(7, 1, false), Begin(0), Provider(1, Unchanged)];
    OpenAndBegin();
    RunSnoc(START, opening, Provider(1, Unchanged));
  }

  /** A run that fails before reconciling and keeps a checkpoint: an unchanged provider, then a restart. */
  lemma RestartMayKeepACheckpoint()
    ensures var w := Run(START, [Queue(7, 1, false), Begin(0), Provider(1, Unchanged)] + [Restart]);
            && 0 in w.cycles && w.cycles[0].status == Failed && !w.cycles[0].reconciled
            && !NoCheckpoints(w, 0)
  {
    UnchangedProvider();
    RunSnoc(START, [Queue(7, 1, false), Begin(0), Provider(1, Unchanged)], Restart);
    var w := Run(START, [Queue(7, 1, false), Begin(0), Provider(1, Unchanged)] + [Restart]);
    assert w.children[1].checkpoint && w.children[1].parent == 0;
  }

  /** A cancelled cycle keeps it as well. */
  lemma CancelMayKeepACheckpoint()
    ensures var reported := [Queue(7, 1, false), Begin(0), Provider(1, Unchanged)];
            var w := Run(START, reported + [Cancel(0)] + [CloseWindow(0)] + [Finish(0, false)]);
            && 0 in w.cycles && w.cycles[0].status == Cancelled && !w.cycles[0].reconciled
            && !NoCheckpoints(w, 0)
  {
    var reported := [Queue(7, 1, false), Begin(0), Provider(1, Unchanged)];
    UnchangedProvider();
    RunSnoc(START, reported, Cancel(0));
    RunSnoc(START, reported + [Cancel(0)], CloseWindow(0));
    RunSnoc(START, reported + [Cancel(0)] + [CloseWindow(0)], Finish(0, false));
    CancelledUnchanged(Run(START, reported));
  }

  lemma CancelledUnchanged(w: World)
    requires w.cycles == map[0 := Cycle(7, Running, [1], false, false, false, false, false, false, None)]
    requires w.children == map[1 := Child(7, 0, Completed, true, false)] && w.runners == map[0 := Collecting]
    ensures var w' := Do(Do(Do(w, Cancel(0)), CloseWindow(0)), Finish(0, false));
            && 0 in w'.cycles && w'.cycles[0].status == Cancelled && !w'.cycles[0].reconciled
            && !NoCheckpoints(w', 0)
  {
    var cancelled := Do(w, Cancel(0));
    assert cancelled.children == w.children && cancelled.cycles[0].cancelRequested;
    var closed := Do(cancelled, CloseWindow(0));
    assert closed.children == w.children && closed.runners == map[0 := SawCancel];
    assert closed.cycles[0].children == [1];
    assert !SomeChild(closed, 0, Failed);
    var ended := Do(closed, Finish(0, false));
    assert ended.children[1].checkpoint && ended.children[1].parent == 0;
  }
}
