// A claimed teardown can always run to its end.
module TeardownProgress {
  // Joining waits for a thread, and a thread waits for the mailbox to be closed and drained.
  // From every reachable state in which a call owns the teardown, its own steps and steps of
  // the two worker threads lead to the end of it: nothing waits for anything that cannot come.

  import opened Option
  import opened SessionLifecycle
  import opened SessionSafety
  import opened SessionProgress

  // Past the closing of the mailbox of its workers, a teardown finds it closed.
  predicate ClosedOk(w: World) {
    var t := Teardown(w);
    TookOver(t) && t.value.workers && t.value.stage.Rank() > CloseMailbox.Rank() && w.s.mailbox.Some?
    ==> w.s.mailbox.value.closed
  }

  lemma {:induction false} FirstStagesKeepClosed(w: World, id: nat)
    requires id in w.calls && w.calls[id].pc.Tearing? && w.s.owner == Some(id) && w.calls[id].pc.tear.stage.Rank() < 3
    ensures ClosedOk(DoTearDown(w, id))
  {
  }

  lemma {:induction false} ClosingCloses(w: World, id: nat)
    requires id in w.calls && w.calls[id].pc.Tearing? && w.s.owner == Some(id) && w.calls[id].pc.tear.stage == CloseMailbox
    ensures ClosedOk(DoTearDown(w, id))
  {
  }

  lemma {:induction false} LastStagesKeepClosed(w: World, id: nat)
    requires ClosedOk(w) && id in w.calls && w.calls[id].pc.Tearing? && w.s.owner == Some(id)
    requires w.calls[id].pc.tear.stage.Rank() > 3
    ensures ClosedOk(DoTearDown(w, id))
  {
  }

  lemma {:induction false} TearDownKeepsClosed(w: World, id: nat)
    requires Inv(w) && ClosedOk(w) && id in w.calls && w.calls[id].pc.Tearing?
    ensures ClosedOk(DoTearDown(w, id))
  {
    assert CallOk(w.s, Teardown(w), id, w.calls[id]);
    var rank := w.calls[id].pc.tear.stage.Rank();
    if rank < 3 { FirstStagesKeepClosed(w, id); } else if rank == 3 { ClosingCloses(w, id); } else { LastStagesKeepClosed(w, id); }
  }

  lemma {:induction false} HappensKeepsClosed(w: World, event: Event)
    requires ClosedOk(w)
    ensures ClosedOk(Next(w, Background(event)))
  {
  }

  // A new run is claimed, or gets its workers, only when no teardown has taken one over.
  lemma {:induction false} WorkersKeepClosed(w: World, id: nat, creation: Creation)
    requires Inv(w) && ClosedOk(w) && At(w, id, CreateWorkers)
    ensures ClosedOk(DoMakeWorkers(w, id, creation))
  {
    assert CallOk(w.s, Teardown(w), id, w.calls[id]);
  }

  // A claim begins a teardown that has not closed anything yet.
  lemma {:induction false} ClaimKeepsClosed(w: World, id: nat, pc: Pc)
    requires id in w.calls && (pc == StopClaimed || (pc.Tearing? && pc.tear.stage == Snapshot))
    ensures ClosedOk(TakeClaim(w, id, pc))
  {
  }

  // The owner of the claim is where owners are.
  predicate OwnerHolds(w: World, id: nat) {
    w.s.owner == Some(id) ==> id in w.calls && HoldsClaim(w.calls[id])
  }

  lemma {:induction false} OwnerIs(w: World, id: nat)
    requires Inv(w)
    ensures OwnerHolds(w, id)
  {
    if id in w.calls { assert OwnershipOk(w.s, Teardown(w), id, w.calls[id]); }
  }

  lemma {:induction false} EarlyKeepsClosed(w: World, step: Step)
    requires ClosedOk(w) && !step.Background? && OwnerHolds(w, step.id)
    requires step.NewCall? || step.RejectStart? || step.ClaimRun? || step.SourceReturns? || step.CommitSource? || step.StopOwnSource?
    ensures ClosedOk(Next(w, step))
  {
  }

  lemma {:induction false} LateKeepsClosed(w: World, step: Step)
    requires ClosedOk(w) && !step.Background? && OwnerHolds(w, step.id)
    requires step.CommitTransport? || step.StopOwnTransport? || step.CheckClaimed?
    ensures ClosedOk(Next(w, step))
  {
  }

  lemma {:induction false} CallKeepsClosed(w: World, step: Step)
    requires ClosedOk(w) && !step.Background? && OwnerHolds(w, step.id)
    requires step.CheckTransport? || step.TransportReturns? || step.EnterStop?
    ensures ClosedOk(Next(w, step))
  {
  }

  lemma {:induction false} OtherKeepsClosed(w: World, step: Step)
    requires Inv(w) && ClosedOk(w) && !step.Background? && !step.TearDown?
    ensures ClosedOk(Next(w, step))
  {
    OwnerIs(w, step.id);
    match step
    case MakeWorkers(id, creation) => if At(w, id, CreateWorkers) { WorkersKeepClosed(w, id, creation); }
    case ClaimTeardown(id) => if id in w.calls { ClaimKeepsClosed(w, id, StopClaimed); }
    case ClaimAfterFailure(id) => if id in w.calls { ClaimKeepsClosed(w, id, Tearing(NewTear(true))); }
    case CheckTransport(_) => CallKeepsClosed(w, step);
    case TransportReturns(_, _) => CallKeepsClosed(w, step);
    case CommitTransport(_) => LateKeepsClosed(w, step);
    case StopOwnTransport(_) => LateKeepsClosed(w, step);
    case EnterStop(_) => CallKeepsClosed(w, step);
    case CheckClaimed(_) => LateKeepsClosed(w, step);
    case _ => EarlyKeepsClosed(w, step);
  }

  lemma {:induction false} StepKeepsClosed(w: World, step: Step)
    requires Inv(w) && ClosedOk(w)
    ensures ClosedOk(Next(w, step))
  {
    match step
    case TearDown(id) => if id in w.calls && w.calls[id].pc.Tearing? { TearDownKeepsClosed(w, id); }
    case Background(event) => HappensKeepsClosed(w, event);
    case _ => OtherKeepsClosed(w, step);
  }

  // ---- the threads can exit ----------------------------------------------------------------------------

  // Both invariants hold.  (Quantified, like Leads below: proofs take it as a whole.)
  ghost predicate Reached(w: World) {
    forall u :: u == w ==> Inv(u) && ClosedOk(u)
  }

  // Call id is in the middle of the teardown, past its claim check.
  ghost predicate Tears(w: World, id: nat) {
    Reached(w) && id in w.calls && w.calls[id].pc.Tearing?
  }

  predicate ThreadEvent(event: Event) {
    event.SchedulerExits? || event.DispatcherWakes? || event.PopFrame? || event == EnqueueFrame(false) || event.DispatcherExits?
  }

  // What the owner and the worker threads do themselves.
  predicate Helps(step: Step, id: nat) {
    match step
    case TearDown(i) => i == id
    case Background(event) => ThreadEvent(event)
    case _ => false
  }

  predicate AllHelp(steps: seq<Step>, id: nat) {
    forall i :: 0 <= i < |steps| ==> Helps(steps[i], id)
  }

  // The shared state as the owner of a teardown that took the run over finds it.
  lemma {:induction false} OwnerKnows(w: World, id: nat)
    requires Tears(w, id) && w.calls[id].pc.tear.stage != Snapshot
    ensures w.s.owner == Some(id) && Teardown(w) == Some(w.calls[id].pc.tear)
    ensures w.s.stopRequested && (w.calls[id].pc.tear.faulted ==> w.s.state == Faulted)
    ensures !w.s.dispatcher.NoThread? ==> w.s.mailbox.Some?
    ensures w.calls[id].pc.tear.workers && w.calls[id].pc.tear.stage == JoinDispatcher && w.s.mailbox.Some? ==>
              w.s.mailbox.value.closed
  {
    assert Inv(w) && ClosedOk(w);
    assert CallOk(w.s, Teardown(w), id, w.calls[id]);
  }

  lemma {:induction false} ThreadKeepsTears(w: World, id: nat, event: Event)
    requires Tears(w, id)
    ensures Tears(Next(w, Background(event)), id) && Next(w, Background(event)).calls == w.calls
  {
    StepKeepsReached(w, Background(event));
  }

  lemma {:induction false} StepKeepsReached(w: World, step: Step)
    requires Reached(w)
    ensures Reached(Next(w, step))
  {
    assert Inv(w) && ClosedOk(w);
    StepKeepsInv(w, step);
    StepKeepsClosed(w, step);
  }

  lemma {:induction false} RunKeepsReached(w: World, steps: seq<Step>)
    requires Reached(w)
    ensures Reached(Run(w, steps))
    decreases |steps|
  {
    if steps != [] {
      StepKeepsReached(w, steps[0]);
      RunKeepsReached(Next(w, steps[0]), steps[1..]);
    }
  }

  lemma {:induction false} StartIsReached()
    ensures Reached(INITIAL)
  {
    InitialInv();
  }

  // How far the dispatch worker is from its exit.
  function Distance(s: Shared): nat {
    match s.dispatcher
    case Alive(_, looping, holding) =>
      (if s.mailbox.Some? then 2 * s.mailbox.value.waiting else 0) + (if holding then 1 else 0) + (if looping then 0 else 1) + 1
    case _ => 0
  }

  // While it lives, the dispatch worker can do something that brings it closer to its exit.
  function DispatcherEvent(s: Shared): Event {
    if s.dispatcher.Alive? && !s.dispatcher.looping then DispatcherWakes
    else if s.dispatcher.Alive? && s.dispatcher.holding then EnqueueFrame(false)
    else if s.mailbox.Some? && s.mailbox.value.waiting > 0 then PopFrame
    else DispatcherExits
  }

  lemma {:induction false} DispatcherAdvances(s: Shared)
    requires s.dispatcher.Alive? && s.stopRequested && s.mailbox.Some? && s.mailbox.value.closed
    ensures Distance(Happens(s, DispatcherEvent(s))) < Distance(s)
  {
  }

  // The steps lead from one state to the other.  (Quantified, so that a proof unfolds the run only
  // where it asks for it.)
  ghost predicate Leads(w: World, steps: seq<Step>, end: World) {
    forall u :: u == w ==> Run(u, steps) == end
  }

  lemma {:induction false} NoStepLeads(w: World)
    ensures Leads(w, [], w)
  {
  }

  // A run behind a step, and behind another run.
  lemma {:induction false} StepThenRun(w: World, step: Step, next: World, rest: seq<Step>, end: World)
    requires next == Next(w, step) && Leads(next, rest, end)
    ensures Leads(w, [step] + rest, end)
  {
    assert ([step] + rest)[1..] == rest;
    assert Run(next, rest) == end;
  }

  lemma {:induction false} RunThenRun(w: World, a: seq<Step>, mid: World, b: seq<Step>, end: World)
    requires Leads(w, a, mid) && Leads(mid, b, end)
    ensures Leads(w, a + b, end)
  {
    assert Run(w, a) == mid && Run(mid, b) == end;
    RunConcat(w, a, b);
  }

  lemma {:induction false} DispatcherCanExit(w: World, id: nat) returns (steps: seq<Step>, end: World)
    requires Tears(w, id) && w.calls[id].pc.tear.stage == JoinDispatcher && w.calls[id].pc.tear.workers
    ensures Leads(w, steps, end) && AllHelp(steps, id)
    ensures Tears(end, id) && end.calls == w.calls && !end.s.dispatcher.Alive?
    decreases Distance(w.s)
  {
    if !w.s.dispatcher.Alive? {
      steps, end := [], w;
      NoStepLeads(w);
    } else {
      var first := Background(DispatcherEvent(w.s));
      var next := DispatcherMoves(w, id);
      var rest: seq<Step>;
      rest, end := DispatcherCanExit(next, id);
      steps := [first] + rest;
      StepThenRun(w, first, next, rest, end);
    }
  }

  lemma {:induction false} DispatcherMoves(w: World, id: nat) returns (next: World)
    requires Tears(w, id) && w.calls[id].pc.tear.stage == JoinDispatcher && w.calls[id].pc.tear.workers
    requires w.s.dispatcher.Alive?
    ensures next == Next(w, Background(DispatcherEvent(w.s)))
    ensures Tears(next, id) && next.calls == w.calls && Distance(next.s) < Distance(w.s)
  {
    OwnerKnows(w, id);
    DispatcherAdvances(w.s);
    ThreadKeepsTears(w, id, DispatcherEvent(w.s));
    next := Next(w, Background(DispatcherEvent(w.s)));
  }

  lemma {:induction false} SchedulerCanExit(w: World, id: nat) returns (steps: seq<Step>, end: World)
    requires Tears(w, id) && w.calls[id].pc.tear.stage == JoinScheduler
    ensures Leads(w, steps, end) && AllHelp(steps, id)
    ensures Tears(end, id) && end.calls == w.calls && !end.s.scheduler.Alive?
  {
    steps, end := [], w;
    NoStepLeads(w);
    if w.s.scheduler.Alive? {
      OwnerKnows(w, id);
      ThreadKeepsTears(w, id, SchedulerExits);
      end := Next(w, Background(SchedulerExits));
      NoStepLeads(end);
      StepThenRun(w, Background(SchedulerExits), end, [], end);
      steps := [Background(SchedulerExits)] + [];
    }
  }

  // ---- the teardown can finish -------------------------------------------------------------------------

  // The teardown is over, and the session free for the next claim.
  predicate Over(w: World, id: nat, faulted: bool) {
    At(w, id, Done) && w.s.owner.None? && !w.s.teardownStarted
    && w.s.state == if faulted then Faulted else Stopped
  }

  // A join does not wait: the thread is gone, or not this teardown's.
  predicate CanStep(w: World, id: nat)
    requires id in w.calls && w.calls[id].pc.Tearing?
  {
    var t := w.calls[id].pc.tear;
    && (t.stage == JoinScheduler ==> !t.workers || !w.s.scheduler.Alive?)
    && (t.stage == JoinDispatcher ==> !t.workers || !w.s.dispatcher.Alive?)
  }

  // The next stage, whatever the shared state.
  lemma {:induction false} StageAdvances(w: World, id: nat)
    requires id in w.calls && w.calls[id].pc.Tearing? && CanStep(w, id) && w.calls[id].pc.tear.stage != Finish
    ensures var t, next := w.calls[id].pc.tear, DoTearDown(w, id);
            && id in next.calls && next.calls[id].pc.Tearing?
            && next.calls[id].pc.tear.stage.Rank() == t.stage.Rank() + 1 && next.calls[id].pc.tear.faulted == t.faulted
  {
  }

  lemma {:induction false} FinishIsOver(w: World, id: nat)
    requires Tears(w, id) && w.calls[id].pc.tear.stage == Finish
    ensures Over(DoTearDown(w, id), id, w.calls[id].pc.tear.faulted)
  {
    OwnerKnows(w, id);
  }

  lemma {:induction false} TearStepAdvances(w: World, id: nat, next: World)
    requires Tears(w, id) && CanStep(w, id) && next == Next(w, TearDown(id))
    ensures var t := w.calls[id].pc.tear;
            if t.stage == Finish then Over(next, id, t.faulted)
            else Tears(next, id) && next.calls[id].pc.tear.stage.Rank() == t.stage.Rank() + 1
                 && next.calls[id].pc.tear.faulted == t.faulted
  {
    StepKeepsReached(w, TearDown(id));
    if w.calls[id].pc.tear.stage == Finish { FinishIsOver(w, id); } else { StageAdvances(w, id); }
  }

  lemma {:induction false} CanWait(w: World, id: nat) returns (steps: seq<Step>, end: World)
    requires Tears(w, id)
    ensures Leads(w, steps, end) && AllHelp(steps, id) && Tears(end, id) && end.calls == w.calls && CanStep(end, id)
  {
    var t := w.calls[id].pc.tear;
    if t.stage == JoinScheduler { steps, end := SchedulerCanExit(w, id); }
    else if t.stage == JoinDispatcher && t.workers { steps, end := DispatcherCanExit(w, id); }
    else { steps, end := [], w; NoStepLeads(w); }
  }

  lemma {:induction false} TearsToTheEnd(w: World, id: nat) returns (steps: seq<Step>, end: World)
    requires Tears(w, id)
    ensures Leads(w, steps, end) && AllHelp(steps, id) && Over(end, id, w.calls[id].pc.tear.faulted)
    decreases 8 - w.calls[id].pc.tear.stage.Rank()
  {
    var waits, mid := CanWait(w, id);
    var next := Next(mid, TearDown(id));
    TearStepAdvances(mid, id, next);
    var rest: seq<Step> := [];
    end := next;
    NoStepLeads(next);
    if w.calls[id].pc.tear.stage != Finish { rest, end := TearsToTheEnd(next, id); }
    StepThenRun(mid, TearDown(id), next, rest, end);
    RunThenRun(w, waits, mid, [TearDown(id)] + rest, end);
    steps := waits + ([TearDown(id)] + rest);
  }

  // In every reachable state the call that owns a teardown can finish it with its own steps and
  // those of the worker threads; a failure teardown leaves the session Faulted, a stop Stopped.
  lemma {:induction false} TeardownCanFinish(before: seq<Step>, id: nat) returns (steps: seq<Step>, end: World)
    requires id in Run(INITIAL, before).calls && Run(INITIAL, before).calls[id].pc.Tearing?
    ensures end == Run(Run(INITIAL, before), steps) && AllHelp(steps, id)
    ensures Over(end, id, Run(INITIAL, before).calls[id].pc.tear.faulted)
  {
    StartIsReached();
    RunKeepsReached(INITIAL, before);
    steps, end := TearsToTheEnd(Run(INITIAL, before), id);
    assert Leads(Run(INITIAL, before), steps, end);
  }

  // ---- a stop() can finish -----------------------------------------------------------------------------

  // Steps of the given calls, and of the worker threads.
  predicate Among(step: Step, one: nat, two: nat) {
    match step
    case Background(event) => ThreadEvent(event)
    case _ => step.id == one || step.id == two
  }

  predicate AllAmong(steps: seq<Step>, one: nat, two: nat) {
    forall i :: 0 <= i < |steps| ==> Among(steps[i], one, two)
  }

  ghost predicate SamePositions(w: World, after: World, id: nat) {
    forall other :: other in w.calls && other != id ==> other in after.calls && after.calls[other].pc == w.calls[other].pc
  }

  lemma {:induction false} HelpersKeepPosition(w: World, steps: seq<Step>, owner: nat, id: nat)
    requires AllHelp(steps, owner) && id != owner && id in w.calls
    ensures id in Run(w, steps).calls && Run(w, steps).calls[id].pc == w.calls[id].pc
    decreases |steps|
  {
    if steps != [] {
      assert Helps(steps[0], owner);
      OthersKeepPosition(w, steps[0], id);
      HelpersKeepPosition(Next(w, steps[0]), steps[1..], owner, id);
    }
  }

  lemma {:induction false} HelpersKeepOthers(w: World, steps: seq<Step>, owner: nat, end: World)
    requires Reached(w) && Leads(w, steps, end) && AllHelp(steps, owner)
    ensures Reached(end) && SamePositions(w, end, owner)
  {
    assert Run(w, steps) == end;
    RunKeepsReached(w, steps);
    forall other | other in w.calls && other != owner
      ensures other in end.calls && end.calls[other].pc == w.calls[other].pc
    {
      HelpersKeepPosition(w, steps, owner, other);
    }
  }

  // A call that claimed a teardown ends it; nobody else moves.
  lemma {:induction false} TearerCanFinish(w: World, id: nat) returns (steps: seq<Step>, end: World)
    requires Reached(w) && id in w.calls && w.calls[id].pc.Tearing?
    ensures Leads(w, steps, end) && AllAmong(steps, id, id) && Reached(end) && SamePositions(w, end, id)
    ensures Over(end, id, w.calls[id].pc.tear.faulted)
  {
    steps, end := TearsToTheEnd(w, id);
    HelpersKeepOthers(w, steps, id, end);
  }

  lemma {:induction false} CheckedClaim(w: World, id: nat) returns (next: World)
    requires Reached(w) && At(w, id, StopClaimed)
    ensures next == Next(w, CheckClaimed(id)) && Reached(next) && SamePositions(w, next, id)
    ensures if w.s.state == Stopped then At(next, id, Done) && next.s.owner.None? && next.s.state == Stopped
            else At(next, id, Tearing(NewTear(false)))
  {
    StepKeepsReached(w, CheckClaimed(id));
    next := Next(w, CheckClaimed(id));
  }

  // A stop() that has claimed ends with the session Stopped.
  lemma {:induction false} ClaimedCanFinish(w: World, id: nat) returns (steps: seq<Step>, end: World)
    requires Reached(w) && At(w, id, StopClaimed)
    ensures Leads(w, steps, end) && AllAmong(steps, id, id) && Reached(end) && SamePositions(w, end, id)
    ensures At(end, id, Done) && end.s.owner.None? && end.s.state == Stopped
  {
    var next := CheckedClaim(w, id);
    var rest: seq<Step> := [];
    end := next;
    NoStepLeads(next);
    if next.calls[id].pc.Tearing? { rest, end := TearerCanFinish(next, id); }
    StepThenRun(w, CheckClaimed(id), next, rest, end);
    steps := [CheckClaimed(id)] + rest;
  }

  // Whoever holds the claim can give it up.
  lemma {:induction false} ClaimIsFreed(w: World, id: nat) returns (steps: seq<Step>, end: World, owner: nat)
    requires Reached(w) && At(w, id, StopClaim)
    ensures Leads(w, steps, end) && AllAmong(steps, id, owner) && Reached(end)
    ensures end.s.owner.None? && At(end, id, StopClaim)
  {
    owner, steps, end := id, [], w;
    NoStepLeads(w);
    if w.s.owner.Some? {
      owner := w.s.owner.value;
      assert Inv(w);
      assert CallOk(w.s, Teardown(w), owner, w.calls[owner]);
      if w.calls[owner].pc.Tearing? { steps, end := TearerCanFinish(w, owner); } else { steps, end := ClaimedCanFinish(w, owner); }
    }
  }

  lemma {:induction false} FreeClaimIsTaken(w: World, id: nat) returns (next: World)
    requires Reached(w) && w.s.owner.None? && At(w, id, StopClaim)
    ensures next == Next(w, ClaimTeardown(id)) && Reached(next) && At(next, id, StopClaimed)
  {
    assert Inv(w);
    StepKeepsReached(w, ClaimTeardown(id));
    next := Next(w, ClaimTeardown(id));
  }

  lemma {:induction false} WaitingCanFinish(w: World, id: nat) returns (steps: seq<Step>, end: World, owner: nat)
    requires Reached(w) && At(w, id, StopClaim)
    ensures Leads(w, steps, end) && AllAmong(steps, id, owner) && At(end, id, Done) && end.s.state == Stopped
  {
    var wait, free;
    wait, free, owner := ClaimIsFreed(w, id);
    var next := FreeClaimIsTaken(free, id);
    var rest: seq<Step>;
    rest, end := ClaimedCanFinish(next, id);
    StepThenRun(free, ClaimTeardown(id), next, rest, end);
    RunThenRun(w, wait, free, [ClaimTeardown(id)] + rest, end);
    steps := wait + ([ClaimTeardown(id)] + rest);
  }

  lemma {:induction false} Enters(w: World, id: nat) returns (next: World)
    requires Reached(w) && At(w, id, StopEnter)
    ensures next == Next(w, EnterStop(id)) && Reached(next) && next.s == w.s
    ensures At(next, id, if w.s.state == Stopped then Done else StopClaim)
  {
    StepKeepsReached(w, EnterStop(id));
    next := Next(w, EnterStop(id));
  }

  // From every reachable state a stop() can end with the session Stopped: the claim it may have
  // to wait for can be given up, and what it then tears down can be torn down.
  lemma {:induction false} StopCanFinish(before: seq<Step>, id: nat) returns (steps: seq<Step>, end: World, owner: nat)
    requires At(Run(INITIAL, before), id, StopEnter)
    ensures end == Run(Run(INITIAL, before), steps) && AllAmong(steps, id, owner)
    ensures At(end, id, Done) && end.s.state == Stopped
  {
    var w := Run(INITIAL, before);
    StartIsReached();
    RunKeepsReached(INITIAL, before);
    var next := Enters(w, id);
    var rest: seq<Step> := [];
    end, owner := next, id;
    NoStepLeads(next);
    if w.s.state != Stopped { rest, end, owner := WaitingCanFinish(next, id); }
    StepThenRun(w, EnterStop(id), next, rest, end);
    steps := [EnterStop(id)] + rest;
    assert Leads(w, steps, end);
  }

  // ---- a start() that fails, or has lost its run -------------------------------------------------------

  // On its way to the failure teardown: a component that threw is stopped first.
  predicate Failing(pc: Pc) {
    pc == OwnSourceStop(true) || pc == OwnTransportStop(true) || pc == ClaimFailure
  }

  // On its way out without one.
  predicate Leaving(pc: Pc) {
    pc == OwnSourceStop(false) || pc == OwnTransportStop(false) || pc == Done
  }

  // What a start() commits when something did not come up.
  predicate CommitsFailure(w: World, id: nat, step: Step) {
    id in w.calls
    && match step
       case CommitSource(i) => i == id && w.calls[id].pc.SourceBack? && w.calls[id].pc.outcome != Accepted
       case MakeWorkers(i, creation) => i == id && w.calls[id].pc == CreateWorkers && creation != BothCreated
       case CommitTransport(i) => i == id && w.calls[id].pc.TransportBack? && w.calls[id].pc.outcome != Accepted
       case _ => false
  }

  // A failure of the current run is on its way to its teardown; one of a lost run is not.
  lemma {:induction false} FailureIsCommitted(w: World, id: nat, step: Step)
    requires Inv(w) && CommitsFailure(w, id, step)
    ensures var next := Next(w, step);
            && id in next.calls && next.s.state == w.s.state && next.s.owner == w.s.owner
            && next.s.teardownStarted == w.s.teardownStarted && next.s.generation == w.s.generation
            && next.calls[id].gen == w.calls[id].gen
            && (if StillValid(w.s, w.calls[id]) then Failing(next.calls[id].pc) else Leaving(next.calls[id].pc))
  {
    assert PcOk(w.calls[id]) by { assert CallOk(w.s, Teardown(w), id, w.calls[id]); }
  }

  // A lost run is left as well when nothing failed.
  lemma {:induction false} LostRunIsLeft(w: World, id: nat, step: Step)
    requires id in w.calls && !StillValid(w.s, w.calls[id])
    requires || (step == CommitSource(id) && w.calls[id].pc.SourceBack?) || (step == CheckTransport(id) && At(w, id, TransportCheck))
             || (step.MakeWorkers? && step.id == id && At(w, id, CreateWorkers))
             || (step == CommitTransport(id) && w.calls[id].pc.TransportBack?)
    ensures id in Next(w, step).calls && Leaving(Next(w, step).calls[id].pc)
  {
  }

  lemma {:induction false} OwnStopIsDone(w: World, id: nat) returns (steps: seq<Step>, next: World)
    requires Reached(w) && id in w.calls && (Failing(w.calls[id].pc) || Leaving(w.calls[id].pc))
    ensures Leads(w, steps, next) && AllAmong(steps, id, id) && Reached(next) && next.s == w.s && id in next.calls
    ensures At(next, id, if Failing(w.calls[id].pc) then ClaimFailure else Done) && next.calls[id].gen == w.calls[id].gen
  {
    steps, next := [], w;
    NoStepLeads(w);
    var pc := w.calls[id].pc;
    if pc.OwnSourceStop? || pc.OwnTransportStop? {
      var step := if pc.OwnSourceStop? then StopOwnSource(id) else StopOwnTransport(id);
      next := OwnStop(w, id, step);
      NoStepLeads(next);
      StepThenRun(w, step, next, [], next);
      steps := [step] + [];
    }
  }

  lemma {:induction false} OwnStop(w: World, id: nat, step: Step) returns (next: World)
    requires Reached(w) && id in w.calls
    requires (step == StopOwnSource(id) && w.calls[id].pc.OwnSourceStop?) || (step == StopOwnTransport(id) && w.calls[id].pc.OwnTransportStop?)
    ensures next == Next(w, step) && Reached(next) && next.s == w.s && id in next.calls && next.calls[id].gen == w.calls[id].gen
    ensures next.calls[id].pc == if w.calls[id].pc.claimNext then ClaimFailure else Done
  {
    StepKeepsReached(w, step);
    next := Next(w, step);
  }

  lemma {:induction false} FailureIsClaimed(w: World, id: nat) returns (next: World)
    requires Reached(w) && At(w, id, ClaimFailure)
    ensures next == Next(w, ClaimAfterFailure(id)) && Reached(next)
    ensures At(next, id, if StillValid(w.s, w.calls[id]) && !w.s.teardownStarted then Tearing(NewTear(true)) else Done)
  {
    StepKeepsReached(w, ClaimAfterFailure(id));
    next := Next(w, ClaimAfterFailure(id));
  }

  // From every reachable state a start() that failed can return: with its run torn down and the
  // session Faulted if the run is still current and nobody else tears it down.
  lemma {:induction false} FailedStartCanReturn(before: seq<Step>, id: nat) returns (steps: seq<Step>, end: World)
    requires var w := Run(INITIAL, before);
             id in w.calls && (Failing(w.calls[id].pc) || Leaving(w.calls[id].pc))
    ensures end == Run(Run(INITIAL, before), steps) && AllAmong(steps, id, id) && At(end, id, Done)
    ensures var w := Run(INITIAL, before);
            Failing(w.calls[id].pc) && StillValid(w.s, w.calls[id]) && !w.s.teardownStarted ==>
              end.s.state == Faulted && end.s.owner.None?
  {
    var w := Run(INITIAL, before);
    StartIsReached();
    RunKeepsReached(INITIAL, before);
    steps, end := FailureReturns(w, id);
    assert Leads(w, steps, end);
  }

  lemma {:induction false} FailureReturns(w: World, id: nat) returns (steps: seq<Step>, end: World)
    requires Reached(w) && id in w.calls && (Failing(w.calls[id].pc) || Leaving(w.calls[id].pc))
    ensures Leads(w, steps, end) && AllAmong(steps, id, id) && At(end, id, Done)
    ensures Failing(w.calls[id].pc) && StillValid(w.s, w.calls[id]) && !w.s.teardownStarted ==>
              end.s.state == Faulted && end.s.owner.None?
  {
    var stops, stopped := OwnStopIsDone(w, id);
    steps, end := stops, stopped;
    if Failing(w.calls[id].pc) {
      var claimed := FailureIsClaimed(stopped, id);
      var rest: seq<Step> := [];
      end := claimed;
      NoStepLeads(claimed);
      if claimed.calls[id].pc.Tearing? { rest, end := TearerCanFinish(claimed, id); }
      StepThenRun(stopped, ClaimAfterFailure(id), claimed, rest, end);
      RunThenRun(w, stops, stopped, [ClaimAfterFailure(id)] + rest, end);
      steps := stops + ([ClaimAfterFailure(id)] + rest);
    }
  }
}
