// A session gets somewhere: starts reach Running, teardowns end.
module SessionProgress {
  // The other half of SessionSafety.  A start() publishes Running exactly when everything it
  // asked for was accepted and its run is still the current one; and whatever has happened, a
  // teardown that was claimed can run to its end, because every thread it joins can exit.

  import opened Option
  import opened SessionLifecycle
  import opened SessionSafety

  predicate Own(step: Step, id: nat) {
    !step.Background? && step.id == id
  }

  // The steps of one call, in order.
  function Projected(steps: seq<Step>, id: nat): seq<Step>
    decreases |steps|
  {
    if steps == [] then []
    else if Own(steps[0], id) then [steps[0]] + Projected(steps[1..], id)
    else Projected(steps[1..], id)
  }

  // What a start() does before it commits the transport's answer.
  function ScriptStep(id: nat, j: nat, a: Attempt, k: Creation, b: Attempt): Step {
    if j == 0 then ClaimRun(id)
    else if j == 1 then SourceReturns(id, a)
    else if j == 2 then CommitSource(id)
    else if j == 3 then MakeWorkers(id, k)
    else if j == 4 then CheckTransport(id)
    else TransportReturns(id, b)
  }

  function Script(id: nat, a: Attempt, k: Creation, b: Attempt): (steps: seq<Step>)
    ensures |steps| == 6 && forall j :: 0 <= j < 6 ==> steps[j] == ScriptStep(id, j, a, k, b)
  {
    [ClaimRun(id), SourceReturns(id, a), CommitSource(id), MakeWorkers(id, k), CheckTransport(id), TransportReturns(id, b)]
  }

  // ---- where a start() is after some of its steps ------------------------------------------------------

  // The answers it got in its first j steps let it go on.
  predicate Good(j: nat, a: Attempt, k: Creation, b: Attempt) {
    && (j >= 2 ==> Returned(a)) && (j >= 3 ==> a == Accepted) && (j >= 4 ==> k == BothCreated)
    && (j >= 6 ==> Returned(b))
  }

  function Expected(j: nat, a: Attempt, b: Attempt): Pc {
    if j == 0 then StartEnter
    else if j == 1 then SourceCall
    else if j == 2 then SourceBack(a)
    else if j == 3 then CreateWorkers
    else if j == 4 then TransportCheck
    else if j == 5 then TransportCall
    else TransportBack(b)
  }

  // It has left the way to Running.
  predicate Off(j: nat, pc: Pc, a: Attempt, b: Attempt) {
    || pc.Done? || pc.ClaimFailure? || pc.OwnSourceStop? || pc.OwnTransportStop?
    || (j >= 2 && pc.SourceCall? && !Returned(a)) || (j >= 6 && pc.TransportCall? && !Returned(b))
  }

  predicate Stage(w: World, id: nat, j: nat, a: Attempt, k: Creation, b: Attempt) {
    id in w.calls
    && var c := w.calls[id];
       && !c.log.published
       && (|| (c.pc == Expected(j, a, b) && Good(j, a, k, b))
           || (j > 0 && Off(j, c.pc, a, b) && (Good(j, a, k, b) ==> !StillValid(w.s, c))))
  }

  // Others leave the position of a call alone.
  lemma {:induction false} OthersKeepPosition(w: World, step: Step, id: nat)
    requires id in w.calls && !Own(step, id)
    ensures id in Next(w, step).calls
    ensures var c, c' := w.calls[id], Next(w, step).calls[id];
            c'.pc == c.pc && c'.gen == c.gen && c'.log.published == c.log.published
  {
  }

  // Within one generation no step makes a session Starting again.
  predicate NoRestart(before: Shared, after: Shared) {
    before.generation <= after.generation
    && (after.generation == before.generation && after.state == Starting ==> before.state == Starting)
  }

  lemma {:induction false} TearDownIsNoRestart(w: World, id: nat)
    requires id in w.calls && w.calls[id].pc.Tearing?
    ensures NoRestart(w.s, DoTearDown(w, id).s)
  {
  }

  lemma {:induction false} ClaimIsNoRestart(w: World, id: nat, pc: Pc)
    requires id in w.calls
    ensures NoRestart(w.s, TakeClaim(w, id, pc).s)
  {
  }

  lemma {:induction false} StartingIsOnce(w: World, step: Step)
    ensures NoRestart(w.s, Next(w, step).s)
  {
    match step
    case TearDown(id) => if id in w.calls && w.calls[id].pc.Tearing? { TearDownIsNoRestart(w, id); }
    case ClaimTeardown(id) => if id in w.calls { ClaimIsNoRestart(w, id, StopClaimed); }
    case ClaimAfterFailure(id) => if id in w.calls { ClaimIsNoRestart(w, id, Tearing(NewTear(true))); }
    case Background(event) => HappensIsNoRestart(w.s, event);
    case _ =>
  }

  lemma {:induction false} HappensIsNoRestart(s: Shared, event: Event)
    ensures NoRestart(s, Happens(s, event))
  {
  }

  // A run that is no longer valid never becomes valid again.
  lemma {:induction false} InvalidStays(w: World, step: Step, id: nat)
    requires id in w.calls && !Own(step, id) && w.calls[id].gen <= w.s.generation && !StillValid(w.s, w.calls[id])
    ensures id in Next(w, step).calls && !StillValid(Next(w, step).s, Next(w, step).calls[id])
  {
    OthersKeepPosition(w, step, id);
    StartingIsOnce(w, step);
  }

  lemma {:induction false} GenerationBound(w: World, id: nat)
    requires Inv(w) && id in w.calls
    ensures w.calls[id].gen <= w.s.generation
  {
    assert CallOk(w.s, Teardown(w), id, w.calls[id]);
  }

  // A call that has not claimed a run has none to be valid.
  lemma {:induction false} UnclaimedIsInvalid(w: World, id: nat)
    requires Inv(w) && At(w, id, StartEnter)
    ensures !StillValid(w.s, w.calls[id]) && !w.calls[id].log.published
  {
    assert CallOk(w.s, Teardown(w), id, w.calls[id]);
  }

  lemma {:induction false} OtherKeepsStage(w: World, step: Step, id: nat, j: nat, a: Attempt, k: Creation, b: Attempt)
    requires Inv(w) && Stage(w, id, j, a, k, b) && !Own(step, id)
    ensures Stage(Next(w, step), id, j, a, k, b)
  {
    OthersKeepPosition(w, step, id);
    GenerationBound(w, id);
    if !StillValid(w.s, w.calls[id]) { InvalidStays(w, step, id); }
  }

  lemma {:induction false} Claims(w: World, id: nat, j: nat, a: Attempt, k: Creation, b: Attempt)
    requires Inv(w) && Stage(w, id, j, a, k, b) && j == 0
    ensures Stage(Next(w, ScriptStep(id, j, a, k, b)), id, j + 1, a, k, b)
  {
    UnclaimedIsInvalid(w, id);
  }

  lemma {:induction false} SourceAnswers(w: World, id: nat, j: nat, a: Attempt, k: Creation, b: Attempt)
    requires Stage(w, id, j, a, k, b) && j == 1
    ensures Stage(Next(w, ScriptStep(id, j, a, k, b)), id, j + 1, a, k, b)
  {
  }

  lemma {:induction false} CommitsSource(w: World, id: nat, j: nat, a: Attempt, k: Creation, b: Attempt)
    requires Stage(w, id, j, a, k, b) && j == 2
    ensures Stage(Next(w, ScriptStep(id, j, a, k, b)), id, j + 1, a, k, b)
  {
  }

  lemma {:induction false} MakesWorkers(w: World, id: nat, j: nat, a: Attempt, k: Creation, b: Attempt)
    requires Stage(w, id, j, a, k, b) && j == 3
    ensures Stage(Next(w, ScriptStep(id, j, a, k, b)), id, j + 1, a, k, b)
  {
  }

  lemma {:induction false} ChecksTransport(w: World, id: nat, j: nat, a: Attempt, k: Creation, b: Attempt)
    requires Stage(w, id, j, a, k, b) && j == 4
    ensures Stage(Next(w, ScriptStep(id, j, a, k, b)), id, j + 1, a, k, b)
  {
  }

  lemma {:induction false} TransportAnswers(w: World, id: nat, j: nat, a: Attempt, k: Creation, b: Attempt)
    requires Stage(w, id, j, a, k, b) && j == 5
    ensures Stage(Next(w, ScriptStep(id, j, a, k, b)), id, j + 1, a, k, b)
  {
  }

  lemma {:induction false} OwnAdvancesStage(w: World, id: nat, j: nat, a: Attempt, k: Creation, b: Attempt)
    requires Inv(w) && j < 6 && Stage(w, id, j, a, k, b)
    ensures Stage(Next(w, ScriptStep(id, j, a, k, b)), id, j + 1, a, k, b)
  {
    if j == 0 { Claims(w, id, j, a, k, b); }
    else if j == 1 { SourceAnswers(w, id, j, a, k, b); }
    else if j == 2 { CommitsSource(w, id, j, a, k, b); }
    else if j == 3 { MakesWorkers(w, id, j, a, k, b); }
    else if j == 4 { ChecksTransport(w, id, j, a, k, b); }
    else { TransportAnswers(w, id, j, a, k, b); }
  }

  lemma {:induction false} Commits(w: World, id: nat, a: Attempt, k: Creation, b: Attempt)
    requires Stage(w, id, 6, a, k, b)
    ensures var end := Next(w, CommitTransport(id));
            && id in end.calls
            && (end.calls[id].log.published
                <==> a == Accepted && k == BothCreated && b == Accepted && StillValid(w.s, w.calls[id]))
            && (end.calls[id].log.published ==> end.s.state == Running)
  {
  }

  // ---- a start() under any interleaving ----------------------------------------------------------------

  lemma {:induction false} StepReachesStage(w: World, step: Step, next: World, id: nat, j: nat, i: nat, a: Attempt, k: Creation, b: Attempt)
    requires Inv(w) && Stage(w, id, j, a, k, b) && next == Next(w, step)
    requires if Own(step, id) then j < 6 && step == ScriptStep(id, j, a, k, b) && i == j + 1 else i == j
    ensures Inv(next) && Stage(next, id, i, a, k, b)
  {
    StepKeepsInv(w, step);
    if Own(step, id) { OwnAdvancesStage(w, id, j, a, k, b); } else { OtherKeepsStage(w, step, id, j, a, k, b); }
  }

  lemma {:induction false} RestOfScript(steps: seq<Step>, id: nat, j: nat, i: nat, a: Attempt, k: Creation, b: Attempt)
    requires steps != [] && j <= 6 && Projected(steps, id) == Script(id, a, k, b)[j..]
    requires i == if Own(steps[0], id) then j + 1 else j
    ensures Own(steps[0], id) ==> j < 6 && steps[0] == ScriptStep(id, j, a, k, b)
    ensures i <= 6 && Projected(steps[1..], id) == Script(id, a, k, b)[i..]
  {
    if Own(steps[0], id) {
      assert Projected(steps, id)[0] == steps[0] && Projected(steps, id)[1..] == Projected(steps[1..], id);
    }
  }

  // The stage after a run in which the call takes the steps of the script from the j-th on.
  lemma {:induction false} RunReachesStage(w: World, steps: seq<Step>, id: nat, j: nat, a: Attempt, k: Creation, b: Attempt)
    requires Inv(w) && j <= 6 && Stage(w, id, j, a, k, b) && Projected(steps, id) == Script(id, a, k, b)[j..]
    ensures Inv(Run(w, steps)) && Stage(Run(w, steps), id, 6, a, k, b)
    decreases |steps|
  {
    if steps == [] {
      assert |Script(id, a, k, b)[j..]| == 6 - j;
    } else {
      var next := Next(w, steps[0]);
      var i := if Own(steps[0], id) then j + 1 else j;
      RestOfScript(steps, id, j, i, a, k, b);
      StepReachesStage(w, steps[0], next, id, j, i, a, k, b);
      RunReachesStage(next, steps[1..], id, i, a, k, b);
    }
  }

  // Whatever other calls, workers and components do in between, a start() publishes Running
  // exactly when the source, the workers and the transport all came up and its run is still the
  // current one when it commits.
  lemma {:induction false} StartPublishesIff(before: seq<Step>, steps: seq<Step>, id: nat, a: Attempt, k: Creation, b: Attempt)
    requires At(Run(INITIAL, before), id, StartEnter) && Projected(steps, id) == Script(id, a, k, b)
    ensures var w := Run(Run(INITIAL, before), steps);
            var end := Next(w, CommitTransport(id));
            && id in w.calls && id in end.calls
            && (end.calls[id].log.published
                <==> a == Accepted && k == BothCreated && b == Accepted && StillValid(w.s, w.calls[id]))
            && (end.calls[id].log.published ==> end.s.state == Running)
  {
    var start := Run(INITIAL, before);
    InitialInv();
    RunKeepsInv(INITIAL, before);
    UnclaimedIsInvalid(start, id);
    assert Script(id, a, k, b)[0..] == Script(id, a, k, b);
    RunReachesStage(start, steps, id, 0, a, k, b);
    Commits(Run(start, steps), id, a, k, b);
  }

  // Steps other than a teardown claim, a teardown, and a worker failure.
  predicate Harmless(step: Step) {
    match step
    case ClaimTeardown(_) => false
    case ClaimAfterFailure(_) => false
    case TearDown(_) => false
    case CommitTransport(_) => false
    case Background(event) => !event.SchedulerFails? && !event.DispatcherFails? && event != EnqueueFrame(true)
    case _ => true
  }

  lemma {:induction false} EventKeepsState(s: Shared, event: Event)
    requires Harmless(Background(event)) && s.state == Starting
    ensures Happens(s, event).state == Starting && Happens(s, event).generation == s.generation
  {
  }

  lemma {:induction false} HarmlessKeepsState(w: World, step: Step)
    requires Harmless(step) && w.s.state == Starting
    ensures Next(w, step).s.state == Starting && Next(w, step).s.generation == w.s.generation
  {
    match step
    case Background(event) => EventKeepsState(w.s, event);
    case _ =>
  }

  // No step but its claim gives a call another generation.
  lemma {:induction false} StepKeepsGeneration(w: World, step: Step, id: nat)
    requires id in w.calls && step != ClaimRun(id)
    ensures id in Next(w, step).calls && Next(w, step).calls[id].gen == w.calls[id].gen
  {
    if !Own(step, id) { OthersKeepPosition(w, step, id); }
  }

  lemma {:induction false} HarmlessRunStaysValid(w: World, steps: seq<Step>, id: nat)
    requires id in w.calls && StillValid(w.s, w.calls[id])
    requires forall i :: 0 <= i < |steps| ==> Harmless(steps[i]) && steps[i] != ClaimRun(id)
    ensures id in Run(w, steps).calls && StillValid(Run(w, steps).s, Run(w, steps).calls[id])
    decreases |steps|
  {
    if steps != [] {
      HarmlessKeepsState(w, steps[0]);
      StepKeepsGeneration(w, steps[0], id);
      HarmlessRunStaysValid(Next(w, steps[0]), steps[1..], id);
    }
  }

  lemma {:induction false} ClaimIsValid(w: World, id: nat)
    requires At(w, id, StartEnter) && w.s.state == Stopped
    ensures var next := Next(w, ClaimRun(id));
            id in next.calls && StillValid(next.s, next.calls[id])
  {
  }

  // A start() of a Stopped session whose components and workers all come up ends with the
  // session Running, if nobody stops it and no worker fails meanwhile; what other calls and
  // components do besides does not matter.
  lemma {:induction false} UndisturbedStartRuns(before: seq<Step>, steps: seq<Step>, id: nat)
    requires At(Run(INITIAL, before), id, StartEnter) && Run(INITIAL, before).s.state == Stopped
    requires Projected(steps, id) == Script(id, Accepted, BothCreated, Accepted)
    requires steps[0] == ClaimRun(id) && forall i :: 0 <= i < |steps| ==> Harmless(steps[i])
    ensures var end := Next(Run(Run(INITIAL, before), steps), CommitTransport(id));
            end.s.state == Running && id in end.calls && end.calls[id].log.published
  {
    var start := Run(INITIAL, before);
    StartPublishesIff(before, steps, id, Accepted, BothCreated, Accepted);
    ClaimIsValid(start, id);
    ClaimsOnce(steps, id);
    HarmlessRunStaysValid(Next(start, ClaimRun(id)), steps[1..], id);
  }

  lemma {:induction false} ClaimsOnce(steps: seq<Step>, id: nat)
    requires steps != [] && steps[0] == ClaimRun(id)
    requires Projected(steps, id) == Script(id, Accepted, BothCreated, Accepted)
    ensures forall i :: 1 <= i < |steps| ==> steps[i] != ClaimRun(id)
  {
    assert Projected(steps, id)[1..] == Projected(steps[1..], id);
    forall i | 1 <= i < |steps| && Own(steps[i], id)
      ensures steps[i] != ClaimRun(id)
    {
      OwnIsProjected(steps[1..], id, i - 1);
      assert steps[i] in Script(id, Accepted, BothCreated, Accepted)[1..];
    }
  }

  lemma {:induction false} OwnIsProjected(steps: seq<Step>, id: nat, i: nat)
    requires i < |steps| && Own(steps[i], id)
    ensures steps[i] in Projected(steps, id)
    decreases |steps|
  {
    if i > 0 { OwnIsProjected(steps[1..], id, i - 1); }
  }

  // ---- the workers of a live run -------------------------------------------------------------------------

  // Nobody has asked the workers of a live run to stop.
  predicate NotAskedToStop(s: Shared) {
    s.state == Starting || s.state == Running ==> !s.stopRequested
  }

  lemma {:induction false} TearDownKeepsAsking(w: World, id: nat)
    requires NotAskedToStop(w.s) && id in w.calls && w.calls[id].pc.Tearing?
    ensures NotAskedToStop(DoTearDown(w, id).s)
  {
  }

  lemma {:induction false} StepKeepsAsking(w: World, step: Step)
    requires NotAskedToStop(w.s)
    ensures NotAskedToStop(Next(w, step).s)
  {
    match step
    case TearDown(id) => if id in w.calls && w.calls[id].pc.Tearing? { TearDownKeepsAsking(w, id); }
    case ClaimTeardown(id) => if id in w.calls { ClaimKeepsAsking(w, id, StopClaimed); }
    case ClaimAfterFailure(id) => if id in w.calls { ClaimKeepsAsking(w, id, Tearing(NewTear(true))); }
    case Background(event) => EventKeepsAsking(w.s, event);
    case _ =>
  }

  lemma {:induction false} ClaimKeepsAsking(w: World, id: nat, pc: Pc)
    requires id in w.calls
    ensures TakeClaim(w, id, pc).s.state == w.s.state && TakeClaim(w, id, pc).s.stopRequested == w.s.stopRequested
  {
  }

  lemma {:induction false} EventKeepsAsking(s: Shared, event: Event)
    requires NotAskedToStop(s)
    ensures NotAskedToStop(Happens(s, event))
  {
  }

  lemma {:induction false} RunKeepsAsking(w: World, steps: seq<Step>)
    requires NotAskedToStop(w.s)
    ensures NotAskedToStop(Run(w, steps).s)
    decreases |steps|
  {
    if steps != [] {
      StepKeepsAsking(w, steps[0]);
      RunKeepsAsking(Next(w, steps[0]), steps[1..]);
    }
  }

  // In every reachable state the scheduler of a Starting or Running session does not exit, and the
  // dispatcher of a Starting one does not begin, before its start() has decided.
  lemma {:induction false} WorkersStayWhileAlive(before: seq<Step>)
    requires var s := Run(INITIAL, before).s;
             s.state == Starting || s.state == Running
    ensures var s := Run(INITIAL, before).s;
            && Happens(s, SchedulerExits) == s && (s.state == Starting ==> Happens(s, DispatcherWakes) == s)
  {
    RunKeepsAsking(INITIAL, before);
  }

  // What the creation of the workers leaves behind, however far it got: without a mailbox nothing,
  // without the scheduler thread an empty mailbox, without the dispatcher thread the scheduler, and
  // otherwise both threads, all of them marked for the teardown.
  lemma {:induction false} WorkersAsFarAsCreated(before: seq<Step>, id: nat, creation: Creation)
    requires var w := Run(INITIAL, before);
             At(w, id, CreateWorkers) && StillValid(w.s, w.calls[id])
    ensures var s, s' := Run(INITIAL, before).s, Next(Run(INITIAL, before), MakeWorkers(id, creation)).s;
            if creation == NoMailbox then s' == s
            else
              && s'.workersCreated && s'.mailbox == Some(Mailbox(0, false))
              && (s'.scheduler == if creation == NoSchedulerThread then NoThread else Alive(id, false, false))
              && (s'.dispatcher == if creation == BothCreated then Alive(id, false, false) else NoThread)
  {
    InitialInv();
    RunKeepsInv(INITIAL, before);
    var w := Run(INITIAL, before);
    assert CallOk(w.s, Teardown(w), id, w.calls[id]);
    NoThreadsYet(w.s, Teardown(w), id, w.calls[id]);
  }

  lemma {:induction false} NoThreadsYet(s: Shared, t: Option<Tear>, id: nat, c: Call)
    requires SharedOk(s, t) && CallOk(s, t, id, c) && StillValid(s, c) && c.pc == CreateWorkers
    ensures s.scheduler == NoThread && s.dispatcher == NoThread
  {
  }

  // ---- what happens beside the calls ---------------------------------------------------------------------

  // The setters install a component exactly while the session is Stopped.
  lemma {:induction false} SettersWorkWhileStopped(s: Shared, obj: nat)
    ensures Happens(s, InstallSource(obj)) == if s.state == Stopped then s.(sourceObj := obj) else s
    ensures Happens(s, InstallTransport(obj)) == if s.state == Stopped then s.(transportObj := obj) else s
  {
  }

  // A component failure faults a Running session, a worker failure any.
  lemma {:induction false} FailuresFault(s: Shared, exits: bool)
    ensures s.state == Running ==> Happens(s, ComponentFails).state == Faulted
    ensures s.state != Running ==> Happens(s, ComponentFails) == s
    ensures s.scheduler.Alive? ==>
              var s' := Happens(s, SchedulerFails(exits));
              s'.state == Faulted && s'.scheduler == if exits then Exited(s.scheduler.run) else s.scheduler
    ensures s.dispatcher.Alive? ==>
              var s' := Happens(s, DispatcherFails);
              s'.state == Faulted && s'.dispatcher == Exited(s.dispatcher.run)
    ensures CanEnqueue(s) ==> Happens(s, EnqueueFrame(true)).state == Faulted
  {
  }

  // While the session runs a frame that is pushed waits, is taken by the dispatch worker and is
  // handed over, and the worker is free again.
  lemma {:induction false} FramesFlow(before: seq<Step>)
    requires var s := Run(INITIAL, before).s;
             && s.state == Running && s.mailbox.Some? && !s.mailbox.value.closed && s.mailbox.value.waiting == 0
             && s.dispatcher.Alive? && !s.dispatcher.holding
    ensures var s := Run(INITIAL, before).s;
            var pushed := Happens(s, FramePushed);
            var popped := Happens(Happens(pushed, DispatcherWakes), PopFrame);
            && pushed.mailbox.value.waiting == 1 && CanEnqueue(popped) && popped.mailbox == s.mailbox
            && !CanEnqueue(Happens(popped, EnqueueFrame(false))) && Happens(popped, EnqueueFrame(false)).state == Running
  {
  }

  // A live scheduler can exit exactly when it is asked to or the run is over, and a live dispatcher
  // begins exactly when the start has decided or it is asked to stop.
  lemma {:induction false} WorkersMoveIff(s: Shared)
    ensures s.scheduler.Alive? ==>
              (Happens(s, SchedulerExits).scheduler == Exited(s.scheduler.run)
               <==> s.stopRequested || s.state == Stopped || s.state == Stopping || s.state == Faulted)
    ensures s.dispatcher.Alive? && !s.dispatcher.looping ==>
              (Happens(s, DispatcherWakes).dispatcher == s.dispatcher.(looping := true)
               <==> s.stopRequested || s.state != Starting)
  {
  }
}
