// The start/stop protocol of a session (src/core/src/session.cpp) for any number of
// concurrent start() and stop() callers.  Every critical section of the session mutex is
// one step; the calls into components, which hold no lock, are a begin and an end step;
// the two worker threads are part of the state.
//
// Component starts and stops are counted per start() call: two overlapping calls may
// share one component object.
module SessionLifecycle {
  import opened Option

  datatype State = Stopped | Starting | Running | Stopping | Faulted

  // What a component's start() did: false, true, or an exception.
  datatype Attempt = NotTried | InProgress | Refused | Accepted | Threw

  // What one start() call has caused so far.
  datatype Log = Log(source: Attempt, sourceStops: nat, transport: Attempt, transportStops: nat,
                     schedulers: nat, schedulerJoins: nat, dispatchers: nat, dispatcherJoins: nat,
                     cancelled: bool, published: bool)

  const EMPTY_LOG: Log := Log(NotTried, 0, NotTried, 0, 0, 0, 0, 0, false, false)

  // The steps of teardownRun, in order.
  datatype Stage =
    Snapshot | CloseGate | StopSource | CloseMailbox | JoinScheduler | JoinDispatcher | StopTransport | Finish
  {
    function Rank(): nat {
      match this
      case Snapshot => 0 case CloseGate => 1 case StopSource => 2 case CloseMailbox => 3
      case JoinScheduler => 4 case JoinDispatcher => 5 case StopTransport => 6 case Finish => 7
    }
  }

  // The local variables of one teardownRun.  A component is recorded with the start()
  // call it is attributed to and with the object that is going to be stopped.
  datatype Tear = Tear(faulted: bool, stage: Stage, source: Option<nat>, sourceObj: nat,
                       transport: Option<nat>, transportObj: nat, workers: bool)

  function NewTear(faulted: bool): Tear {
    Tear(faulted, Snapshot, None, 0, None, 0, false)
  }

  // Where a call is.  An own stop cleans up a component whose start came back after the
  // run was lost (the call then returns), or threw (the call then claims the failure teardown).
  datatype Pc =
    | StartEnter
    | SourceCall
    | SourceBack(outcome: Attempt)
    | OwnSourceStop(claimNext: bool)
    | CreateWorkers
    | TransportCheck
    | TransportCall
    | TransportBack(outcome: Attempt)
    | OwnTransportStop(claimNext: bool)
    | ClaimFailure
    | StopEnter
    | StopClaim
    | StopClaimed
    | Tearing(tear: Tear)
    | Done

  datatype Call = Call(pc: Pc, gen: nat, sourceObj: nat, transportObj: nat, log: Log)

  // A std::thread object: joinable unless NoThread.  The dispatch worker may hold a frame
  // it has popped but not yet handed over.
  datatype Thread = NoThread | Alive(run: nat, looping: bool, holding: bool) | Exited(run: nat)

  datatype Mailbox = Mailbox(waiting: nat, closed: bool)

  // The call that claimed the latest run, with its generation and the objects it pinned.
  datatype RunClaim = RunClaim(id: nat, gen: nat, sourceObj: nat, transportObj: nat)

  datatype Shared = Shared(
    state: State,
    teardownStarted: bool,
    stopRequested: bool,
    generation: nat,
    sourceStarted: bool,
    transportStarted: bool,
    workersCreated: bool,
    sourceObj: nat,
    transportObj: nat,
    mailbox: Option<Mailbox>,
    scheduler: Thread,
    dispatcher: Thread,
    run: Option<RunClaim>,
    owner: Option<nat>)      // the call that took the teardown claim

  datatype World = World(s: Shared, calls: map<nat, Call>)

  const INITIAL: World :=
    World(Shared(Stopped, false, false, 0, false, false, false, 0, 0, None, NoThread, NoThread, None, None), map[])

  // How the creation of the mailbox and the two threads went.
  datatype Creation = BothCreated | NoMailbox | NoSchedulerThread | NoDispatcherThread

  datatype Step =
    | NewCall(id: nat, starts: bool)
    | RejectStart(id: nat)
    | ClaimRun(id: nat)
    | SourceReturns(id: nat, outcome: Attempt)
    | CommitSource(id: nat)
    | StopOwnSource(id: nat)
    | MakeWorkers(id: nat, creation: Creation)
    | CheckTransport(id: nat)
    | TransportReturns(id: nat, outcome: Attempt)
    | CommitTransport(id: nat)
    | StopOwnTransport(id: nat)
    | ClaimAfterFailure(id: nat)
    | EnterStop(id: nat)
    | ClaimTeardown(id: nat)
    | CheckClaimed(id: nat)
    | TearDown(id: nat)
    | Background(event: Event)

  // What happens outside start() and stop().
  datatype Event =
    | InstallSource(obj: nat)
    | InstallTransport(obj: nat)
    | FramePushed
    | ComponentFails
    | SchedulerFails(exits: bool)
    | SchedulerExits
    | DispatcherWakes
    | DispatcherFails
    | PopFrame
    | EnqueueFrame(throws: bool)
    | DispatcherExits

  // ---- steps --------------------------------------------------------------------------------------

  function Put(w: World, s: Shared, id: nat, c: Call): World {
    World(s, w.calls[id := c])
  }

  // runStillValidLocked
  predicate StillValid(s: Shared, c: Call) {
    s.generation == c.gen && s.state == Starting
  }

  predicate NeedsStop(outcome: Attempt) {
    outcome == Accepted || outcome == Threw
  }

  predicate Returned(outcome: Attempt) {
    outcome == Refused || outcome == Accepted || outcome == Threw
  }

  predicate IsRun(s: Shared, id: nat) {
    s.run.Some? && s.run.value.id == id
  }

  // Records that a teardown of the current run was claimed or begun.
  function CancelRun(w: World): World {
    if w.s.run.Some? && w.s.run.value.id in w.calls then
      var c := w.calls[w.s.run.value.id];
      Put(w, w.s, w.s.run.value.id, c.(log := c.log.(cancelled := true)))
    else w
  }

  // claimTeardownLocked, followed by the caller's move to its next position.
  function TakeClaim(w: World, id: nat, pc: Pc): World
    requires id in w.calls
  {
    var s := w.s.(teardownStarted := true, generation := w.s.generation + 1, owner := Some(id));
    var moved := Put(w, s, id, w.calls[id].(pc := pc));
    if s.state != Stopped then CancelRun(moved) else moved
  }

  function DoClaimRun(w: World, id: nat): World
    requires id in w.calls
  {
    var c := w.calls[id];
    if w.s.state != Stopped then Put(w, w.s, id, c.(pc := Done))
    else
      var gen := w.s.generation + 1;
      var started := Call(SourceCall, gen, w.s.sourceObj, w.s.transportObj, EMPTY_LOG.(source := InProgress));
      Put(w, w.s.(state := Starting, stopRequested := false, generation := gen,
                  run := Some(RunClaim(id, gen, w.s.sourceObj, w.s.transportObj))), id, started)
  }

  function DoCommitSource(w: World, id: nat): World
    requires id in w.calls && w.calls[id].pc.SourceBack?
  {
    var c := w.calls[id];
    var outcome := c.pc.outcome;
    if !StillValid(w.s, c) then
      Put(w, w.s, id, c.(pc := if NeedsStop(outcome) then OwnSourceStop(false) else Done))
    else
      Put(w, w.s.(sourceStarted := outcome == Accepted), id,
          c.(pc := if outcome == Threw then OwnSourceStop(true)
                   else if outcome == Refused then ClaimFailure
                   else CreateWorkers))
  }

  function DoStopOwnSource(w: World, id: nat): World
    requires id in w.calls && w.calls[id].pc.OwnSourceStop?
  {
    var c := w.calls[id];
    Put(w, w.s, id, c.(pc := if c.pc.claimNext then ClaimFailure else Done,
                       log := c.log.(sourceStops := c.log.sourceStops + 1)))
  }

  function WithWorkers(s: Shared, id: nat, creation: Creation): Shared {
    s.(mailbox := Some(Mailbox(0, false)), workersCreated := true,
       scheduler := if creation != NoSchedulerThread then Alive(id, false, false) else s.scheduler,
       dispatcher := if creation == BothCreated then Alive(id, false, false) else s.dispatcher)
  }

  // The scheduler is created first; without it there is no dispatcher either.
  function CreatedWorkers(c: Call, creation: Creation): Call {
    c.(pc := if creation == BothCreated then TransportCheck else ClaimFailure,
       log := c.log.(schedulers := if creation != NoSchedulerThread then c.log.schedulers + 1 else c.log.schedulers,
                     dispatchers := if creation == BothCreated then c.log.dispatchers + 1 else c.log.dispatchers))
  }

  function DoMakeWorkers(w: World, id: nat, creation: Creation): World
    requires id in w.calls
  {
    var c := w.calls[id];
    if !StillValid(w.s, c) then Put(w, w.s, id, c.(pc := Done))
    else if creation == NoMailbox then Put(w, w.s, id, c.(pc := ClaimFailure))
    else Put(w, WithWorkers(w.s, id, creation), id, CreatedWorkers(c, creation))
  }

  function DoCheckTransport(w: World, id: nat): World
    requires id in w.calls
  {
    var c := w.calls[id];
    if !StillValid(w.s, c) then Put(w, w.s, id, c.(pc := Done))
    else Put(w, w.s, id, c.(pc := TransportCall, log := c.log.(transport := InProgress)))
  }

  function DoCommitTransport(w: World, id: nat): World
    requires id in w.calls && w.calls[id].pc.TransportBack?
  {
    var c := w.calls[id];
    var outcome := c.pc.outcome;
    if !StillValid(w.s, c) then
      Put(w, w.s, id, c.(pc := if NeedsStop(outcome) then OwnTransportStop(false) else Done))
    else if outcome == Accepted then
      Put(w, w.s.(transportStarted := true, state := Running), id, c.(pc := Done, log := c.log.(published := true)))
    else
      Put(w, w.s.(transportStarted := false), id,
          c.(pc := if outcome == Threw then OwnTransportStop(true) else ClaimFailure))
  }

  function DoStopOwnTransport(w: World, id: nat): World
    requires id in w.calls && w.calls[id].pc.OwnTransportStop?
  {
    var c := w.calls[id];
    Put(w, w.s, id, c.(pc := if c.pc.claimNext then ClaimFailure else Done,
                       log := c.log.(transportStops := c.log.transportStops + 1)))
  }

  // claimFailureTeardown
  function DoClaimAfterFailure(w: World, id: nat): World
    requires id in w.calls
  {
    if !StillValid(w.s, w.calls[id]) || w.s.teardownStarted then Put(w, w.s, id, w.calls[id].(pc := Done))
    else TakeClaim(w, id, Tearing(NewTear(true)))
  }

  function DoCheckClaimed(w: World, id: nat): World
    requires id in w.calls
  {
    if w.s.state == Stopped
    then Put(w, w.s.(teardownStarted := false, owner := None), id, w.calls[id].(pc := Done))
    else Put(w, w.s, id, w.calls[id].(pc := Tearing(NewTear(false))))
  }

  function CountSourceStop(w: World, id: nat): World {
    if id !in w.calls then w else
      var c := w.calls[id];
      Put(w, w.s, id, c.(log := c.log.(sourceStops := c.log.sourceStops + 1)))
  }

  function CountTransportStop(w: World, id: nat): World {
    if id !in w.calls then w else
      var c := w.calls[id];
      Put(w, w.s, id, c.(log := c.log.(transportStops := c.log.transportStops + 1)))
  }

  function CountSchedulerJoin(w: World, id: nat): World {
    if id !in w.calls then w else
      var c := w.calls[id];
      Put(w, w.s, id, c.(log := c.log.(schedulerJoins := c.log.schedulerJoins + 1)))
  }

  function CountDispatcherJoin(w: World, id: nat): World {
    if id !in w.calls then w else
      var c := w.calls[id];
      Put(w, w.s, id, c.(log := c.log.(dispatcherJoins := c.log.dispatcherJoins + 1)))
  }

  function SetTear(w: World, s: Shared, id: nat, tear: Tear): World
    requires id in w.calls
  {
    Put(w, s, id, w.calls[id].(pc := Tearing(tear)))
  }

  // The first critical section of teardownRun: the run's resources are taken over.
  function DoSnapshot(w: World, id: nat): World
    requires id in w.calls && w.calls[id].pc.Tearing?
  {
    var run := if w.s.run.Some? then Some(w.s.run.value.id) else None;
    var t := w.calls[id].pc.tear;
    var taken := t.(stage := CloseGate,
                    source := if w.s.sourceStarted then run else None, sourceObj := w.s.sourceObj,
                    transport := if w.s.transportStarted then run else None, transportObj := w.s.transportObj,
                    workers := w.s.workersCreated);
    CancelRun(SetTear(w, w.s.(stopRequested := true, sourceStarted := false, transportStarted := false,
                              workersCreated := false, state := if t.faulted then Faulted else Stopping),
                      id, taken))
  }

  // Joining waits for the thread to exit.
  function DoJoinScheduler(w: World, id: nat): World
    requires id in w.calls && w.calls[id].pc.Tearing?
  {
    var t := w.calls[id].pc.tear;
    var next := t.(stage := JoinDispatcher);
    if !t.workers || w.s.scheduler.NoThread? then SetTear(w, w.s, id, next)
    else if w.s.scheduler.Alive? then w
    else CountSchedulerJoin(SetTear(w, w.s.(scheduler := NoThread), id, next), w.s.scheduler.run)
  }

  function DoJoinDispatcher(w: World, id: nat): World
    requires id in w.calls && w.calls[id].pc.Tearing?
  {
    var t := w.calls[id].pc.tear;
    var next := t.(stage := StopTransport);
    if !t.workers || w.s.dispatcher.NoThread? then SetTear(w, w.s, id, next)
    else if w.s.dispatcher.Alive? then w
    else CountDispatcherJoin(SetTear(w, w.s.(dispatcher := NoThread), id, next), w.s.dispatcher.run)
  }

  function DoFinish(w: World, id: nat): World
    requires id in w.calls && w.calls[id].pc.Tearing?
  {
    Put(w, w.s.(mailbox := None, teardownStarted := false, owner := None,
                state := if w.calls[id].pc.tear.faulted then w.s.state else Stopped),
        id, w.calls[id].(pc := Done))
  }

  function DoTearDown(w: World, id: nat): World
    requires id in w.calls && w.calls[id].pc.Tearing?
  {
    var t := w.calls[id].pc.tear;
    match t.stage
    case Snapshot => DoSnapshot(w, id)
    case CloseGate => SetTear(w, w.s, id, t.(stage := StopSource))
    case StopSource =>
      var moved := SetTear(w, w.s, id, t.(stage := CloseMailbox));
      if t.source.Some? then CountSourceStop(moved, t.source.value) else moved
    case CloseMailbox =>
      SetTear(w, if t.workers && w.s.mailbox.Some?
                 then w.s.(mailbox := Some(w.s.mailbox.value.(closed := true)))
                 else w.s, id, t.(stage := JoinScheduler))
    case JoinScheduler => DoJoinScheduler(w, id)
    case JoinDispatcher => DoJoinDispatcher(w, id)
    case StopTransport =>
      var moved := SetTear(w, w.s, id, t.(stage := Finish));
      if t.transport.Some? then CountTransportStop(moved, t.transport.value) else moved
    case Finish => DoFinish(w, id)
  }

  function Happens(s: Shared, event: Event): Shared {
    match event
    case InstallSource(obj) => if s.state == Stopped then s.(sourceObj := obj) else s
    case InstallTransport(obj) => if s.state == Stopped then s.(transportObj := obj) else s
    case FramePushed =>
      if s.state == Running && s.mailbox.Some? && !s.mailbox.value.closed
      then s.(mailbox := Some(s.mailbox.value.(waiting := s.mailbox.value.waiting + 1)))
      else s
    case ComponentFails => if s.state == Running then s.(state := Faulted) else s
    case SchedulerFails(exits) =>
      if !s.scheduler.Alive? then s
      else s.(state := Faulted, scheduler := if exits then Exited(s.scheduler.run) else s.scheduler)
    case SchedulerExits =>
      if s.scheduler.Alive? && (s.stopRequested || (s.state != Starting && s.state != Running))
      then s.(scheduler := Exited(s.scheduler.run))
      else s
    case DispatcherWakes =>
      if s.dispatcher.Alive? && (s.state != Starting || s.stopRequested)
      then s.(dispatcher := s.dispatcher.(looping := true))
      else s
    case DispatcherFails =>
      if s.dispatcher.Alive? then s.(state := Faulted, dispatcher := Exited(s.dispatcher.run)) else s
    case PopFrame =>
      if s.dispatcher.Alive? && s.dispatcher.looping && !s.dispatcher.holding
         && s.mailbox.Some? && s.mailbox.value.waiting > 0
      then s.(mailbox := Some(s.mailbox.value.(waiting := s.mailbox.value.waiting - 1)),
              dispatcher := s.dispatcher.(holding := true))
      else s
    case EnqueueFrame(throws) =>
      if CanEnqueue(s)
      then s.(dispatcher := s.dispatcher.(holding := false), state := if throws then Faulted else s.state)
      else s
    case DispatcherExits =>
      if s.dispatcher.Alive? && s.dispatcher.looping && !s.dispatcher.holding
         && s.mailbox.Some? && s.mailbox.value.closed && s.mailbox.value.waiting == 0
      then s.(dispatcher := Exited(s.dispatcher.run))
      else s
  }

  // The dispatch worker is about to hand the frame it holds to the transport of its run.
  predicate CanEnqueue(s: Shared) {
    s.dispatcher.Alive? && s.dispatcher.holding
  }

  predicate At(w: World, id: nat, pc: Pc) {
    id in w.calls && w.calls[id].pc == pc
  }

  function Move(w: World, id: nat, pc: Pc): World
    requires id in w.calls
  {
    Put(w, w.s, id, w.calls[id].(pc := pc))
  }

  // A step that is not possible in a state leaves it unchanged.
  function Next(w: World, step: Step): World {
    match step
    case NewCall(id, starts) =>
      if id in w.calls then w
      else Put(w, w.s, id, Call(if starts then StartEnter else StopEnter, 0, 0, 0, EMPTY_LOG))
    case RejectStart(id) => if At(w, id, StartEnter) then Move(w, id, Done) else w
    case ClaimRun(id) => if At(w, id, StartEnter) then DoClaimRun(w, id) else w
    case SourceReturns(id, outcome) =>
      if At(w, id, SourceCall) && Returned(outcome) then
        var c := w.calls[id];
        Put(w, w.s, id, c.(pc := SourceBack(outcome), log := c.log.(source := outcome)))
      else w
    case CommitSource(id) => if id in w.calls && w.calls[id].pc.SourceBack? then DoCommitSource(w, id) else w
    case StopOwnSource(id) => if id in w.calls && w.calls[id].pc.OwnSourceStop? then DoStopOwnSource(w, id) else w
    case MakeWorkers(id, creation) => if At(w, id, CreateWorkers) then DoMakeWorkers(w, id, creation) else w
    case CheckTransport(id) => if At(w, id, TransportCheck) then DoCheckTransport(w, id) else w
    case TransportReturns(id, outcome) =>
      if At(w, id, TransportCall) && Returned(outcome) then
        var c := w.calls[id];
        Put(w, w.s, id, c.(pc := TransportBack(outcome), log := c.log.(transport := outcome)))
      else w
    case CommitTransport(id) =>
      if id in w.calls && w.calls[id].pc.TransportBack? then DoCommitTransport(w, id) else w
    case StopOwnTransport(id) =>
      if id in w.calls && w.calls[id].pc.OwnTransportStop? then DoStopOwnTransport(w, id) else w
    case ClaimAfterFailure(id) => if At(w, id, ClaimFailure) then DoClaimAfterFailure(w, id) else w
    case EnterStop(id) =>
      if At(w, id, StopEnter) then Move(w, id, if w.s.state == Stopped then Done else StopClaim) else w
    case ClaimTeardown(id) =>
      if At(w, id, StopClaim) && !w.s.teardownStarted then TakeClaim(w, id, StopClaimed) else w
    case CheckClaimed(id) => if At(w, id, StopClaimed) then DoCheckClaimed(w, id) else w
    case TearDown(id) => if id in w.calls && w.calls[id].pc.Tearing? then DoTearDown(w, id) else w
    case Background(event) => World(Happens(w.s, event), w.calls)
  }

  function Run(w: World, steps: seq<Step>): World
    decreases |steps|
  {
    if steps == [] then w else Run(Next(w, steps[0]), steps[1..])
  }
}
