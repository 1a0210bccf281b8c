// Starting and stopping a session is safe.
module SessionSafety {
  // The invariant of the start/stop protocol, that every step keeps it, and what it means
  // for whole runs.

  import opened Option
  import opened SessionLifecycle

  predicate HoldsClaim(c: Call) {
    c.pc.StopClaimed? || c.pc.Tearing?
  }

  function TearOf(c: Call): Option<Tear> {
    if c.pc.Tearing? then Some(c.pc.tear) else None
  }

  // The teardown in progress, if its owner got past the claim check.
  function Teardown(w: World): Option<Tear> {
    if w.s.owner.Some? && w.s.owner.value in w.calls then TearOf(w.calls[w.s.owner.value]) else None
  }

  // A teardown that has taken the run's resources over.
  predicate TookOver(t: Option<Tear>) {
    t.Some? && t.value.stage != Snapshot
  }

  // A teardown that took the workers over and has not got past the given stage.
  predicate WorkersPending(t: Option<Tear>, last: Stage) {
    TookOver(t) && t.value.workers && t.value.stage.Rank() <= last.Rank()
  }

  predicate ThreadOk(s: Shared, t: Option<Tear>, thread: Thread, last: Stage) {
    !thread.NoThread? ==> IsRun(s, thread.run) && s.mailbox.Some? && (s.workersCreated || WorkersPending(t, last))
  }

  predicate StateOk(s: Shared, t: Option<Tear>) {
    && (s.state == Stopped ==>
          && !s.sourceStarted && !s.transportStarted && !s.workersCreated
          && s.scheduler.NoThread? && s.dispatcher.NoThread? && s.mailbox.None? && t.None?)
    && (s.state == Stopping ==> TookOver(t))
    && (s.state != Stopped ==> s.run.Some?)
    && (s.state == Running ==> s.transportStarted)
    && (s.transportStarted ==> s.sourceStarted && s.state != Starting)
  }

  predicate TearOk(s: Shared, t: Option<Tear>) {
    && (TookOver(t) ==>
          && !s.sourceStarted && !s.transportStarted && !s.workersCreated && s.stopRequested
          && (s.state == Stopping || s.state == Faulted) && (t.value.faulted ==> s.state == Faulted)
          && (t.value.source.Some? ==> IsRun(s, t.value.source.value) && t.value.sourceObj == s.run.value.sourceObj)
          && (t.value.transport.Some? ==>
                IsRun(s, t.value.transport.value) && t.value.transportObj == s.run.value.transportObj))
    && (t.Some? && t.value.stage == Snapshot ==> t.value == NewTear(t.value.faulted))
  }

  // The transport of the current run is started, and its stop is still to come.
  predicate TransportAlive(s: Shared, t: Option<Tear>) {
    s.transportStarted || (TookOver(t) && t.value.transport.Some?)
  }

  predicate SharedOk(s: Shared, t: Option<Tear>) {
    && (s.teardownStarted <==> s.owner.Some?)
    && (t.Some? ==> s.owner.Some?)
    && (s.run.Some? ==> 0 < s.run.value.gen <= s.generation)
    && StateOk(s, t) && TearOk(s, t)
    && (s.state != Stopped && s.run.Some? ==>
          s.run.value.sourceObj == s.sourceObj && s.run.value.transportObj == s.transportObj)
    && ThreadOk(s, t, s.scheduler, JoinScheduler)
    && ThreadOk(s, t, s.dispatcher, JoinDispatcher)
    && (s.mailbox.Some? && s.mailbox.value.waiting > 0 ==> TransportAlive(s, t))
    && (CanEnqueue(s) ==> TransportAlive(s, t))
  }

  function One(b: bool): nat {
    if b then 1 else 0
  }

  // Stops of a started source that are still to come, and who owes them: the call itself,
  // a committed flag, or the teardown that took the flag over.
  function SourceDue(s: Shared, t: Option<Tear>, id: nat, pc: Pc): nat {
    One((pc.SourceBack? && NeedsStop(pc.outcome)) || pc.OwnSourceStop?)
    + One(s.sourceStarted && IsRun(s, id))
    + One(TookOver(t) && t.value.source == Some(id) && t.value.stage.Rank() <= StopSource.Rank())
  }

  function TransportDue(s: Shared, t: Option<Tear>, id: nat, pc: Pc): nat {
    One((pc.TransportBack? && NeedsStop(pc.outcome)) || pc.OwnTransportStop?)
    + One(s.transportStarted && IsRun(s, id))
    + One(TookOver(t) && t.value.transport == Some(id) && t.value.stage.Rank() <= StopTransport.Rank())
  }

  predicate Joinable(thread: Thread, id: nat) {
    !thread.NoThread? && thread.run == id
  }

  predicate BeforeWorkers(pc: Pc) {
    pc.StartEnter? || pc.SourceCall? || pc.SourceBack? || pc.OwnSourceStop? || pc.CreateWorkers?
  }

  predicate BeforeTransport(pc: Pc) {
    BeforeWorkers(pc) || pc.TransportCheck?
  }

  // A start() call that has claimed the session and not returned.
  predicate HasRun(pc: Pc) {
    pc.SourceCall? || pc.SourceBack? || pc.OwnSourceStop? || pc.CreateWorkers? || pc.TransportCheck?
    || pc.TransportCall? || pc.TransportBack? || pc.OwnTransportStop? || pc.ClaimFailure?
  }

  // What the position of a call says about its log.
  predicate PcOk(c: Call) {
    && (c.pc.SourceCall? ==> c.log.source == InProgress)
    && (c.pc.SourceBack? ==> c.log.source == c.pc.outcome && Returned(c.pc.outcome))
    && (c.pc.OwnSourceStop? ==> NeedsStop(c.log.source))
    && (c.pc.TransportCall? ==> c.log.transport == InProgress)
    && (c.pc.TransportBack? ==> c.log.transport == c.pc.outcome && Returned(c.pc.outcome))
    && (c.pc.OwnTransportStop? ==> NeedsStop(c.log.transport))
    && (BeforeWorkers(c.pc) ==> c.log.schedulers == 0 && c.log.dispatchers == 0)
    && (BeforeTransport(c.pc) ==> c.log.transport == NotTried)
    && (HasRun(c.pc) ==> c.gen > 0 && !c.log.published)
    && (c.pc.StartEnter? || c.pc.StopEnter? || c.pc.StopClaim? || c.pc.StopClaimed? ==> c.gen == 0)
    && (c.gen == 0 ==> c.log == EMPTY_LOG)
    && (c.log.source == InProgress ==> c.pc.SourceCall?)
    && (c.log.transport == InProgress ==> c.pc.TransportCall?)
  }

  // A call that may still commit has everything it committed so far in place.
  predicate ProgressOk(s: Shared, id: nat, c: Call) {
    && (IsRun(s, id) && BeforeWorkers(c.pc) ==> !s.workersCreated)
    && (IsRun(s, id) && (c.pc.SourceCall? || c.pc.SourceBack?) ==> !s.sourceStarted)
    && (StillValid(s, c) && (c.pc.CreateWorkers? || c.pc.TransportCheck? || c.pc.TransportCall? || c.pc.TransportBack?)
        ==> s.sourceStarted)
    && (IsRun(s, id) && s.sourceStarted ==> c.log.source == Accepted)
    && (IsRun(s, id) && s.transportStarted ==> c.log.transport == Accepted && c.log.published)
    && (c.log.published ==> c.gen < s.generation || s.state != Starting)
  }

  predicate OwnershipOk(s: Shared, t: Option<Tear>, id: nat, c: Call) {
    && (HoldsClaim(c) ==> s.owner == Some(id))
    && (s.owner == Some(id) ==> HoldsClaim(c) && t == TearOf(c))
    && (c.gen > 0 ==> s.run.Some? && (IsRun(s, id) || c.gen < s.run.value.gen))
    && (IsRun(s, id) ==> s.run.value == RunClaim(id, c.gen, c.sourceObj, c.transportObj))
  }

  // Exactly one stop is owed or done for a start that came back true or threw, none otherwise;
  // every thread created is joined once or still joinable.
  predicate Accounted(s: Shared, t: Option<Tear>, id: nat, c: Call) {
    && c.log.sourceStops + SourceDue(s, t, id, c.pc) == One(NeedsStop(c.log.source))
    && c.log.transportStops + TransportDue(s, t, id, c.pc) == One(NeedsStop(c.log.transport))
    && c.log.schedulerJoins + One(Joinable(s.scheduler, id)) == c.log.schedulers <= 1
    && c.log.dispatcherJoins + One(Joinable(s.dispatcher, id)) == c.log.dispatchers <= 1
  }

  // A teardown takes a transport over only if its start returned true.
  predicate TakenOk(t: Option<Tear>, id: nat, c: Call) {
    TookOver(t) && t.value.transport == Some(id) ==> c.log.transport == Accepted
  }

  predicate CallOk(s: Shared, t: Option<Tear>, id: nat, c: Call) {
    && OwnershipOk(s, t, id, c) && PcOk(c) && ProgressOk(s, id, c) && Accounted(s, t, id, c) && TakenOk(t, id, c)
    && (c.log.cancelled ==> c.gen > 0 && !StillValid(s, c))
  }

  predicate Known(w: World) {
    && (w.s.run.Some? ==> w.s.run.value.id in w.calls)
    && (w.s.owner.Some? ==> w.s.owner.value in w.calls)
  }

  ghost predicate AllCallsOk(w: World, t: Option<Tear>) {
    forall id :: id in w.calls ==> CallOk(w.s, t, id, w.calls[id])
  }

  ghost predicate Inv(w: World) {
    Known(w) && SharedOk(w.s, Teardown(w)) && AllCallsOk(w, Teardown(w))
  }

  lemma {:induction false} InitialInv()
    ensures Inv(INITIAL)
  {
  }

  // A step that changes the shared state and at most one call.
  lemma {:induction false} PutKeepsInv(w: World, s: Shared, t: Option<Tear>, id: nat, c: Call)
    requires Known(w)
    requires s.run.Some? && s.run != w.s.run ==> s.run.value.id == id
    requires s.owner.Some? && s.owner != w.s.owner ==> s.owner.value == id
    requires t == (if s.owner == Some(id) then TearOf(c)
                   else if s.owner.None? then None else Teardown(w))
    requires SharedOk(s, t) && CallOk(s, t, id, c)
    requires forall i :: i in w.calls && i != id ==> CallOk(s, t, i, w.calls[i])
    ensures Inv(Put(w, s, id, c))
  {
    var w' := Put(w, s, id, c);
    assert Teardown(w') == t;
  }

  // The move of one call that does not touch the shared state or the claim.
  lemma {:induction false} MoveKeepsInv(w: World, id: nat, c: Call)
    requires Inv(w) && CallOk(w.s, Teardown(w), id, c)
    requires w.s.owner != Some(id) || (id in w.calls && TearOf(w.calls[id]) == TearOf(c))
    ensures Inv(Put(w, w.s, id, c))
  {
    PutKeepsInv(w, w.s, Teardown(w), id, c);
  }

  lemma {:induction false} NewCallKeepsInv(w: World, id: nat, starts: bool)
    requires Inv(w)
    ensures Inv(Next(w, NewCall(id, starts)))
  {
    if id !in w.calls {
      MoveKeepsInv(w, id, Call(if starts then StartEnter else StopEnter, 0, 0, 0, EMPTY_LOG));
    }
  }

  lemma {:induction false} RejectStartKeepsInv(w: World, id: nat)
    requires Inv(w)
    ensures Inv(Next(w, RejectStart(id)))
  {
    if At(w, id, StartEnter) {
      MoveKeepsInv(w, id, w.calls[id].(pc := Done));
    }
  }

  lemma {:induction false} ClaimRunKeepsInv(w: World, id: nat)
    requires Inv(w) && At(w, id, StartEnter)
    ensures Inv(DoClaimRun(w, id))
  {
    var c := w.calls[id];
    if w.s.state != Stopped {
      MoveKeepsInv(w, id, c.(pc := Done));
    } else {
      var gen := w.s.generation + 1;
      var s := w.s.(state := Starting, stopRequested := false, generation := gen,
                    run := Some(RunClaim(id, gen, w.s.sourceObj, w.s.transportObj)));
      PutKeepsInv(w, s, Teardown(w), id,
                  Call(SourceCall, gen, w.s.sourceObj, w.s.transportObj, EMPTY_LOG.(source := InProgress)));
    }
  }

  lemma {:induction false} SourceReturnsKeepsInv(w: World, id: nat, outcome: Attempt)
    requires Inv(w)
    ensures Inv(Next(w, SourceReturns(id, outcome)))
  {
    if At(w, id, SourceCall) && Returned(outcome) {
      var c := w.calls[id];
      MoveKeepsInv(w, id, c.(pc := SourceBack(outcome), log := c.log.(source := outcome)));
    }
  }

  lemma {:induction false} CommitSourceKeepsInv(w: World, id: nat)
    requires Inv(w) && id in w.calls && w.calls[id].pc.SourceBack?
    ensures Inv(DoCommitSource(w, id))
  {
    var c := w.calls[id];
    if !StillValid(w.s, c) {
      MoveKeepsInv(w, id, c.(pc := if NeedsStop(c.pc.outcome) then OwnSourceStop(false) else Done));
    } else {
      var t := Teardown(w);
      var s := w.s.(sourceStarted := c.pc.outcome == Accepted);
      SourceCommitKeepsOwn(w.s, t, id, c);
      forall i | i in w.calls && i != id
        ensures CallOk(s, t, i, w.calls[i])
      {
        SourceCommitKeepsOther(w.s, t, id, s.sourceStarted, i, w.calls[i]);
      }
      PutKeepsInv(w, s, t, id, c.(pc := AfterSource(c.pc.outcome)));
    }
  }

  function AfterSource(outcome: Attempt): Pc {
    if outcome == Threw then OwnSourceStop(true) else if outcome == Refused then ClaimFailure else CreateWorkers
  }

  lemma {:induction false} SourceCommitKeepsOwn(s: Shared, t: Option<Tear>, id: nat, c: Call)
    requires SharedOk(s, t) && CallOk(s, t, id, c) && StillValid(s, c) && c.pc.SourceBack?
    ensures IsRun(s, id) && SharedOk(s.(sourceStarted := c.pc.outcome == Accepted), t)
    ensures CallOk(s.(sourceStarted := c.pc.outcome == Accepted), t, id, c.(pc := AfterSource(c.pc.outcome)))
  {
  }

  lemma {:induction false} SourceCommitKeepsOther(s: Shared, t: Option<Tear>, id: nat, started: bool, i: nat, c: Call)
    requires SharedOk(s, t) && IsRun(s, id) && CallOk(s, t, i, c) && i != id
    ensures CallOk(s.(sourceStarted := started), t, i, c)
  {
  }

  lemma {:induction false} OwnSourceStopped(s: Shared, t: Option<Tear>, id: nat, c: Call)
    requires CallOk(s, t, id, c) && c.pc.OwnSourceStop?
    ensures CallOk(s, t, id, c.(pc := if c.pc.claimNext then ClaimFailure else Done,
                                log := c.log.(sourceStops := c.log.sourceStops + 1)))
  {
  }

  lemma {:induction false} StopOwnSourceKeepsInv(w: World, id: nat)
    requires Inv(w) && id in w.calls && w.calls[id].pc.OwnSourceStop?
    ensures Inv(DoStopOwnSource(w, id))
  {
    OwnSourceStopped(w.s, Teardown(w), id, w.calls[id]);
    MoveKeepsInv(w, id, DoStopOwnSource(w, id).calls[id]);
  }

  lemma {:induction false} WorkersKeepOther(s: Shared, t: Option<Tear>, id: nat, creation: Creation, i: nat, c: Call)
    requires SharedOk(s, t) && IsRun(s, id) && s.state == Starting && CallOk(s, t, i, c) && i != id
    ensures CallOk(WithWorkers(s, id, creation), t, i, c)
  {
  }

  lemma {:induction false} WorkersKeepOwn(s: Shared, t: Option<Tear>, id: nat, creation: Creation, c: Call)
    requires SharedOk(s, t) && CallOk(s, t, id, c) && StillValid(s, c) && c.pc == CreateWorkers && creation != NoMailbox
    ensures IsRun(s, id)
    ensures SharedOk(WithWorkers(s, id, creation), t)
    ensures CallOk(WithWorkers(s, id, creation), t, id, CreatedWorkers(c, creation))
  {
  }

  lemma {:induction false} MakeWorkersKeepsInv(w: World, id: nat, creation: Creation)
    requires Inv(w) && At(w, id, CreateWorkers)
    ensures Inv(DoMakeWorkers(w, id, creation))
  {
    var c := w.calls[id];
    var t := Teardown(w);
    if !StillValid(w.s, c) {
      MoveKeepsInv(w, id, c.(pc := Done));
    } else if creation == NoMailbox {
      MoveKeepsInv(w, id, c.(pc := ClaimFailure));
    } else {
      WorkersKeepOwn(w.s, t, id, creation, c);
      forall i | i in w.calls && i != id
        ensures CallOk(WithWorkers(w.s, id, creation), t, i, w.calls[i])
      {
        WorkersKeepOther(w.s, t, id, creation, i, w.calls[i]);
      }
      PutKeepsInv(w, WithWorkers(w.s, id, creation), t, id, CreatedWorkers(c, creation));
    }
  }

  lemma {:induction false} CheckTransportKeepsInv(w: World, id: nat)
    requires Inv(w) && At(w, id, TransportCheck)
    ensures Inv(DoCheckTransport(w, id))
  {
    MoveKeepsInv(w, id, DoCheckTransport(w, id).calls[id]);
  }

  lemma {:induction false} TransportReturnsKeepsInv(w: World, id: nat, outcome: Attempt)
    requires Inv(w)
    ensures Inv(Next(w, TransportReturns(id, outcome)))
  {
    if At(w, id, TransportCall) && Returned(outcome) {
      var c := w.calls[id];
      MoveKeepsInv(w, id, c.(pc := TransportBack(outcome), log := c.log.(transport := outcome)));
    }
  }

  lemma {:induction false} CommitKeepsOther(s: Shared, t: Option<Tear>, id: nat, s': Shared, i: nat, c: Call)
    requires SharedOk(s, t) && IsRun(s, id) && s.state == Starting && CallOk(s, t, i, c) && i != id
    requires s' == s.(transportStarted := true, state := Running) || s' == s.(transportStarted := false)
    ensures CallOk(s', t, i, c)
  {
  }

  // What the commit of the transport start makes of the shared state and of the call.
  function CommittedShared(s: Shared, outcome: Attempt): Shared {
    if outcome == Accepted then s.(transportStarted := true, state := Running) else s.(transportStarted := false)
  }

  function CommittedCall(c: Call, outcome: Attempt): Call {
    if outcome == Accepted then c.(pc := Done, log := c.log.(published := true))
    else c.(pc := if outcome == Threw then OwnTransportStop(true) else ClaimFailure)
  }

  lemma {:induction false} CommitKeepsShared(s: Shared, t: Option<Tear>, id: nat, c: Call)
    requires SharedOk(s, t) && CallOk(s, t, id, c) && StillValid(s, c) && c.pc.TransportBack?
    ensures IsRun(s, id) && SharedOk(CommittedShared(s, c.pc.outcome), t)
  {
  }

  lemma {:induction false} CommitKeepsOwn(s: Shared, t: Option<Tear>, id: nat, c: Call)
    requires SharedOk(s, t) && CallOk(s, t, id, c) && StillValid(s, c) && c.pc.TransportBack? && IsRun(s, id)
    ensures CallOk(CommittedShared(s, c.pc.outcome), t, id, CommittedCall(c, c.pc.outcome))
  {
  }

  lemma {:induction false} CommitTransportKeepsInv(w: World, id: nat)
    requires Inv(w) && id in w.calls && w.calls[id].pc.TransportBack?
    ensures Inv(DoCommitTransport(w, id))
  {
    var c := w.calls[id];
    var t := Teardown(w);
    if !StillValid(w.s, c) {
      MoveKeepsInv(w, id, c.(pc := if NeedsStop(c.pc.outcome) then OwnTransportStop(false) else Done));
    } else {
      var s := CommittedShared(w.s, c.pc.outcome);
      CommitKeepsShared(w.s, t, id, c);
      CommitKeepsOwn(w.s, t, id, c);
      forall i | i in w.calls && i != id
        ensures CallOk(s, t, i, w.calls[i])
      {
        CommitKeepsOther(w.s, t, id, s, i, w.calls[i]);
      }
      PutKeepsInv(w, s, t, id, CommittedCall(c, c.pc.outcome));
    }
  }

  lemma {:induction false} StopOwnTransportKeepsInv(w: World, id: nat)
    requires Inv(w) && id in w.calls && w.calls[id].pc.OwnTransportStop?
    ensures Inv(DoStopOwnTransport(w, id))
  {
    MoveKeepsInv(w, id, DoStopOwnTransport(w, id).calls[id]);
  }

  lemma {:induction false} EnterStopKeepsInv(w: World, id: nat)
    requires Inv(w)
    ensures Inv(Next(w, EnterStop(id)))
  {
    if At(w, id, StopEnter) {
      MoveKeepsInv(w, id, w.calls[id].(pc := if w.s.state == Stopped then Done else StopClaim));
    }
  }

  lemma {:induction false} CheckClaimedKeepsInv(w: World, id: nat)
    requires Inv(w) && At(w, id, StopClaimed)
    ensures Inv(DoCheckClaimed(w, id))
  {
    var c := w.calls[id];
    var t := Teardown(w);
    assert CallOk(w.s, t, id, c) && t == None;
    if w.s.state == Stopped {
      var s := w.s.(teardownStarted := false, owner := None);
      forall i | i in w.calls && i != id
        ensures CallOk(s, None, i, w.calls[i])
      {
        ReleaseKeepsOther(w.s, id, i, w.calls[i]);
      }
      ReleaseKeepsOwn(w.s, id, c);
      PutKeepsInv(w, s, None, id, c.(pc := Done));
    } else {
      var tear := Some(NewTear(false));
      forall i | i in w.calls && i != id
        ensures CallOk(w.s, tear, i, w.calls[i])
      {
        BeginKeepsOther(w.s, id, i, w.calls[i]);
      }
      BeginKeepsOwn(w.s, id, c);
      PutKeepsInv(w, w.s, tear, id, c.(pc := Tearing(NewTear(false))));
    }
  }

  lemma {:induction false} ReleaseKeepsOther(s: Shared, id: nat, i: nat, c: Call)
    requires s.owner == Some(id) && CallOk(s, None, i, c) && i != id
    ensures CallOk(s.(teardownStarted := false, owner := None), None, i, c)
  {
  }

  lemma {:induction false} ReleaseKeepsOwn(s: Shared, id: nat, c: Call)
    requires SharedOk(s, None) && CallOk(s, None, id, c) && c.pc == StopClaimed
    ensures SharedOk(s.(teardownStarted := false, owner := None), None)
    ensures CallOk(s.(teardownStarted := false, owner := None), None, id, c.(pc := Done))
  {
  }

  lemma {:induction false} BeginKeepsOther(s: Shared, id: nat, i: nat, c: Call)
    requires s.owner == Some(id) && CallOk(s, None, i, c) && i != id
    ensures CallOk(s, Some(NewTear(false)), i, c)
  {
  }

  lemma {:induction false} BeginKeepsOwn(s: Shared, id: nat, c: Call)
    requires SharedOk(s, None) && CallOk(s, None, id, c) && c.pc == StopClaimed && s.state != Stopped
    ensures SharedOk(s, Some(NewTear(false)))
    ensures CallOk(s, Some(NewTear(false)), id, c.(pc := Tearing(NewTear(false))))
  {
  }

  lemma {:induction false} EventKeepsShared(s: Shared, t: Option<Tear>, event: Event)
    requires SharedOk(s, t)
    ensures SharedOk(Happens(s, event), t)
  {
  }

  // What an event leaves alone, as far as the calls are concerned.
  predicate Undisturbed(s: Shared, s': Shared) {
    && s'.run == s.run && s'.owner == s.owner && s'.generation == s.generation
    && s'.sourceStarted == s.sourceStarted && s'.transportStarted == s.transportStarted
    && s'.workersCreated == s.workersCreated
    && (s'.state == Starting ==> s.state == Starting)
    && (s'.scheduler.NoThread? <==> s.scheduler.NoThread?)
    && (s'.dispatcher.NoThread? <==> s.dispatcher.NoThread?)
    && (!s.scheduler.NoThread? ==> s'.scheduler.run == s.scheduler.run)
    && (!s.dispatcher.NoThread? ==> s'.dispatcher.run == s.dispatcher.run)
  }

  predicate IsDispatcherEvent(event: Event) {
    event.DispatcherWakes? || event.DispatcherFails? || event.PopFrame? || event.EnqueueFrame? || event.DispatcherExits?
  }

  lemma {:induction false} DispatcherEventIsUndisturbing(s: Shared, event: Event)
    requires IsDispatcherEvent(event)
    ensures Undisturbed(s, Happens(s, event))
  {
  }

  lemma {:induction false} OtherEventIsUndisturbing(s: Shared, event: Event)
    requires !IsDispatcherEvent(event)
    ensures Undisturbed(s, Happens(s, event))
  {
  }

  lemma {:induction false} EventIsUndisturbing(s: Shared, event: Event)
    ensures Undisturbed(s, Happens(s, event))
  {
    if IsDispatcherEvent(event) { DispatcherEventIsUndisturbing(s, event); } else { OtherEventIsUndisturbing(s, event); }
  }

  lemma {:induction false} UndisturbedCall(s: Shared, s': Shared, t: Option<Tear>, id: nat, c: Call)
    requires Undisturbed(s, s') && CallOk(s, t, id, c)
    ensures CallOk(s', t, id, c)
  {
  }

  lemma {:induction false} BackgroundKeepsInv(w: World, event: Event)
    requires Inv(w)
    ensures Inv(World(Happens(w.s, event), w.calls))
  {
    var w' := World(Happens(w.s, event), w.calls);
    var t := Teardown(w);
    EventKeepsShared(w.s, t, event);
    EventIsUndisturbing(w.s, event);
    forall id | id in w.calls
      ensures CallOk(w'.s, t, id, w.calls[id])
    {
      UndisturbedCall(w.s, w'.s, t, id, w.calls[id]);
    }
  }

  // A step that changes the shared state and two calls, one of them the current run's.
  lemma {:induction false} PutTwoKeepsInv(w: World, s: Shared, t: Option<Tear>, id: nat, c: Call, run: nat, r: Call)
    requires Known(w) && run in w.calls && run != id
    requires s.run == w.s.run
    requires s.owner == None || s.owner == Some(id)
    requires t == (if s.owner == Some(id) then TearOf(c) else None)
    requires SharedOk(s, t) && CallOk(s, t, id, c) && CallOk(s, t, run, r)
    requires forall i :: i in w.calls && i != id && i != run ==> CallOk(s, t, i, w.calls[i])
    ensures Inv(Put(Put(w, s, id, c), s, run, r))
  {
    var w' := Put(Put(w, s, id, c), s, run, r);
    assert Teardown(w') == t;
  }

  function Cancelled(c: Call): Call {
    c.(log := c.log.(cancelled := true))
  }

  function Claimed(s: Shared, id: nat): Shared {
    s.(teardownStarted := true, generation := s.generation + 1, owner := Some(id))
  }

  // Claiming the teardown does not disturb a call that is not taking it.
  lemma {:induction false} ClaimKeepsCall(s: Shared, id: nat, pc: Pc, i: nat, c: Call)
    requires !s.teardownStarted && SharedOk(s, None) && CallOk(s, None, i, c) && i != id
    requires pc == StopClaimed || (pc == Tearing(NewTear(true)) && s.state == Starting)
    ensures CallOk(Claimed(s, id), if pc.Tearing? then Some(pc.tear) else None, i, c)
    ensures s.state != Stopped && IsRun(s, i) && pc.StopClaimed? ==> CallOk(Claimed(s, id), None, i, Cancelled(c))
  {
  }

  // The caller may claim: from stop(), or as the failed start of the current run.
  lemma {:induction false} ClaimKeepsOwn(s: Shared, id: nat, c: Call, pc: Pc)
    requires !s.teardownStarted && SharedOk(s, None) && CallOk(s, None, id, c)
    requires (c.pc == StopClaim && pc == StopClaimed)
             || (c.pc == ClaimFailure && pc == Tearing(NewTear(true)) && StillValid(s, c))
    ensures SharedOk(Claimed(s, id), TearOf(c.(pc := pc)))
    ensures CallOk(Claimed(s, id), TearOf(c.(pc := pc)), id, c.(pc := pc))
    ensures pc.Tearing? ==> IsRun(s, id) && CallOk(Claimed(s, id), Some(pc.tear), id, Cancelled(c.(pc := pc)))
  {
  }

  lemma {:induction false} ClaimTeardownKeepsInv(w: World, id: nat)
    requires Inv(w) && At(w, id, StopClaim) && !w.s.teardownStarted
    ensures Inv(TakeClaim(w, id, StopClaimed))
  {
    if w.s.state == Stopped { ClaimWhileStopped(w, id); } else { ClaimOfRun(w, id); }
  }

  lemma {:induction false} ClaimWhileStopped(w: World, id: nat)
    requires Inv(w) && At(w, id, StopClaim) && !w.s.teardownStarted && w.s.state == Stopped
    ensures Inv(TakeClaim(w, id, StopClaimed))
  {
    var s := Claimed(w.s, id);
    assert Teardown(w) == None;
    ClaimKeepsOwn(w.s, id, w.calls[id], StopClaimed);
    forall i | i in w.calls && i != id
      ensures CallOk(s, None, i, w.calls[i])
    {
      assert CallOk(w.s, None, i, w.calls[i]);
      ClaimKeepsCall(w.s, id, StopClaimed, i, w.calls[i]);
    }
    var c := w.calls[id].(pc := StopClaimed);
    assert TearOf(c) == None && CallOk(s, None, id, c) && SharedOk(s, None);
    PutKeepsInv(w, s, None, id, c);
    assert TakeClaim(w, id, StopClaimed) == Put(w, s, id, c);
  }

  lemma {:induction false} ClaimOfRun(w: World, id: nat)
    requires Inv(w) && At(w, id, StopClaim) && !w.s.teardownStarted && w.s.state != Stopped
    ensures Inv(TakeClaim(w, id, StopClaimed))
  {
    var s := Claimed(w.s, id);
    var run := w.s.run.value.id;
    assert CallOk(w.s, None, id, w.calls[id]) && run != id;
    ClaimKeepsOwn(w.s, id, w.calls[id], StopClaimed);
    forall i | i in w.calls && i != id
      ensures CallOk(s, None, i, w.calls[i])
    {
      ClaimKeepsCall(w.s, id, StopClaimed, i, w.calls[i]);
    }
    ClaimKeepsCall(w.s, id, StopClaimed, run, w.calls[run]);
    PutTwoKeepsInv(w, s, None, id, w.calls[id].(pc := StopClaimed), run, Cancelled(w.calls[run]));
    StopClaimIsTwoPuts(w, id, run);
  }

  // The claim of stop() moves its own call and cancels the current run.
  lemma {:induction false} StopClaimIsTwoPuts(w: World, id: nat, run: nat)
    requires id in w.calls && run in w.calls && run != id && IsRun(w.s, run) && w.s.state != Stopped
    ensures TakeClaim(w, id, StopClaimed)
            == Put(Put(w, Claimed(w.s, id), id, w.calls[id].(pc := StopClaimed)), Claimed(w.s, id), run, Cancelled(w.calls[run]))
  {
  }

  // The failed start is the current run, so its own claim cancels it.
  lemma {:induction false} FailureClaimIsOnePut(w: World, id: nat, pc: Pc)
    requires id in w.calls && IsRun(w.s, id) && w.s.state == Starting
    ensures TakeClaim(w, id, pc) == Put(w, Claimed(w.s, id), id, Cancelled(w.calls[id].(pc := pc)))
  {
    var c := Cancelled(w.calls[id].(pc := pc));
    assert w.calls[id := w.calls[id].(pc := pc)][id := c] == w.calls[id := c];
  }

  lemma {:induction false} ClaimAfterFailureKeepsInv(w: World, id: nat)
    requires Inv(w) && At(w, id, ClaimFailure)
    ensures Inv(DoClaimAfterFailure(w, id))
  {
    if !StillValid(w.s, w.calls[id]) || w.s.teardownStarted {
      MoveKeepsInv(w, id, w.calls[id].(pc := Done));
    } else {
      var pc := Tearing(NewTear(true));
      var s := Claimed(w.s, id);
      ClaimKeepsOwn(w.s, id, w.calls[id], pc);
      forall i | i in w.calls && i != id
        ensures CallOk(s, Some(pc.tear), i, w.calls[i])
      {
        ClaimKeepsCall(w.s, id, pc, i, w.calls[i]);
      }
      var c := Cancelled(w.calls[id].(pc := pc));
      PutKeepsInv(w, s, Some(pc.tear), id, c);
      FailureClaimIsOnePut(w, id, pc);
    }
  }

  // ---- the teardown, one call at a time -----------------------------------------------------------

  // The owner of the teardown moves on; every other call stays where it is.
  function Advanced(s: Shared, next: Pc, i: nat, c: Call): Call {
    if s.owner == Some(i) then c.(pc := next) else c
  }

  function Snapped(s: Shared, faulted: bool): Shared {
    s.(stopRequested := true, sourceStarted := false, transportStarted := false,
       workersCreated := false, state := if faulted then Faulted else Stopping)
  }

  function Taken(s: Shared, t: Tear): Tear {
    var run := if s.run.Some? then Some(s.run.value.id) else None;
    t.(stage := CloseGate,
       source := if s.sourceStarted then run else None, sourceObj := s.sourceObj,
       transport := if s.transportStarted then run else None, transportObj := s.transportObj,
       workers := s.workersCreated)
  }

  lemma {:induction false} SnapshotKeepsShared(s: Shared, t: Tear)
    requires SharedOk(s, Some(t)) && t.stage == Snapshot
    ensures SharedOk(Snapped(s, t.faulted), Some(Taken(s, t)))
  {
  }

  lemma {:induction false} SnapshotKeepsCall(s: Shared, t: Tear, i: nat, c: Call)
    requires SharedOk(s, Some(t)) && t.stage == Snapshot && CallOk(s, Some(t), i, c)
    ensures var moved := Advanced(s, Tearing(Taken(s, t)), i, c);
            CallOk(Snapped(s, t.faulted), Some(Taken(s, t)), i, if IsRun(s, i) then Cancelled(moved) else moved)
  {
    if IsRun(s, i) { SnapshotKeepsRun(s, t, i, c); } else { SnapshotKeepsOther(s, t, i, c); }
  }

  // The call of the run that is torn down is cancelled, and what it started is taken over.
  lemma {:induction false} SnapshotKeepsRun(s: Shared, t: Tear, i: nat, c: Call)
    requires SharedOk(s, Some(t)) && t.stage == Snapshot && CallOk(s, Some(t), i, c) && IsRun(s, i)
    ensures CallOk(Snapped(s, t.faulted), Some(Taken(s, t)), i, Cancelled(Advanced(s, Tearing(Taken(s, t)), i, c)))
  {
  }

  lemma {:induction false} SnapshotKeepsOther(s: Shared, t: Tear, i: nat, c: Call)
    requires SharedOk(s, Some(t)) && t.stage == Snapshot && CallOk(s, Some(t), i, c) && !IsRun(s, i)
    ensures CallOk(Snapped(s, t.faulted), Some(Taken(s, t)), i, Advanced(s, Tearing(Taken(s, t)), i, c))
  {
  }

  lemma {:induction false} CloseGateKeepsCall(s: Shared, t: Tear, i: nat, c: Call)
    requires CallOk(s, Some(t), i, c) && t.stage == CloseGate
    ensures var t' := t.(stage := StopSource);
            CallOk(s, Some(t'), i, Advanced(s, Tearing(t'), i, c))
  {
  }

  lemma {:induction false} CloseMailboxKeepsCall(s: Shared, t: Tear, mailbox: Option<Mailbox>, i: nat, c: Call)
    requires CallOk(s, Some(t), i, c) && t.stage == CloseMailbox
    ensures var t' := t.(stage := JoinScheduler);
            CallOk(s.(mailbox := mailbox), Some(t'), i, Advanced(s, Tearing(t'), i, c))
  {
  }

  lemma {:induction false} StopSourceKeepsCall(s: Shared, t: Tear, i: nat, c: Call)
    requires CallOk(s, Some(t), i, c) && t.stage == StopSource
    ensures var t' := t.(stage := CloseMailbox);
            var moved := Advanced(s, Tearing(t'), i, c);
            CallOk(s, Some(t'), i,
                   if t.source == Some(i) then moved.(log := c.log.(sourceStops := c.log.sourceStops + 1)) else moved)
  {
  }

  lemma {:induction false} StopTransportKeepsCall(s: Shared, t: Tear, i: nat, c: Call)
    requires CallOk(s, Some(t), i, c) && t.stage == StopTransport
    ensures var t' := t.(stage := Finish);
            var moved := Advanced(s, Tearing(t'), i, c);
            CallOk(s, Some(t'), i,
                   if t.transport == Some(i)
                   then moved.(log := c.log.(transportStops := c.log.transportStops + 1)) else moved)
  {
  }

  lemma {:induction false} JoinSchedulerKeepsCall(s: Shared, t: Tear, i: nat, c: Call)
    requires CallOk(s, Some(t), i, c) && t.stage == JoinScheduler
    ensures var t' := t.(stage := JoinDispatcher);
            var moved := Advanced(s, Tearing(t'), i, c);
            && CallOk(s, Some(t'), i, moved)
            && (s.scheduler.Exited? ==>
                  CallOk(s.(scheduler := NoThread), Some(t'), i,
                         if s.scheduler.run == i
                         then moved.(log := c.log.(schedulerJoins := c.log.schedulerJoins + 1)) else moved))
  {
    LeaveSchedulerKeepsCall(s, t, i, c);
    if s.scheduler.Exited? { SchedulerJoinedKeepsCall(s, Some(t.(stage := JoinDispatcher)), i, Advanced(s, Tearing(t.(stage := JoinDispatcher)), i, c)); }
  }

  lemma {:induction false} LeaveSchedulerKeepsCall(s: Shared, t: Tear, i: nat, c: Call)
    requires CallOk(s, Some(t), i, c) && t.stage == JoinScheduler
    ensures var t' := t.(stage := JoinDispatcher);
            CallOk(s, Some(t'), i, Advanced(s, Tearing(t'), i, c))
  {
  }

  lemma {:induction false} SchedulerJoinedKeepsCall(s: Shared, t: Option<Tear>, i: nat, c: Call)
    requires CallOk(s, t, i, c) && s.scheduler.Exited?
    ensures CallOk(s.(scheduler := NoThread), t, i,
                   if s.scheduler.run == i then c.(log := c.log.(schedulerJoins := c.log.schedulerJoins + 1)) else c)
  {
  }

  lemma {:induction false} JoinDispatcherKeepsCall(s: Shared, t: Tear, i: nat, c: Call)
    requires CallOk(s, Some(t), i, c) && t.stage == JoinDispatcher
    ensures var t' := t.(stage := StopTransport);
            var moved := Advanced(s, Tearing(t'), i, c);
            && CallOk(s, Some(t'), i, moved)
            && (s.dispatcher.Exited? ==>
                  CallOk(s.(dispatcher := NoThread), Some(t'), i,
                         if s.dispatcher.run == i
                         then moved.(log := c.log.(dispatcherJoins := c.log.dispatcherJoins + 1)) else moved))
  {
    LeaveDispatcherKeepsCall(s, t, i, c);
    if s.dispatcher.Exited? { DispatcherJoinedKeepsCall(s, Some(t.(stage := StopTransport)), i, Advanced(s, Tearing(t.(stage := StopTransport)), i, c)); }
  }

  lemma {:induction false} LeaveDispatcherKeepsCall(s: Shared, t: Tear, i: nat, c: Call)
    requires CallOk(s, Some(t), i, c) && t.stage == JoinDispatcher
    ensures var t' := t.(stage := StopTransport);
            CallOk(s, Some(t'), i, Advanced(s, Tearing(t'), i, c))
  {
  }

  lemma {:induction false} DispatcherJoinedKeepsCall(s: Shared, t: Option<Tear>, i: nat, c: Call)
    requires CallOk(s, t, i, c) && s.dispatcher.Exited?
    ensures CallOk(s.(dispatcher := NoThread), t, i,
                   if s.dispatcher.run == i then c.(log := c.log.(dispatcherJoins := c.log.dispatcherJoins + 1)) else c)
  {
  }

  function Finished(s: Shared, t: Tear): Shared {
    s.(mailbox := None, teardownStarted := false, owner := None, state := if t.faulted then s.state else Stopped)
  }

  lemma {:induction false} FinishKeepsShared(s: Shared, t: Tear)
    requires SharedOk(s, Some(t)) && t.stage == Finish
    ensures SharedOk(Finished(s, t), None)
  {
  }

  lemma {:induction false} FinishKeepsCall(s: Shared, t: Tear, i: nat, c: Call)
    requires SharedOk(s, Some(t)) && CallOk(s, Some(t), i, c) && t.stage == Finish
    ensures CallOk(Finished(s, t), None, i, Advanced(s, Done, i, c))
  {
  }

  // A stage between the snapshot and the end is left; joining needs the thread to be gone.
  lemma {:induction false} StageKeepsShared(s: Shared, t: Tear, next: Stage)
    requires SharedOk(s, Some(t)) && TookOver(Some(t)) && next.Rank() == t.stage.Rank() + 1
    requires t.stage == JoinScheduler ==> s.scheduler.NoThread?
    requires t.stage == JoinDispatcher ==> s.dispatcher.NoThread?
    ensures SharedOk(s, Some(t.(stage := next)))
  {
  }

  lemma {:induction false} ClosedMailboxKeepsShared(s: Shared, t: Option<Tear>)
    requires SharedOk(s, t) && s.mailbox.Some?
    ensures SharedOk(s.(mailbox := Some(s.mailbox.value.(closed := true))), t)
  {
  }

  lemma {:induction false} JoinedKeepsShared(s: Shared, t: Option<Tear>)
    requires SharedOk(s, t)
    ensures SharedOk(s.(scheduler := NoThread), t)
    ensures SharedOk(s.(dispatcher := NoThread), t)
  {
  }

  // Without workers to join there are no threads left.
  lemma {:induction false} NoWorkersNoThreads(s: Shared, t: Tear)
    requires SharedOk(s, Some(t)) && TookOver(Some(t)) && !t.workers
    ensures s.scheduler.NoThread? && s.dispatcher.NoThread?
  {
  }

  // Inv from its three parts, for a step of the teardown owner.
  lemma {:induction false} TearStepKeepsInv(w: World, id: nat, w': World, t': Option<Tear>)
    requires Inv(w) && w.s.owner == Some(id) && w'.calls.Keys == w.calls.Keys && w'.s.run == w.s.run
    requires (w'.s.owner == Some(id) && id in w'.calls && t' == TearOf(w'.calls[id])) || (w'.s.owner == None && t' == None)
    requires SharedOk(w'.s, t')
    requires forall i :: i in w.calls ==> CallOk(w'.s, t', i, w'.calls[i])
    ensures Inv(w')
  {
  }

  lemma {:induction false} SnapshotMoves(w: World, id: nat, i: nat)
    requires Known(w) && id in w.calls && w.calls[id].pc.Tearing? && w.s.owner == Some(id) && i in w.calls
    ensures DoSnapshot(w, id).calls.Keys == w.calls.Keys
    ensures DoSnapshot(w, id).s == Snapped(w.s, w.calls[id].pc.tear.faulted)
    ensures var moved := Advanced(w.s, Tearing(Taken(w.s, w.calls[id].pc.tear)), i, w.calls[i]);
            DoSnapshot(w, id).calls[i] == if IsRun(w.s, i) then Cancelled(moved) else moved
  {
  }

  lemma {:induction false} SnapshotKeepsInv(w: World, id: nat)
    requires Inv(w) && id in w.calls && w.calls[id].pc.Tearing? && w.calls[id].pc.tear.stage == Snapshot
    ensures Inv(DoSnapshot(w, id))
  {
    var t := w.calls[id].pc.tear;
    var w' := DoSnapshot(w, id);
    SnapshotKeepsShared(w.s, t);
    forall i | i in w.calls
      ensures CallOk(w'.s, Some(Taken(w.s, t)), i, w'.calls[i])
    {
      SnapshotKeepsCall(w.s, t, i, w.calls[i]);
      SnapshotMoves(w, id, i);
    }
    TearStepKeepsInv(w, id, w', Some(Taken(w.s, t)));
  }

  lemma {:induction false} CloseGateKeepsInv(w: World, id: nat)
    requires Inv(w) && id in w.calls && w.calls[id].pc.Tearing? && w.calls[id].pc.tear.stage == CloseGate
    ensures Inv(DoTearDown(w, id))
  {
    var t := w.calls[id].pc.tear;
    var w' := DoTearDown(w, id);
    StageKeepsShared(w.s, t, StopSource);
    forall i | i in w.calls
      ensures CallOk(w'.s, Some(t.(stage := StopSource)), i, w'.calls[i])
    {
      CloseGateKeepsCall(w.s, t, i, w.calls[i]);
    }
    TearStepKeepsInv(w, id, w', Some(t.(stage := StopSource)));
  }

  lemma {:induction false} StopSourceMoves(w: World, id: nat, i: nat)
    requires id in w.calls && w.calls[id].pc.Tearing? && w.calls[id].pc.tear.stage == StopSource && w.s.owner == Some(id)
    requires i in w.calls
    ensures DoTearDown(w, id).calls.Keys == w.calls.Keys && DoTearDown(w, id).s == w.s
    ensures var c := w.calls[i];
            var moved := Advanced(w.s, Tearing(w.calls[id].pc.tear.(stage := CloseMailbox)), i, c);
            DoTearDown(w, id).calls[i]
            == if w.calls[id].pc.tear.source == Some(i) then moved.(log := c.log.(sourceStops := c.log.sourceStops + 1)) else moved
  {
  }

  lemma {:induction false} StopSourceOneCall(w: World, id: nat, i: nat)
    requires id in w.calls && w.calls[id].pc.Tearing? && w.calls[id].pc.tear.stage == StopSource && w.s.owner == Some(id)
    requires i in w.calls && CallOk(w.s, Some(w.calls[id].pc.tear), i, w.calls[i])
    ensures DoTearDown(w, id).calls.Keys == w.calls.Keys
    ensures CallOk(DoTearDown(w, id).s, Some(w.calls[id].pc.tear.(stage := CloseMailbox)), i, DoTearDown(w, id).calls[i])
  {
    StopSourceKeepsCall(w.s, w.calls[id].pc.tear, i, w.calls[i]);
    StopSourceMoves(w, id, i);
  }

  lemma {:induction false} StopSourceKeepsInv(w: World, id: nat)
    requires Inv(w) && id in w.calls && w.calls[id].pc.Tearing? && w.calls[id].pc.tear.stage == StopSource
    ensures Inv(DoTearDown(w, id))
  {
    var t := w.calls[id].pc.tear;
    var w' := DoTearDown(w, id);
    StageKeepsShared(w.s, t, CloseMailbox);
    forall i | i in w.calls
      ensures CallOk(w'.s, Some(t.(stage := CloseMailbox)), i, w'.calls[i])
    {
      StopSourceOneCall(w, id, i);
    }
    TearStepKeepsInv(w, id, w', Some(t.(stage := CloseMailbox)));
  }

  lemma {:induction false} CloseMailboxKeepsInv(w: World, id: nat)
    requires Inv(w) && id in w.calls && w.calls[id].pc.Tearing? && w.calls[id].pc.tear.stage == CloseMailbox
    ensures Inv(DoTearDown(w, id))
  {
    var t := w.calls[id].pc.tear;
    var w' := DoTearDown(w, id);
    if w.s.mailbox.Some? { ClosedMailboxKeepsShared(w.s, Some(t)); }
    StageKeepsShared(w'.s, t, JoinScheduler);
    forall i | i in w.calls
      ensures CallOk(w'.s, Some(t.(stage := JoinScheduler)), i, w'.calls[i])
    {
      CloseMailboxKeepsCall(w.s, t, w'.s.mailbox, i, w.calls[i]);
    }
    TearStepKeepsInv(w, id, w', Some(t.(stage := JoinScheduler)));
  }

  lemma {:induction false} JoinSchedulerOneCall(w: World, id: nat, i: nat)
    requires id in w.calls && w.calls[id].pc.Tearing? && w.calls[id].pc.tear.stage == JoinScheduler && w.s.owner == Some(id)
    requires i in w.calls && CallOk(w.s, Some(w.calls[id].pc.tear), i, w.calls[i])
    requires !(w.calls[id].pc.tear.workers && w.s.scheduler.Alive?)
    ensures DoJoinScheduler(w, id).calls.Keys == w.calls.Keys
    ensures CallOk(DoJoinScheduler(w, id).s, Some(w.calls[id].pc.tear.(stage := JoinDispatcher)), i, DoJoinScheduler(w, id).calls[i])
  {
    JoinSchedulerKeepsCall(w.s, w.calls[id].pc.tear, i, w.calls[i]);
    JoinSchedulerMoves(w, id, i);
  }

  lemma {:induction false} JoinSchedulerMoves(w: World, id: nat, i: nat)
    requires id in w.calls && w.calls[id].pc.Tearing? && w.s.owner == Some(id) && i in w.calls
    requires !(w.calls[id].pc.tear.workers && w.s.scheduler.Alive?)
    ensures DoJoinScheduler(w, id).calls.Keys == w.calls.Keys
    ensures var t := w.calls[id].pc.tear;
            var c := w.calls[i];
            var moved := Advanced(w.s, Tearing(t.(stage := JoinDispatcher)), i, c);
            var joins := t.workers && w.s.scheduler.Exited?;
            && DoJoinScheduler(w, id).s == (if joins then w.s.(scheduler := NoThread) else w.s)
            && DoJoinScheduler(w, id).calls[i]
               == if joins && w.s.scheduler.run == i
                  then moved.(log := c.log.(schedulerJoins := c.log.schedulerJoins + 1)) else moved
  {
  }

  lemma {:induction false} JoinSchedulerKeepsInv(w: World, id: nat)
    requires Inv(w) && id in w.calls && w.calls[id].pc.Tearing? && w.calls[id].pc.tear.stage == JoinScheduler
    ensures Inv(DoJoinScheduler(w, id))
  {
    var t := w.calls[id].pc.tear;
    var w' := DoJoinScheduler(w, id);
    if t.workers && w.s.scheduler.Alive? { return; }
    if !t.workers { NoWorkersNoThreads(w.s, t); }
    JoinedKeepsShared(w.s, Some(t));
    StageKeepsShared(w'.s, t, JoinDispatcher);
    forall i | i in w.calls
      ensures CallOk(w'.s, Some(t.(stage := JoinDispatcher)), i, w'.calls[i])
    {
      JoinSchedulerOneCall(w, id, i);
    }
    TearStepKeepsInv(w, id, w', Some(t.(stage := JoinDispatcher)));
  }

  lemma {:induction false} JoinDispatcherOneCall(w: World, id: nat, i: nat)
    requires id in w.calls && w.calls[id].pc.Tearing? && w.calls[id].pc.tear.stage == JoinDispatcher && w.s.owner == Some(id)
    requires i in w.calls && CallOk(w.s, Some(w.calls[id].pc.tear), i, w.calls[i])
    requires !(w.calls[id].pc.tear.workers && w.s.dispatcher.Alive?)
    ensures DoJoinDispatcher(w, id).calls.Keys == w.calls.Keys
    ensures CallOk(DoJoinDispatcher(w, id).s, Some(w.calls[id].pc.tear.(stage := StopTransport)), i, DoJoinDispatcher(w, id).calls[i])
  {
    JoinDispatcherKeepsCall(w.s, w.calls[id].pc.tear, i, w.calls[i]);
    JoinDispatcherMoves(w, id, i);
  }

  lemma {:induction false} JoinDispatcherMoves(w: World, id: nat, i: nat)
    requires id in w.calls && w.calls[id].pc.Tearing? && w.s.owner == Some(id) && i in w.calls
    requires !(w.calls[id].pc.tear.workers && w.s.dispatcher.Alive?)
    ensures DoJoinDispatcher(w, id).calls.Keys == w.calls.Keys
    ensures var t := w.calls[id].pc.tear;
            var c := w.calls[i];
            var moved := Advanced(w.s, Tearing(t.(stage := StopTransport)), i, c);
            var joins := t.workers && w.s.dispatcher.Exited?;
            && DoJoinDispatcher(w, id).s == (if joins then w.s.(dispatcher := NoThread) else w.s)
            && DoJoinDispatcher(w, id).calls[i]
               == if joins && w.s.dispatcher.run == i
                  then moved.(log := c.log.(dispatcherJoins := c.log.dispatcherJoins + 1)) else moved
  {
  }

  lemma {:induction false} JoinDispatcherKeepsInv(w: World, id: nat)
    requires Inv(w) && id in w.calls && w.calls[id].pc.Tearing? && w.calls[id].pc.tear.stage == JoinDispatcher
    ensures Inv(DoJoinDispatcher(w, id))
  {
    var t := w.calls[id].pc.tear;
    var w' := DoJoinDispatcher(w, id);
    if t.workers && w.s.dispatcher.Alive? { return; }
    if !t.workers { NoWorkersNoThreads(w.s, t); }
    JoinedKeepsShared(w.s, Some(t));
    StageKeepsShared(w'.s, t, StopTransport);
    forall i | i in w.calls
      ensures CallOk(w'.s, Some(t.(stage := StopTransport)), i, w'.calls[i])
    {
      JoinDispatcherOneCall(w, id, i);
    }
    TearStepKeepsInv(w, id, w', Some(t.(stage := StopTransport)));
  }

  lemma {:induction false} StopTransportMoves(w: World, id: nat, i: nat)
    requires id in w.calls && w.calls[id].pc.Tearing? && w.calls[id].pc.tear.stage == StopTransport && w.s.owner == Some(id)
    requires i in w.calls
    ensures DoTearDown(w, id).calls.Keys == w.calls.Keys && DoTearDown(w, id).s == w.s
    ensures var c := w.calls[i];
            var moved := Advanced(w.s, Tearing(w.calls[id].pc.tear.(stage := Finish)), i, c);
            DoTearDown(w, id).calls[i]
            == if w.calls[id].pc.tear.transport == Some(i) then moved.(log := c.log.(transportStops := c.log.transportStops + 1)) else moved
  {
  }

  lemma {:induction false} StopTransportOneCall(w: World, id: nat, i: nat)
    requires id in w.calls && w.calls[id].pc.Tearing? && w.calls[id].pc.tear.stage == StopTransport && w.s.owner == Some(id)
    requires i in w.calls && CallOk(w.s, Some(w.calls[id].pc.tear), i, w.calls[i])
    ensures DoTearDown(w, id).calls.Keys == w.calls.Keys
    ensures CallOk(DoTearDown(w, id).s, Some(w.calls[id].pc.tear.(stage := Finish)), i, DoTearDown(w, id).calls[i])
  {
    StopTransportKeepsCall(w.s, w.calls[id].pc.tear, i, w.calls[i]);
    StopTransportMoves(w, id, i);
  }

  lemma {:induction false} StopTransportKeepsInv(w: World, id: nat)
    requires Inv(w) && id in w.calls && w.calls[id].pc.Tearing? && w.calls[id].pc.tear.stage == StopTransport
    ensures Inv(DoTearDown(w, id))
  {
    var t := w.calls[id].pc.tear;
    var w' := DoTearDown(w, id);
    StageKeepsShared(w.s, t, Finish);
    forall i | i in w.calls
      ensures CallOk(w'.s, Some(t.(stage := Finish)), i, w'.calls[i])
    {
      StopTransportOneCall(w, id, i);
    }
    TearStepKeepsInv(w, id, w', Some(t.(stage := Finish)));
  }

  lemma {:induction false} FinishKeepsInv(w: World, id: nat)
    requires Inv(w) && id in w.calls && w.calls[id].pc.Tearing? && w.calls[id].pc.tear.stage == Finish
    ensures Inv(DoFinish(w, id))
  {
    var t := w.calls[id].pc.tear;
    var w' := DoFinish(w, id);
    FinishKeepsShared(w.s, t);
    forall i | i in w.calls
      ensures CallOk(w'.s, None, i, w'.calls[i])
    {
      FinishKeepsCall(w.s, t, i, w.calls[i]);
    }
    TearStepKeepsInv(w, id, w', None);
  }

  lemma {:induction false} TearDownKeepsInv(w: World, id: nat)
    requires Inv(w) && id in w.calls && w.calls[id].pc.Tearing?
    ensures Inv(DoTearDown(w, id))
  {
    match w.calls[id].pc.tear.stage
    case Snapshot => SnapshotKeepsInv(w, id);
    case CloseGate => CloseGateKeepsInv(w, id);
    case StopSource => StopSourceKeepsInv(w, id);
    case CloseMailbox => CloseMailboxKeepsInv(w, id);
    case JoinScheduler => JoinSchedulerKeepsInv(w, id);
    case JoinDispatcher => JoinDispatcherKeepsInv(w, id);
    case StopTransport => StopTransportKeepsInv(w, id);
    case Finish => FinishKeepsInv(w, id);
  }

  predicate IsStartStep(step: Step) {
    step.RejectStart? || step.ClaimRun? || step.SourceReturns? || step.CommitSource? || step.StopOwnSource?
    || step.MakeWorkers? || step.CheckTransport? || step.TransportReturns? || step.CommitTransport?
    || step.StopOwnTransport?
  }

  lemma {:induction false} StartStepKeepsInv(w: World, step: Step)
    requires Inv(w) && IsStartStep(step)
    ensures Inv(Next(w, step))
  {
    match step
    case RejectStart(id) => RejectStartKeepsInv(w, id);
    case ClaimRun(id) => if At(w, id, StartEnter) { ClaimRunKeepsInv(w, id); }
    case SourceReturns(id, outcome) => SourceReturnsKeepsInv(w, id, outcome);
    case CommitSource(id) => if id in w.calls && w.calls[id].pc.SourceBack? { CommitSourceKeepsInv(w, id); }
    case StopOwnSource(id) => if id in w.calls && w.calls[id].pc.OwnSourceStop? { StopOwnSourceKeepsInv(w, id); }
    case MakeWorkers(id, creation) => if At(w, id, CreateWorkers) { MakeWorkersKeepsInv(w, id, creation); }
    case CheckTransport(id) => if At(w, id, TransportCheck) { CheckTransportKeepsInv(w, id); }
    case TransportReturns(id, outcome) => TransportReturnsKeepsInv(w, id, outcome);
    case CommitTransport(id) =>
      if id in w.calls && w.calls[id].pc.TransportBack? { CommitTransportKeepsInv(w, id); }
    case StopOwnTransport(id) =>
      if id in w.calls && w.calls[id].pc.OwnTransportStop? { StopOwnTransportKeepsInv(w, id); }
  }

  lemma {:induction false} OtherStepKeepsInv(w: World, step: Step)
    requires Inv(w) && !IsStartStep(step)
    ensures Inv(Next(w, step))
  {
    match step
    case NewCall(id, starts) => NewCallKeepsInv(w, id, starts);
    case ClaimAfterFailure(id) => if At(w, id, ClaimFailure) { ClaimAfterFailureKeepsInv(w, id); }
    case EnterStop(id) => EnterStopKeepsInv(w, id);
    case ClaimTeardown(id) =>
      if At(w, id, StopClaim) && !w.s.teardownStarted { ClaimTeardownKeepsInv(w, id); }
    case CheckClaimed(id) => if At(w, id, StopClaimed) { CheckClaimedKeepsInv(w, id); }
    case TearDown(id) => if id in w.calls && w.calls[id].pc.Tearing? { TearDownKeepsInv(w, id); }
    case Background(event) => BackgroundKeepsInv(w, event);
  }

  lemma {:induction false} StepKeepsInv(w: World, step: Step)
    requires Inv(w)
    ensures Inv(Next(w, step))
  {
    if IsStartStep(step) { StartStepKeepsInv(w, step); } else { OtherStepKeepsInv(w, step); }
  }

  // ---- whole runs ------------------------------------------------------------------------------------

  lemma {:induction false} RunKeepsInv(w: World, steps: seq<Step>)
    requires Inv(w)
    ensures Inv(Run(w, steps))
    decreases |steps|
  {
    if steps != [] {
      StepKeepsInv(w, steps[0]);
      RunKeepsInv(Next(w, steps[0]), steps[1..]);
    }
  }

  lemma {:induction false} OwnerHoldsClaim(w: World)
    requires Inv(w) && w.s.teardownStarted
    ensures w.s.owner.Some? && w.s.owner.value in w.calls && HoldsClaim(w.calls[w.s.owner.value])
  {
    assert CallOk(w.s, Teardown(w), w.s.owner.value, w.calls[w.s.owner.value]);
  }

  predicate CleanedUp(log: Log) {
    && log.sourceStops == One(NeedsStop(log.source))
    && log.transportStops == One(NeedsStop(log.transport))
    && log.schedulerJoins == log.schedulers <= 1
    && log.dispatcherJoins == log.dispatchers <= 1
    && log.source != InProgress && log.transport != InProgress
  }

  // Whatever callers, components and workers did: once every call has returned and the
  // session is Stopped, each start attempt that returned true or threw was stopped exactly
  // once, a refused one never, and every thread was joined.
  lemma {:induction false} ExactlyOnceCleanup(steps: seq<Step>, id: nat)
    requires var w := Run(INITIAL, steps);
             && w.s.state == Stopped
             && (forall i :: i in w.calls ==> w.calls[i].pc.Done?)
             && id in w.calls
    ensures CleanedUp(Run(INITIAL, steps).calls[id].log)
    ensures !Run(INITIAL, steps).s.teardownStarted
  {
    RunKeepsInv(INITIAL, steps);
    var w := Run(INITIAL, steps);
    assert CallOk(w.s, Teardown(w), id, w.calls[id]);
    if w.s.teardownStarted { OwnerHoldsClaim(w); assert false; }
  }

  // At no point has anything been stopped or joined twice, or stopped without need.
  lemma {:induction false} NeverTooOften(steps: seq<Step>, id: nat)
    requires id in Run(INITIAL, steps).calls
    ensures var log := Run(INITIAL, steps).calls[id].log;
            && log.sourceStops <= One(NeedsStop(log.source))
            && log.transportStops <= One(NeedsStop(log.transport))
            && log.schedulerJoins <= log.schedulers <= 1
            && log.dispatcherJoins <= log.dispatchers <= 1
  {
    RunKeepsInv(INITIAL, steps);
    var w := Run(INITIAL, steps);
    assert CallOk(w.s, Teardown(w), id, w.calls[id]);
  }

  lemma {:induction false} OneTeardownOwner(steps: seq<Step>, a: nat, b: nat)
    requires var w := Run(INITIAL, steps);
             a in w.calls && b in w.calls && HoldsClaim(w.calls[a]) && HoldsClaim(w.calls[b])
    ensures a == b
  {
    RunKeepsInv(INITIAL, steps);
    var w := Run(INITIAL, steps);
    assert CallOk(w.s, Teardown(w), a, w.calls[a]);
    assert CallOk(w.s, Teardown(w), b, w.calls[b]);
  }

  // A cancellation is never forgotten, and freezes whether the run was published.
  predicate StaysCancelled(before: World, after: World, id: nat)
    requires id in before.calls
  {
    && id in after.calls
    && (before.calls[id].log.cancelled ==>
          after.calls[id].log.cancelled && after.calls[id].log.published == before.calls[id].log.published)
  }

  lemma {:induction false} TearDownStaysCancelled(w: World, tearer: nat, id: nat)
    requires tearer in w.calls && w.calls[tearer].pc.Tearing? && id in w.calls
    ensures StaysCancelled(w, DoTearDown(w, tearer), id)
  {
  }

  lemma {:induction false} CancelledStep(w: World, step: Step, id: nat)
    requires id in w.calls
    requires w.calls[id].log.cancelled ==> !StillValid(w.s, w.calls[id]) && w.calls[id].gen > 0
    requires w.calls[id].pc.StartEnter? ==> w.calls[id].gen == 0
    ensures StaysCancelled(w, Next(w, step), id)
  {
    if step.TearDown? && step.id in w.calls && w.calls[step.id].pc.Tearing? {
      TearDownStaysCancelled(w, step.id, id);
    }
  }

  // Once a teardown of a run was claimed or begun, the run's start() never publishes Running.
  lemma {:induction false} CancelledNeverPublishes(w: World, steps: seq<Step>, id: nat)
    requires Inv(w) && id in w.calls && w.calls[id].log.cancelled
    ensures id in Run(w, steps).calls
    ensures Run(w, steps).calls[id].log.cancelled
    ensures Run(w, steps).calls[id].log.published == w.calls[id].log.published
    decreases |steps|
  {
    if steps != [] {
      StepKeepsInv(w, steps[0]);
      assert CallOk(w.s, Teardown(w), id, w.calls[id]);
      CancelledStep(w, steps[0], id);
      CancelledNeverPublishes(Next(w, steps[0]), steps[1..], id);
    }
  }

  // Running: both components of the latest run came back true and neither was stopped.
  lemma {:induction false} RunningIsComplete(steps: seq<Step>)
    requires Run(INITIAL, steps).s.state == Running
    ensures var w := Run(INITIAL, steps);
            && w.s.run.Some? && w.s.run.value.id in w.calls
            && var log := w.calls[w.s.run.value.id].log;
               log.published && log.source == Accepted && log.transport == Accepted
               && log.sourceStops == 0 && log.transportStops == 0
  {
    RunKeepsInv(INITIAL, steps);
    var w := Run(INITIAL, steps);
    assert CallOk(w.s, Teardown(w), w.s.run.value.id, w.calls[w.s.run.value.id]);
  }

  // Every hand-over lies between the successful transport start of the worker's own run and
  // the stop that belongs to it.
  lemma {:induction false} EnqueueInsideTransportLife(steps: seq<Step>)
    requires CanEnqueue(Run(INITIAL, steps).s)
    ensures var w := Run(INITIAL, steps);
            && w.s.dispatcher.run in w.calls
            && var log := w.calls[w.s.dispatcher.run].log;
               log.transport == Accepted && log.transportStops == 0
  {
    RunKeepsInv(INITIAL, steps);
    var w := Run(INITIAL, steps);
    assert CallOk(w.s, Teardown(w), w.s.dispatcher.run, w.calls[w.s.dispatcher.run]);
  }

  // A teardown stops the very objects the run was started with, although the setters may
  // have replaced them in earlier Stopped phases.
  lemma {:induction false} TeardownStopsTheRunsObjects(steps: seq<Step>, id: nat)
    requires var t := Teardown(Run(INITIAL, steps));
             TookOver(t) && (t.value.source == Some(id) || t.value.transport == Some(id))
    ensures var w := Run(INITIAL, steps);
            && id in w.calls
            && (Teardown(w).value.source == Some(id) ==>
                  Teardown(w).value.sourceObj == w.calls[id].sourceObj)
            && (Teardown(w).value.transport == Some(id) ==>
                  Teardown(w).value.transportObj == w.calls[id].transportObj)
  {
    RunKeepsInv(INITIAL, steps);
    var w := Run(INITIAL, steps);
    assert CallOk(w.s, Teardown(w), id, w.calls[id]);
  }

  // ---- why the state is checked, and not only the generation ---------------------------------------

  // A stop() that claimed while the session was already Stopped goes on to tear down a run
  // claimed later, whose generation is still the current one.
  lemma {:induction false} LateStopTearsDown(w: World, stopper: nat, starter: nat)
    requires Inv(w) && LateStop(w, stopper, starter)
    ensures TornWithoutNotice(Run(w, [ClaimRun(starter), CheckClaimed(stopper), TearDown(stopper)]), starter)
  {
    var steps := [ClaimRun(starter), CheckClaimed(stopper), TearDown(stopper)];
    var w1 := Next(w, steps[0]);
    var w2 := Next(w1, steps[1]);
    var w3 := Next(w2, steps[2]);
    assert CallOk(w.s, Teardown(w), stopper, w.calls[stopper]);
    assert steps[1..] == [CheckClaimed(stopper), TearDown(stopper)];
    assert steps[1..][1..] == [TearDown(stopper)];
    assert w1.s.state == Starting && At(w1, stopper, StopClaimed);
    assert At(w2, stopper, Tearing(NewTear(false))) && w2.s.run == w1.s.run;
    assert Run(w3, []) == w3;
    assert Run(w2, [TearDown(stopper)]) == w3;
  }

  predicate LateStop(w: World, stopper: nat, starter: nat) {
    w.s.state == Stopped && At(w, stopper, StopClaimed) && At(w, starter, StartEnter)
  }

  // The run is being torn down although its generation is the current one.
  predicate TornWithoutNotice(w: World, starter: nat) {
    && starter in w.calls && w.calls[starter].log.cancelled
    && w.calls[starter].gen == w.s.generation && w.s.state == Stopping
  }

  lemma {:induction false} RunConcat(w: World, a: seq<Step>, b: seq<Step>)
    ensures Run(w, a + b) == Run(Run(w, a), b)
    decreases |a|
  {
    if a == [] {
      assert a + b == b;
    } else {
      assert (a + b)[1..] == a[1..] + b;
      RunConcat(Next(w, a[0]), a[1..], b);
    }
  }

  // Call 1 is at its k-th step of a teardown without workers, and call 2 waits for its claim.
  predicate TearingAt(w: World, k: nat) {
    && 1 in w.calls && w.calls[1].pc.Tearing? && w.calls[1].pc.tear.stage.Rank() == k
    && !w.calls[1].pc.tear.faulted && !w.calls[1].pc.tear.workers && !w.s.workersCreated
    && At(w, 2, StopClaim) && 3 !in w.calls
  }

  lemma {:induction false} TearsOn(w: World, k: nat)
    requires TearingAt(w, k) && k < 7
    ensures TearingAt(Next(w, TearDown(1)), k + 1)
  {
  }

  function TearDowns(n: nat): seq<Step> {
    if n == 0 then [] else [TearDown(1)] + TearDowns(n - 1)
  }

  lemma {:induction false} TearsToTheEnd(w: World, k: nat)
    requires TearingAt(w, k) && k <= 7
    ensures var w' := Run(w, TearDowns(8 - k));
            w'.s.state == Stopped && !w'.s.teardownStarted && At(w', 2, StopClaim) && 3 !in w'.calls
    decreases 8 - k
  {
    var n := 8 - k;
    assert TearDowns(n)[0] == TearDown(1) && TearDowns(n)[1..] == TearDowns(n - 1);
    if k < 7 {
      TearsOn(w, k);
      TearsToTheEnd(Next(w, TearDown(1)), k + 1);
    } else {
      assert TearDowns(n - 1) == [];
    }
  }

  // A start, and two stops that find it starting.
  const TWO_STOPS: seq<Step> :=
    [NewCall(0, true), ClaimRun(0), NewCall(1, false), EnterStop(1), NewCall(2, false), EnterStop(2)]

  // The first one tears the run down.
  const FIRST_CLAIMS: seq<Step> := [ClaimTeardown(1), CheckClaimed(1)]

  // The second one claims after that, and a new start comes in.
  const SECOND_CLAIMS: seq<Step> := [ClaimTeardown(2), NewCall(3, true)]

  function LateSteps(): seq<Step> {
    TWO_STOPS + FIRST_CLAIMS + TearDowns(8) + SECOND_CLAIMS
  }

  predicate BothWait(w: World) {
    && w.s.state == Starting && !w.s.teardownStarted && !w.s.workersCreated
    && At(w, 1, StopClaim) && At(w, 2, StopClaim) && 3 !in w.calls
  }

  lemma {:induction false} BothWaitFirst()
    ensures BothWait(Run(INITIAL, TWO_STOPS))
  {
    var w1 := Next(INITIAL, NewCall(0, true));
    var w2 := Next(w1, ClaimRun(0));
    var w3 := Next(w2, NewCall(1, false));
    var w4 := Next(w3, EnterStop(1));
    var w5 := Next(w4, NewCall(2, false));
    assert Run(INITIAL, TWO_STOPS) == Next(w5, EnterStop(2));
  }

  lemma {:induction false} FirstClaims(w: World)
    requires BothWait(w)
    ensures TearingAt(Run(w, FIRST_CLAIMS), 0)
  {
    assert FIRST_CLAIMS[1..] == [CheckClaimed(1)] && FIRST_CLAIMS[1..][1..] == [];
  }

  lemma {:induction false} LateStopIsReached()
    ensures LateStop(Run(INITIAL, LateSteps()), 2, 3)
  {
    BothWaitFirst();
    FirstClaims(Run(INITIAL, TWO_STOPS));
    TearsToTheEnd(Run(Run(INITIAL, TWO_STOPS), FIRST_CLAIMS), 0);
    ClaimsLate(Run(Run(Run(INITIAL, TWO_STOPS), FIRST_CLAIMS), TearDowns(8)));
    FourParts(INITIAL, TWO_STOPS, FIRST_CLAIMS, TearDowns(8), SECOND_CLAIMS);
  }

  lemma {:induction false} FourParts(w: World, a: seq<Step>, b: seq<Step>, c: seq<Step>, d: seq<Step>)
    ensures Run(w, a + b + c + d) == Run(Run(Run(Run(w, a), b), c), d)
  {
    RunConcat(w, a, b);
    RunConcat(w, a + b, c);
    RunConcat(w, a + b + c, d);
  }

  lemma {:induction false} ClaimsLate(w: World)
    requires w.s.state == Stopped && !w.s.teardownStarted && At(w, 2, StopClaim) && 3 !in w.calls
    ensures LateStop(Run(w, SECOND_CLAIMS), 2, 3)
  {
    assert SECOND_CLAIMS[1..] == [NewCall(3, true)] && SECOND_CLAIMS[1..][1..] == [];
  }

  // The generation check alone would not protect a start: from the initial state a run is
  // reached in which a stop tears down a run whose generation is still the current one.  Only
  // the state check of StillValid turns that start away.
  lemma {:induction false} GenerationAloneIsNotEnough()
    ensures TornWithoutNotice(Run(INITIAL, LateSteps() + [ClaimRun(3), CheckClaimed(2), TearDown(2)]), 3)
  {
    LateStopIsReached();
    RunKeepsInv(INITIAL, LateSteps());
    LateStopTearsDown(Run(INITIAL, LateSteps()), 2, 3);
    RunConcat(INITIAL, LateSteps(), [ClaimRun(3), CheckClaimed(2), TearDown(2)]);
  }
}
