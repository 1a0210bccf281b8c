// The critical sections of Session::start, Session::stop and teardownRun, updating the
// fields of src/core/src/session.cpp in place.  Each is proved to follow the step of
// SessionLifecycle that stands for it.
module SessionObject {
  import opened Option
  import opened SessionLifecycle

  class SessionImpl {
    var state: State
    var teardownStarted: bool
    var stopRequested: bool
    var runGeneration: nat
    var sourceStarted: bool
    var transportStarted: bool
    var workersCreated: bool
    var source: nat
    var transport: nat
    var mailbox: Option<Mailbox>
    var scheduler: Thread
    var dispatcher: Thread
    ghost var run: Option<RunClaim>
    ghost var owner: Option<nat>

    ghost function Now(): Shared
      reads this
    {
      Shared(state, teardownStarted, stopRequested, runGeneration, sourceStarted, transportStarted, workersCreated,
             source, transport, mailbox, scheduler, dispatcher, run, owner)
    }

    constructor ()
      ensures Now() == INITIAL.s
    {
      state, teardownStarted, stopRequested, runGeneration := Stopped, false, false, 0;
      sourceStarted, transportStarted, workersCreated := false, false, false;
      source, transport, mailbox, scheduler, dispatcher := 0, 0, None, NoThread, NoThread;
      run, owner := None, None;
    }

    // The claim of the run: a generation, and pins of both components.
    method ClaimSession(ghost w: World, ghost id: nat) returns (claimed: bool, generation: nat, sourcePin: nat, transportPin: nat)
      requires Now() == w.s && At(w, id, StartEnter)
      modifies this
      ensures Now() == Next(w, ClaimRun(id)).s
      ensures claimed <==> Next(w, ClaimRun(id)).calls[id].pc == SourceCall
      ensures claimed ==> var c := Next(w, ClaimRun(id)).calls[id];
                          generation == c.gen && sourcePin == c.sourceObj && transportPin == c.transportObj
    {
      claimed, generation, sourcePin, transportPin := false, 0, source, transport;
      if state != Stopped { return; }
      stopRequested := false;
      runGeneration := runGeneration + 1;
      state := Starting;
      run := Some(RunClaim(id, runGeneration, source, transport));
      claimed, generation := true, runGeneration;
    }

    predicate RunStillValid(generation: nat)
      reads this
    {
      runGeneration == generation && state == Starting
    }

    // Commits the result of the source's start, unless the run was taken over meanwhile.
    method CommitSourceStart(ghost w: World, ghost id: nat, generation: nat, started: bool) returns (cancelled: bool)
      requires Now() == w.s && id in w.calls && w.calls[id].pc.SourceBack? && w.calls[id].gen == generation
      requires started <==> w.calls[id].pc.outcome == Accepted
      modifies this
      ensures Now() == Next(w, CommitSource(id)).s
      ensures cancelled <==> !StillValid(w.s, w.calls[id])
    {
      cancelled := !RunStillValid(generation);
      if !cancelled { sourceStarted := started; }
    }

    // Mailbox, scheduler and dispatcher; the creation may stop after any of them.
    method CreateRunWorkers(ghost w: World, id: nat, generation: nat, creation: Creation) returns (cancelled: bool)
      requires Now() == w.s && At(w, id, CreateWorkers) && w.calls[id].gen == generation
      modifies this
      ensures Now() == Next(w, MakeWorkers(id, creation)).s
      ensures cancelled <==> !StillValid(w.s, w.calls[id])
    {
      cancelled := !RunStillValid(generation);
      if cancelled || creation == NoMailbox { return; }
      mailbox := Some(Mailbox(0, false));
      workersCreated := true;
      if creation == NoSchedulerThread { return; }
      scheduler := Alive(id, false, false);
      if creation == NoDispatcherThread { return; }
      dispatcher := Alive(id, false, false);
    }

    // The transport commit and the publication of Running are one critical section.
    method CommitTransportStart(ghost w: World, ghost id: nat, generation: nat, started: bool, threw: bool)
      returns (cancelled: bool, published: bool)
      requires Now() == w.s && id in w.calls && w.calls[id].pc.TransportBack? && w.calls[id].gen == generation
      requires (started <==> w.calls[id].pc.outcome == Accepted) && (threw <==> w.calls[id].pc.outcome == Threw)
      modifies this
      ensures Now() == Next(w, CommitTransport(id)).s
      ensures cancelled <==> !StillValid(w.s, w.calls[id])
      ensures published <==> Next(w, CommitTransport(id)).s.state == Running && !cancelled
    {
      cancelled, published := !RunStillValid(generation), false;
      if cancelled { return; }
      transportStarted := started;
      if !threw && started {
        state := Running;
        published := true;
      }
    }

    // stop(): the end of the wait for a running teardown, and the claim.
    method ClaimForStop(ghost w: World, ghost id: nat)
      requires Now() == w.s && At(w, id, StopClaim) && !teardownStarted
      modifies this
      ensures Now() == Next(w, ClaimTeardown(id)).s
    {
      teardownStarted := true;
      runGeneration := runGeneration + 1;
      owner := Some(id);
    }

    method ClaimForFailure(ghost w: World, ghost id: nat, generation: nat) returns (claimed: bool)
      requires Now() == w.s && At(w, id, ClaimFailure) && w.calls[id].gen == generation
      modifies this
      ensures Now() == Next(w, ClaimAfterFailure(id)).s
      ensures claimed <==> Next(w, ClaimAfterFailure(id)).calls[id].pc.Tearing?
    {
      if !RunStillValid(generation) || teardownStarted { return false; }
      teardownStarted := true;
      runGeneration := runGeneration + 1;
      owner := Some(id);
      return true;
    }

    // stop() after the claim: another caller may have completed the teardown.
    method ReleaseIfStopped(ghost w: World, ghost id: nat) returns (already: bool)
      requires Now() == w.s && At(w, id, StopClaimed)
      modifies this
      ensures Now() == Next(w, CheckClaimed(id)).s && (already <==> w.s.state == Stopped)
    {
      already := state == Stopped;
      if already {
        teardownStarted := false;
        owner := None;
      }
    }

    // The first critical section of teardownRun: what was started becomes local.
    method TakeOverRun(ghost w: World, ghost id: nat, faulted: bool)
      returns (sourceTaken: bool, transportTaken: bool, workers: bool)
      requires Now() == w.s && At(w, id, Tearing(NewTear(faulted)))
      modifies this
      ensures Now() == Next(w, TearDown(id)).s
      ensures sourceTaken == w.s.sourceStarted && transportTaken == w.s.transportStarted && workers == w.s.workersCreated
    {
      stopRequested := true;
      sourceTaken, transportTaken, workers := sourceStarted, transportStarted, workersCreated;
      sourceStarted, transportStarted, workersCreated := false, false, false;
      state := if faulted then Faulted else Stopping;
    }

    // The last one: the claim is released, and an owner's stop ends in Stopped.
    method FinishTeardown(ghost w: World, ghost id: nat, faulted: bool)
      requires Now() == w.s && id in w.calls && w.calls[id].pc.Tearing?
      requires w.calls[id].pc.tear.stage == Finish && w.calls[id].pc.tear.faulted == faulted
      modifies this
      ensures Now() == Next(w, TearDown(id)).s
    {
      mailbox := None;
      teardownStarted := false;
      owner := None;
      if !faulted { state := Stopped; }
    }
  }
}
