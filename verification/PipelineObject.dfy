// The session fields behind RunPipeline, updated in place as src/core/src/session.cpp does
// inside its critical sections.  Each method is proved to follow the step of the model.
module PipelineObject {
  import opened Option
  import opened Mailbox
  import opened RunPipeline

  class SessionCore {
    const config: Config
    var phase: Phase
    var inFlight: nat
    var nextRequestId: nat
    var framesAccepted: nat
    var mailbox: FrameMailbox?

    // The fields show what the model's state says.
    ghost predicate Shows(w: World)
      reads this, mailbox
    {
      && config == w.config && phase == w.phase && inFlight == w.inFlight
      && nextRequestId == w.nextRequestId && framesAccepted == w.accepted
      && (mailbox == null <==> w.box.None?)
      && (mailbox != null ==> mailbox.Now() == w.box.value)
    }

    constructor (config: Config)
      ensures Shows(Initial(config))
    {
      this.config := config;
      phase, inFlight, nextRequestId, framesAccepted, mailbox := Stopped, 0, 1, 0, null;
    }

    method Start(ghost w: World)
      requires Shows(w) && w.phase == Stopped
      modifies this
      ensures Shows(DoStart(w)) && fresh(mailbox)
    {
      var box := new FrameMailbox(config.capacity, config.policy);
      phase, inFlight, nextRequestId, framesAccepted, mailbox := Running, 0, 1, 0, box;
    }

    method AdmissionAllows(ghost w: World) returns (allows: bool)
      requires Shows(w)
      ensures allows <==> Admits(w)
    {
      if inFlight >= config.maxInFlight { return false; }
      if config.policy != ProducerThrottle { return true; }
      if mailbox == null { return true; }
      return |mailbox.queue| + inFlight < config.capacity;
    }

    // The scheduler takes a slot and an id before it asks the source without the lock.
    method IssueRequest(ghost w: World) returns (id: Option<nat>)
      requires Shows(w) && w.issuing.None?
      modifies this
      ensures Shows(Next(w, Issue)) && mailbox == old(mailbox)
      ensures id == Next(w, Issue).issuing
    {
      if phase != Running { return None; }
      var allows := AdmissionAllows(w);
      if !allows { return None; }
      id := Some(nextRequestId);
      nextRequestId := nextRequestId + 1;
      inFlight := inFlight + 1;
    }

    method RequestRefused(ghost w: World, threw: bool)
      requires Shows(w) && w.issuing.Some? && Request(w.run, w.issuing.value) in w.outstanding
      modifies this
      ensures Shows(Next(w, SourceRefuses(threw))) && mailbox == old(mailbox)
    {
      if inFlight > 0 { inFlight := inFlight - 1; }
      if threw { phase := Faulted; }
    }

    // The completion callback, once the gate of its run has let it in.
    method OnFrameReady(ghost w: World, request: Request, entered: bool, frame: Frame)
      requires Shows(w) && Inv(w) && request in w.outstanding
      requires GateOf(w.gates, request.run) == Open || (GateOf(w.gates, request.run) == Draining && entered)
      modifies this, mailbox
      ensures Shows(Next(w, Complete(request, entered, frame))) && mailbox == old(mailbox)
    {
      if inFlight > 0 { inFlight := inFlight - 1; }
      if phase == Running && mailbox != null && frame.ValidFrame? {
        var outcome := mailbox.Push(frame.content);
        if outcome == Stored || outcome == StoredAfterDroppingOldest {
          framesAccepted := framesAccepted + 1;
        }
      }
    }

    method TakeFrame(ghost w: World) returns (frame: Option<Entry>)
      requires Shows(w) && Inv(w) && w.worker && w.holding.None? && mailbox != null
      modifies mailbox
      ensures Shows(Next(w, Pop)) && frame == Next(w, Pop).holding
    {
      var result := mailbox.TryPop();
      frame := if result.Popped? then Some(result.frame) else None;
    }

    method HandedOver(ghost w: World, throws: bool)
      requires Shows(w) && Inv(w) && w.worker && w.holding.Some? && mailbox != null
      modifies this, mailbox
      ensures Shows(Next(w, HandOver(throws))) && mailbox == old(mailbox)
    {
      mailbox.ReleaseDispatcherOwnership();
      if throws { phase := Faulted; }
    }
  }
}
