// The pipeline moves: refusals free their slot, faults stop admission, teardowns drain.
module PipelineProgress {
  // The other half of RunPipeline (src/core/src/session.cpp).

  import opened Option
  import opened Mailbox
  import opened RunPipeline

  // A refused request gives its slot back; a source that throws faults the session.
  lemma {:induction false} RefusalFreesSlot(config: Config, steps: seq<Step>, threw: bool)
    requires var w := Run(Initial(config), steps);
             w.issuing.Some? && Request(w.run, w.issuing.value) in w.outstanding
    ensures var w := Run(Initial(config), steps);
            var w' := Next(w, SourceRefuses(threw));
            && Current(w') == Current(w) - {Request(w.run, w.issuing.value)} && w'.issuing.None?
            && w'.inFlight == w.inFlight - 1 && w'.phase == if threw then Faulted else w.phase
  {
    RunKeepsInv(Initial(config), steps);
    var w := Run(Initial(config), steps);
    Smaller(w, Request(w.run, w.issuing.value));
    assert Current(Next(w, SourceRefuses(threw))) == Current(w) - {Request(w.run, w.issuing.value)};
  }

  // A component failure faults a Running session, and a transport that throws faults any; the
  // frame it was handed counts as dispatched.
  lemma {:induction false} FailuresFault(w: World)
    ensures w.phase == Running ==> Next(w, ComponentFails).phase == Faulted
    ensures w.worker && w.holding.Some? && w.box.Some? ==>
              var w' := Next(w, HandOver(true));
              w'.phase == Faulted && w'.dispatched == w.dispatched + [w.holding.value] && w'.holding.None?
  {
  }

  // A session that is not Running asks for no frame and accepts none.
  lemma {:induction false} NothingWhileNotRunning(w: World, request: Request, entered: bool, frame: Frame)
    requires w.phase != Running
    ensures Next(w, Issue) == w
    ensures Next(w, Complete(request, entered, frame)).taken == w.taken
            && Next(w, Complete(request, entered, frame)).box == w.box
  {
  }

  // A fault does not stop the dispatch worker: a frame that waits can be handed over.
  lemma {:induction false} WaitingFrameGoesOut(w: World)
    requires Inv(w) && w.worker && w.holding.None? && w.box.Some? && w.box.value.queue != []
    ensures var w' := Next(Next(w, Pop), HandOver(false));
            && w'.dispatched == w.dispatched + [w.box.value.queue[0]] && w'.phase == w.phase
            && w'.box.Some? && w'.box.value.queue == w.box.value.queue[1..] && w'.box.value.owned == 0
  {
    StepKeepsInv(w, Pop);
  }

  // ---- a teardown drains what was accepted ------------------------------------------------------------

  function InHand(w: World): seq<Entry> {
    if w.holding.Some? then [w.holding.value] else []
  }

  function Waiting(w: World): seq<Entry> {
    if w.box.Some? then w.box.value.queue else []
  }

  lemma {:induction false} StepThenRun(w: World, step: Step, rest: seq<Step>)
    ensures Run(w, [step] + rest) == Run(Next(w, step), rest)
  {
    assert ([step] + rest)[1..] == rest;
  }

  // All frames of the run that are not dropped: handed over, in hand, or waiting.
  function Kept(w: World): seq<Entry> {
    w.dispatched + InHand(w) + Waiting(w)
  }

  predicate Draining(w: World) {
    w.tearing && w.issuing.None? && w.box.Some? && w.box.value.closed
  }

  // What the worker does next with a closed mailbox.
  function WorkerStep(w: World): Step {
    if w.holding.Some? then HandOver(false) else if Waiting(w) != [] then Pop else WorkerExits
  }

  function Distance(w: World): nat {
    2 * |Waiting(w)| + |InHand(w)| + One(w.worker)
  }

  lemma {:induction false} WorkerMoves(w: World) returns (next: World)
    requires Inv(w) && Draining(w) && w.worker
    ensures next == Next(w, WorkerStep(w)) && Inv(next)
    ensures Draining(next) && Kept(next) == Kept(w) && next.died == w.died && Distance(next) < Distance(w)
  {
    StepKeepsInv(w, WorkerStep(w));
    next := Next(w, WorkerStep(w));
  }

  // The worker empties a closed mailbox and exits.
  lemma {:induction false} WorkerDrains(w: World) returns (steps: seq<Step>, end: World)
    requires Inv(w) && Draining(w)
    ensures end == Run(w, steps) && Inv(end) && Draining(end) && !end.worker && Kept(end) == Kept(w) && end.died == w.died
    decreases Distance(w)
  {
    steps, end := [], w;
    if w.worker {
      var next := WorkerMoves(w);
      var rest;
      rest, end := WorkerDrains(next);
      StepThenRun(w, WorkerStep(w), rest);
      steps := [WorkerStep(w)] + rest;
    }
  }

  // A worker that exited left nothing.
  lemma {:induction false} NothingLeft(w: World)
    requires Inv(w) && w.box.Some? && !w.worker && !w.died
    ensures Kept(w) == w.dispatched
  {
  }

  const CLOSING: seq<Step> := [SourceAccepts, TakeOver, BeginGateClose, GateDrained, CloseMailbox]

  // Nothing of what the worker has done or has to do is different.
  predicate SameWork(w: World, v: World) {
    v.worker == w.worker && v.died == w.died && v.dispatched == w.dispatched && InHand(v) == InHand(w) && Waiting(v) == Waiting(w)
  }

  lemma {:induction false} ClosingStep(w: World, k: nat) returns (next: World)
    requires Inv(w) && w.phase != Stopped && k < 5
    requires (k > 0 ==> w.issuing.None?) && (k > 1 ==> w.tearing) && (k > 2 ==> GateOf(w.gates, w.run) != Open)
             && (k > 3 ==> GateOf(w.gates, w.run) == Shut)
    ensures next == Next(w, CLOSING[k]) && Inv(next) && next.phase != Stopped && SameWork(w, next)
    ensures next.issuing.None? && (k >= 1 ==> next.tearing) && (k >= 2 ==> GateOf(next.gates, next.run) != Open)
            && (k >= 3 ==> GateOf(next.gates, next.run) == Shut) && (k == 4 ==> next.box.Some? && next.box.value.closed)
  {
    StepKeepsInv(w, CLOSING[k]);
    next := Next(w, CLOSING[k]);
  }

  lemma {:induction false} FiveSteps(w: World, steps: seq<Step>)
    requires |steps| == 5
    ensures Run(w, steps) == Next(Next(Next(Next(Next(w, steps[0]), steps[1]), steps[2]), steps[3]), steps[4])
  {
    var w1 := Next(w, steps[0]);
    var w2 := Next(w1, steps[1]);
    FirstStep(w, steps);
    FirstStep(w1, steps[1..]);
    FirstStep(w2, steps[1..][1..]);
    FirstStep(Next(w2, steps[2]), steps[1..][1..][1..]);
    FirstStep(Next(Next(w2, steps[2]), steps[3]), steps[1..][1..][1..][1..]);
    assert steps[1..][1..][1..][1..][1..] == [];
  }

  // Up to the closed mailbox, whatever a teardown has done already.
  lemma {:induction false} CanClose(w: World) returns (end: World)
    requires Inv(w) && w.phase != Stopped
    ensures end == Run(w, CLOSING) && Inv(end) && SameWork(w, end)
    ensures Draining(end)
  {
    var w1 := ClosingStep(w, 0);
    var w2 := ClosingStep(w1, 1);
    var w3 := ClosingStep(w2, 2);
    var w4 := ClosingStep(w3, 3);
    end := ClosingStep(w4, 4);
    FiveSteps(w, CLOSING);
  }

  lemma {:induction false} Finishes(w: World) returns (end: World)
    requires Inv(w) && Draining(w) && !w.worker
    ensures end == Run(w, [FinishTeardown]) && end.dispatched == w.dispatched
    ensures end.phase == Stopped && end.finished.Some? && end.finished.value.died == w.died && end.box.None? && end.inFlight == 0
  {
    end := Next(w, FinishTeardown);
    FirstStep(w, [FinishTeardown]);
    assert [FinishTeardown][1..] == [];
  }

  // Every run can be torn down: with a live worker everything accepted and not dropped is handed
  // over before the session is Stopped.
  lemma {:induction false} TeardownCanDrain(config: Config, before: seq<Step>) returns (steps: seq<Step>, end: World)
    requires Run(Initial(config), before).phase != Stopped
    ensures end == Run(Run(Initial(config), before), steps)
    ensures end.phase == Stopped && end.finished.Some? && end.box.None? && end.inFlight == 0
    ensures var w := Run(Initial(config), before);
            w.worker ==> end.dispatched == Kept(w) && !end.finished.value.died
  {
    var w := Run(Initial(config), before);
    RunKeepsInv(Initial(config), before);
    var closed := CanClose(w);
    var drain, drained := WorkerDrains(closed);
    end := Finishes(drained);
    if w.worker { NothingLeft(drained); }
    RunConcat(closed, drain, [FinishTeardown]);
    RunConcat(w, CLOSING, drain + [FinishTeardown]);
    steps := CLOSING + (drain + [FinishTeardown]);
  }
}
