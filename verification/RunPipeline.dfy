// Capture requests, completions and dispatch of a session (src/core/src/session.cpp).
module RunPipeline {
  // Admission by the scheduler, completion callbacks through the gate of their run, and the
  // dispatch worker that drains the mailbox, over any number of runs.
  //
  // The backend is honest: it completes a request it accepted at most once, and never one it
  // rejected.  Completions may be arbitrarily late, also of earlier runs.

  import opened Option
  import opened Mailbox

  datatype Phase = Stopped | Running | Faulted | Stopping

  // While a gate is draining, a callback that entered before still passes.
  datatype Gate = Open | Draining | Shut

  datatype Config = Config(maxInFlight: nat, capacity: nat, policy: Policy)

  datatype Request = Request(run: nat, id: nat)

  datatype World = World(
    config: Config,
    phase: Phase,
    run: nat,                     // number of the latest run
    gates: map<nat, Gate>,        // one per run
    outstanding: set<Request>,    // issued, not completed and not refused
    issuing: Option<nat>,         // the request the scheduler is asking the source for
    nextRequestId: nat,
    inFlight: nat,
    box: Option<Box>,
    tearing: bool,                // a teardown of the run has begun
    worker: bool,                 // the dispatch worker of the run is alive
    died: bool,                   // it ended by an exception
    holding: Option<Entry>,       // the frame it popped and has not handed over
    accepted: nat,                // stats.framesAccepted
    taken: seq<nat>,              // the contents accepted in this run, in order
    dispatched: seq<Entry>,       // the frames handed to the transport in this run
    lost: nat,                    // popped frames a dying worker took with it
    left: nat,                    // frames a dying worker held or left waiting
    finished: Option<Summary>)    // the counters a teardown leaves behind

  datatype Summary = Summary(accepted: nat, dispatched: nat, dropped: nat, overflowed: nat, left: nat, died: bool)

  function Initial(config: Config): World {
    World(config, Stopped, 0, map[], {}, None, 1, 0, None, false, false, false, None, 0, [], [], 0, 0, None)
  }

  datatype Step =
    | StartRun
    | Issue
    | SourceAccepts
    | SourceRefuses(threw: bool)
    | Complete(request: Request, entered: bool, frame: Frame)
    | ComponentFails
    | Pop
    | HandOver(throws: bool)
    | WorkerDies
    | TakeOver
    | BeginGateClose
    | GateDrained
    | CloseMailbox
    | WorkerExits
    | FinishTeardown

  // What came with a completion: a valid frame, one the validation rejects, or a valid one
  // for which the queue could not grow.
  datatype Frame = ValidFrame(content: nat) | InvalidFrame | PushThrows

  function GateOf(gates: map<nat, Gate>, run: nat): Gate {
    if run in gates then gates[run] else Shut
  }

  // admissionAllowsLocked
  predicate Admits(w: World) {
    && w.inFlight < w.config.maxInFlight
    && (w.config.policy == ProducerThrottle && w.box.Some? ==>
          |w.box.value.queue| + w.inFlight < w.config.capacity)
  }

  function One(b: bool): nat {
    if b then 1 else 0
  }

  function Less(n: nat): nat {
    if n > 0 then n - 1 else 0
  }

  // onFrameReady
  function OnFrame(w: World, frame: Frame): World {
    var freed := w.(inFlight := Less(w.inFlight));
    if w.phase != Running || w.box.None? || !frame.ValidFrame? then freed
    else
      var outcome := PushOutcome(w.box.value);
      freed.(box := Some(AfterPush(w.box.value, frame.content)),
             accepted := if Accepts(outcome) then w.accepted + 1 else w.accepted,
             taken := if Accepts(outcome) then w.taken + [frame.content] else w.taken)
  }

  function DoComplete(w: World, request: Request, entered: bool, frame: Frame): World {
    var done := w.(outstanding := w.outstanding - {request});
    var gate := GateOf(w.gates, request.run);
    if gate == Open || (gate == Draining && entered) then OnFrame(done, frame) else done
  }

  function DoStart(w: World): World {
    World(w.config, Running, w.run + 1, w.gates[w.run + 1 := Open], w.outstanding, None, 1, 0,
          Some(Fresh(w.config.capacity, w.config.policy)), false, true, false, None, 0, [], [], 0, 0, None)
  }

  function DoRefuse(w: World, id: nat, threw: bool): World {
    w.(outstanding := w.outstanding - {Request(w.run, id)}, issuing := None, inFlight := Less(w.inFlight),
       phase := if threw then Faulted else w.phase)
  }

  function DoHandOver(w: World, frame: Entry, b: Box, throws: bool): World {
    w.(dispatched := w.dispatched + [frame], holding := None, box := Some(AfterRelease(b)),
       phase := if throws then Faulted else w.phase)
  }

  // The frames the worker has yet to hand over.
  function Owed(w: World, b: Box): nat {
    |b.queue| + One(w.holding.Some?)
  }

  function DoDie(w: World, b: Box): World {
    w.(worker := false, died := true, phase := Faulted, holding := None,
       lost := w.lost + One(w.holding.Some?), left := Owed(w, b))
  }

  function DoFinish(w: World, b: Box): World {
    w.(box := None, inFlight := 0, phase := Stopped, tearing := false,
       finished := Some(Summary(w.accepted, |w.dispatched|, b.counts.dropped, b.counts.overflowed, w.left, w.died)))
  }

  // A step that is not possible in a state leaves it unchanged.
  function Next(w: World, step: Step): World {
    match step
    case StartRun => if w.phase == Stopped then DoStart(w) else w
    case Issue =>
      if w.phase == Running && w.issuing.None? && Admits(w)
      then w.(inFlight := w.inFlight + 1, nextRequestId := w.nextRequestId + 1, issuing := Some(w.nextRequestId),
              outstanding := w.outstanding + {Request(w.run, w.nextRequestId)})
      else w
    case SourceAccepts => if w.issuing.Some? then w.(issuing := None) else w
    case SourceRefuses(threw) =>
      if w.issuing.Some? && Request(w.run, w.issuing.value) in w.outstanding
      then DoRefuse(w, w.issuing.value, threw)
      else w
    case Complete(request, entered, frame) =>
      if request in w.outstanding then DoComplete(w, request, entered, frame) else w
    case ComponentFails => if w.phase == Running then w.(phase := Faulted) else w
    case Pop =>
      if w.worker && w.holding.None? && w.box.Some? && PopOutcome(w.box.value).Popped?
      then w.(holding := Some(PopOutcome(w.box.value).frame), box := Some(AfterPop(w.box.value)))
      else w
    case HandOver(throws) =>
      if w.worker && w.holding.Some? && w.box.Some? then DoHandOver(w, w.holding.value, w.box.value, throws) else w
    case WorkerDies =>
      if w.worker && w.phase != Stopped && w.box.Some? then DoDie(w, w.box.value) else w
    case TakeOver => if w.phase != Stopped && !w.tearing then w.(phase := Stopping, tearing := true) else w
    case BeginGateClose =>
      if w.tearing && GateOf(w.gates, w.run) == Open then w.(gates := w.gates[w.run := Draining]) else w
    case GateDrained => if GateOf(w.gates, w.run) == Draining then w.(gates := w.gates[w.run := Shut]) else w
    case CloseMailbox =>
      if GateOf(w.gates, w.run) == Shut && w.box.Some? then w.(box := Some(AfterClose(w.box.value))) else w
    case WorkerExits =>
      if w.worker && w.holding.None? && w.box.Some? && PopOutcome(w.box.value) == Closed
      then w.(worker := false)
      else w
    case FinishTeardown =>
      if w.tearing && w.box.Some? && w.box.value.closed && !w.worker && w.issuing.None?
      then DoFinish(w, w.box.value)
      else w
  }

  function Run(w: World, steps: seq<Step>): World
    decreases |steps|
  {
    if steps == [] then w else Run(Next(w, steps[0]), steps[1..])
  }

  // ---- the invariant -------------------------------------------------------------------------------

  // The requests of the latest run that can still complete.
  function Current(w: World): set<Request> {
    set q | q in w.outstanding && q.run == w.run
  }

  ghost predicate GatesOk(w: World) {
    && (forall r :: r in w.gates && w.gates[r] != Shut ==> r == w.run)
    && (w.phase == Stopped ==> GateOf(w.gates, w.run) == Shut && !w.tearing)
    && (w.phase == Running ==> GateOf(w.gates, w.run) == Open && !w.tearing)
    && (w.box.Some? <==> w.phase != Stopped)
    && (w.box.Some? && w.box.value.closed ==> w.phase != Running && GateOf(w.gates, w.run) == Shut)
  }

  ghost predicate RequestsOk(w: World) {
    && (forall q :: q in w.outstanding ==> q.run <= w.run && (q.run == w.run ==> q.id < w.nextRequestId))
    && (w.issuing.Some? ==> w.phase != Stopped)
    && (w.phase != Stopped ==> w.inFlight >= |Current(w)|)
    && (GateOf(w.gates, w.run) == Open ==> w.inFlight == |Current(w)|)
    && w.inFlight <= w.config.maxInFlight
  }

  predicate ThrottleOk(w: World) {
    w.config.policy == ProducerThrottle && w.box.Some? ==>
      |w.box.value.queue| + w.inFlight <= w.config.capacity && w.box.value.counts.overflowed == 0
  }

  ghost predicate DispatchOk(w: World) {
    && Increasing(w.dispatched) && Genuine(w.dispatched, w.taken)
    && (w.box.Some? ==>
          && Genuine(w.box.value.queue, w.taken)
          && (forall i :: 0 <= i < |w.dispatched| ==> w.dispatched[i].id < Front(w.box.value))
          && (w.holding.Some? ==>
                && w.holding.value.id < Front(w.box.value) && Genuine([w.holding.value], w.taken)
                && (forall i :: 0 <= i < |w.dispatched| ==> w.dispatched[i].id < w.holding.value.id)))
  }

  predicate BoxOk(w: World) {
    w.box.Some? ==>
      var b := w.box.value;
      && Valid(b) && b.policy == w.config.policy
      && b.capacity == (if w.config.capacity == 0 then 1 else w.config.capacity)
      && w.accepted == b.counts.stored && |w.taken| == b.counts.stored
      && b.counts.popped == |w.dispatched| + One(w.holding.Some?) + w.lost
      && b.owned == One(w.holding.Some?) + w.lost
      && w.lost <= 1 && (w.worker ==> w.lost == 0 && !w.died) && (!w.worker ==> w.holding.None?)
      && b.maxOwned <= b.capacity + 1
      && (!w.worker && !w.died ==> b.closed && b.queue == [] && w.lost == 0)
      && w.left == (if w.died then |b.queue| + w.lost else 0)
      && (w.died ==> w.phase != Running && !w.worker)
  }

  // What a finished teardown reports.
  predicate SummaryOk(w: World) {
    w.finished.Some? ==>
      var s := w.finished.value;
      && w.phase == Stopped
      && s.accepted == s.dispatched + s.dropped + s.left
      && s.accepted == |w.taken| && s.dispatched == |w.dispatched|
      && (!s.died ==> s.left == 0)
      && (w.config.policy == ProducerThrottle ==> s.dropped == 0 && s.overflowed == 0)
  }

  ghost predicate Inv(w: World) {
    GatesOk(w) && RequestsOk(w) && ThrottleOk(w) && DispatchOk(w) && BoxOk(w) && SummaryOk(w)
  }

  lemma {:induction false} Smaller(w: World, request: Request)
    requires request in w.outstanding && request.run == w.run
    ensures |Current(w.(outstanding := w.outstanding - {request}))| == |Current(w)| - 1
  {
    assert Current(w.(outstanding := w.outstanding - {request})) == Current(w) - {request};
  }

  lemma {:induction false} Larger(w: World, request: Request)
    requires request !in w.outstanding && request.run == w.run
    ensures |Current(w.(outstanding := w.outstanding + {request}))| == |Current(w)| + 1
  {
    assert Current(w.(outstanding := w.outstanding + {request})) == Current(w) + {request};
  }

  lemma {:induction false} IssueKeepsInv(w: World)
    requires Inv(w)
    ensures Inv(Next(w, Issue))
  {
    if w.phase == Running && w.issuing.None? && Admits(w) {
      var q := Request(w.run, w.nextRequestId);
      Larger(w, q);
      assert Current(Next(w, Issue)) == Current(w.(outstanding := w.outstanding + {q}));
    }
  }

  lemma {:induction false} RefuseKeepsInv(w: World, threw: bool)
    requires Inv(w)
    ensures Inv(Next(w, SourceRefuses(threw)))
  {
    if w.issuing.Some? && Request(w.run, w.issuing.value) in w.outstanding {
      var q := Request(w.run, w.issuing.value);
      Smaller(w, q);
      assert Current(Next(w, SourceRefuses(threw))) == Current(w.(outstanding := w.outstanding - {q}));
    }
  }

  // A frame that is stored is the next accepted one.
  lemma {:induction false} StoredIsGenuine(b: Box, taken: seq<nat>, content: nat)
    requires Valid(b) && |taken| == b.counts.stored && Genuine(b.queue, taken)
    ensures var taken' := if Accepts(PushOutcome(b)) then taken + [content] else taken;
            Genuine(AfterPush(b, content).queue, taken') && |taken'| == AfterPush(b, content).counts.stored
  {
  }

  lemma {:induction false} StaysGenuine(frames: seq<Entry>, taken: seq<nat>, content: nat)
    requires Genuine(frames, taken)
    ensures Genuine(frames, taken + [content])
  {
  }

  lemma {:induction false} OnFrameKeepsDispatch(w: World, frame: Frame)
    requires DispatchOk(w) && BoxOk(w)
    ensures DispatchOk(OnFrame(w, frame))
  {
    if w.phase == Running && w.box.Some? && frame.ValidFrame? {
      StoredIsGenuine(w.box.value, w.taken, frame.content);
      StaysGenuine(w.dispatched, w.taken, frame.content);
      if w.holding.Some? { StaysGenuine([w.holding.value], w.taken, frame.content); }
    }
  }

  // A completion that reaches the session: its slot is free again before the frame is stored.
  lemma {:induction false} OnFrameKeepsInv(w: World, frame: Frame)
    requires GatesOk(w) && ThrottleOk(w) && DispatchOk(w) && BoxOk(w) && SummaryOk(w)
    requires w.phase != Stopped && w.inFlight > 0
    requires w.config.policy == ProducerThrottle && w.phase == Running ==> |w.box.value.queue| < w.config.capacity
    ensures var w' := OnFrame(w, frame);
            GatesOk(w') && ThrottleOk(w') && DispatchOk(w') && BoxOk(w') && SummaryOk(w')
  {
    OnFrameKeepsDispatch(w, frame);
    if w.phase == Running && frame.ValidFrame? {
      PushKeepsValid(w.box.value, frame.content);
    }
  }

  // The completion reaches the session: the gate of its run lets it through.
  lemma {:induction false} PassedCompletionKeepsInv(w: World, request: Request, frame: Frame)
    requires Inv(w) && request in w.outstanding && GateOf(w.gates, request.run) != Shut
    ensures Inv(OnFrame(w.(outstanding := w.outstanding - {request}), frame))
  {
    var done := w.(outstanding := w.outstanding - {request});
    Smaller(w, request);
    OnFrameKeepsInv(done, frame);
    assert Current(OnFrame(done, frame)) == Current(done);
  }

  // The gate is shut, or draining and the callback came too late.
  lemma {:induction false} IgnoredCompletionKeepsInv(w: World, request: Request)
    requires Inv(w) && request in w.outstanding && GateOf(w.gates, request.run) != Open
    ensures Inv(w.(outstanding := w.outstanding - {request}))
  {
    var done := w.(outstanding := w.outstanding - {request});
    if request.run == w.run { Smaller(w, request); } else { assert Current(done) == Current(w); }
  }

  lemma {:induction false} CompleteKeepsInv(w: World, request: Request, entered: bool, frame: Frame)
    requires Inv(w) && request in w.outstanding
    ensures Inv(DoComplete(w, request, entered, frame))
  {
    var gate := GateOf(w.gates, request.run);
    if gate == Open || (gate == Draining && entered) {
      PassedCompletionKeepsInv(w, request, frame);
    } else {
      IgnoredCompletionKeepsInv(w, request);
    }
  }

  lemma {:induction false} CloseMailboxKeepsInv(w: World)
    requires Inv(w)
    ensures Inv(Next(w, CloseMailbox))
  {
    assert Current(Next(w, CloseMailbox)) == Current(w);
  }

  lemma {:induction false} OtherStepsKeepInv(w: World, step: Step)
    requires Inv(w) && (step.SourceAccepts? || step.ComponentFails? || step.WorkerDies? || step.WorkerExits?)
    ensures Inv(Next(w, step))
  {
    assert Current(Next(w, step)) == Current(w);
  }

  lemma {:induction false} PopKeepsDispatch(w: World)
    requires DispatchOk(w) && BoxOk(w)
    ensures DispatchOk(Next(w, Pop))
  {
  }

  lemma {:induction false} PopKeepsInv(w: World)
    requires Inv(w)
    ensures Inv(Next(w, Pop))
  {
    PopKeepsDispatch(w);
    assert Current(Next(w, Pop)) == Current(w);
  }

  lemma {:induction false} HandOverKeepsDispatch(w: World, frame: Entry, b: Box, throws: bool)
    requires DispatchOk(w) && w.holding == Some(frame) && w.box == Some(b)
    ensures DispatchOk(DoHandOver(w, frame, b, throws))
  {
    var after := w.dispatched + [frame];
    assert Genuine(after, w.taken) by { assert [frame][0] == frame; }
  }

  lemma {:induction false} HandOverKeepsInv(w: World, throws: bool)
    requires Inv(w)
    ensures Inv(Next(w, HandOver(throws)))
  {
    if w.worker && w.holding.Some? && w.box.Some? { HandOverKeepsDispatch(w, w.holding.value, w.box.value, throws); }
    assert Current(Next(w, HandOver(throws))) == Current(w);
  }

  lemma {:induction false} TeardownKeepsInv(w: World, step: Step)
    requires Inv(w) && (step.TakeOver? || step.BeginGateClose? || step.GateDrained? || step.FinishTeardown?)
    ensures Inv(Next(w, step))
  {
    assert Current(Next(w, step)) == Current(w);
  }

  lemma {:induction false} StartKeepsInv(w: World)
    requires Inv(w)
    ensures Inv(Next(w, StartRun))
  {
    assert w.phase == Stopped ==> Current(DoStart(w)) == {};
  }

  lemma {:induction false} StepKeepsInv(w: World, step: Step)
    requires Inv(w)
    ensures Inv(Next(w, step))
  {
    match step
    case StartRun => StartKeepsInv(w);
    case Issue => IssueKeepsInv(w);
    case SourceRefuses(threw) => RefuseKeepsInv(w, threw);
    case Complete(request, entered, frame) =>
      if request in w.outstanding { CompleteKeepsInv(w, request, entered, frame); }
    case Pop => PopKeepsInv(w);
    case HandOver(throws) => HandOverKeepsInv(w, throws);
    case FinishTeardown => TeardownKeepsInv(w, step);
    case TakeOver => TeardownKeepsInv(w, step);
    case BeginGateClose => TeardownKeepsInv(w, step);
    case GateDrained => TeardownKeepsInv(w, step);
    case CloseMailbox => CloseMailboxKeepsInv(w);
    case _ => OtherStepsKeepInv(w, step);
  }

  // ---- whole runs ------------------------------------------------------------------------------------

  lemma {:induction false} RunKeepsInv(w: World, steps: seq<Step>)
    requires Inv(w)
    ensures Inv(Run(w, steps))
    decreases |steps|
  {
    if steps != [] {
      StepKeepsInv(w, steps[0]);
      RunKeepsInv(Next(w, steps[0]), steps[1..]);
    }
  }

  // While the gate is open the counter is exactly the number of requests of this run that
  // can still complete; late completions of earlier runs never touch it.
  lemma {:induction false} InFlightIsExact(config: Config, steps: seq<Step>)
    ensures var w := Run(Initial(config), steps);
            && w.inFlight <= config.maxInFlight
            && (w.phase == Running ==> w.inFlight == |Current(w)|)
  {
    RunKeepsInv(Initial(config), steps);
    ConfigIsFixed(Initial(config), steps);
  }

  lemma {:induction false} ConfigIsFixed(w: World, steps: seq<Step>)
    ensures Run(w, steps).config == w.config
    decreases |steps|
  {
    if steps != [] {
      ConfigIsFixed(Next(w, steps[0]), steps[1..]);
    }
  }

  // ProducerThrottle: waiting plus in flight never exceeds the capacity and no push is ever
  // rejected for overflow, in any reachable state.
  lemma {:induction false} ThrottleNeverOverflows(config: Config, steps: seq<Step>)
    requires config.policy == ProducerThrottle
    ensures var w := Run(Initial(config), steps);
            && (w.box.Some? ==>
                  |w.box.value.queue| + w.inFlight <= config.capacity && w.box.value.counts.overflowed == 0)
            && (w.finished.Some? ==> w.finished.value.overflowed == 0)
  {
    RunKeepsInv(Initial(config), steps);
    ConfigIsFixed(Initial(config), steps);
  }

  // After a teardown every accepted frame was dispatched, dropped, or left behind by a worker
  // that died; nothing is left when the worker ended by draining the closed mailbox.
  lemma {:induction false} FramesAreConserved(config: Config, steps: seq<Step>)
    requires Run(Initial(config), steps).finished.Some?
    ensures var s := Run(Initial(config), steps).finished.value;
            && s.accepted == s.dispatched + s.dropped + s.left
            && (!s.died ==> s.left == 0)
  {
    RunKeepsInv(Initial(config), steps);
  }

  // What is left is decided at the moment of death: nothing is stored or popped afterwards.
  lemma {:induction false} LeftStays(w: World, steps: seq<Step>)
    requires Inv(w) && w.died && (w.phase != Stopped || (w.finished.Some? && w.finished.value.left == w.left))
    requires Run(w, steps).run == w.run
    ensures var w' := Run(w, steps);
            && w'.left == w.left && w'.died
            && (w'.phase == Stopped ==> w'.finished.Some? && w'.finished.value.left == w.left)
    decreases |steps|
  {
    if steps != [] {
      var next := Next(w, steps[0]);
      StepKeepsInv(w, steps[0]);
      RunsGrow(next, steps[1..]);
      StepLeaves(w, steps[0]);
      LeftStays(next, steps[1..]);
    }
  }

  lemma {:induction false} StepLeaves(w: World, step: Step)
    requires Inv(w) && w.died && (w.phase != Stopped || (w.finished.Some? && w.finished.value.left == w.left))
    requires Next(w, step).run == w.run
    ensures var w' := Next(w, step);
            && w'.left == w.left && w'.died
            && (w'.phase != Stopped || (w'.finished.Some? && w'.finished.value.left == w.left))
  {
  }

  lemma {:induction false} RunsGrow(w: World, steps: seq<Step>)
    ensures Run(w, steps).run >= w.run
    decreases |steps|
  {
    if steps != [] { RunsGrow(Next(w, steps[0]), steps[1..]); }
  }

  // The balance accepted = dispatched + dropped of a run whose dispatch worker dies holds
  // exactly when the worker died with no frame in hand and none waiting.
  lemma {:induction false} DeathBreaksBalanceIff(config: Config, before: seq<Step>, after: seq<Step>)
    requires var w := Run(Initial(config), before);
             && w.worker && w.phase != Stopped
             && Run(Next(w, WorkerDies), after).run == w.run && Run(Next(w, WorkerDies), after).phase == Stopped
    ensures var w := Run(Initial(config), before);
            var w' := Run(Next(w, WorkerDies), after);
            && w.box.Some? && w'.finished.Some? && w'.finished.value.left == Owed(w, w.box.value)
            && (w'.finished.value.accepted == w'.finished.value.dispatched + w'.finished.value.dropped
                <==> w.holding.None? && w.box.value.queue == [])
  {
    var w := Run(Initial(config), before);
    RunKeepsInv(Initial(config), before);
    StepKeepsInv(w, WorkerDies);
    RunKeepsInv(Next(w, WorkerDies), after);
    LeftStays(Next(w, WorkerDies), after);
  }

  // A dispatch worker that dies with a frame waiting: the frame is accepted, and neither
  // dispatched nor dropped.
  lemma {:induction false} DeadWorkerLosesFrame(content: nat)
    ensures var steps := [StartRun, Issue, SourceAccepts, Complete(Request(1, 1), true, ValidFrame(content)), WorkerDies,
                          TakeOver, BeginGateClose, GateDrained, CloseMailbox, FinishTeardown];
            Run(Initial(Config(1, 1, DropOldest)), steps).finished == Some(Summary(1, 0, 0, 0, 1, true))
  {
    var w := WaitingFrame(content);
    var dead := Next(w, WorkerDies);
    var starts := [StartRun, Issue, SourceAccepts, Complete(Request(1, 1), true, ValidFrame(content))];
    var ends := [TakeOver, BeginGateClose, GateDrained, CloseMailbox, FinishTeardown];
    assert |w.box.value.queue| == 1 && dead.left == 1;
    TornDown(dead);
    FirstStep(w, [WorkerDies] + ends);
    assert ([WorkerDies] + ends)[1..] == ends;
    RunConcat(Initial(Config(1, 1, DropOldest)), starts, [WorkerDies] + ends);
    assert starts + ([WorkerDies] + ends)
        == [StartRun, Issue, SourceAccepts, Complete(Request(1, 1), true, ValidFrame(content)), WorkerDies,
            TakeOver, BeginGateClose, GateDrained, CloseMailbox, FinishTeardown];
  }

  lemma {:induction false} FirstStep(w: World, steps: seq<Step>)
    requires steps != []
    ensures Run(w, steps) == Run(Next(w, steps[0]), steps[1..])
  {
  }

  lemma {:induction false} RunConcat(w: World, a: seq<Step>, b: seq<Step>)
    ensures Run(w, a + b) == Run(Run(w, a), b)
    decreases |a|
  {
    if a == [] {
      assert a + b == b;
    } else {
      assert (a + b)[1..] == a[1..] + b;
      RunConcat(Next(w, a[0]), a[1..], b);
    }
  }

  // One request whose frame has arrived and waits.
  lemma {:induction false} WaitingFrame(content: nat) returns (w: World)
    ensures w == Run(Initial(Config(1, 1, DropOldest)),
                     [StartRun, Issue, SourceAccepts, Complete(Request(1, 1), true, ValidFrame(content))])
    ensures w.phase == Running && w.run == 1 && w.worker && !w.tearing && w.issuing.None? && w.accepted == 1
    ensures w.dispatched == [] && w.holding.None? && w.gates == map[1 := Open]
    ensures w.box == Some(AfterPush(Fresh(1, DropOldest), content))
  {
    var config := Config(1, 1, DropOldest);
    var steps := [StartRun, Issue, SourceAccepts, Complete(Request(1, 1), true, ValidFrame(content))];
    var w0 := Initial(config);
    var w1 := World(config, Running, 1, map[1 := Open], {}, None, 1, 0, Some(Fresh(1, DropOldest)), false, true, false,
                    None, 0, [], [], 0, 0, None);
    var w2 := w1.(inFlight := 1, nextRequestId := 2, issuing := Some(1), outstanding := {Request(1, 1)});
    var w3 := w2.(issuing := None);
    w := w3.(inFlight := 0, outstanding := {}, accepted := 1, taken := [content], box := Some(AfterPush(Fresh(1, DropOldest), content)));
    FirstStep(w0, steps);
    assert w0.gates[1 := Open] == map[1 := Open];
    assert Next(w0, StartRun) == w1;
    FirstStep(w1, steps[1..]);
    assert steps[1..][1..] == steps[2..];
    assert {} + {Request(1, 1)} == {Request(1, 1)};
    assert Next(w1, Issue) == w2;
    FirstStep(w2, steps[2..]);
    assert steps[2..][1..] == steps[3..];
    FirstStep(w3, steps[3..]);
    assert {Request(1, 1)} - {Request(1, 1)} == {};
    assert Next(w3, steps[3]) == w;
    assert steps[3..][1..] == [];
  }

  lemma {:induction false} GateShuts(w: World, steps: seq<Step>)
    requires w.tearing && w.run == 1 && w.gates == map[1 := Open] && |steps| >= 2
    requires steps[0] == BeginGateClose && steps[1] == GateDrained
    ensures Run(w, steps) == Run(w.(gates := map[1 := Shut]), steps[2..])
  {
    var w2 := w.(gates := map[1 := Draining]);
    FirstStep(w, steps);
    assert w.gates[1 := Draining] == map[1 := Draining] && w2.gates[1 := Shut] == map[1 := Shut];
    FirstStep(w2, steps[1..]);
    assert steps[1..][1..] == steps[2..];
  }

  // A teardown without a live worker, from the fault to the counters.
  lemma {:induction false} TornDown(w: World)
    requires w.phase == Faulted && w.run == 1 && !w.worker && !w.tearing && w.issuing.None? && w.gates == map[1 := Open]
    requires w.box.Some? && !w.box.value.closed
    ensures Run(w, [TakeOver, BeginGateClose, GateDrained, CloseMailbox, FinishTeardown]).finished
            == Some(Summary(w.accepted, |w.dispatched|, w.box.value.counts.dropped, w.box.value.counts.overflowed,
                            w.left, w.died))
  {
    var steps := [TakeOver, BeginGateClose, GateDrained, CloseMailbox, FinishTeardown];
    var w1 := w.(phase := Stopping, tearing := true);
    var w3 := w1.(gates := map[1 := Shut]);
    var w4 := w3.(box := Some(AfterClose(w.box.value)));
    FirstStep(w, steps);
    assert Next(w, TakeOver) == w1;
    GateShuts(w1, steps[1..]);
    assert steps[1..][2..] == steps[3..];
    FirstStep(w3, steps[3..]);
    assert steps[3..][1..] == steps[4..];
    assert Next(w3, CloseMailbox) == w4;
    FirstStep(w4, steps[4..]);
    assert steps[4..][1..] == [];
  }

  // Within a run the transport gets accepted frames only, in acceptance order, each at most once
  // and with the content that was accepted under its id; the queue and the worker together
  // never own more than capacity + 1 frames.
  lemma {:induction false} DispatchedInOrder(config: Config, steps: seq<Step>)
    ensures var w := Run(Initial(config), steps);
            && Increasing(w.dispatched) && Genuine(w.dispatched, w.taken)
            && (w.box.Some? ==> |w.taken| == w.accepted)
            && (w.box.Some? ==> |w.box.value.queue| + w.box.value.owned <= w.box.value.capacity + 1
                                && w.box.value.maxOwned <= w.box.value.capacity + 1)
  {
    RunKeepsInv(Initial(config), steps);
  }

  // ---- nothing is held back ---------------------------------------------------------------------------

  // Increasing ids between 1 and n, n of them, are 1 to n.
  lemma {:induction false} IdsFill(frames: seq<Entry>, taken: seq<nat>, i: nat)
    requires Increasing(frames) && Genuine(frames, taken) && i < |frames|
    ensures i + 1 <= frames[i].id <= |taken| - (|frames| - 1 - i)
  {
    IdsAbove(frames, taken, i);
    IdsBelow(frames, taken, i);
  }

  lemma {:induction false} IdsAbove(frames: seq<Entry>, taken: seq<nat>, i: nat)
    requires Increasing(frames) && Genuine(frames, taken) && i < |frames|
    ensures i + 1 <= frames[i].id
    decreases i
  {
    if i > 0 { IdsAbove(frames, taken, i - 1); }
  }

  lemma {:induction false} IdsBelow(frames: seq<Entry>, taken: seq<nat>, i: nat)
    requires Increasing(frames) && Genuine(frames, taken) && i < |frames|
    ensures frames[i].id <= |taken| - (|frames| - 1 - i)
    decreases |frames| - i
  {
    if i + 1 < |frames| { IdsBelow(frames, taken, i + 1); }
  }

  // Under ProducerThrottle a run whose worker did not die has handed over every accepted frame,
  // in order and unchanged, when its teardown is finished.
  lemma {:induction false} ThrottleDeliversAll(config: Config, steps: seq<Step>)
    requires config.policy == ProducerThrottle
    requires var f := Run(Initial(config), steps).finished; f.Some? && !f.value.died
    ensures var w := Run(Initial(config), steps);
            && |w.dispatched| == |w.taken|
            && forall i :: 0 <= i < |w.taken| ==> w.dispatched[i] == Entry(i + 1, w.taken[i])
  {
    RunKeepsInv(Initial(config), steps);
    ConfigIsFixed(Initial(config), steps);
    var w := Run(Initial(config), steps);
    forall i | 0 <= i < |w.taken|
      ensures w.dispatched[i] == Entry(i + 1, w.taken[i])
    {
      IdsFill(w.dispatched, w.taken, i);
    }
  }

  // A Running session asks for another frame unless one request is being issued, the limit of
  // requests that can still complete is used up, or, under ProducerThrottle, their frames and
  // the waiting ones fill the queue.
  lemma {:induction false} IssuesUpToTheLimit(config: Config, steps: seq<Step>)
    requires Run(Initial(config), steps).phase == Running
    ensures var w := Run(Initial(config), steps);
            var w' := Next(w, Issue);
            && w.box.Some?
            && (w' == w <==> w.issuing.Some? || |Current(w)| == config.maxInFlight
                             || (config.policy == ProducerThrottle && |w.box.value.queue| + |Current(w)| == config.capacity))
            && (w' != w ==> |Current(w')| == |Current(w)| + 1 && w'.issuing.Some?
                            && Request(w.run, w'.issuing.value) in Current(w') - Current(w))
  {
    RunKeepsInv(Initial(config), steps);
    ConfigIsFixed(Initial(config), steps);
    var w := Run(Initial(config), steps);
    if w.issuing.None? && Admits(w) {
      var q := Request(w.run, w.nextRequestId);
      Larger(w, q);
      assert Current(Next(w, Issue)) == Current(w.(outstanding := w.outstanding + {q}));
    }
  }

  // A valid frame that completes a request of a Running session frees its slot, is accepted, and
  // waits behind the others.
  lemma {:induction false} CompletionIsAccepted(config: Config, steps: seq<Step>, request: Request, entered: bool, content: nat)
    requires var w := Run(Initial(config), steps);
             w.phase == Running && request in Current(w)
    ensures var w := Run(Initial(config), steps);
            var w' := Next(w, Complete(request, entered, ValidFrame(content)));
            && Current(w') == Current(w) - {request} && w'.inFlight == w.inFlight - 1
            && w'.taken == w.taken + [content] && w'.box.Some? && w'.box.value.queue != []
            && w'.box.value.queue[|w'.box.value.queue| - 1] == Entry(|w'.taken|, content)
  {
    RunKeepsInv(Initial(config), steps);
    ConfigIsFixed(Initial(config), steps);
    var w := Run(Initial(config), steps);
    Smaller(w, request);
    var w' := Next(w, Complete(request, entered, ValidFrame(content)));
    assert Current(w') == Current(w) - {request};
  }
}
