// Accepted input reaches the GUI side
// (src/runtime/src/automatic/interactive_composite_target.cpp, src/runtime/src/quick/quick_target.cpp).
module InputProgress {
  // InputAdmission bounds what is pending and keeps presses and releases matched.  Here: what is
  // accepted, that a turn is scheduled for what is pending, and that turns hand all of it over.

  import opened Option
  import opened InputAdmission

  // Posting an event other than a release to an active sink leaves it pending exactly when there
  // is an application object, no deferred error is reported in its place, fewer than 64 such
  // events wait and, for the composite sink, the turn is scheduled or can be.
  lemma {:induction false} NormalPostedIff(s: Sink, e: Event, dispatcher: bool, invokes: bool)
    requires Inv(s) && s.active && !IsRelease(e)
    ensures Post(s, e, dispatcher, invokes).0.pending == s.pending + [e] <==>
            dispatcher && !s.deferred && NormalCount(s.pending) < 64 && (s.scheduled || invokes || s.kind == Quick)
  {
    assert |s.pending + [e]| == |s.pending| + 1;
  }

  // ---- a turn is scheduled ----------------------------------------------------------------------------

  predicate Scheduled(s: Sink) {
    s.pending != [] ==> s.active && s.scheduled
  }

  // A post that could not schedule its turn.
  predicate FailsToSchedule(step: Step) {
    step.PostFails? || (step.DoPost? && !step.invokes)
  }

  lemma {:induction false} StepKeepsScheduled(s: Sink, step: Step)
    requires Scheduled(s) && (s.kind == Composite || !FailsToSchedule(step))
    ensures Scheduled(Next(s, step)) && Next(s, step).kind == s.kind
  {
  }

  lemma {:induction false} RunKeepsScheduled(s: Sink, steps: seq<Step>)
    requires Scheduled(s)
    requires s.kind == Composite || forall i :: 0 <= i < |steps| ==> !FailsToSchedule(steps[i])
    ensures Scheduled(Run(s, steps))
    decreases |steps|
  {
    if steps != [] {
      StepKeepsScheduled(s, steps[0]);
      RunKeepsScheduled(Next(s, steps[0]), steps[1..]);
    }
  }

  // In every reachable state a turn is scheduled for what is pending: always for the composite
  // sink, which forgets its events when scheduling fails, and for the Quick sink, which keeps
  // them, as long as no scheduling fails.
  lemma {:induction false} PendingHasTurn(kind: Kind, steps: seq<Step>)
    requires kind == Composite || forall i :: 0 <= i < |steps| ==> !FailsToSchedule(steps[i])
    ensures var s := Run(NewSink(kind), steps);
            s.pending != [] ==> s.active && s.scheduled
  {
    RunKeepsScheduled(NewSink(kind), steps);
  }

  // A Quick sink that lost its turn has it back with the next accepted event.
  lemma {:induction false} NextPostSchedules(s: Sink, e: Event)
    requires Inv(s) && s.active && Post(s, e, true, true).1 == Queued
    ensures Scheduled(Post(s, e, true, true).0) && Post(s, e, true, true).0.pending == s.pending + [e]
  {
  }

  // And it can lose it: the event stays pending without a turn.
  lemma {:induction false} QuickKeepsUnscheduled(e: Event)
    requires !IsRelease(e)
    ensures var s := Run(NewSink(Quick), [DoPost(e, true, false)]);
            s.pending == [e] && s.active && !s.scheduled
  {
    var steps := [DoPost(e, true, false)];
    assert steps[1..] == [];
    assert Run(NewSink(Quick), steps) == Next(NewSink(Quick), steps[0]);
  }

  // ---- turns hand everything over ---------------------------------------------------------------------

  function Turns(n: nat): seq<Step> {
    if n == 0 then [] else [Turn] + Turns(n - 1)
  }

  // As many composite turns as events are pending hand all of them over, in order, and leave no
  // count behind.
  lemma {:induction false} CompositeTurnsDrain(s: Sink, n: nat)
    requires Inv(s) && s.active && s.kind == Composite && n == |s.pending|
    ensures var end := Run(s, Turns(n));
            && Inv(end) && end.active && end.pending == [] && end.taken == s.taken + s.pending
            && end.admission.normal == 0 && end.admission.protected == 0
    decreases n
  {
    if n > 0 {
      var next := Next(s, Turn);
      StepKeepsInv(s, Turn);
      assert Turns(n)[0] == Turn && Turns(n)[1..] == Turns(n - 1);
      CompositeTurnsDrain(next, n - 1);
      assert next.taken + next.pending == s.taken + s.pending;
    }
  }

  // One Quick turn hands over everything that is pending.
  lemma {:induction false} QuickTurnDrains(s: Sink)
    requires Inv(s) && s.active && s.kind == Quick
    ensures var end := Next(s, Turn);
            && Inv(end) && end.pending == [] && end.taken == s.taken + s.pending && !end.scheduled
            && end.admission.normal == 0 && end.admission.protected == 0
            && end.admission.held == s.admission.held
  {
    StepKeepsInv(s, Turn);
  }

  // After a turn of the composite sink another one follows exactly when events are left.
  lemma {:induction false} ContinuesWhilePending(s: Sink, fails: bool)
    requires Scheduled(s) && s.active && s.kind == Composite
    ensures ContinueLocked(s, fails).1 <==> s.pending != []
    ensures ContinueLocked(s, fails).0.scheduled ==> s.pending != []
    ensures ContinueLocked(s, fails).0.deferred <==> s.deferred || fails
  {
  }

  // ---- holdable states --------------------------------------------------------------------------------

  // Every key from 1 to 69 and every button has a slot, and no two share one.
  lemma {:induction false} SlotsAreDistinct(a: Event, b: Event)
    ensures Slot(a).Some? <==> (a.Key? && 1 <= a.key <= 69) || (a.PointerButton? && a.button != NoButton)
    ensures Slot(a).Some? && Slot(a) == Slot(b) <==>
              Slot(a).Some? && ((a.Key? && b.Key? && a.key == b.key)
                                || (a.PointerButton? && b.PointerButton? && a.button == b.button))
  {
  }

  // ---- failures and the end ---------------------------------------------------------------------------

  // When the turn of an accepted event cannot be scheduled, the composite sink forgets everything
  // and says so; the Quick sink keeps the event, and reports the failure as well.
  lemma {:induction false} FailedScheduling(s: Sink, e: Event)
    requires Inv(s) && s.active && !s.scheduled && Post(s, e, true, true).1 == Queued
    ensures var (s', outcome) := Post(s, e, true, false);
            && !s'.scheduled
            && if s.kind == Composite then outcome == Lost && s'.pending == [] && s'.admission == NOTHING
               else outcome == QueuedButThrows && s'.pending == s.pending + [e]
  {
  }

  // A continuation that cannot be scheduled loses what is pending, and the next post reports it.
  lemma {:induction false} FailedContinuationIsReported(s: Sink, fails: bool, e: Event, invokes: bool)
    requires s.kind == Composite && s.active && s.pending != []
    ensures var lost := Next(s, Continuation(fails, false));
            && lost.pending == [] && lost.admission == NOTHING && lost.active && !lost.scheduled
            && Post(lost, e, true, invokes) == (lost.(deferred := false), DeferredError)
  {
  }

  // After a shutdown nothing is pending and nothing is accepted, whatever comes.
  lemma {:induction false} ShutdownIsFinal(s: Sink, steps: seq<Step>)
    ensures var end := Run(Next(s, Shutdown), steps);
            !end.active && end.pending == [] && end.admission == NOTHING
  {
    StaysDown(Next(s, Shutdown), steps);
  }

  lemma {:induction false} StaysDown(s: Sink, steps: seq<Step>)
    requires !s.active && s.pending == [] && s.admission == NOTHING
    ensures var end := Run(s, steps); !end.active && end.pending == [] && end.admission == NOTHING
    decreases |steps|
  {
    if steps != [] { StaysDown(Next(s, steps[0]), steps[1..]); }
  }

  // ---- turns in the event loop ------------------------------------------------------------------------

  // The sink with the turns that are queued in the event loop, and whether one is between taking
  // its event and asking for the next; a turn that finds nothing to take ends at once.
  datatype Loop = Loop(s: Sink, queued: nat, running: bool)

  datatype Happening =
    | Posted(e: Event, dispatcher: bool, invokes: bool)
    | TurnRuns
    | TurnEnds(fails: bool, invokes: bool)

  function Happen(l: Loop, h: Happening): Loop {
    match h
    case Posted(e, dispatcher, invokes) =>
      var owes := dispatcher && PostLocked(l.s, e).2;
      Loop(Next(l.s, DoPost(e, dispatcher, invokes)), if owes && invokes then l.queued + 1 else l.queued, l.running)
    case TurnRuns =>
      if l.queued == 0 || l.running then l
      else Loop(Next(l.s, Turn), l.queued - 1, l.s.kind == Composite && l.s.pending != [])
    case TurnEnds(fails, invokes) =>
      if !l.running then l
      else
        var owes := ContinueLocked(l.s, fails).1;
        Loop(Next(l.s, Continuation(fails, invokes)), if owes && invokes then l.queued + 1 else l.queued, false)
  }

  function HappenAll(l: Loop, events: seq<Happening>): Loop
    decreases |events|
  {
    if events == [] then l else HappenAll(Happen(l, events[0]), events[1..])
  }

  // The flag says exactly whether a turn is queued or running; never is there more than one.
  predicate FlagIsRight(l: Loop) {
    l.s.active && (l.running ==> l.s.kind == Composite)
    && l.queued + (if l.running then 1 else 0) == (if l.s.scheduled then 1 else 0)
  }

  lemma {:induction false} HappenKeepsFlag(l: Loop, h: Happening)
    requires FlagIsRight(l)
    ensures FlagIsRight(Happen(l, h))
  {
  }

  lemma {:induction false} FlagStaysRight(l: Loop, events: seq<Happening>)
    requires FlagIsRight(l)
    ensures FlagIsRight(HappenAll(l, events))
    decreases |events|
  {
    if events != [] {
      HappenKeepsFlag(l, events[0]);
      FlagStaysRight(Happen(l, events[0]), events[1..]);
    }
  }

  // Over every run of posts and turns, with failures at any time: a turn is queued or running
  // exactly when the sink is marked as scheduled, and never two at once.
  lemma {:induction false} ScheduledMeansTurn(kind: Kind, events: seq<Happening>)
    ensures var l := HappenAll(Loop(NewSink(kind), 0, false), events);
            && (l.s.scheduled <==> l.queued > 0 || l.running)
            && l.queued + (if l.running then 1 else 0) <= 1
  {
    FlagStaysRight(Loop(NewSink(kind), 0, false), events);
  }
}
