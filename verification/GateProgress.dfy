// The gate lets callbacks in until it is closed, and closing it comes to an end.
module GateProgress {
  // The other half of CallbackGate (CallbackGate and GateGuard of src/core/src/session.cpp).

  import opened Option
  import opened CallbackGate

  // The gate has its target until a close returns, and is closed as soon as one has begun.
  ghost predicate OpenUntilClosed(w: World) {
    && (w.gate.closed <==> w.closers != map[])
    && (w.gate.target.None? ==> w.gate.closed)
  }

  lemma {:induction false} RunKeepsOpen(w: World, steps: seq<Step>)
    requires OpenUntilClosed(w)
    ensures OpenUntilClosed(Run(w, steps))
    decreases |steps|
  {
    if steps != [] {
      StepKeepsOpen(w, steps[0]);
      RunKeepsOpen(Next(w, steps[0]), steps[1..]);
    }
  }

  lemma {:induction false} StepKeepsOpen(w: World, step: Step)
    requires OpenUntilClosed(w)
    ensures OpenUntilClosed(Next(w, step))
  {
    match step
    case BeginClose(closer) => assert w.closers[closer := Waiting] != map[] by { assert closer in w.closers[closer := Waiting]; }
    case FinishClose(closer) =>
      if closer in w.closers { assert w.closers[closer := Returned] != map[] by { assert closer in w.closers[closer := Returned]; } }
    case _ =>
  }

  // In every reachable state a callback that reaches the gate gets in exactly when no close has
  // begun.
  lemma {:induction false} EntersUntilClose(target: nat, steps: seq<Step>, id: nat)
    requires var w := Run(Initial(target), steps);
             id in w.callbacks && w.callbacks[id] == Arrived
    ensures var w := Run(Initial(target), steps);
            var w' := Next(w, Enter(id));
            && id in w'.callbacks && (w'.callbacks[id] == Inside <==> w.closers == map[])
            && (w'.callbacks[id] == Inside || w'.callbacks[id] == TurnedAway)
  {
    RunKeepsOpen(Initial(target), steps);
  }

  // A close that has begun waits, and returns exactly when nobody is inside.
  lemma {:induction false} CloseReturnsWhenEmpty(target: nat, steps: seq<Step>, closer: nat)
    requires closer in Run(Initial(target), steps).closers
    ensures var w := Run(Initial(target), steps);
            var w' := Next(w, FinishClose(closer));
            closer in w'.closers
            && (w'.closers[closer] == Returned <==> w.closers[closer] == Returned || With(w.callbacks, Inside) == {})
  {
    assert With(map[], Inside) == {} && With(map[], Ignored) == {};
    RunKeepsInv(Initial(target), steps);
  }

  lemma {:induction false} BeginsWaiting(w: World, closer: nat)
    requires closer !in w.closers
    ensures var w' := Next(w, BeginClose(closer));
            closer in w'.closers && w'.closers[closer] == Waiting && w'.gate.closed
  {
  }

  predicate OnlyLeaves(steps: seq<Step>) {
    forall i :: 0 <= i < |steps| ==> steps[i].Leave?
  }

  // The callbacks inside can leave, one after the other.
  lemma {:induction false} InsideCanLeave(w: World) returns (steps: seq<Step>, end: World)
    requires Inv(w)
    ensures end == Run(w, steps) && OnlyLeaves(steps) && Inv(end)
    ensures With(end.callbacks, Inside) == {} && end.closers == w.closers
    decreases |With(w.callbacks, Inside)|
  {
    steps, end := [], w;
    if With(w.callbacks, Inside) != {} {
      var id :| id in With(w.callbacks, Inside);
      var next := Next(w, Leave(id));
      StepKeepsInv(w, Leave(id));
      Moved(w.callbacks, id, Left, Inside);
      var rest;
      rest, end := InsideCanLeave(next);
      steps := [Leave(id)] + rest;
      assert steps[1..] == rest;
    }
  }

  // Every close can return: it waits for nothing but the callbacks that are inside.
  lemma {:induction false} CloseCanReturn(target: nat, before: seq<Step>, closer: nat) returns (leaves: seq<Step>)
    requires closer in Run(Initial(target), before).closers
    ensures OnlyLeaves(leaves)
    ensures var end := Next(Run(Run(Initial(target), before), leaves), FinishClose(closer));
            closer in end.closers && end.closers[closer] == Returned
  {
    assert With(map[], Inside) == {} && With(map[], Ignored) == {};
    RunKeepsInv(Initial(target), before);
    var end;
    leaves, end := InsideCanLeave(Run(Initial(target), before));
  }
}
