// The gate between component callbacks and a session (src/core/src/session.cpp).
module CallbackGate {
  // CallbackGate and GateGuard, with any number of callback threads and closers.

  import opened Option

  // The guarded fields; the counter of ignored callbacks is atomic and separate.
  datatype Gate = Gate(target: Option<nat>, active: nat, closed: bool)

  // A callback: arrived, inside the session, turned away but not counted yet, or over.
  datatype Callback = Arrived | Inside | TurnedAway | Left | Ignored

  // A closeAndDrain: it has set closed and waits, or it has returned.
  datatype Closer = Waiting | Returned

  datatype World = World(gate: Gate, ignored: nat, callbacks: map<nat, Callback>, closers: map<nat, Closer>)

  datatype Step =
    | Arrive(id: nat)
    | Enter(id: nat)
    | Leave(id: nat)
    | CountIgnored(id: nat)
    | BeginClose(closer: nat)
    | FinishClose(closer: nat)

  predicate Lets(g: Gate) {
    !g.closed && g.target.Some?
  }

  function Entered(g: Gate): Gate {
    if Lets(g) then g.(active := g.active + 1) else g
  }

  function AfterLeave(g: Gate): Gate {
    if g.active > 0 then g.(active := g.active - 1) else g
  }

  // A step that is not possible in a state leaves it unchanged.
  function Next(w: World, step: Step): World {
    match step
    case Arrive(id) => if id in w.callbacks then w else w.(callbacks := w.callbacks[id := Arrived])
    case Enter(id) =>
      if id in w.callbacks && w.callbacks[id] == Arrived
      then w.(gate := Entered(w.gate), callbacks := w.callbacks[id := if Lets(w.gate) then Inside else TurnedAway])
      else w
    case Leave(id) =>
      if id in w.callbacks && w.callbacks[id] == Inside
      then w.(gate := AfterLeave(w.gate), callbacks := w.callbacks[id := Left])
      else w
    case CountIgnored(id) =>
      if id in w.callbacks && w.callbacks[id] == TurnedAway
      then w.(ignored := w.ignored + 1, callbacks := w.callbacks[id := Ignored])
      else w
    case BeginClose(closer) =>
      if closer in w.closers then w
      else w.(gate := w.gate.(closed := true), closers := w.closers[closer := Waiting])
    case FinishClose(closer) =>
      if closer in w.closers && w.closers[closer] == Waiting && w.gate.active == 0
      then w.(gate := w.gate.(target := None), closers := w.closers[closer := Returned])
      else w
  }

  function Run(w: World, steps: seq<Step>): World
    decreases |steps|
  {
    if steps == [] then w else Run(Next(w, steps[0]), steps[1..])
  }

  function Initial(target: nat): World {
    World(Gate(Some(target), 0, false), 0, map[], map[])
  }

  function With(callbacks: map<nat, Callback>, at: Callback): set<nat> {
    set id | id in callbacks && callbacks[id] == at
  }

  ghost predicate Inv(w: World) {
    && w.gate.active == |With(w.callbacks, Inside)|
    && w.ignored == |With(w.callbacks, Ignored)|
    && (forall c :: c in w.closers ==> w.gate.closed)
    && (forall c :: c in w.closers && w.closers[c] == Returned ==> w.gate.target == None && w.gate.active == 0)
  }

  function One(b: bool): nat {
    if b then 1 else 0
  }

  lemma {:induction false} Moved(callbacks: map<nat, Callback>, id: nat, to: Callback, at: Callback)
    ensures |With(callbacks[id := to], at)| + One(id in callbacks && callbacks[id] == at)
            == |With(callbacks, at)| + One(to == at)
  {
    var before := With(callbacks, at);
    if to == at {
      assert With(callbacks[id := to], at) == before + {id};
    } else {
      assert With(callbacks[id := to], at) == before - {id};
    }
  }

  lemma {:induction false} MoveKeepsInv(w: World, id: nat, to: Callback, gate: Gate, ignored: nat)
    requires Inv(w) && gate.closed == w.gate.closed && gate.target == w.gate.target
    requires gate.active + One(id in w.callbacks && w.callbacks[id] == Inside) == w.gate.active + One(to == Inside)
    requires ignored + One(id in w.callbacks && w.callbacks[id] == Ignored) == w.ignored + One(to == Ignored)
    requires to == Inside ==> Lets(w.gate)
    ensures Inv(World(gate, ignored, w.callbacks[id := to], w.closers))
  {
    Moved(w.callbacks, id, to, Inside);
    Moved(w.callbacks, id, to, Ignored);
  }

  lemma {:induction false} SomebodyInside(w: World, id: nat)
    requires Inv(w) && id in w.callbacks && w.callbacks[id] == Inside
    ensures w.gate.active > 0
  {
    assert id in With(w.callbacks, Inside);
  }

  lemma {:induction false} StepKeepsInv(w: World, step: Step)
    requires Inv(w)
    ensures Inv(Next(w, step))
  {
    match step
    case Arrive(id) => if id !in w.callbacks { MoveKeepsInv(w, id, Arrived, w.gate, w.ignored); }
    case Enter(id) =>
      if id in w.callbacks && w.callbacks[id] == Arrived {
        MoveKeepsInv(w, id, if Lets(w.gate) then Inside else TurnedAway, Entered(w.gate), w.ignored);
      }
    case Leave(id) =>
      if id in w.callbacks && w.callbacks[id] == Inside {
        SomebodyInside(w, id);
        MoveKeepsInv(w, id, Left, AfterLeave(w.gate), w.ignored);
      }
    case CountIgnored(id) =>
      if id in w.callbacks && w.callbacks[id] == TurnedAway {
        MoveKeepsInv(w, id, Ignored, w.gate, w.ignored + 1);
      }
    case BeginClose(closer) =>
    case FinishClose(closer) =>
  }

  lemma {:induction false} RunKeepsInv(w: World, steps: seq<Step>)
    requires Inv(w)
    ensures Inv(Run(w, steps))
    decreases |steps|
  {
    if steps != [] {
      StepKeepsInv(w, steps[0]);
      RunKeepsInv(Next(w, steps[0]), steps[1..]);
    }
  }

  predicate Quiet(w: World) {
    w.gate.closed && w.gate.target.None? && w.gate.active == 0
  }

  lemma {:induction false} QuietMeansNobodyInside(w: World, id: nat)
    requires Inv(w) && Quiet(w) && id in w.callbacks
    ensures w.callbacks[id] != Inside
  {
    if w.callbacks[id] == Inside { SomebodyInside(w, id); }
  }

  lemma {:induction false} QuietForever(w: World, steps: seq<Step>)
    requires Inv(w) && Quiet(w)
    ensures Quiet(Run(w, steps))
    decreases |steps|
  {
    if steps != [] {
      StepKeepsInv(w, steps[0]);
      if steps[0].Leave? && steps[0].id in w.callbacks { QuietMeansNobodyInside(w, steps[0].id); }
      QuietForever(Next(w, steps[0]), steps[1..]);
    }
  }

  // Once any closeAndDrain has returned, then and ever after no callback is between enter
  // and leave, and none gets the target again.
  lemma {:induction false} QuiescentAfterClose(target: nat, before: seq<Step>, after: seq<Step>, closer: nat, id: nat)
    requires var w := Run(Initial(target), before);
             closer in w.closers && w.closers[closer] == Returned
    ensures var w' := Run(Run(Initial(target), before), after);
            && w'.gate.active == 0 && !Lets(w'.gate)
            && (id in w'.callbacks ==> w'.callbacks[id] != Inside)
  {
    assert With(map[], Inside) == {} && With(map[], Ignored) == {};
    RunKeepsInv(Initial(target), before);
    var w := Run(Initial(target), before);
    assert closer in w.closers;
    QuietForever(w, after);
    RunKeepsInv(w, after);
    var w' := Run(w, after);
    if id in w'.callbacks { QuietMeansNobodyInside(w', id); }
  }

  // ---- late callbacks ----------------------------------------------------------------------------------

  predicate About(step: Step, id: nat) {
    match step
    case Arrive(i) => i == id
    case Enter(i) => i == id
    case Leave(i) => i == id
    case CountIgnored(i) => i == id
    case _ => false
  }

  predicate NoneAbout(steps: seq<Step>, id: nat) {
    forall k :: 0 <= k < |steps| ==> !About(steps[k], id)
  }

  // What one callback that is at a given place adds to a run that goes on without it.
  function Beside(v: World, id: nat, at: Callback): World {
    v.(callbacks := v.callbacks[id := at], ignored := v.ignored + One(at == Ignored))
  }

  lemma {:induction false} BesideStep(v: World, id: nat, at: Callback, step: Step)
    requires !About(step, id) && id !in v.callbacks
    ensures id !in Next(v, step).callbacks
    ensures Next(Beside(v, id, at), step) == Beside(Next(v, step), id, at)
  {
    match step
    case Arrive(i) => assert v.callbacks[id := at][i := Arrived] == v.callbacks[i := Arrived][id := at];
    case Enter(i) =>
      var to := if Lets(v.gate) then Inside else TurnedAway;
      assert v.callbacks[id := at][i := to] == v.callbacks[i := to][id := at];
    case Leave(i) => assert v.callbacks[id := at][i := Left] == v.callbacks[i := Left][id := at];
    case CountIgnored(i) => assert v.callbacks[id := at][i := Ignored] == v.callbacks[i := Ignored][id := at];
    case _ =>
  }

  lemma {:induction false} BesideRun(v: World, id: nat, at: Callback, steps: seq<Step>)
    requires NoneAbout(steps, id) && id !in v.callbacks
    ensures id !in Run(v, steps).callbacks
    ensures Run(Beside(v, id, at), steps) == Beside(Run(v, steps), id, at)
    decreases |steps|
  {
    if steps != [] {
      assert !About(steps[0], id);
      BesideStep(v, id, at, steps[0]);
      BesideRun(Next(v, steps[0]), id, at, steps[1..]);
    }
  }

  // A callback that meets a gate which lets nobody in ends ignored, whatever other threads do
  // between its three steps: beside it the run is the one without it, and the counter of
  // ignored callbacks is higher by exactly one.
  lemma {:induction false} LateCallbackIsIgnoredOnce(w: World, id: nat, s1: seq<Step>, s2: seq<Step>, s3: seq<Step>)
    requires id !in w.callbacks && NoneAbout(s1, id) && NoneAbout(s2, id) && NoneAbout(s3, id)
    requires !Lets(Run(w, s1).gate)
    ensures var met := Next(Run(Next(w, Arrive(id)), s1), Enter(id));
            var end := Run(Next(Run(met, s2), CountIgnored(id)), s3);
            var without := Run(Run(Run(w, s1), s2), s3);
            && id !in without.callbacks
            && end == without.(callbacks := without.callbacks[id := Ignored], ignored := without.ignored + 1)
  {
    var v1 := Run(w, s1);
    BesideRun(w, id, Arrived, s1);
    assert Next(w, Arrive(id)) == Beside(w, id, Arrived);
    assert v1.callbacks[id := Arrived][id := TurnedAway] == v1.callbacks[id := TurnedAway];
    assert Next(Beside(v1, id, Arrived), Enter(id)) == Beside(v1, id, TurnedAway);
    BesideRun(v1, id, TurnedAway, s2);
    var v2 := Run(v1, s2);
    assert v2.callbacks[id := TurnedAway][id := Ignored] == v2.callbacks[id := Ignored];
    assert Next(Beside(v2, id, TurnedAway), CountIgnored(id)) == Beside(v2, id, Ignored);
    BesideRun(v2, id, Ignored, s3);
  }

  lemma {:induction false} IgnoredIsExact(target: nat, steps: seq<Step>)
    ensures var w := Run(Initial(target), steps);
            w.ignored == |With(w.callbacks, Ignored)| && w.gate.active == |With(w.callbacks, Inside)|
  {
    assert With(map[], Inside) == {} && With(map[], Ignored) == {};
    RunKeepsInv(Initial(target), steps);
  }

  // ---- the gate itself -------------------------------------------------------------------------------

  class SessionGate {
    var target: Option<nat>
    var active: nat
    var closed: bool

    function Now(): Gate
      reads this
    {
      Gate(target, active, closed)
    }

    constructor (target: nat)
      ensures Now() == Initial(target).gate
    {
      this.target, active, closed := Some(target), 0, false;
    }

    method TryEnter() returns (reached: Option<nat>)
      modifies this
      ensures Now() == Entered(old(Now()))
      ensures reached == if Lets(old(Now())) then old(target) else None
    {
      if closed || target.None? { return None; }
      active := active + 1;
      reached := target;
    }

    method Exit()
      modifies this
      ensures Now() == AfterLeave(old(Now()))
    {
      if active > 0 { active := active - 1; }
    }

    method Close()
      modifies this
      ensures Now() == old(Now()).(closed := true)
    {
      closed := true;
    }

    // The end of the wait in closeAndDrain: nobody is inside.
    method Drained()
      requires closed && active == 0
      modifies this
      ensures Now() == old(Now()).(target := None) && !Lets(Now())
    {
      target := None;
    }
  }
}
