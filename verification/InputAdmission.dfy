// Bounded admission of remote input
// (src/runtime/src/detail/input_mailbox_admission.hpp).
module InputAdmission {
  // Two queues are built on it: the composite sink, which hands over one event per GUI turn,
  // and the Quick sink, which takes the whole queue at once.

  import opened Option

  datatype Button = Left | Middle | Right | NoButton

  // Key codes are numbers; 0 is Unknown and 69 is F12.
  datatype Event = Key(pressed: bool, key: nat) | PointerButton(pressed: bool, button: Button) | Other(kind: nat)

  const NORMAL_CAPACITY: nat := 64
  const KEY_SLOTS: nat := 70
  const BUTTONS: nat := 3
  const HELD_STATES: nat := KEY_SLOTS - 1 + BUTTONS
  const RELEASE_CAPACITY: nat := HELD_STATES + NORMAL_CAPACITY

  datatype Class = Normal | ProtectedRelease | DropUnmatchedRelease

  predicate KnownKey(key: nat) {
    0 < key < KEY_SLOTS
  }

  function ButtonIndex(button: Button): nat {
    match button
    case Left => 0
    case Middle => 1
    case Right => 2
    case NoButton => BUTTONS
  }

  // The holdable state an event is about, if any: 1..69 for keys, 70..72 for buttons.
  function Slot(e: Event): (slot: Option<nat>)
    ensures slot.Some? ==> 1 <= slot.value <= HELD_STATES
  {
    match e
    case Key(_, key) => if KnownKey(key) then Some(key) else None
    case PointerButton(_, button) => if button.NoButton? then None else Some(KEY_SLOTS + ButtonIndex(button))
    case Other(_) => None
  }

  predicate Presses(e: Event, slot: nat) {
    !e.Other? && e.pressed && Slot(e) == Some(slot)
  }

  predicate Releases(e: Event, slot: nat) {
    !e.Other? && !e.pressed && Slot(e) == Some(slot)
  }

  predicate IsRelease(e: Event) {
    !e.Other? && !e.pressed && Slot(e).Some?
  }

  // The counters and the accepted holds.
  datatype Admission = Admission(normal: nat, protected: nat, held: set<nat>)

  const NOTHING: Admission := Admission(0, 0, {})

  function Classify(a: Admission, e: Event): Class {
    if !IsRelease(e) then Normal
    else if Slot(e).value in a.held then ProtectedRelease
    else DropUnmatchedRelease
  }

  predicate CanAcceptNormal(a: Admission) {
    a.normal < NORMAL_CAPACITY
  }

  predicate CanAcceptRelease(a: Admission) {
    a.protected < RELEASE_CAPACITY
  }

  function AcceptNormal(a: Admission, e: Event): Admission {
    Admission(a.normal + 1, a.protected,
              if Slot(e).Some? && !IsRelease(e) then a.held + {Slot(e).value} else a.held)
  }

  function AcceptRelease(a: Admission, e: Event): Admission {
    Admission(a.normal, a.protected + 1, if IsRelease(e) then a.held - {Slot(e).value} else a.held)
  }

  function RemoveNormal(a: Admission): Admission {
    a.(normal := if a.normal > 0 then a.normal - 1 else 0)
  }

  function RemoveRelease(a: Admission): Admission {
    a.(protected := if a.protected > 0 then a.protected - 1 else 0)
  }

  function BatchTaken(a: Admission): Admission {
    a.(normal := 0, protected := 0)
  }

  // ---- sequences of accepted events -----------------------------------------------------------------

  // The latest press or release of a slot: Some(true) for a press.
  function Last(q: seq<Event>, slot: nat): Option<bool> {
    if q == [] then None
    else if Slot(q[|q| - 1]) == Some(slot) then Some(!IsRelease(q[|q| - 1]))
    else Last(q[..|q| - 1], slot)
  }

  // Every release follows a press of its slot with no other release in between.
  predicate Matched(q: seq<Event>, slot: nat) {
    q == [] ||
    (Matched(q[..|q| - 1], slot) && (Releases(q[|q| - 1], slot) ==> Last(q[..|q| - 1], slot) == Some(true)))
  }

  // No release follows a release of its slot without a press in between.
  predicate Alternating(q: seq<Event>, slot: nat) {
    q == [] ||
    (Alternating(q[..|q| - 1], slot) && (Releases(q[|q| - 1], slot) ==> Last(q[..|q| - 1], slot) != Some(false)))
  }

  function One(b: bool): nat {
    if b then 1 else 0
  }

  function PressCount(q: seq<Event>, slot: nat): nat {
    if q == [] then 0 else PressCount(q[..|q| - 1], slot) + One(Presses(q[|q| - 1], slot))
  }

  function ReleaseCount(q: seq<Event>, slot: nat): nat {
    if q == [] then 0 else ReleaseCount(q[..|q| - 1], slot) + One(Releases(q[|q| - 1], slot))
  }

  function NormalCount(q: seq<Event>): nat {
    if q == [] then 0 else NormalCount(q[..|q| - 1]) + One(!IsRelease(q[|q| - 1]))
  }

  function AllReleases(q: seq<Event>): nat {
    if q == [] then 0 else AllReleases(q[..|q| - 1]) + One(IsRelease(q[|q| - 1]))
  }

  // Taking events off the front of a matched history leaves an alternating queue.
  lemma {:induction false} SuffixAlternates(taken: seq<Event>, q: seq<Event>, slot: nat)
    requires Matched(taken + q, slot)
    ensures Alternating(q, slot)
    ensures Last(taken + q, slot) == Some(true) ==> Last(q, slot) != Some(false)
    ensures Last(q, slot).Some? ==> Last(q, slot) == Last(taken + q, slot)
  {
    if q != [] {
      assert (taken + q)[..|taken + q| - 1] == taken + q[..|q| - 1];
      SuffixAlternates(taken, q[..|q| - 1], slot);
    } else {
      assert taken + q == taken;
    }
  }

  lemma {:induction false} OneMoreReleaseThanPresses(q: seq<Event>, slot: nat)
    requires Alternating(q, slot)
    ensures ReleaseCount(q, slot) + One(Last(q, slot) != Some(false)) <= PressCount(q, slot) + 1
  {
    if q != [] { OneMoreReleaseThanPresses(q[..|q| - 1], slot); }
  }

  // The sums over the slots 1..n.
  function SumReleases(q: seq<Event>, n: nat): nat {
    if n == 0 then 0 else SumReleases(q, n - 1) + ReleaseCount(q, n)
  }

  function SumPresses(q: seq<Event>, n: nat): nat {
    if n == 0 then 0 else SumPresses(q, n - 1) + PressCount(q, n)
  }

  lemma {:induction false} SumsGrow(q: seq<Event>, n: nat)
    requires q != []
    ensures var e := q[|q| - 1];
            && SumReleases(q, n) == SumReleases(q[..|q| - 1], n)
                                    + One(IsRelease(e) && 1 <= Slot(e).value <= n)
            && SumPresses(q, n) == SumPresses(q[..|q| - 1], n)
                                   + One(Slot(e).Some? && !IsRelease(e) && 1 <= Slot(e).value <= n)
  {
    if n > 0 { SumsGrow(q, n - 1); }
  }

  lemma {:induction false} SumsOfNothing(n: nat)
    ensures SumReleases([], n) == 0 && SumPresses([], n) == 0
  {
    if n > 0 { SumsOfNothing(n - 1); }
  }

  lemma {:induction false} SumsAreTotals(q: seq<Event>)
    ensures SumReleases(q, HELD_STATES) == AllReleases(q)
    ensures SumPresses(q, HELD_STATES) <= NormalCount(q)
  {
    if q == [] {
      SumsOfNothing(HELD_STATES);
    } else {
      SumsAreTotals(q[..|q| - 1]);
      SumsGrow(q, HELD_STATES);
    }
  }

  // Pending releases never exceed one per slot plus the pending presses; a slot that is
  // still held has room for one more.
  lemma {:induction false} SumBound(taken: seq<Event>, q: seq<Event>, held: nat, n: nat)
    requires forall slot :: 1 <= slot <= n ==> Matched(taken + q, slot)
    requires 1 <= held <= n ==> Last(taken + q, held) == Some(true)
    ensures SumReleases(q, n) + One(1 <= held <= n) <= SumPresses(q, n) + n
  {
    if n > 0 {
      SumBound(taken, q, held, n - 1);
      SuffixAlternates(taken, q, n);
      OneMoreReleaseThanPresses(q, n);
    }
  }

  // ---- the two sinks -----------------------------------------------------------------------------------

  datatype Kind = Composite | Quick

  // taken: the events handed to the GUI side since the last reset, oldest first.
  datatype Sink = Sink(kind: Kind, active: bool, scheduled: bool, deferred: bool,
                       pending: seq<Event>, admission: Admission, taken: seq<Event>)

  function NewSink(kind: Kind): Sink {
    Sink(kind, true, false, false, [], NOTHING, [])
  }

  datatype Outcome = NoDispatcher | Inactive | DeferredError | Unmatched | Full | Queued | QueuedButThrows | Lost

  function Reset(s: Sink): Sink {
    s.(pending := [], admission := NOTHING, taken := [], scheduled := false)
  }

  // The admission decision of post(); Queued means the event is now pending.
  function Admit(s: Sink, e: Event): (Sink, Outcome) {
    match Classify(s.admission, e)
    case DropUnmatchedRelease => (s, Unmatched)
    case ProtectedRelease =>
      if !CanAcceptRelease(s.admission) then (s, Full)
      else (s.(admission := AcceptRelease(s.admission, e), pending := s.pending + [e]), Queued)
    case Normal =>
      if !CanAcceptNormal(s.admission) then (s, Full)
      else (s.(admission := AcceptNormal(s.admission, e), pending := s.pending + [e]), Queued)
  }

  // The critical section of post(), and whether the caller has to schedule a GUI turn.  A
  // deferred error is reported instead of looking at the event.
  function PostLocked(s: Sink, e: Event): (Sink, Outcome, bool) {
    if !s.active then (s, Inactive, false)
    else if s.deferred then (s.(deferred := false), DeferredError, false)
    else
      var (s', outcome) := Admit(s, e);
      if outcome == Queued && !s'.scheduled then (s'.(scheduled := true), Queued, true) else (s', outcome, false)
  }

  // The second critical section, after scheduling failed.
  function PostFailed(s: Sink): Sink {
    if s.kind == Composite then Reset(s) else s.(scheduled := false)
  }

  // post() without interruption; dispatcher: there is an application object; invokes:
  // scheduling a GUI turn succeeds.
  function Post(s: Sink, e: Event, dispatcher: bool, invokes: bool): (Sink, Outcome) {
    if !dispatcher then (s, NoDispatcher)
    else
      var (s', outcome, owes) := PostLocked(s, e);
      if owes && !invokes then (PostFailed(s'), if s.kind == Composite then Lost else QueuedButThrows) else (s', outcome)
  }

  // One composite GUI turn takes one event ...
  function TakeOne(s: Sink): Sink {
    if !s.active then Reset(s)
    else if s.pending == [] then s.(scheduled := false)
    else
      s.(pending := s.pending[1..], taken := s.taken + [s.pending[0]],
         admission := if IsRelease(s.pending[0]) then RemoveRelease(s.admission) else RemoveNormal(s.admission))
  }

  // ... and then asks for the next turn.
  function ContinueLocked(s: Sink, fails: bool): (Sink, bool) {
    var s := s.(deferred := s.deferred || fails);
    if !s.active then (s, false)
    else if s.pending == [] then (s.(scheduled := false), false)
    else (s, true)
  }

  function ContinuationFailed(s: Sink): Sink {
    Reset(s).(deferred := true)
  }

  function Continue(s: Sink, fails: bool, invokes: bool): Sink {
    var (s', owes) := ContinueLocked(s, fails);
    if owes && !invokes then ContinuationFailed(s') else s'
  }

  // A Quick GUI turn takes the whole queue.
  function TakeAll(s: Sink): Sink {
    if !s.active then Reset(s)
    else s.(pending := [], taken := s.taken + s.pending, admission := BatchTaken(s.admission), scheduled := false)
  }

  // The parts of a post and of a continuation are steps of their own as well, so that other
  // steps can come between them.
  datatype Step =
    | DoPost(e: Event, dispatcher: bool, invokes: bool)
    | PostBegins(e: Event)
    | PostFails
    | Turn
    | Continuation(fails: bool, invokes: bool)
    | ContinuationBegins(fails: bool)
    | ContinuationFails
    | Shutdown

  function Next(s: Sink, step: Step): Sink {
    match step
    case DoPost(e, dispatcher, invokes) => Post(s, e, dispatcher, invokes).0
    case PostBegins(e) => PostLocked(s, e).0
    case PostFails => PostFailed(s)
    case Turn => if s.kind == Composite then TakeOne(s) else TakeAll(s)
    case Continuation(fails, invokes) => if s.kind == Composite then Continue(s, fails, invokes) else s
    case ContinuationBegins(fails) => if s.kind == Composite then ContinueLocked(s, fails).0 else s
    case ContinuationFails => if s.kind == Composite then ContinuationFailed(s) else s
    case Shutdown => Reset(s).(active := false)
  }

  function Run(s: Sink, steps: seq<Step>): Sink
    decreases |steps|
  {
    if steps == [] then s else Run(Next(s, steps[0]), steps[1..])
  }

  ghost predicate Inv(s: Sink) {
    && s.admission.normal == NormalCount(s.pending) <= NORMAL_CAPACITY
    && s.admission.protected == AllReleases(s.pending)
    && (forall slot :: slot in s.admission.held ==> 1 <= slot <= HELD_STATES)
    && (forall slot :: 1 <= slot <= HELD_STATES ==> SlotOk(s, slot))
    && (s.kind == Quick ==> !s.deferred)
  }

  // The hold recorded for a slot is the latest accepted transition of the slot, and the
  // accepted history since the last reset is matched.
  predicate SlotOk(s: Sink, slot: nat) {
    Matched(s.taken + s.pending, slot) &&
    (slot in s.admission.held <==> Last(s.taken + s.pending, slot) == Some(true))
  }

  // The release reserve never runs out: a release of a held slot always finds room.
  lemma {:induction false} ReserveNeverFull(s: Sink, e: Event)
    requires Inv(s)
    ensures s.admission.protected <= RELEASE_CAPACITY
    ensures Classify(s.admission, e) == ProtectedRelease ==> CanAcceptRelease(s.admission)
  {
    SumsAreTotals(s.pending);
    forall slot | 1 <= slot <= HELD_STATES
      ensures Matched(s.taken + s.pending, slot)
    {
      assert SlotOk(s, slot);
    }
    if Classify(s.admission, e) == ProtectedRelease {
      assert SlotOk(s, Slot(e).value);
      SumBound(s.taken, s.pending, Slot(e).value, HELD_STATES);
    } else {
      SumBound(s.taken, s.pending, 0, HELD_STATES);
    }
  }

  function Enqueued(s: Sink, e: Event, a: Admission): Sink {
    s.(admission := a, pending := s.pending + [e])
  }

  lemma {:induction false} EnqueuedSlot(s: Sink, e: Event, a: Admission, slot: nat)
    requires SlotOk(s, slot)
    requires if IsRelease(e) then a == AcceptRelease(s.admission, e) && Slot(e).value in s.admission.held
             else a == AcceptNormal(s.admission, e)
    ensures SlotOk(Enqueued(s, e, a), slot)
  {
    assert s.taken + (s.pending + [e]) == s.taken + s.pending + [e];
  }

  lemma {:induction false} EnqueuedInv(s: Sink, e: Event, a: Admission)
    requires Inv(s)
    requires if IsRelease(e) then a == AcceptRelease(s.admission, e) && Slot(e).value in s.admission.held
             else a == AcceptNormal(s.admission, e) && CanAcceptNormal(s.admission)
    ensures Inv(Enqueued(s, e, a))
  {
    forall slot | 1 <= slot <= HELD_STATES
      ensures SlotOk(Enqueued(s, e, a), slot)
    {
      assert SlotOk(s, slot);
      EnqueuedSlot(s, e, a, slot);
    }
  }

  lemma {:induction false} AdmitKeepsInv(s: Sink, e: Event)
    requires Inv(s)
    ensures Inv(Admit(s, e).0)
  {
    match Classify(s.admission, e)
    case DropUnmatchedRelease =>
    case ProtectedRelease => EnqueuedInv(s, e, AcceptRelease(s.admission, e));
    case Normal => if CanAcceptNormal(s.admission) { EnqueuedInv(s, e, AcceptNormal(s.admission, e)); }
  }

  // A sink that differs in its flags only, or was reset.
  lemma {:induction false} FlagsKeepInv(s: Sink, s': Sink)
    requires Inv(s) && s'.kind == s.kind && (s'.kind == Quick ==> !s'.deferred)
    requires (s'.pending == s.pending && s'.admission == s.admission && s'.taken == s.taken)
             || (s'.pending == [] && s'.admission == NOTHING && s'.taken == [])
    ensures Inv(s')
  {
    forall slot | 1 <= slot <= HELD_STATES
      ensures SlotOk(s', slot)
    {
      assert SlotOk(s, slot);
    }
  }

  lemma {:induction false} PostLockedKeepsInv(s: Sink, e: Event)
    requires Inv(s)
    ensures Inv(PostLocked(s, e).0) && PostLocked(s, e).0.kind == s.kind
  {
    if !s.active || s.deferred {
      FlagsKeepInv(s, PostLocked(s, e).0);
    } else {
      var s' := Admit(s, e).0;
      AdmitKeepsInv(s, e);
      assert s'.kind == s.kind && s'.deferred == s.deferred;
      FlagsKeepInv(s', s'.(scheduled := true));
    }
  }

  lemma {:induction false} PostKeepsInv(s: Sink, e: Event, dispatcher: bool, invokes: bool)
    requires Inv(s)
    ensures Inv(Post(s, e, dispatcher, invokes).0)
  {
    PostLockedKeepsInv(s, e);
    FlagsKeepInv(PostLocked(s, e).0, PostFailed(PostLocked(s, e).0));
  }

  lemma {:induction false} ContinueKeepsInv(s: Sink, fails: bool, invokes: bool)
    requires Inv(s) && s.kind == Composite
    ensures Inv(ContinueLocked(s, fails).0) && Inv(ContinuationFailed(s)) && Inv(Continue(s, fails, invokes))
  {
    FlagsKeepInv(s, ContinueLocked(s, fails).0);
    FlagsKeepInv(s, ContinuationFailed(s));
    FlagsKeepInv(s, Continue(s, fails, invokes));
  }

  lemma {:induction false} CountsOfFirst(q: seq<Event>)
    requires q != []
    ensures NormalCount(q) == NormalCount(q[1..]) + One(!IsRelease(q[0]))
    ensures AllReleases(q) == AllReleases(q[1..]) + One(IsRelease(q[0]))
  {
    if |q| == 1 {
      assert q[1..] == q[..0] == [];
    } else {
      var front := q[..|q| - 1];
      CountsOfFirst(front);
      assert front[1..] == q[1..][..|q| - 2];
    }
  }

  lemma {:induction false} TakeKeepsSlots(s: Sink, s': Sink)
    requires Inv(s) && s'.taken + s'.pending == s.taken + s.pending && s'.admission.held == s.admission.held
    ensures forall slot :: 1 <= slot <= HELD_STATES ==> SlotOk(s', slot)
  {
    forall slot | 1 <= slot <= HELD_STATES
      ensures SlotOk(s', slot)
    {
      assert SlotOk(s, slot);
    }
  }

  lemma {:induction false} TurnKeepsInv(s: Sink)
    requires Inv(s)
    ensures Inv(Next(s, Turn))
  {
    var s' := Next(s, Turn);
    if s.active {
      if s.pending != [] && s.kind == Composite { CountsOfFirst(s.pending); }
      assert s'.taken + s'.pending == s.taken + s.pending;
      TakeKeepsSlots(s, s');
    } else {
      FlagsKeepInv(s, s');
    }
  }

  lemma {:induction false} StepKeepsInv(s: Sink, step: Step)
    requires Inv(s)
    ensures Inv(Next(s, step))
  {
    match step
    case DoPost(e, dispatcher, invokes) => PostKeepsInv(s, e, dispatcher, invokes);
    case PostBegins(e) => PostLockedKeepsInv(s, e);
    case PostFails => FlagsKeepInv(s, PostFailed(s));
    case Turn => TurnKeepsInv(s);
    case Continuation(fails, invokes) => if s.kind == Composite { ContinueKeepsInv(s, fails, invokes); }
    case ContinuationBegins(fails) => if s.kind == Composite { ContinueKeepsInv(s, fails, true); }
    case ContinuationFails => if s.kind == Composite { ContinueKeepsInv(s, false, true); }
    case Shutdown => FlagsKeepInv(s, Next(s, Shutdown));
  }

  lemma {:induction false} RunKeepsInv(s: Sink, steps: seq<Step>)
    requires Inv(s)
    ensures Inv(Run(s, steps))
    decreases |steps|
  {
    if steps != [] {
      StepKeepsInv(s, steps[0]);
      RunKeepsInv(Next(s, steps[0]), steps[1..]);
    }
  }

  // ---- what it means ------------------------------------------------------------------------------------

  // After any posts, turns and failures, for both kinds of sink: at most 64 normal events
  // and 136 releases are pending, per slot at most one release more than presses, and a
  // release whose press was accepted is never refused for lack of room.
  lemma {:induction false} BoundHolds(kind: Kind, steps: seq<Step>, slot: nat, e: Event)
    requires 1 <= slot <= HELD_STATES
    ensures var s := Run(NewSink(kind), steps);
            && NormalCount(s.pending) <= 64 && AllReleases(s.pending) <= 136
            && ReleaseCount(s.pending, slot) <= PressCount(s.pending, slot) + 1
            && (IsRelease(e) ==> Admit(s, e).1 != Full)
  {
    RunKeepsInv(NewSink(kind), steps);
    var s := Run(NewSink(kind), steps);
    ReserveNeverFull(s, e);
    assert SlotOk(s, slot);
    SuffixAlternates(s.taken, s.pending, slot);
    OneMoreReleaseThanPresses(s.pending, slot);
  }

  // No unmatched release is admitted, and none that has a press is dropped as unmatched:
  // a release becomes pending exactly when the latest accepted transition of its slot
  // since the last reset is a press.
  lemma {:induction false} ReleaseAdmittedIffPressed(kind: Kind, steps: seq<Step>, e: Event)
    requires IsRelease(e)
    ensures var s := Run(NewSink(kind), steps);
            Admit(s, e).1 == Queued <==> Last(s.taken + s.pending, Slot(e).value) == Some(true)
  {
    RunKeepsInv(NewSink(kind), steps);
    var s := Run(NewSink(kind), steps);
    ReserveNeverFull(s, e);
    assert SlotOk(s, Slot(e).value);
  }

  // Posting a release to an active sink leaves it pending exactly when there is an application
  // object, no deferred error is reported in its place, the press of its slot was accepted and
  // not discarded since, and, for the composite sink, the turn is scheduled or can be.
  lemma {:induction false} ReleasePostedIff(s: Sink, e: Event, dispatcher: bool, invokes: bool)
    requires Inv(s) && s.active && IsRelease(e)
    ensures Post(s, e, dispatcher, invokes).0.pending == s.pending + [e] <==>
            dispatcher && !s.deferred && Slot(e).value in s.admission.held && (s.scheduled || invokes || s.kind == Quick)
  {
    ReserveNeverFull(s, e);
    assert |s.pending + [e]| == |s.pending| + 1;
  }

  // A failed scheduling discards the holds: after the press of a button was delivered, another
  // event that cannot be scheduled makes the release of the button unmatched.
  lemma {:induction false} FailedSchedulingLosesRelease()
    ensures var press := PointerButton(true, Left);
            var release := PointerButton(false, Left);
            var s := Run(NewSink(Composite),
                         [DoPost(press, true, true), Turn, Continuation(false, true), DoPost(Other(0), true, false)]);
            && s.active && !s.deferred && s.taken == [] && Post(s, release, true, true) == (s, Unmatched)
  {
    var press := PointerButton(true, Left);
    var steps := [DoPost(press, true, true), Turn, Continuation(false, true), DoPost(Other(0), true, false)];
    var s1 := Next(NewSink(Composite), steps[0]);
    var s2 := Next(s1, steps[1]);
    var s3 := Next(s2, steps[2]);
    var s4 := Next(s3, steps[3]);
    assert s1.pending == [press] && s1.scheduled;
    assert s2.pending == [] && s2.taken == [press] && s3 == s2.(scheduled := false);
    assert Admit(s3, Other(0)).1 == Queued && s4 == Reset(s4) && s4.active && !s4.deferred;
    assert steps[1..] == [Turn, Continuation(false, true), DoPost(Other(0), true, false)];
    assert steps[1..][1..] == [Continuation(false, true), DoPost(Other(0), true, false)];
    assert steps[1..][1..][1..] == [DoPost(Other(0), true, false)];
    assert Run(s4, []) == s4 && Run(s3, [DoPost(Other(0), true, false)]) == s4;
    assert Run(s2, steps[1..][1..]) == s4;
  }

  // A deferred error swallows the release of a held button: it is neither queued nor kept.
  lemma {:induction false} DeferredErrorLosesRelease()
    ensures var press := PointerButton(true, Left);
            var release := PointerButton(false, Left);
            var s := Run(NewSink(Composite), [DoPost(press, true, true), Turn, Continuation(true, true)]);
            && Classify(s.admission, release) == ProtectedRelease
            && Post(s, release, true, true) == (s.(deferred := false), DeferredError)
  {
    var press := PointerButton(true, Left);
    var steps := [DoPost(press, true, true), Turn, Continuation(true, true)];
    var s0 := NewSink(Composite);
    var s1 := Next(s0, steps[0]);
    var s2 := Next(s1, steps[1]);
    var s3 := Next(s2, steps[2]);
    assert s1.pending == [press] && s1.admission.held == {KEY_SLOTS};
    assert steps[1..] == [Turn, Continuation(true, true)] && steps[1..][1..] == [Continuation(true, true)];
    assert Run(s3, []) == s3 && Run(s2, [Continuation(true, true)]) == s3;
    assert Run(s0, steps) == s3;
  }
}
