// The input adapters as objects: the admission bookkeeping on its arrays of held flags,
// and the two sinks that share it.  Each method is proved to do what InputAdmission says.
module InputSinks {
  import opened Option
  import opened InputAdmission

  class MailboxAdmission {
    var normalPending: nat
    var releasePending: nat
    const acceptedKeys: array<bool>
    const acceptedButtons: array<bool>

    ghost predicate Valid()
      reads this
    {
      acceptedKeys.Length == KEY_SLOTS && acceptedButtons.Length == BUTTONS && acceptedKeys != acceptedButtons
    }

    // The flag of a slot.
    predicate Flag(slot: nat)
      requires Valid() && 1 <= slot <= HELD_STATES
      reads this, acceptedKeys, acceptedButtons
    {
      if slot < KEY_SLOTS then acceptedKeys[slot] else acceptedButtons[slot - KEY_SLOTS]
    }

    // Key 0 is Unknown: its flag is never read.
    ghost function Now(): Admission
      requires Valid()
      reads this, acceptedKeys, acceptedButtons
    {
      Admission(normalPending, releasePending, set slot | 1 <= slot <= HELD_STATES && Flag(slot))
    }

    constructor ()
      ensures Valid() && Now() == NOTHING && fresh(acceptedKeys) && fresh(acceptedButtons)
    {
      normalPending, releasePending := 0, 0;
      acceptedKeys := new bool[KEY_SLOTS](_ => false);
      acceptedButtons := new bool[BUTTONS](_ => false);
    }

    method Classified(e: Event) returns (c: Class)
      requires Valid()
      ensures c == Classify(Now(), e)
    {
      if e.Key? && !e.pressed && KnownKey(e.key) {
        return if acceptedKeys[e.key] then ProtectedRelease else DropUnmatchedRelease;
      }
      if e.PointerButton? && !e.pressed && ButtonIndex(e.button) < BUTTONS {
        return if acceptedButtons[ButtonIndex(e.button)] then ProtectedRelease else DropUnmatchedRelease;
      }
      return Normal;
    }

    method SetFlag(slot: nat, to: bool)
      requires Valid() && 1 <= slot <= HELD_STATES
      modifies acceptedKeys, acceptedButtons
      ensures Valid()
      ensures Now() == old(Now()).(held := if to then old(Now()).held + {slot} else old(Now()).held - {slot})
    {
      if slot < KEY_SLOTS {
        acceptedKeys[slot] := to;
      } else {
        acceptedButtons[slot - KEY_SLOTS] := to;
      }
      assert forall other :: 1 <= other <= HELD_STATES && other != slot ==> Flag(other) == old(Flag(other));
      assert Flag(slot) == to;
    }

    method AcceptNormalEvent(e: Event)
      requires Valid()
      modifies this, acceptedKeys, acceptedButtons
      ensures Valid() && Now() == AcceptNormal(old(Now()), e)
    {
      var slot := Slot(e);
      normalPending := normalPending + 1;
      assert Now() == old(Now()).(normal := old(normalPending) + 1);
      if e.Key? && e.pressed && KnownKey(e.key) {
        SetFlag(e.key, true);
      } else if e.PointerButton? && e.pressed && ButtonIndex(e.button) < BUTTONS {
        SetFlag(KEY_SLOTS + ButtonIndex(e.button), true);
      }
    }

    method AcceptReleaseEvent(e: Event)
      requires Valid() && IsRelease(e)
      modifies this, acceptedKeys, acceptedButtons
      ensures Valid() && Now() == AcceptRelease(old(Now()), e)
    {
      releasePending := releasePending + 1;
      assert Now() == old(Now()).(protected := old(releasePending) + 1);
      if e.Key? {
        SetFlag(e.key, false);
      } else {
        SetFlag(KEY_SLOTS + ButtonIndex(e.button), false);
      }
    }

    method RemovePending(isRelease: bool)
      requires Valid()
      modifies this
      ensures Valid() && Now() == if isRelease then RemoveRelease(old(Now())) else RemoveNormal(old(Now()))
    {
      if isRelease {
        if releasePending != 0 { releasePending := releasePending - 1; }
      } else {
        if normalPending != 0 { normalPending := normalPending - 1; }
      }
    }

    method PendingBatchTaken()
      requires Valid()
      modifies this
      ensures Valid() && Now() == BatchTaken(old(Now()))
    {
      normalPending, releasePending := 0, 0;
    }

    method ResetAll()
      requires Valid()
      modifies this, acceptedKeys, acceptedButtons
      ensures Valid() && Now() == NOTHING
    {
      PendingBatchTaken();
      forall i | 0 <= i < acceptedKeys.Length { acceptedKeys[i] := false; }
      forall i | 0 <= i < acceptedButtons.Length { acceptedButtons[i] := false; }
    }
  }

  class InputSink {
    const kind: Kind
    const admission: MailboxAdmission
    var active: bool
    var drainScheduled: bool
    var deferredError: bool
    var pending: seq<Event>
    ghost var taken: seq<Event>

    ghost predicate Valid()
      reads this, admission, admission.acceptedKeys, admission.acceptedButtons
    {
      admission.Valid() && Inv(Now())
    }

    ghost function Now(): Sink
      requires admission.Valid()
      reads this, admission, admission.acceptedKeys, admission.acceptedButtons
    {
      Sink(kind, active, drainScheduled, deferredError, pending, admission.Now(), taken)
    }

    constructor (kind: Kind)
      ensures Valid() && Now() == NewSink(kind)
      ensures fresh(admission) && fresh(admission.acceptedKeys) && fresh(admission.acceptedButtons)
    {
      this.kind := kind;
      active, drainScheduled, deferredError, pending, taken := true, false, false, [], [];
      admission := new MailboxAdmission();
      new;
    }

    method DoReset()
      requires admission.Valid()
      modifies this, admission, admission.acceptedKeys, admission.acceptedButtons
      ensures admission.Valid() && Now() == Reset(old(Now()))
    {
      pending, taken, drainScheduled := [], [], false;
      admission.ResetAll();
    }

    // The branch of post() that decides about the event.
    method Enqueue(e: Event) returns (outcome: Outcome)
      requires admission.Valid()
      modifies this, admission, admission.acceptedKeys, admission.acceptedButtons
      ensures admission.Valid() && (Now(), outcome) == Admit(old(Now()), e)
    {
      var class_ := admission.Classified(e);
      if class_ == DropUnmatchedRelease { return Unmatched; }
      if class_ == ProtectedRelease {
        if admission.releasePending >= RELEASE_CAPACITY { return Full; }
        admission.AcceptReleaseEvent(e);
      } else {
        if admission.normalPending >= NORMAL_CAPACITY { return Full; }
        admission.AcceptNormalEvent(e);
      }
      pending := pending + [e];
      return Queued;
    }

    // dispatcher: the application object exists; invokes: scheduling on it succeeds.
    method PostEvent(e: Event, dispatcher: bool, invokes: bool) returns (outcome: Outcome)
      requires Valid()
      modifies this, admission, admission.acceptedKeys, admission.acceptedButtons
      ensures Valid() && (Now(), outcome) == Post(old(Now()), e, dispatcher, invokes)
    {
      PostKeepsInv(Now(), e, dispatcher, invokes);
      if !dispatcher { return NoDispatcher; }
      var owes;
      outcome, owes := PostUnderLock(e);
      if !owes || invokes { return; }
      SchedulingFailed();
      outcome := if kind == Composite then Lost else QueuedButThrows;
    }

    // The first critical section: the admission, and whether this call has to schedule a turn.
    method PostUnderLock(e: Event) returns (outcome: Outcome, owes: bool)
      requires admission.Valid()
      modifies this, admission, admission.acceptedKeys, admission.acceptedButtons
      ensures admission.Valid() && (Now(), outcome, owes) == PostLocked(old(Now()), e)
    {
      if !active { return Inactive, false; }
      if deferredError {
        deferredError := false;
        return DeferredError, false;
      }
      outcome := Enqueue(e);
      owes := outcome == Queued && !drainScheduled;
      if owes { drainScheduled := true; }
    }

    // The second critical section, after the GUI turn could not be scheduled.
    method SchedulingFailed()
      requires admission.Valid()
      modifies this, admission, admission.acceptedKeys, admission.acceptedButtons
      ensures admission.Valid() && Now() == PostFailed(old(Now()))
    {
      if kind == Composite { DoReset(); } else { drainScheduled := false; }
    }

    // The composite drain up to the delivery of the event it took.
    method TakeFirst() returns (event: Option<Event>)
      requires Valid() && kind == Composite
      modifies this, admission, admission.acceptedKeys, admission.acceptedButtons
      ensures Valid() && Now() == TakeOne(old(Now()))
      ensures event == if old(active && pending != []) then Some(old(pending)[0]) else None
    {
      StepKeepsInv(Now(), Turn);
      if !active {
        DoReset();
        return None;
      }
      if pending == [] {
        drainScheduled := false;
        return None;
      }
      event := Some(pending[0]);
      taken, pending := taken + [pending[0]], pending[1..];
      admission.RemovePending(IsRelease(event.value));
    }

    // The composite drain after the delivery.
    method AskForNextTurn(fails: bool, invokes: bool)
      requires Valid() && kind == Composite
      modifies this, admission, admission.acceptedKeys, admission.acceptedButtons
      ensures Valid() && Now() == Continue(old(Now()), fails, invokes)
    {
      StepKeepsInv(Now(), Continuation(fails, invokes));
      if fails { deferredError := true; }
      if !active { return; }
      if pending == [] {
        drainScheduled := false;
        return;
      }
      if !invokes {
        DoReset();
        deferredError := true;
      }
    }

    // The Quick drain takes the whole queue as one batch.
    method TakeBatch() returns (batch: seq<Event>)
      requires Valid() && kind == Quick
      modifies this, admission, admission.acceptedKeys, admission.acceptedButtons
      ensures Valid() && Now() == TakeAll(old(Now()))
      ensures batch == if old(active) then old(pending) else []
    {
      StepKeepsInv(Now(), Turn);
      if !active {
        DoReset();
        return [];
      }
      batch := pending;
      taken, pending := taken + pending, [];
      admission.PendingBatchTaken();
      drainScheduled := false;
    }

    method ShutDown()
      requires Valid()
      modifies this, admission, admission.acceptedKeys, admission.acceptedButtons
      ensures Valid() && Now() == Next(old(Now()), Shutdown)
    {
      StepKeepsInv(Now(), Shutdown);
      active := false;
      DoReset();
    }
  }
}
