// The bounded frame queue between capture and dispatch (src/core/src/detail/mailbox.cpp).
module Mailbox {
  datatype Policy = DropOldest | ProducerThrottle

  datatype PushResult = Stored | StoredAfterDroppingOldest | RejectedOverflow | RejectedClosed

  datatype PopResult = Popped(frame: Entry) | Empty | Closed

  // A stored frame: the id assigned on acceptance, and its content.
  datatype Entry = Entry(id: nat, content: nat)

  // The counters of MailboxStats that record what happened.
  datatype Counts = Counts(stored: nat, popped: nat, dropped: nat, overflowed: nat, refused: nat)

  datatype Box = Box(
    capacity: nat,
    policy: Policy,
    queue: seq<Entry>,
    nextFrameId: nat,
    closed: bool,
    owned: nat,
    counts: Counts,
    maxWaiting: nat,
    maxOwned: nat)

  function Max(a: nat, b: nat): nat {
    if a < b then b else a
  }

  function Fresh(capacity: nat, policy: Policy): Box {
    Box(if capacity == 0 then 1 else capacity, policy, [], 1, false, 0, Counts(0, 0, 0, 0, 0), 0, 0)
  }

  // updateOwnedLocked
  function Observed(b: Box): Box {
    b.(maxWaiting := Max(b.maxWaiting, |b.queue|), maxOwned := Max(b.maxOwned, |b.queue| + b.owned))
  }

  function PushOutcome(b: Box): PushResult {
    if b.closed then RejectedClosed
    else if |b.queue| < b.capacity then Stored
    else if b.policy == ProducerThrottle then RejectedOverflow
    else StoredAfterDroppingOldest
  }

  function AfterPush(b: Box, content: nat): Box {
    match PushOutcome(b)
    case RejectedClosed => b.(counts := b.counts.(refused := b.counts.refused + 1))
    case RejectedOverflow => Observed(b.(counts := b.counts.(overflowed := b.counts.overflowed + 1)))
    case Stored =>
      Observed(b.(queue := b.queue + [Entry(b.nextFrameId, content)], nextFrameId := b.nextFrameId + 1,
                  counts := b.counts.(stored := b.counts.stored + 1)))
    case StoredAfterDroppingOldest =>
      Observed(b.(queue := (b.queue + [Entry(b.nextFrameId, content)])[1..], nextFrameId := b.nextFrameId + 1,
                  counts := b.counts.(stored := b.counts.stored + 1, dropped := b.counts.dropped + 1)))
  }

  function PopOutcome(b: Box): PopResult {
    if b.queue != [] then Popped(b.queue[0]) else if b.closed then Closed else Empty
  }

  function AfterPop(b: Box): Box {
    if b.queue == [] then b
    else Observed(b.(queue := b.queue[1..], owned := b.owned + 1,
                     counts := b.counts.(popped := b.counts.popped + 1)))
  }

  function AfterRelease(b: Box): Box {
    Observed(if b.owned > 0 then b.(owned := b.owned - 1) else b)
  }

  function AfterClose(b: Box): Box {
    Observed(b.(closed := true))
  }

  // ---- what every operation keeps ------------------------------------------------------------------

  // The waiting ids are the consecutive run that ends at the last assigned id; every stored
  // frame was popped, dropped or still waits.
  predicate Valid(b: Box) {
    && b.capacity > 0 && |b.queue| <= b.capacity && |b.queue| < b.nextFrameId
    && (forall i :: 0 <= i < |b.queue| ==> b.queue[i].id == b.nextFrameId - |b.queue| + i)
    && b.counts.stored == b.nextFrameId - 1
    && b.counts.stored == b.counts.popped + b.counts.dropped + |b.queue|
    && (b.policy == ProducerThrottle ==> b.counts.dropped == 0)
    && (b.policy == DropOldest ==> b.counts.overflowed == 0)
    && |b.queue| <= b.maxWaiting <= b.capacity && b.maxWaiting <= b.maxOwned
  }

  lemma {:induction false} PushKeepsValid(b: Box, content: nat)
    requires Valid(b)
    ensures Valid(AfterPush(b, content))
  {
  }

  // ---- whole runs ----------------------------------------------------------------------------------

  datatype Op = DoPush(content: nat) | DoPop | DoRelease | DoClose

  // The box with the frames it handed out and dropped, oldest first, and the contents of all
  // accepted pushes in order.
  datatype History = History(box: Box, popped: seq<Entry>, dropped: seq<Entry>, accepted: seq<nat>)

  function Start(capacity: nat, policy: Policy): History {
    History(Fresh(capacity, policy), [], [], [])
  }

  predicate Accepts(r: PushResult) {
    r == Stored || r == StoredAfterDroppingOldest
  }

  function After(h: History, op: Op): History {
    match op
    case DoPush(content) =>
      History(AfterPush(h.box, content), h.popped,
              if PushOutcome(h.box) == StoredAfterDroppingOldest && h.box.queue != []
              then h.dropped + [h.box.queue[0]] else h.dropped,
              if Accepts(PushOutcome(h.box)) then h.accepted + [content] else h.accepted)
    case DoPop =>
      h.(box := AfterPop(h.box),
         popped := if PopOutcome(h.box).Popped? then h.popped + [PopOutcome(h.box).frame] else h.popped)
    case DoRelease => h.(box := AfterRelease(h.box))
    case DoClose => h.(box := AfterClose(h.box))
  }

  function Replay(h: History, ops: seq<Op>): History
    decreases |ops|
  {
    if ops == [] then h else Replay(After(h, ops[0]), ops[1..])
  }

  predicate Increasing(frames: seq<Entry>) {
    forall i, j :: 0 <= i < j < |frames| ==> frames[i].id < frames[j].id
  }

  predicate HasId(frames: seq<Entry>, id: nat) {
    exists i :: 0 <= i < |frames| && frames[i].id == id
  }

  // Each frame is the accepted push of its id, with that content.
  predicate Genuine(frames: seq<Entry>, accepted: seq<nat>) {
    forall i :: 0 <= i < |frames| ==>
      1 <= frames[i].id <= |accepted| && frames[i].content == accepted[frames[i].id - 1]
  }

  // The first id that is still waiting or not yet assigned.
  function Front(b: Box): int {
    b.nextFrameId - |b.queue|
  }

  // Every accepted push went to exactly one place, with its content: it was popped, dropped,
  // or waits.
  ghost predicate Partitioned(h: History) {
    && Valid(h.box) && Increasing(h.popped) && Increasing(h.dropped)
    && |h.accepted| == h.box.nextFrameId - 1
    && Genuine(h.popped, h.accepted) && Genuine(h.dropped, h.accepted) && Genuine(h.box.queue, h.accepted)
    && (forall id: nat :: HasId(h.popped, id) || HasId(h.dropped, id) <==> 1 <= id < Front(h.box))
    && (forall id: nat :: !(HasId(h.popped, id) && HasId(h.dropped, id)))
    && |h.popped| == h.box.counts.popped && |h.dropped| == h.box.counts.dropped
  }

  lemma {:induction false} AppendedIds(frames: seq<Entry>, e: Entry)
    ensures forall id: nat :: HasId(frames + [e], id) <==> HasId(frames, id) || id == e.id
  {
    forall id: nat
      ensures HasId(frames + [e], id) <==> HasId(frames, id) || id == e.id
    {
      if HasId(frames, id) {
        var i :| 0 <= i < |frames| && frames[i].id == id;
        assert (frames + [e])[i].id == id;
      }
      assert (frames + [e])[|frames|].id == e.id;
    }
  }

  lemma {:induction false} AppendIncreasing(frames: seq<Entry>, e: Entry)
    requires Increasing(frames) && forall id: nat :: HasId(frames, id) ==> id < e.id
    ensures Increasing(frames + [e])
  {
    forall i | 0 <= i < |frames|
      ensures frames[i].id < e.id
    {
      assert HasId(frames, frames[i].id);
    }
  }

  lemma {:induction false} PushKeepsPartition(h: History, content: nat)
    requires Partitioned(h)
    ensures Partitioned(After(h, DoPush(content)))
  {
    var b, h' := h.box, After(h, DoPush(content));
    PushKeepsValid(b, content);
    if PushOutcome(b) == StoredAfterDroppingOldest {
      var first := b.queue[0];
      assert first.id == Front(b) && Front(h'.box) == first.id + 1;
      AppendedIds(h.dropped, first);
      AppendIncreasing(h.dropped, first);
    } else {
      assert h'.dropped == h.dropped && Front(h'.box) == Front(b);
    }
  }

  lemma {:induction false} PopKeepsPartition(h: History)
    requires Partitioned(h)
    ensures Partitioned(After(h, DoPop))
  {
    var b := h.box;
    if b.queue != [] {
      var first := b.queue[0];
      assert first.id == Front(b) && Front(AfterPop(b)) == first.id + 1;
      AppendedIds(h.popped, first);
      AppendIncreasing(h.popped, first);
    }
  }

  lemma {:induction false} StepKeepsPartition(h: History, op: Op)
    requires Partitioned(h)
    ensures Partitioned(After(h, op))
  {
    match op
    case DoPush(content) => PushKeepsPartition(h, content);
    case DoPop => PopKeepsPartition(h);
    case DoRelease =>
    case DoClose =>
  }

  // Over every sequence of operations the dispatch order is the acceptance order, each frame
  // comes out with the content that was accepted under its id, no id is handed out twice, and
  // none is lost without being counted as dropped.
  lemma {:induction false} NoFrameLost(capacity: nat, policy: Policy, ops: seq<Op>)
    ensures Partitioned(Replay(Start(capacity, policy), ops))
  {
    ReplayKeepsPartition(Start(capacity, policy), ops);
  }

  lemma {:induction false} ReplayKeepsPartition(h: History, ops: seq<Op>)
    requires Partitioned(h)
    ensures Partitioned(Replay(h, ops))
    decreases |ops|
  {
    if ops != [] {
      StepKeepsPartition(h, ops[0]);
      ReplayKeepsPartition(After(h, ops[0]), ops[1..]);
    }
  }

  // ---- what is accepted, and what comes out -----------------------------------------------------------

  // The contents pushed before the box was closed, in order.
  function PushedOpen(ops: seq<Op>): seq<nat>
    decreases |ops|
  {
    if ops == [] || ops[0].DoClose? then []
    else (if ops[0].DoPush? then [ops[0].content] else []) + PushedOpen(ops[1..])
  }

  lemma {:induction false} ClosedStaysClosed(h: History, ops: seq<Op>)
    requires h.box.closed
    ensures Replay(h, ops).box.closed && Replay(h, ops).accepted == h.accepted
    decreases |ops|
  {
    if ops != [] { ClosedStaysClosed(After(h, ops[0]), ops[1..]); }
  }

  lemma {:induction false} DropOldestAccepts(h: History, op: Op)
    requires h.box.policy == DropOldest && !h.box.closed
    ensures var next := After(h, op);
            && next.box.policy == DropOldest && next.box.closed == op.DoClose?
            && next.accepted == h.accepted + (if op.DoPush? then [op.content] else [])
  {
  }

  // DropOldest accepts every push until the box is closed, and none after that.
  lemma {:induction false} DropOldestAcceptsAll(h: History, ops: seq<Op>)
    requires h.box.policy == DropOldest && !h.box.closed
    ensures Replay(h, ops).accepted == h.accepted + PushedOpen(ops)
    decreases |ops|
  {
    if ops != [] {
      DropOldestAccepts(h, ops[0]);
      if ops[0].DoClose? { ClosedStaysClosed(After(h, ops[0]), ops[1..]); }
      else { DropOldestAcceptsAll(After(h, ops[0]), ops[1..]); }
    }
  }

  // In every state a run reaches: a push is refused exactly when the box is closed, or full
  // under ProducerThrottle; and it drops a frame exactly when it is accepted by a full box, the
  // oldest one that waits.  Each refusal is counted under its reason.
  lemma {:induction false} PushDecidedIff(capacity: nat, policy: Policy, ops: seq<Op>, content: nat)
    ensures var h := Replay(Start(capacity, policy), ops);
            var h' := After(h, DoPush(content));
            var full := |h.box.queue| == Max(capacity, 1);
            && (h'.accepted == h.accepted <==> h.box.closed || (full && policy == ProducerThrottle))
            && (h'.dropped == h.dropped <==> h'.accepted == h.accepted || !full)
            && (h'.dropped != h.dropped ==> h'.dropped == h.dropped + [h.box.queue[0]])
            && h'.popped == h.popped
            && h'.box.counts.refused == h.box.counts.refused + (if h.box.closed then 1 else 0)
            && h'.box.counts.overflowed
               == h.box.counts.overflowed + (if !h.box.closed && full && policy == ProducerThrottle then 1 else 0)
            && (h'.accepted != h.accepted ==>
                  h'.box.queue != [] && h'.box.queue[|h'.box.queue| - 1] == Entry(|h.accepted| + 1, content))
  {
    NoFrameLost(capacity, policy, ops);
    SameBox(Start(capacity, policy), ops);
  }

  lemma {:induction false} SameBox(h: History, ops: seq<Op>)
    ensures Replay(h, ops).box.capacity == h.box.capacity && Replay(h, ops).box.policy == h.box.policy
    decreases |ops|
  {
    if ops != [] { SameBox(After(h, ops[0]), ops[1..]); }
  }

  function Pops(n: nat): seq<Op> {
    if n == 0 then [] else [DoPop] + Pops(n - 1)
  }

  lemma {:induction false} PopTakesTheFirst(h: History)
    requires h.box.queue != []
    ensures var next := After(h, DoPop);
            && next.popped == h.popped + [h.box.queue[0]] && next.dropped == h.dropped
            && next.box.queue == h.box.queue[1..] && next.box.closed == h.box.closed
  {
  }

  // As many pops as frames wait hand all of them out, oldest first; then the box says that it
  // is empty, or closed.
  lemma {:induction false} PopsDrain(h: History, n: nat)
    requires n == |h.box.queue|
    ensures var end := Replay(h, Pops(n));
            && end.popped == h.popped + h.box.queue && end.dropped == h.dropped && end.box.queue == []
            && PopOutcome(end.box) == if h.box.closed then Closed else Empty
    decreases n
  {
    if n > 0 {
      var next := After(h, DoPop);
      assert Pops(n)[0] == DoPop && Pops(n)[1..] == Pops(n - 1);
      PopTakesTheFirst(h);
      assert [h.box.queue[0]] + h.box.queue[1..] == h.box.queue;
      PopsDrain(next, n - 1);
    }
  }

  // The one dispatch worker releases a frame before it takes the next.
  predicate OneAtATime(b: Box, ops: seq<Op>)
    decreases |ops|
  {
    ops == [] ||
    ((ops[0].DoPop? ==> b.owned == 0)
     && OneAtATime(After(History(b, [], [], []), ops[0]).box, ops[1..]))
  }

  predicate Bounded(b: Box) {
    Valid(b) && b.owned <= 1 && b.maxOwned <= b.capacity + 1
  }

  lemma {:induction false} StepKeepsBound(h: History, op: Op)
    requires Bounded(h.box) && (op.DoPop? ==> h.box.owned == 0)
    ensures Bounded(After(h, op).box) && After(h, op).box.capacity == h.box.capacity
  {
    match op
    case DoPush(content) => PushKeepsValid(h.box, content);
    case DoPop =>
    case DoRelease =>
    case DoClose =>
  }

  // The stated ownership bound: waiting plus dispatcher-owned is at most capacity + 1, now
  // and at every earlier moment.
  lemma {:induction false} OwnershipBound(h: History, ops: seq<Op>)
    requires Bounded(h.box) && OneAtATime(h.box, ops)
    ensures var b := Replay(h, ops).box;
            |b.queue| + b.owned <= b.capacity + 1 && b.maxOwned <= b.capacity + 1 && b.capacity == h.box.capacity
    decreases |ops|
  {
    if ops != [] {
      StepKeepsBound(h, ops[0]);
      assert After(h, ops[0]).box == After(History(h.box, [], [], []), ops[0]).box;
      OwnershipBound(After(h, ops[0]), ops[1..]);
    }
  }

  // ---- the queue itself ------------------------------------------------------------------------------

  class FrameMailbox {
    const capacity: nat
    const policy: Policy
    var queue: seq<Entry>
    var nextFrameId: nat
    var closed: bool
    var dispatcherOwned: nat
    var counts: Counts
    var maxWaiting: nat
    var maxOwned: nat

    function Now(): Box
      reads this
    {
      Box(capacity, policy, queue, nextFrameId, closed, dispatcherOwned, counts, maxWaiting, maxOwned)
    }

    constructor (capacity: nat, policy: Policy)
      ensures Now() == Fresh(capacity, policy) && Valid(Now())
    {
      this.capacity := if capacity == 0 then 1 else capacity;
      this.policy := policy;
      queue, nextFrameId, closed, dispatcherOwned := [], 1, false, 0;
      counts := Counts(0, 0, 0, 0, 0);
      maxWaiting, maxOwned := 0, 0;
    }

    method UpdateOwned()
      modifies this`maxWaiting, this`maxOwned
      ensures Now() == Observed(old(Now()))
    {
      maxWaiting := Max(maxWaiting, |queue|);
      maxOwned := Max(maxOwned, |queue| + dispatcherOwned);
    }

    // The replacement is stored before the oldest entry is released.
    method Push(content: nat) returns (result: PushResult)
      requires Valid(Now())
      modifies this
      ensures result == PushOutcome(old(Now()))
      ensures Now() == AfterPush(old(Now()), content) && Valid(Now())
    {
      PushKeepsValid(Now(), content);
      if closed {
        counts := counts.(refused := counts.refused + 1);
        return RejectedClosed;
      }
      var dropOldest := |queue| >= capacity;
      if dropOldest && policy == ProducerThrottle {
        counts := counts.(overflowed := counts.overflowed + 1);
        UpdateOwned();
        return RejectedOverflow;
      }
      result := Stored;
      queue := queue + [Entry(nextFrameId, content)];
      nextFrameId := nextFrameId + 1;
      if dropOldest {
        queue := queue[1..];
        counts := counts.(dropped := counts.dropped + 1);
        result := StoredAfterDroppingOldest;
      }
      counts := counts.(stored := counts.stored + 1);
      UpdateOwned();
    }

    method TryPop() returns (result: PopResult)
      requires Valid(Now())
      modifies this
      ensures result == PopOutcome(old(Now()))
      ensures Now() == AfterPop(old(Now())) && Valid(Now())
    {
      if queue == [] {
        return if closed then Closed else Empty;
      }
      result := Popped(queue[0]);
      queue := queue[1..];
      dispatcherOwned := dispatcherOwned + 1;
      counts := counts.(popped := counts.popped + 1);
      UpdateOwned();
    }

    method ReleaseDispatcherOwnership()
      requires Valid(Now())
      modifies this
      ensures Now() == AfterRelease(old(Now())) && Valid(Now())
    {
      if dispatcherOwned > 0 {
        dispatcherOwned := dispatcherOwned - 1;
      }
      UpdateOwned();
    }

    method Close()
      requires Valid(Now())
      modifies this
      ensures Now() == AfterClose(old(Now())) && Valid(Now())
    {
      closed := true;
      UpdateOwned();
    }
  }
}
