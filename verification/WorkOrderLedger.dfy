// The crash-safe ledger of work orders (tools/local-owner/worker.py).
module WorkOrderLedger {
  // The model covers process, poll_locked, ledger_read and ledger_write.  Every file, network
  // and execution step may succeed, raise, or be the point where the worker dies; a raised
  // exception ends the poll and the next poll reads the ledger again from disk.

  datatype Order = Order(id: nat, sha: nat, task: nat)

  // What a finished order reports: its state and the order it belongs to.
  datatype Verdict = Blocked | Failed | Succeeded(evidence: nat)

  datatype Envelope = Envelope(id: nat, sha: nat, task: nat, verdict: Verdict)

  datatype Entry =
    | Received(sha: nat, task: nat)
    | Started(sha: nat, task: nat)
    | FinishedUnreported(result: Envelope)
    | Recorded(result: Envelope)

  type Ledger = map<nat, Entry>

  // How a step ended for the caller.
  datatype Exit = Fine | Raised | Crashed

  // What the outside world saw, and what the checks of the release ref returned.
  datatype Event =
    | HeadSeen(id: nat, sha: nat)
    | HeadUnclear(id: nat)
    | Executed(id: nat, sha: nat, outcome: Verdict)
    | Acknowledged(id: nat)
    | Announced(id: nat)
    | Reported(envelope: Envelope)

  function Executions(trace: seq<Event>, id: nat): nat {
    if trace == [] then 0
    else Executions(trace[..|trace| - 1], id) + (if trace[|trace| - 1].Executed? && trace[|trace| - 1].id == id then 1 else 0)
  }

  function Rank(e: Entry): nat {
    match e
    case Received(_, _) => 1
    case Started(_, _) => 2
    case FinishedUnreported(_) => 3
    case Recorded(_) => 4
  }

  predicate Claims(e: Entry) {
    (e.Recorded? || e.FinishedUnreported?) && e.result.verdict != Blocked
  }

  // Every execution comes directly after a check that saw the commit of the order.
  ghost predicate Guarded(trace: seq<Event>) {
    forall k :: 0 <= k < |trace| && trace[k].Executed? ==> k > 0 && trace[k - 1] == HeadSeen(trace[k].id, trace[k].sha)
  }

  // The order ran, with this outcome, between two checks that saw its commit.
  ghost predicate Proven(trace: seq<Event>, id: nat, sha: nat, outcome: Verdict) {
    exists k :: 0 < k < |trace| - 1 && trace[k] == Executed(id, sha, outcome)
                && trace[k - 1] == HeadSeen(id, sha) && trace[k + 1] == HeadSeen(id, sha)
  }

  // What a ledger on disk says about the past.
  ghost predicate Consistent(disk: Ledger, trace: seq<Event>) {
    && (forall id :: Executions(trace, id) <= 1)
    && (forall id :: Executions(trace, id) > 0 ==> id in disk && Rank(disk[id]) >= 2)
    && (forall id :: id in disk && disk[id].Recorded? ==> Reported(disk[id].result) in trace)
    && (forall id :: id in disk && (disk[id].Recorded? || disk[id].FinishedUnreported?) ==> disk[id].result.id == id)
    && Guarded(trace)
    // An outcome is only ever claimed for something that ran on the commit of the order.
    && (forall id :: id in disk && Claims(disk[id]) ==>
          Executions(trace, id) == 1 && Proven(trace, id, disk[id].result.sha, disk[id].result.verdict))
  }

  // The same, taken as a whole by the proofs of the methods.
  ghost predicate Faithful(disk: Ledger, trace: seq<Event>) {
    forall d, t :: d == disk && t == trace ==> Consistent(d, t)
  }

  // Entries only move forward, and none disappears.
  ghost predicate Forward(before: Ledger, after: Ledger) {
    forall id :: id in before ==> id in after && Rank(before[id]) <= Rank(after[id])
  }

  // Orders that were STARTED when a poll began are left alone: not executed, not rewritten.
  ghost predicate StartedUntouched(before: Ledger, after: Ledger, was: seq<Event>, is_: seq<Event>) {
    forall id :: id in before && before[id].Started? ==>
      id in after && after[id] == before[id] && Executions(is_, id) == Executions(was, id)
  }

  // No order is STARTED now that was not before.
  ghost predicate StartedBefore(before: Ledger, after: Ledger) {
    forall id :: id in after && after[id].Started? ==> id in before && before[id].Started?
  }

  lemma {:induction false} ProvenStays(trace: seq<Event>, e: Event, id: nat, sha: nat, outcome: Verdict)
    requires Proven(trace, id, sha, outcome)
    ensures Proven(trace + [e], id, sha, outcome)
  {
    var k :| 0 < k < |trace| - 1 && trace[k] == Executed(id, sha, outcome)
             && trace[k - 1] == HeadSeen(id, sha) && trace[k + 1] == HeadSeen(id, sha);
    assert (trace + [e])[k] == trace[k] && (trace + [e])[k - 1] == trace[k - 1] && (trace + [e])[k + 1] == trace[k + 1];
  }

  // An event that is no unguarded execution leaves the older claims true.
  lemma {:induction false} EventKeepsProofs(disk: Ledger, trace: seq<Event>, e: Event)
    requires Consistent(disk, trace)
    requires e.Executed? ==> trace != [] && trace[|trace| - 1] == HeadSeen(e.id, e.sha)
    ensures Guarded(trace + [e])
    ensures forall id :: id in disk && Claims(disk[id]) ==>
              Proven(trace + [e], id, disk[id].result.sha, disk[id].result.verdict)
  {
    forall id | id in disk && Claims(disk[id])
      ensures Proven(trace + [e], id, disk[id].result.sha, disk[id].result.verdict)
    {
      ProvenStays(trace, e, id, disk[id].result.sha, disk[id].result.verdict);
    }
  }

  lemma {:induction false} QuietEvent(disk: Ledger, trace: seq<Event>, e: Event)
    requires Faithful(disk, trace) && !e.Executed?
    ensures Faithful(disk, trace + [e]) && forall id :: Executions(trace + [e], id) == Executions(trace, id)
  {
    assert Consistent(disk, trace);
    EventKeepsProofs(disk, trace, e);
    forall id
      ensures Executions(trace + [e], id) == Executions(trace, id)
    {
      assert (trace + [e])[..|trace|] == trace;
    }
  }

  // The one execution of an order that is durably STARTED.
  lemma {:induction false} ExecutedOnce(disk: Ledger, trace: seq<Event>, id: nat, sha: nat, outcome: Verdict)
    requires Faithful(disk, trace) && id in disk && disk[id].Started? && Executions(trace, id) == 0
    requires trace != [] && trace[|trace| - 1] == HeadSeen(id, sha)
    ensures var e := Executed(id, sha, outcome);
            && Faithful(disk, trace + [e]) && Executions(trace + [e], id) == 1
            && forall i :: i != id ==> Executions(trace + [e], i) == Executions(trace, i)
  {
    var e := Executed(id, sha, outcome);
    assert Consistent(disk, trace);
    EventKeepsProofs(disk, trace, e);
    forall i
      ensures Executions(trace + [e], i) == Executions(trace, i) + (if i == id then 1 else 0)
    {
      assert (trace + [e])[..|trace|] == trace;
    }
  }

  // An entry before STARTED was never executed.
  lemma {:induction false} NeverRan(disk: Ledger, trace: seq<Event>, id: nat)
    requires Faithful(disk, trace) && (id in disk ==> disk[id].Received?)
    ensures Executions(trace, id) == 0
  {
    assert Consistent(disk, trace);
  }

  // What may be written over an entry that is missing, RECEIVED or STARTED.
  lemma {:induction false} WrittenIsFaithful(disk: Ledger, trace: seq<Event>, id: nat, e: Entry)
    requires Faithful(disk, trace) && (id in disk ==> disk[id].Received? || disk[id].Started?)
    requires e.Received? ==> Executions(trace, id) == 0
    requires e.FinishedUnreported? ==> e.result.id == id
    requires Claims(e) ==> Executions(trace, id) == 1 && Proven(trace, id, e.result.sha, e.result.verdict)
    requires !e.Recorded?
    ensures Faithful(disk[id := e], trace)
  {
    assert Consistent(disk, trace);
  }

  // A finished entry that was reported may be recorded.
  lemma {:induction false} RecordedIsFaithful(disk: Ledger, trace: seq<Event>, id: nat)
    requires Faithful(disk, trace) && id in disk && disk[id].FinishedUnreported? && Reported(disk[id].result) in trace
    ensures Faithful(disk[id := Recorded(disk[id].result)], trace)
  {
    assert Consistent(disk, trace);
  }

  // A reported and recorded entry is what it says.
  lemma {:induction false} RecordedWasReported(disk: Ledger, trace: seq<Event>, id: nat)
    requires Faithful(disk, trace) && id in disk && disk[id].Recorded?
    ensures Reported(disk[id].result) in trace
  {
    assert Consistent(disk, trace);
  }

  lemma {:induction false} NothingHappened()
    ensures Faithful(map[], [])
  {
  }

  // ---- one order of one poll ---------------------------------------------------------------------------

  function EnvelopeOf(order: Order, verdict: Verdict): Envelope {
    Envelope(order.id, order.sha, order.task, verdict)
  }

  // The check saw the commit of the order.
  function Seen(order: Order): Event {
    HeadSeen(order.id, order.sha)
  }

  predicate IsCheck(e: Event, order: Order) {
    (e.HeadSeen? || e.HeadUnclear?) && e.id == order.id
  }

  // The execution of a STARTED order: a check, the operation if the check allows it, and another
  // check.  The verdict is the outcome if both checks saw the commit, and BLOCKED otherwise.
  ghost predicate RanAs(news: seq<Event>, order: Order, inner: Event, last: Event, outcome: Verdict, verdict: Verdict) {
    && IsCheck(inner, order) && IsCheck(last, order)
    && news == [inner] + (if inner == Seen(order) then [Executed(order.id, order.sha, outcome)] else []) + [last]
    && verdict == (if inner == Seen(order) && last == Seen(order) then outcome else Blocked)
  }

  ghost predicate Ran(news: seq<Event>, order: Order, verdict: Verdict) {
    exists inner, last, outcome :: RanAs(news, order, inner, last, outcome, verdict)
  }

  // An order that may be executed is decided by its first check: with another commit it is
  // BLOCKED unexecuted, otherwise it is acknowledged, announced and run; then it is reported.
  ghost predicate Decided(news: seq<Event>, order: Order, verdict: Verdict) {
    && |news| >= 2 && news[0].HeadSeen? && news[0].id == order.id
    && news[|news| - 1] == Reported(EnvelopeOf(order, verdict))
    && if news[0] != Seen(order) then verdict == Blocked && |news| == 2
       else |news| >= 4 && news[1] == Acknowledged(order.id) && news[2] == Announced(order.id)
            && Ran(news[3..|news| - 1], order, verdict)
  }

  // Two checks that saw the commit prove what ran between them.
  lemma {:induction false} RunIsProven(was: seq<Event>, trace: seq<Event>, order: Order, inner: Event, last: Event,
                                       outcome: Verdict, verdict: Verdict, run: seq<Event>)
    requires RanAs(run, order, inner, last, outcome, verdict) && trace == was + run
    ensures Ran(run, order, verdict)
    ensures verdict != Blocked ==> inner == Seen(order) && Proven(trace, order.id, order.sha, verdict)
  {
    if verdict != Blocked {
      var k := |was| + 1;
      assert run == [Seen(order), Executed(order.id, order.sha, outcome), Seen(order)];
      assert trace[k - 1] == run[0] && trace[k] == run[1] && trace[k + 1] == run[2];
    }
  }

  lemma {:induction false} AcceptedIsDecided(news: seq<Event>, order: Order, verdict: Verdict, run: seq<Event>)
    requires Ran(run, order, verdict)
    requires news == [Seen(order), Acknowledged(order.id), Announced(order.id)] + run + [Reported(EnvelopeOf(order, verdict))]
    ensures Decided(news, order, verdict)
  {
    assert news[3..|news| - 1] == run;
  }

  // What one order of one poll does to the ledger and the world when nothing fails.
  ghost predicate Processed(before: Ledger, after: Ledger, news: seq<Event>, order: Order, executes: bool) {
    if order.id in before && before[order.id].FinishedUnreported? then
      after == before[order.id := Recorded(before[order.id].result)] && news == [Reported(before[order.id].result)]
    else if (order.id in before && !before[order.id].Received?) || !executes then
      after == before && news == []
    else
      exists verdict :: after == before[order.id := Recorded(EnvelopeOf(order, verdict))] && Decided(news, order, verdict)
  }

  class Worker {
    var disk: Ledger
    ghost var trace: seq<Event>

    constructor ()
      ensures disk == map[] && trace == [] && Faithful(disk, trace)
    {
      disk, trace := map[], [];
      NothingHappened();
    }

    // Writes a copy and renames it: the file holds the old or the new ledger, never a part.
    method LedgerWrite(ledger: Ledger) returns (exit: Exit)
      requires Faithful(disk, trace) && Faithful(ledger, trace)
      modifies this`disk
      ensures Faithful(disk, trace)
      ensures disk == ledger || (disk == old(disk) && exit != Fine)
    {
      var replaced: bool := *;
      exit := *;
      if exit == Fine || (exit == Crashed && replaced) { disk := ledger; }
    }

    // An unreadable ledger raises; a missing one is empty.
    method LedgerRead() returns (exit: Exit, ledger: Ledger)
      ensures exit == Fine ==> ledger == disk
    {
      exit := *;
      ledger := disk;
    }

    // A comment may have been posted although the call raises or the worker dies.
    method Comment(e: Event) returns (exit: Exit)
      requires Faithful(disk, trace) && !e.Executed?
      modifies this`trace
      ensures Faithful(disk, trace) && forall id :: Executions(trace, id) == Executions(old(trace), id)
      ensures trace == old(trace) + [e] || (trace == old(trace) && exit != Fine)
    {
      ghost var posted: bool := *;
      exit := *;
      QuietEvent(disk, trace, e);
      if exit == Fine || posted { trace := trace + [e]; }
    }

    // blocked: the kind of exception that is caught around the last check.
    method BranchHead(order: Order) returns (exit: Exit, sha: nat, blocked: bool)
      requires Faithful(disk, trace)
      modifies this`trace
      ensures Faithful(disk, trace) && forall id :: Executions(trace, id) == Executions(old(trace), id)
      ensures trace == old(trace) + [if exit == Fine then HeadSeen(order.id, sha) else HeadUnclear(order.id)]
    {
      exit, sha, blocked := *, *, *;
      ghost var e := if exit == Fine then HeadSeen(order.id, sha) else HeadUnclear(order.id);
      QuietEvent(disk, trace, e);
      trace := trace + [e];
    }

    // execute: the operation runs only on the commit of the order.  A test failure or a block it
    // raises, and a check that fails, become its verdict; any other exception ends the worker.
    method Execute(order: Order) returns (exit: Exit, verdict: Verdict, ghost inner: Event)
      requires Faithful(disk, trace) && order.id in disk && disk[order.id].Started? && Executions(trace, order.id) == 0
      modifies this`trace
      ensures Faithful(disk, trace) && exit != Raised && IsCheck(inner, order)
      ensures forall id :: id != order.id ==> Executions(trace, id) == Executions(old(trace), id)
      ensures trace == old(trace) + [inner]
                       + (if inner == Seen(order) then [Executed(order.id, order.sha, verdict)] else [])
      ensures inner != Seen(order) ==> verdict == Blocked
      ensures inner == Seen(order) ==> Executions(trace, order.id) == 1
    {
      var checked, head, _ := BranchHead(order);
      inner := trace[|trace| - 1];
      verdict := Blocked;
      exit := if checked == Crashed then Crashed else Fine;
      if checked == Fine && head == order.sha {
        verdict := *;
        ExecutedOnce(disk, trace, order.id, order.sha, verdict);
        trace := trace + [Executed(order.id, order.sha, verdict)];
        var survives: bool := *;
        exit := if survives then Fine else Crashed;
      }
    }

    // What process and the outbox loop leave behind, however they end.
    twostate predicate Kept(only: nat)
      reads this
    {
      && Faithful(disk, trace) && Forward(old(disk), disk)
      && StartedUntouched(old(disk), disk, old(trace), trace)
      && (forall id :: id != only ==>
            (id in disk <==> id in old(disk)) && (id in disk ==> disk[id] == old(disk[id]))
            && Executions(trace, id) == Executions(old(trace), id))
    }

    // Reports a finished order: comment first, then the durable RECORDED.
    method Report(id: nat, ledger: Ledger) returns (exit: Exit, after: Ledger)
      requires ledger == disk && Faithful(disk, trace) && id in ledger && ledger[id].FinishedUnreported?
      modifies this
      ensures Kept(id) && (exit == Fine ==> after == disk && disk == old(disk)[id := Recorded(old(disk)[id].result)])
      ensures exit == Fine ==> trace == old(trace) + [Reported(old(disk)[id].result)]
      ensures forall i :: Executions(trace, i) == Executions(old(trace), i)
    {
      after := ledger;
      var e := Reported(ledger[id].result);
      exit := Comment(e);
      if exit != Fine { return; }
      after := ledger[id := Recorded(ledger[id].result)];
      RecordedIsFaithful(disk, trace, id);
      exit := LedgerWrite(after);
    }

    method Finish(order: Order, verdict: Verdict, ledger: Ledger) returns (exit: Exit, after: Ledger)
      requires ledger == disk && Faithful(disk, trace)
      requires order.id in ledger ==> ledger[order.id].Received? || ledger[order.id].Started?
      requires verdict != Blocked ==>
                 Executions(trace, order.id) == 1 && Proven(trace, order.id, order.sha, verdict)
      modifies this
      ensures Faithful(disk, trace) && Forward(old(disk), disk)
      ensures forall id :: Executions(trace, id) == Executions(old(trace), id)
      ensures forall id :: id != order.id ==> (id in disk <==> id in old(disk)) && (id in disk ==> disk[id] == old(disk)[id])
      ensures exit == Fine ==> after == disk && disk == old(disk)[order.id := Recorded(EnvelopeOf(order, verdict))]
      ensures exit == Fine ==> trace == old(trace) + [Reported(EnvelopeOf(order, verdict))]
    {
      after := ledger[order.id := FinishedUnreported(EnvelopeOf(order, verdict))];
      WrittenIsFaithful(disk, trace, order.id, FinishedUnreported(EnvelopeOf(order, verdict)));
      exit := LedgerWrite(after);
      if exit != Fine { return; }
      exit, after := Report(order.id, after);
    }

    // From a durable RECEIVED to a durable, announced STARTED.
    method MarkStarted(order: Order, ledger: Ledger) returns (exit: Exit, after: Ledger)
      requires ledger == disk && Faithful(disk, trace) && order.id in ledger && ledger[order.id].Received?
      modifies this
      ensures Faithful(disk, trace) && (forall id :: Executions(trace, id) == Executions(old(trace), id))
      ensures disk == old(disk)
              || disk == old(disk)[order.id := Started(old(disk)[order.id].sha, old(disk)[order.id].task)]
      ensures exit == Fine ==> after == disk && disk[order.id].Started?
      ensures exit == Fine ==> trace == old(trace) + [Acknowledged(order.id), Announced(order.id)]
    {
      after := ledger;
      exit := Comment(Acknowledged(order.id));
      if exit != Fine { return; }
      after := ledger[order.id := Started(ledger[order.id].sha, ledger[order.id].task)];
      WrittenIsFaithful(disk, trace, order.id, Started(ledger[order.id].sha, ledger[order.id].task));
      exit := LedgerWrite(after);
      if exit != Fine { return; }
      exit := Comment(Announced(order.id));
    }

    // Runs a STARTED order and checks again: nobody may have moved the ref meanwhile.
    method RunStarted(order: Order) returns (exit: Exit, verdict: Verdict, ghost run: seq<Event>)
      requires Faithful(disk, trace) && order.id in disk && disk[order.id].Started? && Executions(trace, order.id) == 0
      modifies this`trace
      ensures Faithful(disk, trace)
      ensures forall id :: id != order.id ==> Executions(trace, id) == Executions(old(trace), id)
      ensures exit == Fine ==> trace == old(trace) + run && Ran(run, order, verdict)
      ensures exit == Fine && verdict != Blocked ==>
                Executions(trace, order.id) == 1 && Proven(trace, order.id, order.sha, verdict)
    {
      ghost var inner;
      exit, verdict, inner := Execute(order);
      run := [];
      if exit != Fine { return; }
      ghost var outcome := verdict;
      var checked, head, blocked := BranchHead(order);
      ghost var last := trace[|trace| - 1];
      if (checked == Fine && head != order.sha) || (checked == Raised && blocked) {
        verdict := Blocked;
      } else if checked != Fine {
        exit := checked;
        return;
      }
      run := [inner] + (if inner == Seen(order) then [Executed(order.id, order.sha, outcome)] else []) + [last];
      RunIsProven(old(trace), trace, order, inner, last, outcome, verdict, run);
    }

    method ExecuteStarted(order: Order, ledger: Ledger) returns (exit: Exit, after: Ledger, ghost verdict: Verdict, ghost run: seq<Event>)
      requires ledger == disk && Faithful(disk, trace) && order.id in ledger && ledger[order.id].Started?
      requires Executions(trace, order.id) == 0
      modifies this
      ensures Faithful(disk, trace) && Forward(old(disk), disk)
      ensures forall id :: id != order.id ==>
                (id in disk <==> id in old(disk)) && (id in disk ==> disk[id] == old(disk)[id])
                && Executions(trace, id) == Executions(old(trace), id)
      ensures exit == Fine ==> after == disk && disk == old(disk)[order.id := Recorded(EnvelopeOf(order, verdict))]
      ensures exit == Fine ==> trace == old(trace) + run + [Reported(EnvelopeOf(order, verdict))] && Ran(run, order, verdict)
    {
      after := ledger;
      var found;
      exit, found, run := RunStarted(order);
      verdict := found;
      if exit != Fine { return; }
      exit, after := Finish(order, found, ledger);
    }

    method RunOrder(order: Order, ledger: Ledger) returns (exit: Exit, after: Ledger, ghost verdict: Verdict, ghost run: seq<Event>)
      requires ledger == disk && Faithful(disk, trace) && order.id in ledger && ledger[order.id].Received?
      modifies this
      ensures Kept(order.id)
      ensures exit == Fine ==> after == disk && disk == old(disk)[order.id := Recorded(EnvelopeOf(order, verdict))]
      ensures exit == Fine ==> Ran(run, order, verdict)
      ensures exit == Fine ==>
                trace == old(trace) + [Acknowledged(order.id), Announced(order.id)] + run + [Reported(EnvelopeOf(order, verdict))]
    {
      verdict, run := Blocked, [];
      NeverRan(disk, trace, order.id);
      exit, after := MarkStarted(order, ledger);
      if exit != Fine { return; }
      exit, after, verdict, run := ExecuteStarted(order, after);
    }

    // An order that is new, or was only received before.
    method Accept(order: Order, ledger: Ledger) returns (exit: Exit, after: Ledger, ghost verdict: Verdict, ghost run: seq<Event>)
      requires ledger == disk && Faithful(disk, trace)
      requires order.id in ledger ==> ledger[order.id].Received?
      modifies this
      ensures Kept(order.id)
      ensures exit == Fine ==> after == disk && disk == old(disk)[order.id := Recorded(EnvelopeOf(order, verdict))]
      ensures exit == Fine ==> Ran(run, order, verdict)
      ensures exit == Fine ==>
                trace == old(trace) + [Acknowledged(order.id), Announced(order.id)] + run + [Reported(EnvelopeOf(order, verdict))]
    {
      after := ledger;
      verdict, run := Blocked, [];
      if order.id !in ledger {
        after := ledger[order.id := Received(order.sha, order.task)];
        NeverRan(disk, trace, order.id);
        WrittenIsFaithful(disk, trace, order.id, Received(order.sha, order.task));
        exit := LedgerWrite(after);
        if exit != Fine { return; }
      }
      exit, after, verdict, run := RunOrder(order, after);
    }

    // One order of one poll.
    method Process(order: Order, executes: bool, ledger: Ledger) returns (exit: Exit, after: Ledger)
      requires ledger == disk && Faithful(disk, trace)
      modifies this
      ensures Kept(order.id)
      ensures exit == Fine ==> after == disk && old(trace) <= trace
                               && Processed(old(disk), disk, trace[|old(trace)|..], order, executes)
    {
      after := ledger;
      if order.id in ledger && ledger[order.id].FinishedUnreported? {
        exit, after := Report(order.id, ledger);
        return;
      }
      if order.id in ledger && !ledger[order.id].Received? { return Fine, after; }
      if !executes { return Fine, after; }
      var checked, head, _ := BranchHead(order);
      if checked != Fine { return checked, after; }
      if head != order.sha {
        exit, after := Finish(order, Blocked, ledger);
        assert exit == Fine ==> Decided(trace[|old(trace)|..], order, Blocked);
        return;
      }
      ghost var verdict, run;
      exit, after, verdict, run := Accept(order, ledger);
      if exit == Fine { AcceptedIsDecided(trace[|old(trace)|..], order, verdict, run); }
    }

    // The outbox: everything finished is reported before new orders are looked at.
    method DeliverOutbox(ledger: Ledger) returns (exit: Exit, after: Ledger)
      requires ledger == disk && Faithful(disk, trace)
      modifies this
      ensures Faithful(disk, trace) && Forward(old(disk), disk)
      ensures forall id :: Executions(trace, id) == Executions(old(trace), id)
      ensures forall id :: id in old(disk) && old(disk)[id].Started? ==> id in disk && disk[id] == old(disk)[id]
      ensures disk.Keys == old(disk).Keys && StartedBefore(old(disk), disk)
      ensures exit == Fine ==> after == disk && forall id :: id in disk ==> !disk[id].FinishedUnreported?
    {
      after := ledger;
      var todo := ledger.Keys;
      while todo != {}
        invariant after == disk && Faithful(disk, trace) && Forward(old(disk), disk) && todo <= disk.Keys
        invariant forall id :: Executions(trace, id) == Executions(old(trace), id)
        invariant forall id :: id in old(disk) && old(disk)[id].Started? ==> id in disk && disk[id] == old(disk)[id]
        invariant disk.Keys == old(disk).Keys && StartedBefore(old(disk), disk)
        invariant forall id :: id in disk && id !in todo ==> !disk[id].FinishedUnreported?
        decreases |todo|
      {
        var id :| id in todo;
        todo := todo - {id};
        if after[id].FinishedUnreported? {
          ghost var before := disk;
          exit, after := Report(id, after);
          if exit != Fine { return; }
        }
      }
      exit := Fine;
    }

    method ProcessAll(orders: seq<Order>, executes: bool, ledger: Ledger) returns (exit: Exit)
      requires ledger == disk && Faithful(disk, trace)
      modifies this
      ensures Faithful(disk, trace) && Forward(old(disk), disk)
      ensures StartedUntouched(old(disk), disk, old(trace), trace)
      ensures exit == Fine && executes ==>
                forall k :: 0 <= k < |orders| ==>
                  var id := orders[k].id;
                  id in disk && (disk[id].Recorded? || (id in old(disk) && old(disk)[id].Started?))
    {
      var i := 0;
      var after := ledger;
      while i < |orders|
        invariant 0 <= i <= |orders| && after == disk && Faithful(disk, trace)
        invariant Forward(old(disk), disk) && StartedBefore(old(disk), disk)
        invariant StartedUntouched(old(disk), disk, old(trace), trace)
        invariant executes ==> forall k :: 0 <= k < i ==>
                    var id := orders[k].id;
                    id in disk && (disk[id].Recorded? || (id in old(disk) && old(disk)[id].Started?))
      {
        exit, after := Process(orders[i], executes, after);
        if exit != Fine { return; }
        i := i + 1;
      }
      exit := Fine;
    }

    // One poll over the orders the server lists.
    method Poll(orders: seq<Order>, executes: bool) returns (exit: Exit)
      requires Faithful(disk, trace)
      modifies this
      ensures Faithful(disk, trace) && Forward(old(disk), disk)
      ensures StartedUntouched(old(disk), disk, old(trace), trace)
      ensures exit == Fine ==> forall id :: id in old(disk) && old(disk)[id].FinishedUnreported? ==>
                                 disk[id].Recorded? && Reported(disk[id].result) in trace
      // An executing poll leaves every order recorded, but for those an earlier poll had STARTED.
      ensures exit == Fine && executes ==>
                forall k :: 0 <= k < |orders| ==>
                  var id := orders[k].id;
                  id in disk && (disk[id].Recorded? || (id in old(disk) && old(disk)[id].Started?))
    {
      var ledger;
      exit, ledger := LedgerRead();
      if exit != Fine { return; }
      exit, ledger := DeliverOutbox(ledger);
      if exit != Fine { return; }
      ghost var reported := disk;
      exit := ProcessAll(orders, executes, ledger);
      if exit != Fine { return; }
      forall id | id in old(disk) && old(disk)[id].FinishedUnreported?
        ensures disk[id].Recorded? && Reported(disk[id].result) in trace
      {
        assert reported[id].Recorded?;
        RecordedWasReported(disk, trace, id);
      }
    }
  }

  // Any number of polls, each over any orders and ending in any way: every order is executed at
  // most once, and only right after a check that saw its commit; a RECORDED order was reported;
  // and an outcome other than BLOCKED stands for an execution between two such checks.
  method Polls(n: nat) returns (w: Worker)
    ensures fresh(w) && Consistent(w.disk, w.trace)
  {
    w := new Worker();
    var i := 0;
    while i < n
      invariant fresh(w) && Faithful(w.disk, w.trace)
    {
      var orders: seq<Order> := *;
      var executes: bool := *;
      var exit := w.Poll(orders, executes);
      i := i + 1;
    }
  }
}
