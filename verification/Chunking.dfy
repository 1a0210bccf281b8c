// Incremental parsing of a byte stream, as both ends do it.
module Chunking {
  // Bytes are appended to a buffer, and complete messages are taken off its front until more
  // input is needed or a message is refused: processClient of
  // src/runtime/src/transport/rfb_transport.cpp and process of
  // tools/hyremote-tool/rfb_client.cpp.

  import opened Wire

  // What the front of the buffer allows: wait, refuse, or take one message.
  datatype Outcome<S> = NeedMore | Refused(state: S) | Message(consumed: nat, state: S)

  datatype Reader<S> = Reader(state: S, buffer: Bytes, failed: bool)

  // A decision once taken does not change when more bytes follow.
  ghost predicate StableAt<S>(step: (S, Bytes) -> Outcome<S>, s: S, buffer: Bytes, more: Bytes) {
    match step(s, buffer)
    case NeedMore => true
    case Refused(_) => step(s, buffer + more) == step(s, buffer)
    case Message(n, _) => 0 < n <= |buffer| && step(s, buffer + more) == step(s, buffer)
  }

  ghost predicate Stable<S(!new)>(step: (S, Bytes) -> Outcome<S>) {
    forall s, buffer, more :: StableAt(step, s, buffer, more)
  }

  function Drain<S>(step: (S, Bytes) -> Outcome<S>, s: S, buffer: Bytes): (r: Reader<S>)
    ensures r.failed ==> r.buffer == []
    decreases |buffer|
  {
    match step(s, buffer)
    case NeedMore => Reader(s, buffer, false)
    case Refused(t) => Reader(t, [], true)
    case Message(n, t) => if 0 < n <= |buffer| then Drain(step, t, buffer[n..]) else Reader(s, buffer, false)
  }

  // The bytes of one read; after a refusal the connection is being closed.
  function Feed<S>(step: (S, Bytes) -> Outcome<S>, r: Reader<S>, chunk: Bytes): Reader<S> {
    if r.failed then r else Drain(step, r.state, r.buffer + chunk)
  }

  function FeedAll<S>(step: (S, Bytes) -> Outcome<S>, r: Reader<S>, chunks: seq<Bytes>): Reader<S>
    decreases |chunks|
  {
    if chunks == [] then r else FeedAll(step, Feed(step, r, chunks[0]), chunks[1..])
  }

  function Concat(chunks: seq<Bytes>): Bytes {
    if chunks == [] then [] else chunks[0] + Concat(chunks[1..])
  }

  lemma {:induction false} DrainThenMore<S(!new)>(step: (S, Bytes) -> Outcome<S>, s: S, buffer: Bytes, more: Bytes)
    requires Stable(step)
    ensures var r := Drain(step, s, buffer);
            Drain(step, s, buffer + more) == if r.failed then r else Drain(step, r.state, r.buffer + more)
    decreases |buffer|
  {
    assert StableAt(step, s, buffer, more);
    match step(s, buffer)
    case NeedMore =>
    case Refused(t) =>
    case Message(n, t) =>
      assert (buffer + more)[n..] == buffer[n..] + more;
      DrainThenMore(step, t, buffer[n..], more);
  }

  // Reading a stream in pieces gives what reading it at once gives.
  lemma {:induction false} FeedAllIsFeed<S(!new)>(step: (S, Bytes) -> Outcome<S>, r: Reader<S>, chunks: seq<Bytes>)
    requires Stable(step) && chunks != []
    ensures FeedAll(step, r, chunks) == Feed(step, r, Concat(chunks))
    decreases |chunks|
  {
    if |chunks| == 1 {
      assert Concat(chunks) == chunks[0] + [] == chunks[0];
    } else if !r.failed {
      var first := Feed(step, r, chunks[0]);
      FeedAllIsFeed(step, first, chunks[1..]);
      DrainThenMore(step, r.state, r.buffer + chunks[0], Concat(chunks[1..]));
      assert r.buffer + chunks[0] + Concat(chunks[1..]) == r.buffer + Concat(chunks);
    } else {
      FeedAllIsFeed(step, r, chunks[1..]);
    }
  }

  lemma {:induction false} SameStreamSameResult<S(!new)>(step: (S, Bytes) -> Outcome<S>, r: Reader<S>, a: seq<Bytes>, b: seq<Bytes>)
    requires Stable(step) && a != [] && b != [] && Concat(a) == Concat(b)
    ensures FeedAll(step, r, a) == FeedAll(step, r, b)
  {
    FeedAllIsFeed(step, r, a);
    FeedAllIsFeed(step, r, b);
  }

  // What is left in the buffer does not hold a whole message.
  lemma {:induction false} LeftoverWaits<S(!new)>(step: (S, Bytes) -> Outcome<S>, s: S, buffer: Bytes)
    requires Stable(step)
    ensures var r := Drain(step, s, buffer);
            !r.failed ==> step(r.state, r.buffer) == NeedMore && |r.buffer| <= |buffer|
    decreases |buffer|
  {
    assert StableAt(step, s, buffer, []);
    match step(s, buffer)
    case NeedMore =>
    case Refused(t) =>
    case Message(n, t) => LeftoverWaits(step, t, buffer[n..]);
  }

  // The loop of both ends.
  method ProcessBuffer<S>(step: (S, Bytes) -> Outcome<S>, s: S, buffer: Bytes) returns (r: Reader<S>)
    ensures r == Drain(step, s, buffer)
  {
    r := Reader(s, buffer, false);
    while true
      invariant !r.failed && Drain(step, r.state, r.buffer) == Drain(step, s, buffer)
      decreases |r.buffer|
    {
      match step(r.state, r.buffer) {
        case NeedMore => return;
        case Refused(t) => return Reader(t, [], true);
        case Message(n, t) =>
          if n == 0 || n > |r.buffer| { return; }
          r := Reader(t, r.buffer[n..], false);
      }
    }
  }
}
