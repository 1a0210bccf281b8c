// What the server reads from a viewer in its Normal phase (processClient of
// src/runtime/src/transport/rfb_transport.cpp; section 7.5 of RFC 6143).
module ServerMessages {
  import opened Option
  import opened Frames
  import opened Wire
  import opened Chunking
  import HeldInput

  const MAX_ENCODINGS: nat := 1024
  const MAX_CUT_TEXT: nat := 64 * 1024
  const MAX_FENCE_PAYLOAD: nat := 64
  const MAX_INPUT: nat := 256 * 1024
  const FENCE: int := -312
  const CONTINUOUS_UPDATES: int := -313

  datatype ClientMessage =
    | SetPixelFormat(spec: PixelSpec)
    | SetEncodings(encodings: seq<int>)
    | EnableContinuous(enable: bool, x: nat, y: nat, width: nat, height: nat)
    | Fence(flags: nat, payload: Bytes)
    | UpdateRequest(incremental: bool, x: nat, y: nat, width: nat, height: nat)
    | KeyEvent(pressed: bool, keysym: nat)
    | PointerEvent(mask: Byte, x: nat, y: nat)
    | CutText(length: nat)

  // What decoding depends on, and the messages decoded so far.
  datatype Viewer = Viewer(fence: bool, continuous: bool, held: seq<nat>, log: seq<ClientMessage>)

  // How long the message at the front of the buffer is, if that can be told and is allowed.
  datatype Extent = Unknown | Unacceptable | Known(total: nat)

  function ExtentOf(v: Viewer, b: Bytes): (e: Extent)
    ensures e.Known? ==> e.total >= 4
  {
    if b == [] then Unknown
    else if b[0] == 0 then Known(20)
    else if b[0] == 2 then
      if |b| < 4 then Unknown
      else if ReadU16(b, 2) > MAX_ENCODINGS then Unacceptable
      else Known(4 + ReadU16(b, 2) * 4)
    else if b[0] == 150 then
      if |b| < 10 then Unknown else if !v.continuous then Unacceptable else Known(10)
    else if b[0] == 248 then
      if |b| < 9 then Unknown
      else if !v.fence || b[8] > MAX_FENCE_PAYLOAD then Unacceptable
      else Known(9 + b[8] as int)
    else if b[0] == 3 then Known(10)
    else if b[0] == 4 then Known(8)
    else if b[0] == 5 then Known(6)
    else if b[0] == 6 then
      if |b| < 8 then Unknown
      else if ReadU32(b, 4) > MAX_CUT_TEXT then Unacceptable
      else Known(8 + ReadU32(b, 4))
    else Unacceptable
  }

  function ReadEncodings(b: Bytes, at: nat, count: nat): seq<int>
    requires at + count * 4 <= |b|
    decreases count
  {
    if count == 0 then [] else [ReadS32(b, at)] + ReadEncodings(b, at + 4, count - 1)
  }

  function ReadSpec(b: Bytes): PixelSpec
    requires |b| >= 20
  {
    PixelSpec(b[4], b[5], b[6] != 0, b[7] != 0, ReadU16(b, 8), ReadU16(b, 10), ReadU16(b, 12), b[14], b[15], b[16])
  }

  function Logged(v: Viewer, m: ClientMessage): Viewer {
    v.(log := v.log + [m])
  }

  // deliverKey, as far as it decides whether the viewer may go on.
  function AfterKey(t: HeldInput.Table, v: Viewer, keysym: nat, pressed: bool): Option<Viewer> {
    var known := HeldInput.Code(t, keysym) != 0;
    var m := KeyEvent(pressed, keysym);
    if !known then Some(Logged(v, m))
    else if !pressed then Some(Logged(v.(held := HeldInput.Without(v.held, keysym)), m))
    else if keysym in v.held then Some(Logged(v, m))
    else if |v.held| >= HeldInput.MAX_HELD_KEYS then None
    else Some(Logged(v.(held := v.held + [keysym]), m))
  }

  // A whole message; None: the viewer is refused.
  function Handle(t: HeldInput.Table, v: Viewer, m: Bytes): Option<Viewer>
    requires ExtentOf(v, m) == Known(|m|)
  {
    if m[0] == 0 then
      if Supported(ReadSpec(m)) then Some(Logged(v, SetPixelFormat(ReadSpec(m)))) else None
    else if m[0] == 2 then
      var encodings := ReadEncodings(m, 4, ReadU16(m, 2));
      Some(Logged(v.(fence := FENCE in encodings, continuous := CONTINUOUS_UPDATES in encodings), SetEncodings(encodings)))
    else if m[0] == 150 then
      var enable := m[1] != 0;
      var width, height := ReadU16(m, 6), ReadU16(m, 8);
      if enable && (width == 0 || height == 0) then None
      else Some(Logged(v, EnableContinuous(enable, ReadU16(m, 2), ReadU16(m, 4), width, height)))
    else if m[0] == 248 then Some(Logged(v, Fence(ReadU32(m, 4), m[9..])))
    else if m[0] == 3 then
      Some(Logged(v, UpdateRequest(m[1] != 0, ReadU16(m, 2), ReadU16(m, 4), ReadU16(m, 6), ReadU16(m, 8))))
    else if m[0] == 4 then AfterKey(t, v, ReadU32(m, 4), m[1] != 0)
    else if m[0] == 5 then Some(Logged(v, PointerEvent(m[1], ReadU16(m, 2), ReadU16(m, 4))))
    else Some(Logged(v, CutText(ReadU32(m, 4))))
  }

  // One turn of processClient's loop in the Normal phase.
  function StepOf(t: HeldInput.Table, v: Viewer, b: Bytes): Outcome<Viewer> {
    match ExtentOf(v, b)
    case Unknown => NeedMore
    case Unacceptable => Refused(v)
    case Known(n) =>
      if |b| < n then NeedMore
      else
        match Handle(t, v, b[..n])
        case None => Refused(v)
        case Some(next) => Message(n, next)
  }

  function ServerStep(t: HeldInput.Table): (Viewer, Bytes) -> Outcome<Viewer> {
    (v: Viewer, b: Bytes) => StepOf(t, v, b)
  }

  lemma {:induction false} StepIsStable(t: HeldInput.Table, v: Viewer, b: Bytes, more: Bytes)
    ensures StableAt(ServerStep(t), v, b, more)
  {
    if !ExtentOf(v, b).Unknown? {
      if ExtentOf(v, b).Known? && ExtentOf(v, b).total <= |b| {
        var n := ExtentOf(v, b).total;
        assert (b + more)[..n] == b[..n];
      }
    }
  }

  lemma {:induction false} ServerIsStable(t: HeldInput.Table)
    ensures Stable(ServerStep(t))
  {
    forall v, b, more
      ensures StableAt(ServerStep(t), v, b, more)
    {
      StepIsStable(t, v, b, more);
    }
  }

  // However a stream is split into reads, the same messages are decoded, up to and including
  // the decision to refuse the viewer.
  lemma {:induction false} ServerChunkingDoesNotMatter(t: HeldInput.Table, v: Viewer, a: seq<Bytes>, b: seq<Bytes>)
    requires a != [] && b != [] && Concat(a) == Concat(b)
    ensures FeedAll(ServerStep(t), Reader(v, [], false), a) == FeedAll(ServerStep(t), Reader(v, [], false), b)
  {
    ServerIsStable(t);
    SameStreamSameResult(ServerStep(t), Reader(v, [], false), a, b);
  }

  function Zeros(n: nat): (z: Bytes)
    ensures |z| == n && forall i :: 0 <= i < n ==> z[i] == 0
  {
    if n == 0 then [] else [0] + Zeros(n - 1)
  }

  // The buffer holds the beginning of one message and not its end.
  ghost predicate StrictPrefixOfMessage(t: HeldInput.Table, v: Viewer, b: Bytes) {
    exists rest: Bytes :: rest != [] && Completes(t, v, b, rest)
  }

  predicate Completes(t: HeldInput.Table, v: Viewer, b: Bytes, rest: Bytes) {
    match StepOf(t, v, b + rest)
    case NeedMore => false
    case Refused(_) => true
    case Message(n, _) => n == |b + rest|
  }

  // A whole message tells the length that enough bytes of its beginning tell.
  lemma {:induction false} SameExtent(v: Viewer, padded: Bytes, whole: Bytes)
    requires ExtentOf(v, padded) == Known(|whole|) && padded != []
    requires forall i :: 0 <= i < |whole| && i < |padded| ==> whole[i] == padded[i]
    ensures ExtentOf(v, whole) == Known(|whole|)
  {
    assert whole[0] == padded[0];
  }

  // The length of a message that is not whole.
  lemma {:induction false} WaitingLength(t: HeldInput.Table, v: Viewer, b: Bytes, padded: Bytes)
    requires b != [] && StepOf(t, v, b) == NeedMore && |padded| == |b| + 9 && padded[..|b|] == b
    ensures !ExtentOf(v, padded).Unknown? && |b| < MAX_CUT_TEXT + 8
    ensures ExtentOf(v, padded).Known? ==> |b| < ExtentOf(v, padded).total
  {
    assert padded[0] == b[0];
  }

  lemma {:induction false} WaitingIsPrefix(t: HeldInput.Table, v: Viewer, b: Bytes)
    requires b != [] && StepOf(t, v, b) == NeedMore
    ensures |b| < MAX_CUT_TEXT + 8 && StrictPrefixOfMessage(t, v, b)
  {
    var padded := b + Zeros(9);
    WaitingLength(t, v, b, padded);
    match ExtentOf(v, padded)
    case Unacceptable => assert Completes(t, v, b, Zeros(9));
    case Known(n) =>
      var rest := Zeros(n - |b|);
      SameExtent(v, padded, b + rest);
      assert Completes(t, v, b, rest);
  }

  // After every read the server's buffer is empty or a strict prefix of one message shorter
  // than 64 KiB + 8 bytes.
  lemma {:induction false} LeftoverIsBounded(t: HeldInput.Table, v: Viewer, b: Bytes)
    ensures var r := Drain(ServerStep(t), v, b);
            !r.failed && r.buffer != [] ==>
              |r.buffer| < MAX_CUT_TEXT + 8 && StrictPrefixOfMessage(t, r.state, r.buffer)
  {
    ServerIsStable(t);
    LeftoverWaits(ServerStep(t), v, b);
    var r := Drain(ServerStep(t), v, b);
    if !r.failed && r.buffer != [] {
      assert ServerStep(t)(r.state, r.buffer) == NeedMore;
      WaitingIsPrefix(t, r.state, r.buffer);
    }
  }

  // readClient: a read that would push the buffer over its limit is refused unread.
  function ReadClient(t: HeldInput.Table, r: Reader<Viewer>, chunk: Bytes): Reader<Viewer> {
    if !r.failed && |chunk| > MAX_INPUT - |r.buffer| then Reader(r.state, [], true)
    else Feed(ServerStep(t), r, chunk)
  }

  function ReadAll(t: HeldInput.Table, r: Reader<Viewer>, chunks: seq<Bytes>): Reader<Viewer>
    decreases |chunks|
  {
    if chunks == [] then r else ReadAll(t, ReadClient(t, r, chunks[0]), chunks[1..])
  }

  // Reads of up to 192 KiB less 8 bytes never meet the limit, whatever came before: the
  // limited server decodes what the unlimited one does.
  lemma {:induction false} LimitIsOutOfReach(t: HeldInput.Table, r: Reader<Viewer>, chunks: seq<Bytes>)
    requires forall i :: 0 <= i < |chunks| ==> |chunks[i]| <= MAX_INPUT - MAX_CUT_TEXT - 8
    requires |r.buffer| < MAX_CUT_TEXT + 8
    ensures ReadAll(t, r, chunks) == FeedAll(ServerStep(t), r, chunks)
    decreases |chunks|
  {
    if chunks != [] {
      if !r.failed { LeftoverIsBounded(t, r.state, r.buffer + chunks[0]); }
      LimitIsOutOfReach(t, ReadClient(t, r, chunks[0]), chunks[1..]);
    }
  }

  // The input side of one viewer, consumed in place.
  class ViewerConnection {
    const table: HeldInput.Table
    var input: Bytes
    var viewer: Viewer
    var failed: bool

    constructor (table: HeldInput.Table)
      ensures this.table == table && input == [] && viewer == Viewer(false, false, [], []) && !failed
    {
      this.table, input, viewer, failed := table, [], Viewer(false, false, [], []), false;
    }

    // processClient: takes complete messages off the buffer.
    method ProcessClient()
      requires !failed
      modifies this
      ensures Reader(viewer, input, failed) == Drain(ServerStep(table), old(viewer), old(input))
    {
      while true
        invariant !failed
        invariant Drain(ServerStep(table), viewer, input) == Drain(ServerStep(table), old(viewer), old(input))
        decreases |input|
      {
        StepIsStable(table, viewer, input, []);
        match StepOf(table, viewer, input) {
          case NeedMore => return;
          case Refused(v) =>
            viewer, input, failed := v, [], true;
            return;
          case Message(n, v) => viewer, input := v, input[n..];
        }
      }
    }

    // readClient: what would exceed the bounded buffer is refused before it is read.
    method Receive(chunk: Bytes)
      requires !failed && |input| <= MAX_INPUT
      modifies this
      ensures Reader(viewer, input, failed) == ReadClient(table, Reader(old(viewer), old(input), false), chunk)
    {
      if |chunk| > MAX_INPUT - |input| {
        input, failed := [], true;
        return;
      }
      input := input + chunk;
      ProcessClient();
    }
  }
}
