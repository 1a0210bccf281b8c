// The messages a viewer prints (section 7.5 of RFC 6143), and that the server reads them back
// (processClient of src/runtime/src/transport/rfb_transport.cpp).
module ClientMessages {
  import opened Option
  import opened Frames
  import opened Wire
  import opened Chunking
  import opened ServerMessages
  import HeldInput

  function Flag(b: bool): Byte {
    if b then 1 else 0
  }

  function EncodingBytes(encodings: seq<int>): Bytes
    requires forall i :: 0 <= i < |encodings| ==> -0x8000_0000 <= encodings[i] < 0x8000_0000
  {
    if encodings == [] then [] else S32(encodings[0]) + EncodingBytes(encodings[1..])
  }

  // What fits into the fields of a message; text is what a cut text consists of.
  predicate Printable(m: ClientMessage, text: Bytes) {
    match m
    case SetPixelFormat(spec) => spec.redMax < 0x1_0000 && spec.greenMax < 0x1_0000 && spec.blueMax < 0x1_0000
    case SetEncodings(encodings) =>
      |encodings| < 0x1_0000 && forall i :: 0 <= i < |encodings| ==> -0x8000_0000 <= encodings[i] < 0x8000_0000
    case EnableContinuous(_, x, y, width, height) => x < 0x1_0000 && y < 0x1_0000 && width < 0x1_0000 && height < 0x1_0000
    case Fence(flags, payload) => flags < 0x1_0000_0000 && |payload| < 0x100
    case UpdateRequest(_, x, y, width, height) => x < 0x1_0000 && y < 0x1_0000 && width < 0x1_0000 && height < 0x1_0000
    case KeyEvent(_, keysym) => keysym < 0x1_0000_0000
    case PointerEvent(_, x, y) => x < 0x1_0000 && y < 0x1_0000
    case CutText(length) => length < 0x1_0000_0000 && |text| == length
  }

  function Print(m: ClientMessage, text: Bytes): Bytes
    requires Printable(m, text)
  {
    match m
    case SetPixelFormat(spec) => [0, 0, 0, 0] + SpecBytes(spec)
    case SetEncodings(encodings) => [2, 0] + U16(|encodings|) + EncodingBytes(encodings)
    case EnableContinuous(enable, x, y, width, height) => [150, Flag(enable)] + U16(x) + U16(y) + U16(width) + U16(height)
    case Fence(flags, payload) => [248, 0, 0, 0] + U32(flags) + [|payload|] + payload
    case UpdateRequest(incremental, x, y, width, height) =>
      [3, Flag(incremental)] + U16(x) + U16(y) + U16(width) + U16(height)
    case KeyEvent(pressed, keysym) => [4, Flag(pressed), 0, 0] + U32(keysym)
    case PointerEvent(mask, x, y) => [5, mask] + U16(x) + U16(y)
    case CutText(length) => [6, 0, 0, 0] + U32(length) + text
  }

  // What the server does not refuse.
  predicate Acceptable(t: HeldInput.Table, v: Viewer, m: ClientMessage) {
    match m
    case SetPixelFormat(spec) => Supported(spec)
    case SetEncodings(encodings) => |encodings| <= 1024
    case EnableContinuous(enable, _, _, width, height) => v.continuous && (enable ==> width > 0 && height > 0)
    case Fence(_, payload) => v.fence && |payload| <= 64
    case KeyEvent(pressed, keysym) =>
      !pressed || HeldInput.Code(t, keysym) == 0 || keysym in v.held || |v.held| < 64
    case CutText(length) => length <= 64 * 1024
    case _ => true
  }

  // The viewer after the message.
  function Effect(t: HeldInput.Table, v: Viewer, m: ClientMessage): Viewer {
    var logged := v.(log := v.log + [m]);
    match m
    case SetEncodings(encodings) =>
      logged.(fence := -312 in encodings, continuous := -313 in encodings)
    case KeyEvent(pressed, keysym) =>
      if HeldInput.Code(t, keysym) == 0 then logged
      else if !pressed then logged.(held := HeldInput.Without(v.held, keysym))
      else if keysym in v.held then logged
      else logged.(held := v.held + [keysym])
    case _ => logged
  }

  // ---- fields -----------------------------------------------------------------------------------------

  lemma {:induction false} U16At(front: Bytes, value: nat, back: Bytes)
    requires value < 0x1_0000
    ensures ReadU16(front + U16(value) + back, |front|) == value
  {
    var b := front + U16(value) + back;
    assert b[|front|] == U16(value)[0] && b[|front| + 1] == U16(value)[1];
  }

  lemma {:induction false} U32At(front: Bytes, value: nat, back: Bytes)
    requires value < 0x1_0000_0000
    ensures ReadU32(front + U32(value) + back, |front|) == value
  {
    var b := front + U32(value) + back;
    U32RoundTrip(value);
    assert b[|front|] == U32(value)[0] && b[|front| + 1] == U32(value)[1];
    assert b[|front| + 2] == U32(value)[2] && b[|front| + 3] == U32(value)[3];
  }

  // Four 16-bit fields behind two bytes.
  lemma {:induction false} FourFields(b: Bytes, kind: Byte, flag: Byte, x: nat, y: nat, width: nat, height: nat)
    requires x < 0x1_0000 && y < 0x1_0000 && width < 0x1_0000 && height < 0x1_0000
    requires b == [kind, flag] + U16(x) + U16(y) + U16(width) + U16(height)
    ensures |b| == 10 && b[0] == kind && b[1] == flag
    ensures ReadU16(b, 2) == x && ReadU16(b, 4) == y && ReadU16(b, 6) == width && ReadU16(b, 8) == height
  {
    assert b[2] == U16(x)[0] && b[3] == U16(x)[1] && b[4] == U16(y)[0] && b[5] == U16(y)[1];
    assert b[6] == U16(width)[0] && b[7] == U16(width)[1] && b[8] == U16(height)[0] && b[9] == U16(height)[1];
  }

  lemma {:induction false} EncodingsLength(encodings: seq<int>)
    requires forall i :: 0 <= i < |encodings| ==> -0x8000_0000 <= encodings[i] < 0x8000_0000
    ensures |EncodingBytes(encodings)| == 4 * |encodings|
  {
    if encodings != [] { EncodingsLength(encodings[1..]); }
  }

  lemma {:induction false} EncodingsReadBack(b: Bytes, at: nat, encodings: seq<int>)
    requires forall i :: 0 <= i < |encodings| ==> -0x8000_0000 <= encodings[i] < 0x8000_0000
    requires at + 4 * |encodings| <= |b| && b[at..at + 4 * |encodings|] == EncodingBytes(encodings)
    ensures ReadEncodings(b, at, |encodings|) == encodings
    decreases |encodings|
  {
    if encodings != [] {
      var first := S32(encodings[0]);
      var whole := EncodingBytes(encodings);
      var rest := encodings[1..];
      EncodingsLength(rest);
      assert whole[..4] == first && whole[4..] == EncodingBytes(rest);
      assert b[at..at + 4] == first by { assert b[at..at + 4] == b[at..at + 4 * |encodings|][..4]; }
      assert b[at + 4..at + 4 + 4 * |rest|] == EncodingBytes(rest) by {
        assert b[at + 4..at + 4 + 4 * |rest|] == b[at..at + 4 * |encodings|][4..];
      }
      FirstEncoding(b, at, encodings[0]);
      EncodingsReadBack(b, at + 4, rest);
    }
  }

  lemma {:induction false} FirstEncoding(b: Bytes, at: nat, encoding: int)
    requires -0x8000_0000 <= encoding < 0x8000_0000 && at + 4 <= |b| && b[at..at + 4] == S32(encoding)
    ensures ReadS32(b, at) == encoding
  {
    S32RoundTrip(encoding);
    var field := S32(encoding);
    assert b[at] == field[0] && b[at + 1] == field[1] && b[at + 2] == field[2] && b[at + 3] == field[3];
    assert ReadU32(b, at) == ReadU32(field, 0);
  }

  lemma {:induction false} SpecReadsBack(b: Bytes, spec: PixelSpec)
    requires spec.redMax < 0x1_0000 && spec.greenMax < 0x1_0000 && spec.blueMax < 0x1_0000
    requires b == [0, 0, 0, 0] + SpecBytes(spec)
    ensures |b| == 20 && b[0] == 0 && ReadSpec(b) == spec
  {
    var red, green, blue := U16(spec.redMax), U16(spec.greenMax), U16(spec.blueMax);
    assert b[8] == red[0] && b[9] == red[1] && b[10] == green[0] && b[11] == green[1] && b[12] == blue[0] && b[13] == blue[1];
    assert ReadU16(b, 8) == spec.redMax && ReadU16(b, 10) == spec.greenMax && ReadU16(b, 12) == spec.blueMax;
  }

  // ---- one message ------------------------------------------------------------------------------------

  // What the server makes of a whole message in front of other bytes.
  function Answer(t: HeldInput.Table, v: Viewer, m: ClientMessage, n: nat): Outcome<Viewer> {
    if Acceptable(t, v, m) then Message(n, Effect(t, v, m)) else Refused(v)
  }

  // A message whose length the server can tell is handled by itself.
  lemma {:induction false} WholeIsHandled(t: HeldInput.Table, v: Viewer, m: ClientMessage, b: Bytes, rest: Bytes)
    requires ExtentOf(v, b) == Known(|b|) && ExtentOf(v, b + rest) == Known(|b|)
    requires Handle(t, v, b) == if Acceptable(t, v, m) then Some(Effect(t, v, m)) else None
    ensures StepOf(t, v, b + rest) == Answer(t, v, m, |b|)
  {
    assert (b + rest)[..|b|] == b;
  }

  lemma {:induction false} FormatIsRead(t: HeldInput.Table, v: Viewer, spec: PixelSpec, rest: Bytes)
    requires Printable(SetPixelFormat(spec), [])
    ensures var b := Print(SetPixelFormat(spec), []);
            StepOf(t, v, b + rest) == Answer(t, v, SetPixelFormat(spec), |b|)
  {
    var b := Print(SetPixelFormat(spec), []);
    SpecReadsBack(b, spec);
    assert (b + rest)[0] == 0;
    WholeIsHandled(t, v, SetPixelFormat(spec), b, rest);
  }

  // The count of the encodings, alone or with other bytes behind.
  lemma {:induction false} EncodingsCount(encodings: seq<int>, rest: Bytes)
    requires Printable(SetEncodings(encodings), [])
    ensures var b := Print(SetEncodings(encodings), []);
            && |b| == 4 + 4 * |encodings| && b[0] == 2 && (b + rest)[0] == 2
            && ReadU16(b, 2) == |encodings| && ReadU16(b + rest, 2) == |encodings|
            && b[4..] == EncodingBytes(encodings)
  {
    var b := Print(SetEncodings(encodings), []);
    EncodingsLength(encodings);
    U16At([2, 0], |encodings|, EncodingBytes(encodings));
    U16At([2, 0], |encodings|, EncodingBytes(encodings) + rest);
    assert b + rest == [2, 0] + U16(|encodings|) + (EncodingBytes(encodings) + rest);
  }

  lemma {:induction false} EncodingsAreRead(t: HeldInput.Table, v: Viewer, encodings: seq<int>, rest: Bytes)
    requires Printable(SetEncodings(encodings), [])
    ensures var b := Print(SetEncodings(encodings), []);
            StepOf(t, v, b + rest) == Answer(t, v, SetEncodings(encodings), |b|)
  {
    var b := Print(SetEncodings(encodings), []);
    EncodingsCount(encodings, rest);
    if |encodings| <= 1024 {
      var start := 4;
      assert b[start..start + 4 * |encodings|] == EncodingBytes(encodings) by {
        assert b[start..start + 4 * |encodings|] == b[4..];
      }
      EncodingsReadBack(b, start, encodings);
      WholeIsHandled(t, v, SetEncodings(encodings), b, rest);
    }
  }

  lemma {:induction false} ContinuousIsRead(t: HeldInput.Table, v: Viewer, enable: bool, x: nat, y: nat, width: nat, height: nat, rest: Bytes)
    requires Printable(EnableContinuous(enable, x, y, width, height), [])
    ensures var b := Print(EnableContinuous(enable, x, y, width, height), []);
            StepOf(t, v, b + rest) == Answer(t, v, EnableContinuous(enable, x, y, width, height), |b|)
  {
    var m := EnableContinuous(enable, x, y, width, height);
    var b := Print(m, []);
    FourFields(b, 150, Flag(enable), x, y, width, height);
    assert (b + rest)[0] == 150;
    if v.continuous { WholeIsHandled(t, v, m, b, rest); }
  }

  lemma {:induction false} FenceIsRead(t: HeldInput.Table, v: Viewer, flags: nat, payload: Bytes, rest: Bytes)
    requires Printable(Fence(flags, payload), [])
    ensures var b := Print(Fence(flags, payload), []);
            StepOf(t, v, b + rest) == Answer(t, v, Fence(flags, payload), |b|)
  {
    var b := Print(Fence(flags, payload), []);
    assert b == [248, 0, 0, 0] + U32(flags) + ([|payload|] + payload);
    U32At([248, 0, 0, 0], flags, [|payload|] + payload);
    assert b[8] == |payload| && b[9..] == payload;
    assert (b + rest)[0] == 248 && (b + rest)[8] == b[8];
    if v.fence && |payload| <= 64 { WholeIsHandled(t, v, Fence(flags, payload), b, rest); }
  }

  lemma {:induction false} RequestIsRead(t: HeldInput.Table, v: Viewer, incremental: bool, x: nat, y: nat, width: nat, height: nat, rest: Bytes)
    requires Printable(UpdateRequest(incremental, x, y, width, height), [])
    ensures var b := Print(UpdateRequest(incremental, x, y, width, height), []);
            StepOf(t, v, b + rest) == Answer(t, v, UpdateRequest(incremental, x, y, width, height), |b|)
  {
    var m := UpdateRequest(incremental, x, y, width, height);
    var b := Print(m, []);
    FourFields(b, 3, Flag(incremental), x, y, width, height);
    assert (b + rest)[0] == 3;
    WholeIsHandled(t, v, m, b, rest);
  }

  lemma {:induction false} KeyIsRead(t: HeldInput.Table, v: Viewer, pressed: bool, keysym: nat, rest: Bytes)
    requires Printable(KeyEvent(pressed, keysym), []) && |v.held| <= 64
    ensures var b := Print(KeyEvent(pressed, keysym), []);
            StepOf(t, v, b + rest) == Answer(t, v, KeyEvent(pressed, keysym), |b|)
  {
    var b := Print(KeyEvent(pressed, keysym), []);
    U32At([4, Flag(pressed), 0, 0], keysym, []);
    assert b == [4, Flag(pressed), 0, 0] + U32(keysym) + [];
    assert (b + rest)[0] == 4;
    WholeIsHandled(t, v, KeyEvent(pressed, keysym), b, rest);
  }

  lemma {:induction false} PointerIsRead(t: HeldInput.Table, v: Viewer, mask: Byte, x: nat, y: nat, rest: Bytes)
    requires Printable(PointerEvent(mask, x, y), [])
    ensures var b := Print(PointerEvent(mask, x, y), []);
            StepOf(t, v, b + rest) == Answer(t, v, PointerEvent(mask, x, y), |b|)
  {
    var b := Print(PointerEvent(mask, x, y), []);
    U16At([5, mask], x, U16(y));
    U16At([5, mask] + U16(x), y, []);
    assert b == [5, mask] + U16(x) + U16(y) + [];
    assert (b + rest)[0] == 5;
    WholeIsHandled(t, v, PointerEvent(mask, x, y), b, rest);
  }

  lemma {:induction false} CutTextIsRead(t: HeldInput.Table, v: Viewer, length: nat, text: Bytes, rest: Bytes)
    requires Printable(CutText(length), text)
    ensures var b := Print(CutText(length), text);
            StepOf(t, v, b + rest) == Answer(t, v, CutText(length), |b|)
  {
    var b := Print(CutText(length), text);
    U32At([6, 0, 0, 0], length, text);
    U32At([6, 0, 0, 0], length, text + rest);
    assert b + rest == [6, 0, 0, 0] + U32(length) + (text + rest);
    if length <= 64 * 1024 { WholeIsHandled(t, v, CutText(length), b, rest); }
  }

  // Every message a viewer prints, whatever follows it, is taken whole and means what it says, or
  // is refused, exactly when it is not acceptable.
  lemma {:induction false} MessageIsRead(t: HeldInput.Table, v: Viewer, m: ClientMessage, text: Bytes, rest: Bytes)
    requires Printable(m, text) && |v.held| <= 64
    ensures StepOf(t, v, Print(m, text) + rest) == Answer(t, v, m, |Print(m, text)|)
  {
    match m
    case SetPixelFormat(spec) => FormatIsRead(t, v, spec, rest);
    case SetEncodings(encodings) => EncodingsAreRead(t, v, encodings, rest);
    case EnableContinuous(enable, x, y, width, height) => ContinuousIsRead(t, v, enable, x, y, width, height, rest);
    case Fence(flags, payload) => FenceIsRead(t, v, flags, payload, rest);
    case UpdateRequest(incremental, x, y, width, height) => RequestIsRead(t, v, incremental, x, y, width, height, rest);
    case KeyEvent(pressed, keysym) => KeyIsRead(t, v, pressed, keysym, rest);
    case PointerEvent(mask, x, y) => PointerIsRead(t, v, mask, x, y, rest);
    case CutText(length) => CutTextIsRead(t, v, length, text, rest);
  }

  // ---- parts of messages ------------------------------------------------------------------------------

  // How many bytes of a message the server waits for: all of an acceptable one, and of another
  // one as many as show that it is not.
  function DecidedAt(t: HeldInput.Table, v: Viewer, m: ClientMessage, text: Bytes): nat
    requires Printable(m, text)
  {
    if Acceptable(t, v, m) then |Print(m, text)|
    else if m.SetEncodings? then 4
    else if m.Fence? then 9
    else if m.CutText? then 8
    else |Print(m, text)|
  }

  lemma {:induction false} U16Same(a: Bytes, b: Bytes, at: nat)
    requires at + 2 <= |a| && at + 2 <= |b| && forall i :: at <= i < at + 2 ==> a[i] == b[i]
    ensures ReadU16(a, at) == ReadU16(b, at)
  {
  }

  lemma {:induction false} U32Same(a: Bytes, b: Bytes, at: nat)
    requires at + 4 <= |a| && at + 4 <= |b| && forall i :: at <= i < at + 4 ==> a[i] == b[i]
    ensures ReadU32(a, at) == ReadU32(b, at)
  {
  }

  // A part of a printed message is waited for exactly until the message is decided.
  lemma {:induction false} PartIsWaitedFor(t: HeldInput.Table, v: Viewer, m: ClientMessage, text: Bytes, k: nat)
    requires Printable(m, text) && |v.held| <= 64 && k <= |Print(m, text)|
    ensures StepOf(t, v, Print(m, text)[..k]) == NeedMore <==> k < DecidedAt(t, v, m, text)
  {
    var whole := Print(m, text);
    var part := whole[..k];
    MessageIsRead(t, v, m, text, []);
    assert whole + [] == whole;
    LengthOfPrint(m, text);
    if k == |whole| {
      assert part == whole;
    } else if k > 0 {
      assert part[0] == whole[0];
      if m.SetEncodings? && k >= 4 { U16Same(part, whole, 2); }
      if m.CutText? && k >= 8 { U32Same(part, whole, 4); }
      if m.Fence? && k >= 9 { assert part[8] == whole[8]; }
    }
  }

  // The first byte and the lengths in a printed message.
  lemma {:induction false} LengthOfPrint(m: ClientMessage, text: Bytes)
    requires Printable(m, text)
    ensures var b := Print(m, text);
            match m
            case SetPixelFormat(_) => |b| == 20 && b[0] == 0
            case SetEncodings(encodings) => |b| == 4 + 4 * |encodings| && b[0] == 2 && ReadU16(b, 2) == |encodings|
            case EnableContinuous(_, _, _, _, _) => |b| == 10 && b[0] == 150
            case Fence(_, payload) => |b| == 9 + |payload| && b[0] == 248 && b[8] == |payload|
            case UpdateRequest(_, _, _, _, _) => |b| == 10 && b[0] == 3
            case KeyEvent(_, _) => |b| == 8 && b[0] == 4
            case PointerEvent(_, _, _) => |b| == 6 && b[0] == 5
            case CutText(length) => |b| == 8 + length && b[0] == 6 && ReadU32(b, 4) == length
  {
    match m
    case SetEncodings(encodings) =>
      EncodingsLength(encodings);
      U16At([2, 0], |encodings|, EncodingBytes(encodings));
    case CutText(length) => U32At([6, 0, 0, 0], length, text);
    case _ =>
  }

  // Any other first byte is refused at once.
  lemma {:induction false} UnknownTypeIsRefused(t: HeldInput.Table, v: Viewer, b: Bytes)
    requires b != [] && b[0] !in {0, 2, 3, 4, 5, 6, 150, 248}
    ensures StepOf(t, v, b) == Refused(v)
  {
  }

  // ---- streams of messages ----------------------------------------------------------------------------

  datatype Printed = Printed(m: ClientMessage, text: Bytes)

  predicate AllPrintable(messages: seq<Printed>) {
    forall i :: 0 <= i < |messages| ==> Printable(messages[i].m, messages[i].text)
  }

  function PrintAll(messages: seq<Printed>): Bytes
    requires AllPrintable(messages)
  {
    if messages == [] then [] else Print(messages[0].m, messages[0].text) + PrintAll(messages[1..])
  }

  // Each message is acceptable when its turn comes.
  predicate AllAcceptable(t: HeldInput.Table, v: Viewer, messages: seq<Printed>)
    decreases |messages|
  {
    messages == [] || (Acceptable(t, v, messages[0].m) && AllAcceptable(t, Effect(t, v, messages[0].m), messages[1..]))
  }

  function EffectOfAll(t: HeldInput.Table, v: Viewer, messages: seq<Printed>): Viewer
    decreases |messages|
  {
    if messages == [] then v else EffectOfAll(t, Effect(t, v, messages[0].m), messages[1..])
  }

  function MessagesOf(messages: seq<Printed>): seq<ClientMessage> {
    seq(|messages|, i requires 0 <= i < |messages| => messages[i].m)
  }

  lemma {:induction false} LogGrows(t: HeldInput.Table, v: Viewer, messages: seq<Printed>)
    ensures EffectOfAll(t, v, messages).log == v.log + MessagesOf(messages)
    decreases |messages|
  {
    if messages != [] {
      LogGrows(t, Effect(t, v, messages[0].m), messages[1..]);
      assert MessagesOf(messages) == [messages[0].m] + MessagesOf(messages[1..]);
    }
  }

  lemma {:induction false} HeldStaysBounded(t: HeldInput.Table, v: Viewer, m: ClientMessage)
    requires |v.held| <= 64 && Acceptable(t, v, m)
    ensures |Effect(t, v, m).held| <= 64
  {
  }

  lemma {:induction false} PrintIsLong(m: ClientMessage, text: Bytes)
    requires Printable(m, text)
    ensures |Print(m, text)| > 0
  {
  }

  // A whole stream of acceptable messages is decoded to exactly those messages, and nothing is
  // left over.
  lemma {:induction false} StreamIsRead(t: HeldInput.Table, v: Viewer, messages: seq<Printed>)
    requires AllPrintable(messages) && AllAcceptable(t, v, messages) && |v.held| <= 64
    ensures Drain(ServerStep(t), v, PrintAll(messages)) == Reader(EffectOfAll(t, v, messages), [], false)
    ensures Drain(ServerStep(t), v, PrintAll(messages)).state.log == v.log + MessagesOf(messages)
    decreases |messages|
  {
    LogGrows(t, v, messages);
    if messages == [] {
      assert ServerStep(t)(v, []) == NeedMore;
    } else {
      var first := Print(messages[0].m, messages[0].text);
      var rest := PrintAll(messages[1..]);
      MessageIsRead(t, v, messages[0].m, messages[0].text, rest);
      HeldStaysBounded(t, v, messages[0].m);
      PrintIsLong(messages[0].m, messages[0].text);
      assert ServerStep(t)(v, first + rest) == Message(|first|, Effect(t, v, messages[0].m));
      assert (first + rest)[|first|..] == rest;
      StreamIsRead(t, Effect(t, v, messages[0].m), messages[1..]);
    }
  }

  // ---- the input limit --------------------------------------------------------------------------------

  // A read is decoded like any other unless it takes the waiting input over 256 KiB; then it is
  // refused unread, and the viewer with it.
  lemma {:induction false} OversizedReadIsRefused(t: HeldInput.Table, r: Reader<Viewer>, chunk: Bytes)
    requires !r.failed
    ensures |r.buffer| + |chunk| > 256 * 1024 ==> ReadClient(t, r, chunk) == Reader(r.state, [], true)
    ensures |r.buffer| + |chunk| <= 256 * 1024 ==> ReadClient(t, r, chunk) == Drain(ServerStep(t), r.state, r.buffer + chunk)
  {
  }
}
