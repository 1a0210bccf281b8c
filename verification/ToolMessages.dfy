// What the tool prints, in the terms of the protocol
// (tools/hyremote-tool/rfb_client.cpp; section 7.5 of RFC 6143).
module ToolMessages {
  import opened Option
  import opened Frames
  import opened Wire
  import opened Chunking
  import opened ServerMessages
  import opened ClientMessages
  import Tool = ToolClient
  import HeldInput

  // Its picture request asks for the whole size, changed parts only or everything.
  lemma {:induction false} RequestIsPrinted(incremental: bool, width: nat, height: nat)
    requires width < 0x1_0000 && height < 0x1_0000
    ensures Tool.RequestBytes(incremental, width, height) == Print(UpdateRequest(incremental, 0, 0, width, height), [])
  {
  }

  lemma {:induction false} EncodingsArePrinted()
    ensures Tool.SetEncodingsBytes() == Print(SetEncodings([0, -223, -239]), [])
  {
    var encodings := [0, -223, -239];
    assert encodings[1..] == [-223, -239] && encodings[1..][1..] == [-239] && encodings[1..][1..][1..] == [];
    assert EncodingBytes(encodings[1..][1..]) == S32(-239) + [];
    assert EncodingBytes(encodings[1..]) == S32(-223) + EncodingBytes(encodings[1..][1..]);
    assert EncodingBytes(encodings) == S32(0) + EncodingBytes(encodings[1..]);
    assert EncodingBytes(encodings) == S32(0) + S32(-223) + S32(-239);
  }

  lemma {:induction false} KeyIsPrinted(keysym: nat, pressed: bool)
    requires keysym < 0x1_0000_0000
    ensures Tool.KeyBytes(keysym, pressed) == Print(KeyEvent(pressed, keysym), [])
  {
  }

  // A pointer outside the picture is moved to the nearest pixel of it.
  lemma {:induction false} PointerIsPrinted(mask: Byte, x: nat, y: nat, width: nat, height: nat) returns (px: nat, py: nat)
    requires 0 < width < 0x1_0000 && 0 < height < 0x1_0000
    ensures px < width && py < height && (x < width ==> px == x) && (y < height ==> py == y)
    ensures (x >= width ==> px == width - 1) && (y >= height ==> py == height - 1)
    ensures Tool.PointerBytes(mask, x, y, width, height) == Print(PointerEvent(mask, px, py), [])
  {
    px, py := if x < width then x else width - 1, if y < height then y else height - 1;
  }

  // So the server decodes what the tool meant: the request, with the flag and the size ...
  lemma {:induction false} RequestIsUnderstood(t: HeldInput.Table, v: Viewer, incremental: bool, width: nat, height: nat, rest: Bytes)
    requires width < 0x1_0000 && height < 0x1_0000 && |v.held| <= 64
    ensures StepOf(t, v, Tool.RequestBytes(incremental, width, height) + rest)
            == Message(10, v.(log := v.log + [UpdateRequest(incremental, 0, 0, width, height)]))
  {
    RequestIsPrinted(incremental, width, height);
    MessageIsRead(t, v, UpdateRequest(incremental, 0, 0, width, height), [], rest);
  }

  // ... raw pixels, resizes and cursors, and no continuous updates or fences ...
  lemma {:induction false} EncodingsAreUnderstood(t: HeldInput.Table, v: Viewer, rest: Bytes)
    requires |v.held| <= 64
    ensures StepOf(t, v, Tool.SetEncodingsBytes() + rest)
            == Message(16, v.(fence := false, continuous := false, log := v.log + [SetEncodings([0, -223, -239])]))
  {
    EncodingsArePrinted();
    MessageIsRead(t, v, SetEncodings([0, -223, -239]), [], rest);
  }

  // ... and the key, unless it is one too many.
  lemma {:induction false} KeyIsUnderstood(t: HeldInput.Table, v: Viewer, keysym: nat, pressed: bool, rest: Bytes)
    requires keysym < 0x1_0000_0000 && |v.held| <= 64
    ensures StepOf(t, v, Tool.KeyBytes(keysym, pressed) + rest) == Answer(t, v, KeyEvent(pressed, keysym), 8)
  {
    KeyIsPrinted(keysym, pressed);
    MessageIsRead(t, v, KeyEvent(pressed, keysym), [], rest);
  }
}
