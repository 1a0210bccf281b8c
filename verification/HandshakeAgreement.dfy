// The handshake of server and tool without authentication (section 7.1 of RFC 6143): processClient
// of src/runtime/src/transport/rfb_transport.cpp and process of tools/hyremote-tool/rfb_client.cpp.
module HandshakeAgreement {
  import opened Option
  import opened Frames
  import opened Wire
  import opened Chunking
  import Tool = ToolClient

  // "RFB 003.008" and a line feed.
  const VERSION: Bytes := [82, 70, 66, 32, 48, 48, 51, 46, 48, 48, 56, 10]

  // ---- the server's side -------------------------------------------------------------------------------

  datatype Phase = AwaitVersion | AwaitSecurityChoice | AwaitClientInit | Initialised

  datatype Peer = Peer(phase: Phase, written: Bytes)

  // A new connection is greeted with the version.
  const NEW_PEER: Peer := Peer(AwaitVersion, VERSION)

  function PeerStep(p: Peer, b: Bytes): Outcome<Peer> {
    match p.phase
    case AwaitVersion =>
      if |b| < 12 then NeedMore
      else if b[..12] != VERSION then Refused(p)
      else Message(12, Peer(AwaitSecurityChoice, p.written + [1, 1]))
    case AwaitSecurityChoice =>
      if b == [] then NeedMore
      else if b[0] != 1 then Refused(p)
      else Message(1, Peer(AwaitClientInit, p.written + [0, 0, 0, 0]))
    case AwaitClientInit =>
      if b == [] then NeedMore else Message(1, p.(phase := Initialised))
    case Initialised => NeedMore
  }

  // ---- the tool's side, message by message -------------------------------------------------------------

  // The tool takes any version 3.00x and answers with 3.8; nothing else.
  lemma {:induction false} VersionIff(t: Tool.Tool, b: Bytes)
    requires t.phase == Tool.Version
    ensures |b| < 12 ==> Tool.StepOf(t, b) == NeedMore
    ensures |b| >= 12 && b[..10] == VERSION[..10] && b[11] == 10 ==>
              Tool.StepOf(t, b) == Message(12, t.(phase := Tool.SecurityTypes, written := t.written + VERSION))
    ensures |b| >= 12 && (b[..10] != VERSION[..10] || b[11] != 10) ==> Tool.StepOf(t, b) == Refused(t)
  {
    assert VERSION[..10] == Tool.VERSION_START;
  }

  // It chooses no security, and refuses a list without it.
  lemma {:induction false} SecurityTypesIff(t: Tool.Tool, types: Bytes, rest: Bytes)
    requires t.phase == Tool.SecurityTypes && 0 < |types| < 256
    ensures Tool.StepOf(t, [|types|] + types + rest)
            == if 1 in types then Message(1 + |types|, t.(phase := Tool.SecurityResult, written := t.written + [1])) else Refused(t)
  {
    var b := [|types|] + types + rest;
    assert b[1..1 + |types|] == types;
  }

  // A list that is not whole is waited for.
  lemma {:induction false} SecurityTypesWait(t: Tool.Tool, types: Bytes, k: nat)
    requires t.phase == Tool.SecurityTypes && 0 < |types| < 256 && k <= |types|
    ensures Tool.StepOf(t, []) == NeedMore && Tool.StepOf(t, ([|types|] + types)[..k]) == NeedMore
  {
    if k > 0 { assert ([|types|] + types)[..k][0] == |types|; }
  }

  // A refusal comes with a reason; one of more than 4096 bytes is not waited for.
  lemma {:induction false} RefusalIsRead(t: Tool.Tool, length: nat, text: Bytes)
    requires t.phase == Tool.SecurityTypes && length < 0x1_0000_0000
    ensures Tool.StepOf(t, [0] + U32(length) + text)
            == if length > 4096 || |text| >= length then Refused(t) else NeedMore
  {
    var b := [0] + U32(length) + text;
    U32RoundTrip(length);
    assert b[1] == U32(length)[0] && b[2] == U32(length)[1] && b[3] == U32(length)[2] && b[4] == U32(length)[3];
    assert ReadU32(b, 1) == ReadU32(U32(length), 0);
  }

  lemma {:induction false} ShortRefusalWaits(t: Tool.Tool, b: Bytes)
    requires t.phase == Tool.SecurityTypes && 0 < |b| < 5 && b[0] == 0
    ensures Tool.StepOf(t, b) == NeedMore
  {
  }

  // A result of zero is success; any other is a failure as soon as its reason is whole.
  lemma {:induction false} ResultIff(t: Tool.Tool, result: nat, rest: Bytes)
    requires t.phase == Tool.SecurityResult && result < 0x1_0000_0000
    ensures result == 0 ==>
              Tool.StepOf(t, U32(result) + rest) == Message(4, t.(phase := Tool.ServerInit, written := t.written + [1]))
    ensures result != 0 && |rest| < 4 ==> Tool.StepOf(t, U32(result) + rest) == NeedMore
    ensures result != 0 && |rest| >= 4 && ReadU32(rest, 0) <= 4096 ==>
              Tool.StepOf(t, U32(result) + rest) == if |rest| >= 4 + ReadU32(rest, 0) then Refused(t) else NeedMore
  {
    var b := U32(result) + rest;
    U32RoundTrip(result);
    assert b[0] == U32(result)[0] && b[1] == U32(result)[1] && b[2] == U32(result)[2] && b[3] == U32(result)[3];
    assert ReadU32(b, 0) == ReadU32(U32(result), 0);
    if |rest| >= 4 {
      assert b[4] == rest[0] && b[5] == rest[1] && b[6] == rest[2] && b[7] == rest[3];
      assert ReadU32(b, 4) == ReadU32(rest, 0);
    }
  }

  lemma {:induction false} ShortResultWaits(t: Tool.Tool, b: Bytes)
    requires t.phase == Tool.SecurityResult && |b| < 4
    ensures Tool.StepOf(t, b) == NeedMore
  {
  }

  // ---- both sides --------------------------------------------------------------------------------------

  // One side has read everything the other wrote last, and gone on.
  ghost predicate ToolTook(t: Tool.Tool, b: Bytes, after: Tool.Tool) {
    Tool.StepOf(t, b) == Message(|b|, after)
  }

  ghost predicate ServerTook(p: Peer, b: Bytes, after: Peer) {
    PeerStep(p, b) == Message(|b|, after)
  }

  // A server without authentication and a new tool get to ServerInit in three exchanges, with the
  // bytes of the protocol and nothing left over on either side.
  lemma {:induction false} HandshakeCompletes(t: Tool.Tool)
    returns (t1: Tool.Tool, p1: Peer, t2: Tool.Tool, p2: Peer, t3: Tool.Tool, p3: Peer)
    requires t.phase == Tool.Version && t.written == []
    ensures ToolTook(t, NEW_PEER.written, t1) && ServerTook(NEW_PEER, t1.written, p1)
    ensures ToolTook(t1, p1.written[|NEW_PEER.written|..], t2) && ServerTook(p1, t2.written[|t1.written|..], p2)
    ensures ToolTook(t2, p2.written[|p1.written|..], t3) && ServerTook(p2, t3.written[|t2.written|..], p3)
    ensures t3.phase == Tool.ServerInit && p3.phase == Initialised
    ensures t3.written == VERSION + [1] + [1] && p3.written == VERSION + [1, 1] + [0, 0, 0, 0]
  {
    VersionIff(t, VERSION);
    t1 := t.(phase := Tool.SecurityTypes, written := VERSION);
    assert [] + VERSION == VERSION && VERSION[..12] == VERSION;
    p1 := Peer(AwaitSecurityChoice, VERSION + [1, 1]);
    assert p1.written[12..] == [1] + [1] + [];
    SecurityTypesIff(t1, [1], []);
    t2 := t1.(phase := Tool.SecurityResult, written := VERSION + [1]);
    assert t2.written[12..] == [1];
    p2 := Peer(AwaitClientInit, p1.written + [0, 0, 0, 0]);
    assert p2.written[14..] == U32(0) + [];
    ResultIff(t2, 0, []);
    t3 := t2.(phase := Tool.ServerInit, written := VERSION + [1] + [1]);
    assert t3.written[13..] == [1];
    p3 := p2.(phase := Initialised);
  }

  // However the bytes of either side are split into reads makes no difference to the server either.
  lemma {:induction false} PeerIsStable(p: Peer, b: Bytes, more: Bytes)
    requires PeerStep(p, b) != NeedMore
    ensures PeerStep(p, b + more) == PeerStep(p, b)
  {
    if p.phase == AwaitVersion { assert (b + more)[..12] == b[..12]; }
  }

  // ---- ServerInit --------------------------------------------------------------------------------------

  // Any ServerInit in the protocol's form is taken exactly when the tool allows its size and name
  // and its pixel format is the native one.
  lemma {:induction false} ServerInitIff(t: Tool.Tool, width: nat, height: nat, spec: PixelSpec, name: Bytes, rest: Bytes)
    requires t.phase == Tool.ServerInit && width < 0x1_0000 && height < 0x1_0000 && |name| < 0x1_0000_0000
    requires spec.redMax < 0x1_0000 && spec.greenMax < 0x1_0000 && spec.blueMax < 0x1_0000
    ensures var b := U16(width) + U16(height) + SpecBytes(spec) + U32(|name|) + name + rest;
            && (Tool.StepOf(t, b).Message? <==>
                  && width > 0 && height > 0 && Cells(width, height) <= 16 * 1024 * 1024 && |name| <= 4096
                  && spec == PixelSpec(32, 24, false, true, 255, 255, 255, 0, 8, 16))
            && (Tool.StepOf(t, b).Message? || Tool.StepOf(t, b) == Refused(t))
  {
    InitFieldsOf(width, height, spec, name, rest);
  }

  lemma {:induction false} InitFieldsOf(width: nat, height: nat, spec: PixelSpec, name: Bytes, rest: Bytes)
    requires width < 0x1_0000 && height < 0x1_0000 && |name| < 0x1_0000_0000
    requires spec.redMax < 0x1_0000 && spec.greenMax < 0x1_0000 && spec.blueMax < 0x1_0000
    ensures var b := U16(width) + U16(height) + SpecBytes(spec) + U32(|name|) + name + rest;
            && |b| >= 24 + |name| && ReadU16(b, 0) == width && ReadU16(b, 2) == height && ReadU32(b, 20) == |name|
            && b[4] == spec.bitsPerPixel && b[5] == spec.depth
            && b[6] == (if spec.bigEndian then 1 else 0) && b[7] == (if spec.trueColor then 1 else 0)
            && ReadU16(b, 8) == spec.redMax && ReadU16(b, 10) == spec.greenMax && ReadU16(b, 12) == spec.blueMax
            && b[14] == spec.redShift && b[15] == spec.greenShift && b[16] == spec.blueShift
  {
    var size := U32(|name|);
    var b := U16(width) + U16(height) + SpecBytes(spec) + size + name + rest;
    SpecFields(spec);
    assert b[4..20] == SpecBytes(spec);
    assert forall i :: 0 <= i < 16 ==> b[4 + i] == b[4..20][i];
    U32RoundTrip(|name|);
    assert b[20] == size[0] && b[21] == size[1] && b[22] == size[2] && b[23] == size[3];
    assert ReadU32(b, 20) == ReadU32(size, 0);
    assert b[0] == U16(width)[0] && b[1] == U16(width)[1] && b[2] == U16(height)[0] && b[3] == U16(height)[1];
  }

  lemma {:induction false} SpecFields(spec: PixelSpec)
    requires spec.redMax < 0x1_0000 && spec.greenMax < 0x1_0000 && spec.blueMax < 0x1_0000
    ensures var s := SpecBytes(spec);
            && s[0] == spec.bitsPerPixel && s[1] == spec.depth
            && s[2] == (if spec.bigEndian then 1 else 0) && s[3] == (if spec.trueColor then 1 else 0)
            && ReadU16(s, 4) == spec.redMax && ReadU16(s, 6) == spec.greenMax && ReadU16(s, 8) == spec.blueMax
            && s[10] == spec.redShift && s[11] == spec.greenShift && s[12] == spec.blueShift
  {
  }

  // A ServerInit that is not whole is waited for.
  lemma {:induction false} ShortInitWaits(t: Tool.Tool, b: Bytes)
    requires t.phase == Tool.ServerInit && |b| < 24
    ensures Tool.StepOf(t, b) == NeedMore
  {
  }

  // ---- the other messages of a server ------------------------------------------------------------------

  // A bell is skipped, a cut text of up to 64 MiB is skipped when it is whole, and a message the tool
  // does not know ends the connection.
  lemma {:induction false} OtherMessages(t: Tool.Tool, length: nat, text: Bytes, kind: Byte, rest: Bytes)
    requires t.phase == Tool.Streaming && length < 0x1_0000_0000 && kind !in {0, 2, 3}
    ensures Tool.StepOf(t, [2] + rest) == Message(1, t)
    ensures Tool.StepOf(t, [3, 0, 0, 0] + U32(length) + text)
            == (if length > 64 * 1024 * 1024 then Refused(t) else if |text| < length then NeedMore else Message(8 + length, t))
    ensures Tool.StepOf(t, [kind] + rest) == Refused(t)
  {
    var b := [3, 0, 0, 0] + U32(length) + text;
    U32RoundTrip(length);
    assert b[4] == U32(length)[0] && b[5] == U32(length)[1] && b[6] == U32(length)[2] && b[7] == U32(length)[3];
    assert ReadU32(b, 4) == ReadU32(U32(length), 0);
  }

  lemma {:induction false} ShortMessagesWait(t: Tool.Tool, b: Bytes)
    requires t.phase == Tool.Streaming && (b == [] || (b[0] == 3 && |b| < 8) || (b[0] == 0 && |b| < 4))
    ensures Tool.StepOf(t, b) == NeedMore
  {
  }
}
