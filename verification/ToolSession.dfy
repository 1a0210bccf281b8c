// The server and the tool together, over whole runs.
module ToolSession {
  // The worker with all its viewers, one of them the tool; the bytes on their way to the tool,
  // read in pieces; and the bytes on their way back, with the keys and pointer moves of the
  // tool's user.  The tool never refuses what the server sent, unless one read exceeds its
  // receive budget, and once it has read everything it shows what the server counts as sent.
  // The server refuses nothing but the press of a 65th key.

  import opened Option
  import opened RfbRegion
  import opened RfbUpdate
  import opened Frames
  import opened Wire
  import opened Chunking
  import opened ViewerCoherence
  import Tool = ToolClient
  import WireAgreement
  import CursorAgreement
  import ToolMirror
  import ServerMessages
  import HeldInput

  datatype Link = Link(
    w: World,
    id: nat,                        // the viewer that is the tool
    input: ServerMessages.Viewer,   // what the server has decoded from it
    requests: Bytes,                // written by the tool, not taken by the server yet
    pipe: Bytes,                    // queued by the server, not read by the tool yet
    reader: Reader<Tool.Tool>)

  datatype Event =
    | Server(step: Step)            // frames, drains, failures, and everything of other viewers
    | ServerReads(io: Io)           // one message of the tool
    | SendCursor(shape: CursorAgreement.Snapshot)
    | ToolReads(n: nat)             // the next n bytes
    | ToolTypes(keysym: nat, pressed: bool)
    | ToolPoints(mask: Byte, x: nat, y: nat)

  // The messages of the tool itself, and connections, are not among the worker's own steps.
  predicate Own(step: Step, id: nat) {
    match step
    case Connect(i) => i == id
    case ClientInit(i, _) => i == id
    case SetEncodings(i, _, _) => i == id
    case RequestUpdate(i, _, _, _) => i == id
    case EnableContinuous(i, _, _, _) => i == id
    case _ => false
  }

  // ---- what the server sends -------------------------------------------------------------------------

  datatype Attempt = Attempt(client: Client, frame: Option<Frame>, io: Io)

  // The attempt to send that a step makes for a viewer.
  ghost function Tried(w: World, id: nat, step: Step): Option<Attempt>
    requires id in w.clients
  {
    var c := w.clients[id];
    match step
    case FrameArrives(served, _, ios) =>
      if c.phase != Normal then None
      else Some(Attempt(Invalidated(c, served, GeometryChanged(w.observed, served), DamageFor(w, served)),
                        Some(served), IoOf(ios, id)))
    case Drained(i, io) => if i == id then Some(Attempt(c, w.observed, io)) else None
    case RequestUpdate(i, incremental, area, io) =>
      if i != id || c.phase != Normal || (c.continuousEnabled && incremental) then None
      else Some(Attempt(c.(continuousArmed := false, delivery := Ask(c.delivery, incremental, area)), w.observed, io))
    case _ => None
  }

  ghost function AttemptBytes(a: Attempt): Bytes {
    var out := TrySend(a.client, a.frame, a.io);
    if out.update.Some? && a.frame.Some?
       && WireAgreement.AllInside(out.update.value.rects, a.frame.value.width, a.frame.value.height)
    then ToolMirror.SentBytes(a.frame.value, out.update.value)
    else []
  }

  ghost function QueuedBytes(w: World, id: nat, step: Step): Bytes {
    if id in w.clients && Tried(w, id, step).Some? then AttemptBytes(Tried(w, id, step).value) else []
  }

  // What a message of the tool asks the worker to do with its picture; keys and pointer moves
  // leave that alone.
  function Meaning(m: ServerMessages.ClientMessage, id: nat, io: Io): Option<Step> {
    match m
    case UpdateRequest(incremental, x, y, width, height) =>
      Some(RequestUpdate(id, incremental, Rect(x, y, width, height), io))
    case SetEncodings(encodings) =>
      Some(ViewerCoherence.SetEncodings(id, DESKTOP_SIZE in encodings, ServerMessages.CONTINUOUS_UPDATES in encodings))
    case _ => None
  }

  ghost function Worked(l: Link, releaseIdle: bool, step: Step): Link {
    l.(w := Next(l.w, releaseIdle, step), pipe := l.pipe + QueuedBytes(l.w, l.id, step))
  }

  // The server acts on a message it has decoded.
  ghost function Obeyed(l: Link, releaseIdle: bool, step: Option<Step>): Link {
    if step.Some? then Worked(l, releaseIdle, step.value) else l
  }

  // The tool's user types or points while the tool is connected.
  function Input(l: Link, event: Event): Bytes {
    if l.reader.failed || l.reader.state.phase != Tool.Streaming || l.reader.state.frame.None? then []
    else
      match event
      case ToolTypes(keysym, pressed) => Tool.KeyBytes(keysym, pressed)
      case ToolPoints(mask, x, y) =>
        var i := l.reader.state.frame.value;
        if i.width == 0 || i.height == 0 then [] else Tool.PointerBytes(mask, x, y, i.width, i.height)
      case _ => []
  }

  ghost function NextLink(l: Link, table: HeldInput.Table, releaseIdle: bool, event: Event): Link {
    match event
    case Server(step) => if Own(step, l.id) then l else Worked(l, releaseIdle, step)
    case ServerReads(io) =>
      if l.id !in l.w.clients || l.w.clients[l.id].phase != Normal then l
      else
        (match ServerMessages.StepOf(table, l.input, l.requests)
         case NeedMore => l
         case Refused(_) => Worked(l, releaseIdle, ProtocolFailure(l.id))
         case Message(n, v) =>
           if v.log == [] || n > |l.requests| then l
           else
             Obeyed(l, releaseIdle, Meaning(v.log[|v.log| - 1], l.id, io)).(input := v, requests := l.requests[n..]))
    case SendCursor(shape) =>
      if l.id in l.w.clients && l.w.clients[l.id].phase == Normal && CursorAgreement.Usable(shape)
      then l.(pipe := l.pipe + CursorAgreement.CursorMessage(shape))
      else l
    case ToolReads(n) =>
      if n > |l.pipe| then l
      else
        var reader := Tool.Receive(l.reader, l.pipe[..n]);
        var written := if |l.reader.state.written| <= |reader.state.written|
                       then reader.state.written[|l.reader.state.written|..] else [];
        l.(pipe := l.pipe[n..], reader := reader, requests := l.requests + written)
    case _ => l.(requests := l.requests + Input(l, event))
  }

  ghost function RunLink(l: Link, table: HeldInput.Table, releaseIdle: bool, events: seq<Event>): Link
    decreases |events|
  {
    if events == [] then l else RunLink(NextLink(l, table, releaseIdle, events[0]), table, releaseIdle, events[1..])
  }

  // ---- what the tool writes --------------------------------------------------------------------------

  predicate SmallSize(width: nat, height: nat) {
    0 < width < 0x1_0000 && 0 < height < 0x1_0000 && Cells(width, height) <= Tool.MAX_PIXELS
  }

  predicate IsRequest(b: Bytes) {
    |b| >= 10 && b[0] == 3 && ReadU16(b, 2) == 0 && ReadU16(b, 4) == 0 && SmallSize(ReadU16(b, 6), ReadU16(b, 8))
  }

  predicate IsEncodings(b: Bytes) {
    |b| >= 16 && b[0] == 2 && b[..16] == Tool.SetEncodingsBytes()
  }

  predicate IsKey(b: Bytes) {
    |b| >= 8 && b[0] == 4
  }

  predicate IsPointer(b: Bytes) {
    |b| >= 6 && b[0] == 5
  }

  // The length of the tool's message at the front; 0: there is none.
  function MessageSize(b: Bytes): (n: nat)
    ensures n <= |b|
  {
    if IsRequest(b) then 10 else if IsEncodings(b) then 16 else if IsKey(b) then 8 else if IsPointer(b) then 6 else 0
  }

  // Whole messages of the tool: its encodings, requests for a picture of an allowed size, keys
  // and pointer moves.
  predicate Requests(b: Bytes)
    decreases |b|
  {
    b == [] || (MessageSize(b) > 0 && Requests(b[MessageSize(b)..]))
  }

  lemma {:induction false} SizeStays(a: Bytes, b: Bytes)
    requires MessageSize(a) > 0
    ensures MessageSize(a + b) == MessageSize(a)
  {
    var c := a + b;
    assert c[0] == a[0];
    if IsRequest(a) {
      assert ReadU16(c, 2) == ReadU16(a, 2) && ReadU16(c, 4) == ReadU16(a, 4);
      assert ReadU16(c, 6) == ReadU16(a, 6) && ReadU16(c, 8) == ReadU16(a, 8);
    } else if IsEncodings(a) {
      assert c[..16] == a[..16];
    }
  }

  lemma {:induction false} RequestsAppend(a: Bytes, b: Bytes)
    requires Requests(a) && Requests(b)
    ensures Requests(a + b)
    decreases |a|
  {
    if a == [] {
      assert a + b == b;
    } else {
      var n := MessageSize(a);
      SizeStays(a, b);
      assert (a + b)[n..] == a[n..] + b;
      RequestsAppend(a[n..], b);
    }
  }

  lemma {:induction false} RequestIsOne(incremental: bool, width: nat, height: nat)
    requires SmallSize(width, height)
    ensures Requests(Tool.RequestBytes(incremental, width, height))
  {
    var b := Tool.RequestBytes(incremental, width, height);
    assert b[10..] == [];
    assert ReadU16(b, 6) == width && ReadU16(b, 8) == height;
  }

  lemma {:induction false} EncodingsAreOne()
    ensures Requests(Tool.SetEncodingsBytes())
  {
    var b := Tool.SetEncodingsBytes();
    assert |b| == 16 && b[0] == 2 && b[16..] == [] && b[..16] == b;
  }

  lemma {:induction false} InputIsOne(l: Link, event: Event)
    ensures Requests(Input(l, event))
  {
    var b := Input(l, event);
    if b != [] {
      assert b[0] == 4 || b[0] == 5;
      assert b[MessageSize(b)..] == [];
    }
  }

  // A tool in its last two phases: once it streams it has a picture of an allowed size.
  predicate Sound(t: Tool.Tool) {
    || (t.phase == Tool.ServerInit && !t.waiting)
    || (t.phase == Tool.Streaming && t.frame.Some? && t.frame.value.Valid()
        && SmallSize(t.frame.value.width, t.frame.value.height))
  }

  // The tool after one message, with what it wrote meanwhile.
  ghost predicate Wrote(before: Tool.Tool, after: Tool.Tool) {
    && |before.written| <= |after.written| && after.written[..|before.written|] == before.written
    && Requests(after.written[|before.written|..])
  }

  lemma {:induction false} WroteNothing(t: Tool.Tool, after: Tool.Tool)
    requires after.written == t.written
    ensures Wrote(t, after)
  {
    assert after.written[|t.written|..] == [];
  }

  lemma {:induction false} WroteTwice(a: Tool.Tool, b: Tool.Tool, c: Tool.Tool)
    requires Wrote(a, b) && Wrote(b, c)
    ensures Wrote(a, c)
    ensures c.written[|a.written|..] == b.written[|a.written|..] + c.written[|b.written|..]
  {
    assert c.written == b.written + c.written[|b.written|..];
    assert c.written[|a.written|..] == b.written[|a.written|..] + c.written[|b.written|..];
    RequestsAppend(b.written[|a.written|..], c.written[|b.written|..]);
    assert c.written[..|a.written|] == b.written[..|a.written|];
  }

  lemma {:induction false} RequestFrameWrites(t: Tool.Tool, incremental: bool)
    requires Sound(t) && t.phase == Tool.Streaming
    ensures Sound(Tool.RequestFrame(t, incremental)) && Wrote(t, Tool.RequestFrame(t, incremental))
  {
    var after := Tool.RequestFrame(t, incremental);
    if t.waiting {
      WroteNothing(t, after);
    } else {
      RequestIsOne(incremental, t.frame.value.width, t.frame.value.height);
      assert after.written[|t.written|..] == Tool.RequestBytes(incremental, t.frame.value.width, t.frame.value.height);
    }
  }

  predicate Header16(r: Tool.Rectangle) {
    r.width < 0x1_0000 && r.height < 0x1_0000
  }

  lemma {:induction false} RectKeepsSound(t: Tool.Tool, b: Bytes, r: Tool.Rectangle)
    requires Sound(t) && t.phase == Tool.Streaming && Tool.Fits(r, |b|) && Header16(r)
    ensures var a := Tool.ApplyRect(t, b, r);
            Sound(a.tool) && a.tool.phase == Tool.Streaming && a.tool.written == t.written
  {
  }

  lemma {:induction false} RectsKeepSound(t: Tool.Tool, b: Bytes, rectangles: seq<Tool.Rectangle>)
    requires Sound(t) && t.phase == Tool.Streaming && Tool.AllFit(rectangles, |b|)
    requires forall i :: 0 <= i < |rectangles| ==> Header16(rectangles[i])
    ensures var a := Tool.ApplyRects(t, b, rectangles);
            Sound(a.tool) && a.tool.phase == Tool.Streaming && a.tool.written == t.written
    decreases |rectangles|
  {
    if rectangles != [] {
      RectKeepsSound(t, b, rectangles[0]);
      RectsKeepSound(Tool.ApplyRect(t, b, rectangles[0]).tool, b, rectangles[1..]);
    }
  }

  lemma {:induction false} ScannedHeaders(b: Bytes, offset: nat, n: nat)
    requires offset <= |b| && Tool.ScanRects(b, offset, n).Scanned?
    ensures forall i :: 0 <= i < n ==> Header16(Tool.ScanRects(b, offset, n).rectangles[i])
    decreases n
  {
    if n > 0 {
      var width, height := ReadU16(b, offset + 4), ReadU16(b, offset + 6);
      var bytes := Tool.PayloadBytes(width, height, ReadS32(b, offset + 8)).value;
      ScannedHeaders(b, offset + 12 + bytes, n - 1);
    }
  }

  lemma {:induction false} UpdateWrites(t: Tool.Tool, b: Bytes)
    requires Sound(t) && t.phase == Tool.Streaming && Tool.OnUpdate(t, b).Message?
    ensures Sound(Tool.OnUpdate(t, b).state) && Wrote(t, Tool.OnUpdate(t, b).state)
  {
    var scan := Tool.ScanRects(b, 4, ReadU16(b, 2));
    ScannedHeaders(b, 4, ReadU16(b, 2));
    RectsKeepSound(t, b[..scan.end], scan.rectangles);
    var a := Tool.ApplyRects(t, b[..scan.end], scan.rectangles);
    var counted := a.tool.(waiting := false, frames := if a.changed then a.tool.frames + 1 else a.tool.frames);
    RequestFrameWrites(counted, !a.resized);
    WroteNothing(t, counted);
    WroteTwice(t, counted, Tool.Completed(a));
  }

  lemma {:induction false} InitWrites(t: Tool.Tool, b: Bytes)
    requires Sound(t) && t.phase == Tool.ServerInit && Tool.OnServerInit(t, b).Message?
    ensures Sound(Tool.OnServerInit(t, b).state) && Wrote(t, Tool.OnServerInit(t, b).state)
  {
    var width, height := ReadU16(b, 0), ReadU16(b, 2);
    assert width < 0x1_0000 && height < 0x1_0000;
    var named := t.(name := b[24..24 + ReadU32(b, 20)], frame := Some(Tool.BlackImage(width, height)), phase := Tool.Streaming);
    var listed := Tool.Write(named, Tool.SetEncodingsBytes());
    EncodingsAreOne();
    WroteNothing(t, named);
    assert listed.written[|named.written|..] == Tool.SetEncodingsBytes();
    WroteTwice(t, named, listed);
    RequestFrameWrites(listed, false);
    WroteTwice(t, listed, Tool.RequestFrame(listed, false));
  }

  lemma {:induction false} StepWrites(t: Tool.Tool, b: Bytes)
    requires Sound(t) && Tool.StepOf(t, b).Message?
    ensures Sound(Tool.StepOf(t, b).state) && Wrote(t, Tool.StepOf(t, b).state)
  {
    if t.phase == Tool.ServerInit {
      InitWrites(t, b);
    } else if b[0] == 0 {
      UpdateWrites(t, b);
    } else {
      WroteNothing(t, t);
    }
  }

  lemma {:induction false} DrainWrites(t: Tool.Tool, b: Bytes)
    requires Sound(t) && !Drain(Tool.ToolStep(), t, b).failed
    ensures Sound(Drain(Tool.ToolStep(), t, b).state) && Wrote(t, Drain(Tool.ToolStep(), t, b).state)
    decreases |b|
  {
    match Tool.StepOf(t, b)
    case NeedMore => WroteNothing(t, t);
    case Refused(_) =>
    case Message(n, next) =>
      if 0 < n <= |b| {
        StepWrites(t, b);
        DrainWrites(next, b[n..]);
        WroteTwice(t, next, Drain(Tool.ToolStep(), next, b[n..]).state);
      } else {
        WroteNothing(t, t);
      }
  }

  // ---- what the server takes from the tool -----------------------------------------------------------

  predicate SmallArea(area: Rect) {
    area.width > 0 && area.height > 0 && area.Area() <= Tool.MAX_PIXELS
  }

  // The decoded meaning of a message: a request of an allowed size, the encodings, or input.
  predicate ToolMessage(m: ServerMessages.ClientMessage) {
    match m
    case UpdateRequest(_, x, y, width, height) => SmallArea(Rect(x, y, width, height))
    case SetEncodings(encodings) => ServerMessages.CONTINUOUS_UPDATES !in encodings
    case KeyEvent(_, _) => true
    case PointerEvent(_, _, _) => true
    case _ => false
  }

  // The message at the front presses one key too many.
  predicate OneKeyTooMany(table: HeldInput.Table, v: ServerMessages.Viewer, b: Bytes) {
    && IsKey(b) && b[1] != 0 && HeldInput.Code(table, ReadU32(b, 4)) != 0
    && ReadU32(b, 4) !in v.held && |v.held| >= HeldInput.MAX_HELD_KEYS
  }

  // The server refuses the message at the front exactly when it presses one key too many;
  // otherwise it takes the message whole, as one of those the tool writes.
  ghost predicate Decodes(table: HeldInput.Table, v: ServerMessages.Viewer, b: Bytes) {
    match ServerMessages.StepOf(table, v, b)
    case NeedMore => false
    case Refused(_) => OneKeyTooMany(table, v, b)
    case Message(n, next) =>
      && !OneKeyTooMany(table, v, b) && n == MessageSize(b) && Requests(b[n..])
      && next.log != [] && ToolMessage(next.log[|next.log| - 1])
  }

  lemma {:induction false} RequestDecodes(table: HeldInput.Table, v: ServerMessages.Viewer, b: Bytes)
    requires IsRequest(b) && Requests(b[10..])
    ensures Decodes(table, v, b)
  {
    var m := b[..10];
    CellsIsProduct(ReadU16(b, 6), ReadU16(b, 8));
    assert ReadU16(m, 2) == ReadU16(b, 2) && ReadU16(m, 4) == ReadU16(b, 4);
    assert ReadU16(m, 6) == ReadU16(b, 6) && ReadU16(m, 8) == ReadU16(b, 8);
    var asked := ServerMessages.UpdateRequest(m[1] != 0, ReadU16(m, 2), ReadU16(m, 4), ReadU16(m, 6), ReadU16(m, 8));
    assert ServerMessages.Handle(table, v, m) == Some(ServerMessages.Logged(v, asked));
  }

  lemma {:induction false} EncodingsDecode(table: HeldInput.Table, v: ServerMessages.Viewer, b: Bytes)
    requires IsEncodings(b) && Requests(b[16..])
    ensures Decodes(table, v, b)
  {
    var m := b[..16];
    assert m == [2, 0, 0, 3, 0, 0, 0, 0, 0xFF, 0xFF, 0xFF, 0x21, 0xFF, 0xFF, 0xFF, 0x11];
    assert b[0] == m[0] && b[2] == m[2] && b[3] == m[3];
    assert ServerMessages.ExtentOf(v, b) == ServerMessages.Known(16) && ServerMessages.ExtentOf(v, m) == ServerMessages.Known(16);
    ToolEncodings(m);
  }

  lemma {:induction false} KeyDecodes(table: HeldInput.Table, v: ServerMessages.Viewer, b: Bytes)
    requires IsKey(b) && Requests(b[8..])
    ensures Decodes(table, v, b)
  {
    var m := b[..8];
    assert m[0] == b[0] && m[1] == b[1] && ReadU32(m, 4) == ReadU32(b, 4);
    assert ServerMessages.Handle(table, v, m) == ServerMessages.AfterKey(table, v, ReadU32(b, 4), b[1] != 0);
  }

  lemma {:induction false} PointerDecodes(table: HeldInput.Table, v: ServerMessages.Viewer, b: Bytes)
    requires IsPointer(b) && Requests(b[6..])
    ensures Decodes(table, v, b)
  {
    var m := b[..6];
    assert m[0] == b[0] && m[1] == b[1] && ReadU16(m, 2) == ReadU16(b, 2) && ReadU16(m, 4) == ReadU16(b, 4);
    var moved := ServerMessages.PointerEvent(m[1], ReadU16(m, 2), ReadU16(m, 4));
    assert ServerMessages.Handle(table, v, m) == Some(ServerMessages.Logged(v, moved));
  }

  lemma {:induction false} ToolEncodings(m: Bytes)
    requires m == [2, 0, 0, 3, 0, 0, 0, 0, 0xFF, 0xFF, 0xFF, 0x21, 0xFF, 0xFF, 0xFF, 0x11]
    ensures ServerMessages.ReadEncodings(m, 4, 3) == [RAW, DESKTOP_SIZE, CURSOR]
    ensures ServerMessages.CONTINUOUS_UPDATES !in ServerMessages.ReadEncodings(m, 4, 3)
  {
    assert ServerMessages.ReadEncodings(m, 16, 0) == [];
    assert ReadS32(m, 4) == RAW && ReadS32(m, 8) == DESKTOP_SIZE && ReadS32(m, 12) == CURSOR;
    assert ServerMessages.ReadEncodings(m, 12, 1) == [CURSOR];
    assert ServerMessages.ReadEncodings(m, 8, 2) == [DESKTOP_SIZE, CURSOR];
  }

  lemma {:induction false} RequestsDecode(table: HeldInput.Table, v: ServerMessages.Viewer, b: Bytes)
    requires Requests(b) && b != []
    ensures Decodes(table, v, b)
  {
    if IsRequest(b) { RequestDecodes(table, v, b); }
    else if IsEncodings(b) { EncodingsDecode(table, v, b); }
    else if IsKey(b) { KeyDecodes(table, v, b); }
    else { PointerDecodes(table, v, b); }
  }

  // ---- the viewer that is the tool -------------------------------------------------------------------

  // It never turned continuous updates on, and asks for pictures of an allowed size.
  predicate Plain(c: Client) {
    && (c.phase == Normal || c.phase == Failed) && !c.continuousEnabled && !c.continuousArmed
    && (c.delivery.request.Some? ==> SmallArea(c.delivery.request.value.area))
  }

  ghost predicate SamePicture(a: Client, b: Client) {
    a.sent == b.sent && a.fbWidth == b.fbWidth && a.fbHeight == b.fbHeight
  }

  predicate SmallFrame(f: Option<Frame>) {
    f.Some? ==> Cells(f.value.width, f.value.height) <= Tool.MAX_PIXELS
  }

  lemma {:induction false} UnsentKeepsPicture(c: Client, frame: Option<Frame>, io: Io)
    requires Plain(c) && TrySend(c, frame, io).update.None?
    ensures var out := TrySend(c, frame, io).client;
            Plain(out) && SamePicture(out, c)
  {
  }

  lemma {:induction false} SentIsPlain(c: Client, frame: Option<Frame>, io: Io)
    requires Plain(c) && TrySend(c, frame, io).update.Some?
    ensures frame.Some? && Plain(TrySend(c, frame, io).client)
    ensures c.delivery.request.Some? && Arm(c) == c
  {
  }

  // Where the tool stands after reading some bytes from a point where none were left.
  ghost predicate Reads(t: Tool.Tool, bytes: Bytes, after: Tool.Tool) {
    Drain(Tool.ToolStep(), t, bytes) == Reader(after, [], false)
  }

  lemma {:induction false} ReadsNothing(t: Tool.Tool)
    requires t.phase == Tool.Streaming
    ensures Reads(t, [], t)
  {
    assert Tool.ToolStep()(t, []) == NeedMore;
  }

  lemma {:induction false} ReadsMessage(t: Tool.Tool, message: Bytes, after: Tool.Tool)
    requires message != [] && Tool.StepOf(t, message) == Message(|message|, after) && after.phase == Tool.Streaming
    ensures Reads(t, message, after)
  {
    assert message[|message|..] == [];
    ReadsNothing(after);
  }

  // One attempt of the server to send, as the tool sees it.
  lemma {:induction false} AttemptIsRead(a: Attempt, t: Tool.Tool) returns (after: Tool.Tool)
    requires Plain(a.client) && ClientOk(a.client) && SmallFrame(a.frame)
    requires t.phase == Tool.Streaming && ToolMirror.Mirrors(t, a.client)
    ensures Reads(t, AttemptBytes(a), after) && after.phase == Tool.Streaming
    ensures var out := TrySend(a.client, a.frame, a.io).client;
            Plain(out) && ToolMirror.Mirrors(after, out)
  {
    if TrySend(a.client, a.frame, a.io).update.None? {
      UnsentKeepsPicture(a.client, a.frame, a.io);
      ReadsNothing(t);
      after := t;
    } else {
      SentIsPlain(a.client, a.frame, a.io);
      after := SentIsRead(a.client, a.frame.value, a.io, t);
    }
  }

  lemma {:induction false} SentIsRead(c: Client, f: Frame, io: Io, t: Tool.Tool) returns (after: Tool.Tool)
    requires Plain(c) && ClientOk(c) && SmallFrame(Some(f)) && TrySend(c, Some(f), io).update.Some?
    requires Arm(c) == c && c.delivery.request.Some?
    requires t.phase == Tool.Streaming && ToolMirror.Mirrors(t, c)
    ensures Reads(t, AttemptBytes(Attempt(c, Some(f), io)), after) && after.phase == Tool.Streaming
    ensures ToolMirror.Mirrors(after, TrySend(c, Some(f), io).client)
  {
    after := ToolMirror.UpdateKeepsMirror(t, c, f, io, c.delivery.request.value.area, []);
    var bytes := ToolMirror.SentBytes(f, TrySend(c, Some(f), io).update.value);
    assert bytes + [] == bytes;
    ReadsMessage(t, bytes, after);
  }

  // The client an attempt starts from.
  lemma {:induction false} TriedIsPlain(w: World, id: nat, step: Step)
    requires id in w.clients && Plain(w.clients[id]) && ClientOk(w.clients[id])
    requires Tried(w, id, step).Some?
    requires step.RequestUpdate? ==> SmallArea(step.area)
    ensures var a := Tried(w, id, step).value;
            Plain(a.client) && ClientOk(a.client) && SamePicture(a.client, w.clients[id])
  {
    var c := w.clients[id];
    if step.FrameArrives? {
      var served := step.served;
      InvalidateCovers(c.delivery, served.width, served.height, 0, 0);
      if DamageFor(w, served).Some? { AddAllCovers(c.delivery.pending, DamageFor(w, served).value, 0, 0); }
    }
  }

  // The step of the worker, from the tool's point of view.
  lemma {:induction false} StepIsAttempt(w: World, releaseIdle: bool, id: nat, step: Step)
    requires id in w.clients && Plain(w.clients[id]) && id in Next(w, releaseIdle, step).clients
    requires !Own(step, id) || step.RequestUpdate? || (step.SetEncodings? && !step.continuous)
    requires step.RequestUpdate? ==> SmallArea(step.area)
    ensures var c' := Next(w, releaseIdle, step).clients[id];
            if Tried(w, id, step).Some?
            then var a := Tried(w, id, step).value;
                 c' == TrySend(a.client, a.frame, a.io).client
            else Plain(c') && SamePicture(c', w.clients[id])
  {
  }

  // ---- the invariant ---------------------------------------------------------------------------------

  // The tool after everything queued so far.
  ghost function End(l: Link): Reader<Tool.Tool> {
    Drain(Tool.ToolStep(), l.reader.state, l.reader.buffer + l.pipe)
  }

  // It reads to the end of a message, and then mirrors the server's viewer.
  ghost predicate EndOk(l: Link) {
    var end := End(l);
    && end == Reader(end.state, [], false) && end.state.phase == Tool.Streaming
    && (l.id in l.w.clients ==> Plain(l.w.clients[l.id]) && ToolMirror.Mirrors(end.state, l.w.clients[l.id]))
  }

  ghost predicate LinkInv(l: Link) {
    && Inv(l.w) && SmallFrame(l.w.observed) && Requests(l.requests)
    && Sound(l.reader.state) && !l.reader.failed
    && Tool.StepOf(l.reader.state, l.reader.buffer) == NeedMore
    && EndOk(l)
  }

  // What is assumed of the frames: trusted hints are honest, and the tool allows their size.
  ghost predicate FairStep(w: World, step: Step) {
    HonestStep(w, step) && (step.FrameArrives? ==> SmallFrame(Some(step.served)))
  }

  // A read within the receive budget.
  predicate WithinBudget(l: Link, event: Event) {
    event.ToolReads? ==> |l.reader.buffer| + event.n <= Tool.MAX_RECEIVE
  }

  ghost predicate Fair(l: Link, event: Event) {
    (event.Server? ==> FairStep(l.w, event.step)) && WithinBudget(l, event)
  }

  // Bytes queued behind the others are read from where the tool will stand.
  lemma {:induction false} QueueMore(l: Link, end: Tool.Tool, more: Bytes, after: Tool.Tool)
    requires End(l) == Reader(end, [], false) && Reads(end, more, after)
    ensures End(l.(pipe := l.pipe + more)) == Reader(after, [], false)
  {
    var whole := l.reader.buffer + (l.pipe + more);
    assert whole == l.reader.buffer + l.pipe + more;
    ReadsOn(l.reader.state, l.reader.buffer + l.pipe, end, more, whole, after);
  }

  lemma {:induction false} ReadsOn(t: Tool.Tool, b: Bytes, mid: Tool.Tool, more: Bytes, whole: Bytes, after: Tool.Tool)
    requires Reads(t, b, mid) && Reads(mid, more, after) && whole == b + more
    ensures Reads(t, whole, after)
  {
    Tool.ToolIsStable();
    DrainThenMore(Tool.ToolStep(), t, b, more);
    assert [] + more == more;
  }

  // A part of the bytes is read first: the reader waits, and the rest leads to the same end.
  lemma {:induction false} ReadsFirst(t: Tool.Tool, b: Bytes, rest: Bytes, after: Tool.Tool)
    requires Reads(t, b + rest, after)
    ensures var r := Drain(Tool.ToolStep(), t, b);
            !r.failed && Tool.StepOf(r.state, r.buffer) == NeedMore && Reads(r.state, r.buffer + rest, after)
  {
    Tool.ToolIsStable();
    DrainThenMore(Tool.ToolStep(), t, b, rest);
    LeftoverWaits(Tool.ToolStep(), t, b);
    assert Tool.ToolStep()(Drain(Tool.ToolStep(), t, b).state, Drain(Tool.ToolStep(), t, b).buffer)
        == Tool.StepOf(Drain(Tool.ToolStep(), t, b).state, Drain(Tool.ToolStep(), t, b).buffer);
  }

  lemma {:induction false} NextKeepsSmall(w: World, releaseIdle: bool, step: Step)
    requires SmallFrame(w.observed) && (step.FrameArrives? ==> SmallFrame(Some(step.served)))
    ensures SmallFrame(Next(w, releaseIdle, step).observed)
  {
  }

  lemma {:induction false} NoneTried(w: World, releaseIdle: bool, id: nat, step: Step)
    requires id !in w.clients && !(step.Connect? && step.id == id)
    ensures id !in Next(w, releaseIdle, step).clients
  {
  }

  // A step of the worker keeps the link in order.
  lemma {:induction false} WorkedKeepsInv(l: Link, releaseIdle: bool, step: Step)
    requires LinkInv(l) && FairStep(l.w, step)
    requires !Own(step, l.id) || step.RequestUpdate? || (step.SetEncodings? && !step.continuous)
    requires step.RequestUpdate? && step.id == l.id ==> SmallArea(step.area)
    ensures LinkInv(Worked(l, releaseIdle, step))
  {
    var w' := Next(l.w, releaseIdle, step);
    StepKeepsInv(l.w, releaseIdle, step);
    NextKeepsSmall(l.w, releaseIdle, step);
    var after := WorkedEnd(l, releaseIdle, step);
    QueueMore(l, End(l).state, QueuedBytes(l.w, l.id, step), after);
  }

  // Where the tool stands after what a step queued.
  lemma {:induction false} WorkedEnd(l: Link, releaseIdle: bool, step: Step) returns (after: Tool.Tool)
    requires LinkInv(l) && FairStep(l.w, step)
    requires !Own(step, l.id) || step.RequestUpdate? || (step.SetEncodings? && !step.continuous)
    requires step.RequestUpdate? && step.id == l.id ==> SmallArea(step.area)
    ensures Reads(End(l).state, QueuedBytes(l.w, l.id, step), after) && after.phase == Tool.Streaming
    ensures var w' := Next(l.w, releaseIdle, step);
            l.id in w'.clients ==> Plain(w'.clients[l.id]) && ToolMirror.Mirrors(after, w'.clients[l.id])
  {
    var w' := Next(l.w, releaseIdle, step);
    var t := End(l).state;
    if l.id !in l.w.clients {
      NoneTried(l.w, releaseIdle, l.id, step);
      ReadsNothing(t);
      after := t;
    } else if Tried(l.w, l.id, step).Some? {
      after := TriedEnd(l.w, releaseIdle, l.id, step, t);
    } else {
      if l.id in w'.clients { UntriedStep(l.w, releaseIdle, l.id, step); }
      ReadsNothing(t);
      after := t;
    }
  }

  lemma {:induction false} UntriedStep(w: World, releaseIdle: bool, id: nat, step: Step)
    requires id in w.clients && Plain(w.clients[id]) && id in Next(w, releaseIdle, step).clients
    requires !Own(step, id) || step.RequestUpdate? || (step.SetEncodings? && !step.continuous)
    requires step.RequestUpdate? && step.id == id ==> SmallArea(step.area)
    requires Tried(w, id, step).None?
    ensures Plain(Next(w, releaseIdle, step).clients[id]) && SamePicture(Next(w, releaseIdle, step).clients[id], w.clients[id])
  {
  }

  lemma {:induction false} TriedEnd(w: World, releaseIdle: bool, id: nat, step: Step, t: Tool.Tool) returns (after: Tool.Tool)
    requires Inv(w) && SmallFrame(w.observed) && (step.FrameArrives? ==> SmallFrame(Some(step.served)))
    requires id in w.clients && Plain(w.clients[id]) && Tried(w, id, step).Some?
    requires !Own(step, id) || step.RequestUpdate? || (step.SetEncodings? && !step.continuous)
    requires step.RequestUpdate? && step.id == id ==> SmallArea(step.area)
    requires t.phase == Tool.Streaming && ToolMirror.Mirrors(t, w.clients[id])
    ensures Reads(t, QueuedBytes(w, id, step), after) && after.phase == Tool.Streaming
    ensures var w' := Next(w, releaseIdle, step);
            id in w'.clients ==> Plain(w'.clients[id]) && ToolMirror.Mirrors(after, w'.clients[id])
  {
    var a := Tried(w, id, step).value;
    TriedIsPlain(w, id, step);
    after := AttemptIsRead(a, t);
    if id in Next(w, releaseIdle, step).clients { StepIsAttempt(w, releaseIdle, id, step); }
  }

  lemma {:induction false} RefusedKeepsInv(l: Link, table: HeldInput.Table, releaseIdle: bool, io: Io)
    requires LinkInv(l) && l.id in l.w.clients && l.w.clients[l.id].phase == Normal
    requires ServerMessages.StepOf(table, l.input, l.requests).Refused?
    ensures LinkInv(NextLink(l, table, releaseIdle, ServerReads(io)))
  {
    WorkedKeepsInv(l, releaseIdle, ProtocolFailure(l.id));
    RefusedIs(l, table, releaseIdle, io);
  }

  lemma {:induction false} RefusedIs(l: Link, table: HeldInput.Table, releaseIdle: bool, io: Io)
    requires l.id in l.w.clients && l.w.clients[l.id].phase == Normal
    requires ServerMessages.StepOf(table, l.input, l.requests).Refused?
    ensures NextLink(l, table, releaseIdle, ServerReads(io)) == Worked(l, releaseIdle, ProtocolFailure(l.id))
  {
  }

  lemma {:induction false} IdleServerReads(l: Link, table: HeldInput.Table, releaseIdle: bool, io: Io)
    requires l.id !in l.w.clients || l.w.clients[l.id].phase != Normal || l.requests == []
    ensures NextLink(l, table, releaseIdle, ServerReads(io)) == l
  {
  }

  // A message of the tool is taken whole, or ends the viewer.
  lemma {:induction false} ServerReadsKeepsInv(l: Link, table: HeldInput.Table, releaseIdle: bool, io: Io)
    requires LinkInv(l)
    ensures LinkInv(NextLink(l, table, releaseIdle, ServerReads(io)))
  {
    if l.id in l.w.clients && l.w.clients[l.id].phase == Normal && l.requests != [] {
      RequestsDecode(table, l.input, l.requests);
      var taken := ServerMessages.StepOf(table, l.input, l.requests);
      if taken.Message? {
        TakenKeepsInv(l, table, releaseIdle, io, taken.consumed, taken.state);
      } else {
        RefusedKeepsInv(l, table, releaseIdle, io);
      }
    } else {
      IdleServerReads(l, table, releaseIdle, io);
    }
  }

  lemma {:induction false} TakenKeepsInv(l: Link, table: HeldInput.Table, releaseIdle: bool, io: Io, n: nat, v: ServerMessages.Viewer)
    requires LinkInv(l) && l.id in l.w.clients && l.w.clients[l.id].phase == Normal
    requires ServerMessages.StepOf(table, l.input, l.requests) == Message(n, v) && v.log != [] && n <= |l.requests|
    requires Requests(l.requests[n..]) && ToolMessage(v.log[|v.log| - 1])
    ensures LinkInv(NextLink(l, table, releaseIdle, ServerReads(io)))
  {
    var step := Meaning(v.log[|v.log| - 1], l.id, io);
    if step.Some? {
      MeaningFits(v.log[|v.log| - 1], l.id, io);
      WorkedKeepsInv(l, releaseIdle, step.value);
    }
    RequestsTaken(Obeyed(l, releaseIdle, step), v, l.requests[n..]);
    ServerReadsIs(l, table, releaseIdle, io, n, v);
  }

  lemma {:induction false} MeaningFits(m: ServerMessages.ClientMessage, id: nat, io: Io)
    requires ToolMessage(m) && Meaning(m, id, io).Some?
    ensures var step := Meaning(m, id, io).value;
            && (step.RequestUpdate? || (step.SetEncodings? && !step.continuous))
            && (step.RequestUpdate? ==> SmallArea(step.area)) && !step.FrameArrives?
  {
  }

  lemma {:induction false} ServerReadsIs(l: Link, table: HeldInput.Table, releaseIdle: bool, io: Io, n: nat, v: ServerMessages.Viewer)
    requires l.id in l.w.clients && l.w.clients[l.id].phase == Normal
    requires ServerMessages.StepOf(table, l.input, l.requests) == Message(n, v) && v.log != [] && n <= |l.requests|
    ensures NextLink(l, table, releaseIdle, ServerReads(io))
            == Obeyed(l, releaseIdle, Meaning(v.log[|v.log| - 1], l.id, io)).(input := v, requests := l.requests[n..])
  {
  }

  lemma {:induction false} RequestsTaken(l: Link, v: ServerMessages.Viewer, requests: Bytes)
    requires LinkInv(l) && Requests(requests)
    ensures LinkInv(l.(input := v, requests := requests))
  {
    assert End(l.(input := v, requests := requests)) == End(l);
  }

  lemma {:induction false} SendCursorKeepsInv(l: Link, table: HeldInput.Table, releaseIdle: bool, shape: CursorAgreement.Snapshot)
    requires LinkInv(l)
    ensures LinkInv(NextLink(l, table, releaseIdle, SendCursor(shape)))
  {
    if l.id in l.w.clients && l.w.clients[l.id].phase == Normal && CursorAgreement.Usable(shape) {
      var t := End(l).state;
      var message := CursorAgreement.CursorMessage(shape);
      var after := CursorAgreement.CursorAgrees(t, shape, [], 0, 0);
      assert message + [] == message;
      ReadsMessage(t, message, after);
      QueueMore(l, t, message, after);
    }
  }

  lemma {:induction false} ReaderMoves(l: Link, r: Reader<Tool.Tool>, pipe: Bytes, requests: Bytes)
    requires LinkInv(l) && Sound(r.state) && !r.failed && Tool.StepOf(r.state, r.buffer) == NeedMore
    requires Reads(r.state, r.buffer + pipe, End(l).state) && Requests(requests)
    ensures LinkInv(l.(reader := r, pipe := pipe, requests := requests))
  {
    assert End(l.(reader := r, pipe := pipe, requests := requests)) == End(l);
  }

  lemma {:induction false} ToolReadsIs(l: Link, table: HeldInput.Table, releaseIdle: bool, n: nat, r: Reader<Tool.Tool>, written: Bytes)
    requires n <= |l.pipe| && r == Tool.Receive(l.reader, l.pipe[..n])
    requires |l.reader.state.written| <= |r.state.written| && written == r.state.written[|l.reader.state.written|..]
    ensures NextLink(l, table, releaseIdle, ToolReads(n))
            == l.(reader := r, pipe := l.pipe[n..], requests := l.requests + written)
  {
  }

  // Reading the next bytes does not change where the tool ends.
  lemma {:induction false} ToolReadsKeepsInv(l: Link, table: HeldInput.Table, releaseIdle: bool, n: nat)
    requires LinkInv(l) && |l.reader.buffer| + n <= Tool.MAX_RECEIVE
    ensures LinkInv(NextLink(l, table, releaseIdle, ToolReads(n)))
  {
    if n <= |l.pipe| {
      var now := l.reader.buffer + l.pipe[..n];
      assert now + l.pipe[n..] == l.reader.buffer + l.pipe;
      ReadsFirst(l.reader.state, now, l.pipe[n..], End(l).state);
      DrainWrites(l.reader.state, now);
      ReadKeepsInv(l, table, releaseIdle, n, Drain(Tool.ToolStep(), l.reader.state, now));
    }
  }

  lemma {:induction false} ReadKeepsInv(l: Link, table: HeldInput.Table, releaseIdle: bool, n: nat, r: Reader<Tool.Tool>)
    requires LinkInv(l) && n <= |l.pipe| && r == Tool.Receive(l.reader, l.pipe[..n])
    requires !r.failed && Sound(r.state) && Wrote(l.reader.state, r.state)
    requires Tool.StepOf(r.state, r.buffer) == NeedMore && Reads(r.state, r.buffer + l.pipe[n..], End(l).state)
    ensures LinkInv(NextLink(l, table, releaseIdle, ToolReads(n)))
  {
    var written := r.state.written[|l.reader.state.written|..];
    RequestsAppend(l.requests, written);
    ReaderMoves(l, r, l.pipe[n..], l.requests + written);
    ToolReadsIs(l, table, releaseIdle, n, r, written);
  }

  lemma {:induction false} EventKeepsInv(l: Link, table: HeldInput.Table, releaseIdle: bool, event: Event)
    requires LinkInv(l) && Fair(l, event)
    ensures LinkInv(NextLink(l, table, releaseIdle, event))
  {
    match event
    case Server(step) => if !Own(step, l.id) { WorkedKeepsInv(l, releaseIdle, step); }
    case ServerReads(io) => ServerReadsKeepsInv(l, table, releaseIdle, io);
    case SendCursor(shape) => SendCursorKeepsInv(l, table, releaseIdle, shape);
    case ToolReads(n) => ToolReadsKeepsInv(l, table, releaseIdle, n);
    case _ =>
      InputIsOne(l, event);
      RequestsAppend(l.requests, Input(l, event));
      RequestsTaken(l, l.input, l.requests + Input(l, event));
  }

  // ---- the receive budget ----------------------------------------------------------------------------

  // Whether the rectangles of an update are all there is decided by their own bytes.
  lemma {:induction false} ScanIsDecided(b: Bytes, more: Bytes, offset: nat, n: nat)
    requires offset <= |b| && Tool.ScanRects(b + more, offset, n).Scanned?
    requires Tool.ScanRects(b + more, offset, n).end <= |b|
    ensures !Tool.ScanRects(b, offset, n).Wait?
    decreases n
  {
    if n > 0 {
      assert offset + 12 <= |b|;
      Tool.ReadsAgree(b, more, offset + 4);
      Tool.ReadsAgree(b, more, offset + 6);
      Tool.ReadsAgree(b, more, offset + 8);
      var bytes := Tool.PayloadBytes(ReadU16(b, offset + 4), ReadU16(b, offset + 6), ReadS32(b, offset + 8)).value;
      ScanIsDecided(b, more, offset + 12 + bytes, n - 1);
    }
  }

  lemma {:induction false} UpdateIsDecided(t: Tool.Tool, b: Bytes, more: Bytes)
    requires b != [] && Tool.OnUpdate(t, b + more).Message? && Tool.OnUpdate(t, b + more).consumed <= |b|
    ensures !Tool.OnUpdate(t, b).NeedMore?
  {
    Tool.ReadsAgree(b, more, 2);
    var n := ReadU16(b + more, 2);
    assert |b| >= 4;
    ScanIsDecided(b, more, 4, n);
  }

  lemma {:induction false} InitIsDecided(t: Tool.Tool, b: Bytes, more: Bytes)
    requires Tool.OnServerInit(t, b + more).Message? && Tool.OnServerInit(t, b + more).consumed <= |b|
    ensures !Tool.OnServerInit(t, b).NeedMore?
  {
    Tool.ReadsAgree(b, more, 20);
  }

  // A message that lies in the buffer is not waited for.
  lemma {:induction false} MessageIsDecided(t: Tool.Tool, b: Bytes, more: Bytes)
    requires Sound(t) && b != [] && Tool.StepOf(t, b + more).Message? && Tool.StepOf(t, b + more).consumed <= |b|
    ensures !Tool.StepOf(t, b).NeedMore?
  {
    if t.phase == Tool.ServerInit {
      InitIsDecided(t, b, more);
    } else {
      assert (b + more)[0] == b[0];
      if b[0] == 0 { UpdateIsDecided(t, b, more); } else { Tool.ReadsAgree(b, more, 4); }
    }
  }

  lemma {:induction false} ScanLimit(b: Bytes, offset: nat, n: nat)
    requires offset <= |b| && offset <= Tool.MAX_UPDATE_BYTES && Tool.ScanRects(b, offset, n).Scanned?
    ensures Tool.ScanRects(b, offset, n).end <= Tool.MAX_UPDATE_BYTES
    decreases n
  {
    if n > 0 {
      var bytes := Tool.PayloadBytes(ReadU16(b, offset + 4), ReadU16(b, offset + 6), ReadS32(b, offset + 8)).value;
      ScanLimit(b, offset + 12 + bytes, n - 1);
    }
  }

  lemma {:induction false} MessageLimit(t: Tool.Tool, b: Bytes)
    requires Sound(t) && Tool.StepOf(t, b).Message?
    ensures Tool.StepOf(t, b).consumed <= Tool.MAX_UPDATE_BYTES
  {
    if t.phase == Tool.Streaming && b[0] == 0 { ScanLimit(b, 4, ReadU16(b, 2)); }
  }

  // What the tool has in its buffer is less than one message.
  lemma {:induction false} BufferIsSmall(l: Link)
    requires LinkInv(l)
    ensures |l.reader.buffer| < Tool.MAX_UPDATE_BYTES
  {
    var t, b := l.reader.state, l.reader.buffer;
    if b != [] {
      var front := Tool.ToolStep()(t, b + l.pipe);
      assert front == Tool.StepOf(t, b + l.pipe) && End(l).buffer == [] && !End(l).failed;
      assert front.Message?;
      MessageLimit(t, b + l.pipe);
      if front.consumed <= |b| { MessageIsDecided(t, b, l.pipe); }
    }
  }

  // In every state a run can reach, a read fails exactly when it takes the buffer over the
  // receive budget; a read of up to 32 MiB never does.
  lemma {:induction false} ReadFailsIff(l: Link, table: HeldInput.Table, releaseIdle: bool, n: nat)
    requires LinkInv(l)
    ensures NextLink(l, table, releaseIdle, ToolReads(n)).reader.failed
            <==> n <= |l.pipe| && |l.reader.buffer| + n > Tool.MAX_RECEIVE
    ensures n <= Tool.MAX_RECEIVE - Tool.MAX_UPDATE_BYTES ==> WithinBudget(l, ToolReads(n))
  {
    BufferIsSmall(l);
    if n <= |l.pipe| && |l.reader.buffer| + n <= Tool.MAX_RECEIVE {
      ToolReadsKeepsInv(l, table, releaseIdle, n);
    }
  }

  // ---- whole runs ------------------------------------------------------------------------------------

  ghost predicate FairRun(l: Link, table: HeldInput.Table, releaseIdle: bool, events: seq<Event>)
    decreases |events|
  {
    events == []
    || (Fair(l, events[0]) && FairRun(NextLink(l, table, releaseIdle, events[0]), table, releaseIdle, events[1..]))
  }

  lemma {:induction false} RunKeepsLink(l: Link, table: HeldInput.Table, releaseIdle: bool, events: seq<Event>)
    requires LinkInv(l) && FairRun(l, table, releaseIdle, events)
    ensures LinkInv(RunLink(l, table, releaseIdle, events))
    decreases |events|
  {
    if events != [] {
      EventKeepsInv(l, table, releaseIdle, events[0]);
      RunKeepsLink(NextLink(l, table, releaseIdle, events[0]), table, releaseIdle, events[1..]);
    }
  }

  // The frames of a run are fair, and no read is larger than 32 MiB.
  ghost predicate SmallReads(l: Link, table: HeldInput.Table, releaseIdle: bool, events: seq<Event>)
    decreases |events|
  {
    events == []
    || (&& (events[0].Server? ==> FairStep(l.w, events[0].step))
        && (events[0].ToolReads? ==> events[0].n <= Tool.MAX_RECEIVE - Tool.MAX_UPDATE_BYTES)
        && SmallReads(NextLink(l, table, releaseIdle, events[0]), table, releaseIdle, events[1..]))
  }

  // Reads of up to 32 MiB never meet the receive budget, whatever happens between them.
  lemma {:induction false} SmallReadsAreFair(l: Link, table: HeldInput.Table, releaseIdle: bool, events: seq<Event>)
    requires LinkInv(l) && SmallReads(l, table, releaseIdle, events)
    ensures FairRun(l, table, releaseIdle, events)
    decreases |events|
  {
    if events != [] {
      if events[0].ToolReads? { ReadFailsIff(l, table, releaseIdle, events[0].n); }
      EventKeepsInv(l, table, releaseIdle, events[0]);
      SmallReadsAreFair(NextLink(l, table, releaseIdle, events[0]), table, releaseIdle, events[1..]);
    }
  }

  // The server has just queued its ServerInit for the tool, whatever else it has been doing.
  ghost predicate Begins(l: Link, name: Bytes) {
    && Inv(l.w) && SmallFrame(l.w.observed) && l.id in l.w.clients
    && (var c := l.w.clients[l.id];
        && Plain(c) && c.sent == imap[] && SmallSize(c.fbWidth, c.fbHeight)
        && l.pipe == InitBytes(c.fbWidth, c.fbHeight, name) && |name| <= Tool.MAX_TEXT)
    && l.requests == [] && l.reader.buffer == [] && !l.reader.failed
    && l.reader.state.phase == Tool.ServerInit && !l.reader.state.waiting
  }

  lemma {:induction false} BeginsInOrder(l: Link, name: Bytes)
    requires Begins(l, name)
    ensures LinkInv(l)
  {
    var c := l.w.clients[l.id];
    var t := l.reader.state;
    WireAgreement.ServerInitAgrees(t, c.fbWidth, c.fbHeight, name, []);
    assert l.pipe + [] == l.pipe && [] + l.pipe == l.pipe;
    var ready := Tool.StepOf(t, l.pipe).state;
    ReadsMessage(t, l.pipe, ready);
  }

  // That is where ClientInit leaves a new viewer of any worker.
  lemma {:induction false} ClientInitBegins(w: World, releaseIdle: bool, id: nat, bootstrap: Option<(nat, nat)>,
                                            input: ServerMessages.Viewer, t: Tool.Tool, name: Bytes)
    requires Inv(w) && SmallFrame(w.observed) && id in w.clients && w.clients[id] == NEW_CLIENT
    requires var c := Next(w, releaseIdle, ViewerCoherence.ClientInit(id, bootstrap)).clients[id];
             c.phase == Normal && Cells(c.fbWidth, c.fbHeight) <= Tool.MAX_PIXELS
    requires t.phase == Tool.ServerInit && !t.waiting && |name| <= Tool.MAX_TEXT
    ensures var w' := Next(w, releaseIdle, ViewerCoherence.ClientInit(id, bootstrap));
            var c := w'.clients[id];
            Begins(Link(w', id, input, [], InitBytes(c.fbWidth, c.fbHeight, name), Reader(t, [], false)), name)
  {
    StepKeepsInv(w, releaseIdle, ViewerCoherence.ClientInit(id, bootstrap));
  }

  // And where the first frame leaves a viewer that had to wait for it.
  lemma {:induction false} FirstFrameBegins(w: World, releaseIdle: bool, id: nat, served: Frame, latest: (nat, nat),
                                            ios: map<nat, Io>, input: ServerMessages.Viewer, t: Tool.Tool, name: Bytes)
    requires Inv(w) && HonestStep(w, FrameArrives(served, latest, ios)) && SmallFrame(Some(served))
    requires id in w.clients && w.clients[id] == NEW_CLIENT.(phase := AwaitInitialFrame)
    requires var c := Next(w, releaseIdle, FrameArrives(served, latest, ios)).clients[id];
             c.phase == Normal && Cells(c.fbWidth, c.fbHeight) <= Tool.MAX_PIXELS
    requires t.phase == Tool.ServerInit && !t.waiting && |name| <= Tool.MAX_TEXT
    ensures var w' := Next(w, releaseIdle, FrameArrives(served, latest, ios));
            var c := w'.clients[id];
            Begins(Link(w', id, input, [], InitBytes(c.fbWidth, c.fbHeight, name), Reader(t, [], false)), name)
  {
    StepKeepsInv(w, releaseIdle, FrameArrives(served, latest, ios));
    InitialFrameInits(w, served, latest, IoOf(ios, id));
  }

  lemma {:induction false} InitialFrameInits(w: World, served: Frame, latest: (nat, nat), io: Io)
    requires FrameToClient(NEW_CLIENT.(phase := AwaitInitialFrame), w, served, latest, io).phase == Normal
    ensures var c := FrameToClient(NEW_CLIENT.(phase := AwaitInitialFrame), w, served, latest, io);
            Plain(c) && c.sent == imap[] && ServableSize(c.fbWidth, c.fbHeight)
  {
  }

  // Over every run of the server, the tool and the two streams between them, with cursors,
  // resizes, requests, keys and pointer moves crossing each other and reads within the receive
  // budget: the tool refuses nothing, the server refuses exactly the press of one key too many,
  // and whenever the tool has read everything it holds no rest and shows exactly what the
  // server counts as sent.
  lemma {:induction false} ToolFollowsServer(l: Link, name: Bytes, table: HeldInput.Table, releaseIdle: bool, events: seq<Event>)
    requires Begins(l, name) && FairRun(l, table, releaseIdle, events)
    ensures var end := RunLink(l, table, releaseIdle, events);
            && !end.reader.failed && |end.reader.buffer| < Tool.MAX_UPDATE_BYTES
            && (end.pipe == [] ==> end.reader.buffer == [])
            && (end.pipe == [] && end.id in end.w.clients ==> ToolMirror.Mirrors(end.reader.state, end.w.clients[end.id]))
            && (end.requests != [] ==> Decodes(table, end.input, end.requests))
  {
    BeginsInOrder(l, name);
    RunKeepsLink(l, table, releaseIdle, events);
    var end := RunLink(l, table, releaseIdle, events);
    if end.pipe == [] { assert end.reader.buffer + [] == end.reader.buffer; }
    if end.requests != [] { RequestsDecode(table, end.input, end.requests); }
    BufferIsSmall(end);
  }

  // ---- one key too many ------------------------------------------------------------------------------

  // Between two states of a run the tool presses the key n and the server reads the press.
  ghost predicate Pressed(links: seq<Link>, table: HeldInput.Table, releaseIdle: bool, io: Io, n: nat) {
    n + 1 < |links|
    && links[n + 1] == NextLink(NextLink(links[n], table, releaseIdle, ToolTypes(n, true)), table, releaseIdle, ServerReads(io))
  }

  function FirstKeys(n: nat): (held: seq<nat>)
    ensures |held| == n && forall i :: 0 <= i < n ==> held[i] == i
  {
    seq(n, i => i)
  }

  // A link at rest: the tool streams, and its viewer is served and holds n keys.
  predicate Holding(l: Link, n: nat) {
    && !l.reader.failed && l.reader.state.phase == Tool.Streaming && l.reader.state.frame.Some?
    && l.requests == [] && l.id in l.w.clients && l.w.clients[l.id].phase == Normal
    && l.input.held == FirstKeys(n)
  }

  // What the server makes of a key press.
  lemma {:induction false} PressDecodes(table: HeldInput.Table, v: ServerMessages.Viewer, n: nat)
    requires n <= HeldInput.MAX_HELD_KEYS && HeldInput.Code(table, n) != 0 && n !in v.held
    ensures ServerMessages.StepOf(table, v, Tool.KeyBytes(n, true))
            == (if |v.held| >= HeldInput.MAX_HELD_KEYS then Refused(v)
                else Message(8, ServerMessages.Logged(v.(held := v.held + [n]), ServerMessages.KeyEvent(true, n))))
  {
    var b := Tool.KeyBytes(n, true);
    U32RoundTrip(n);
    assert b[..8] == b && ReadU32(b, 4) == ReadU32(U32(n), 0);
    assert ServerMessages.Handle(table, v, b) == ServerMessages.AfterKey(table, v, n, true);
  }

  lemma {:induction false} PressIsQueued(l: Link, table: HeldInput.Table, releaseIdle: bool, n: nat)
    requires Holding(l, n)
    ensures NextLink(l, table, releaseIdle, ToolTypes(n, true)) == l.(requests := Tool.KeyBytes(n, true))
  {
    assert [] + Tool.KeyBytes(n, true) == Tool.KeyBytes(n, true);
  }

  lemma {:induction false} PressIsRead(l: Link, table: HeldInput.Table, releaseIdle: bool, n: nat, io: Io)
    requires Holding(l, n) && n < HeldInput.MAX_HELD_KEYS && HeldInput.Code(table, n) != 0
    ensures Holding(NextLink(NextLink(l, table, releaseIdle, ToolTypes(n, true)), table, releaseIdle, ServerReads(io)), n + 1)
  {
    PressIsQueued(l, table, releaseIdle, n);
    PressDecodes(table, l.input, n);
    var b := Tool.KeyBytes(n, true);
    assert |b| == 8 && b[8..] == [];
    PressIsTaken(l, table, releaseIdle, b, n, io);
  }

  lemma {:induction false} PressIsTaken(l: Link, table: HeldInput.Table, releaseIdle: bool, b: Bytes, n: nat, io: Io)
    requires Holding(l, n) && |b| == 8 && b[8..] == []
    requires ServerMessages.StepOf(table, l.input, b)
             == Message(8, ServerMessages.Logged(l.input.(held := l.input.held + [n]), ServerMessages.KeyEvent(true, n)))
    ensures Holding(NextLink(l.(requests := b), table, releaseIdle, ServerReads(io)), n + 1)
  {
    var v := ServerMessages.Logged(l.input.(held := l.input.held + [n]), ServerMessages.KeyEvent(true, n));
    ServerReadsIs(l.(requests := b), table, releaseIdle, io, 8, v);
    assert FirstKeys(n) + [n] == FirstKeys(n + 1);
  }

  // A run in which the server does refuse the tool: 64 keys stay pressed, and the press of one
  // more ends the viewer.
  lemma {:induction false} OneKeyTooManyEndsTheViewer(links: seq<Link>, table: HeldInput.Table, releaseIdle: bool, io: Io)
    requires |links| == HeldInput.MAX_HELD_KEYS + 2 && Holding(links[0], 0)
    requires forall n :: 0 <= n <= HeldInput.MAX_HELD_KEYS ==> HeldInput.Code(table, n) != 0
    requires forall n :: 0 <= n <= HeldInput.MAX_HELD_KEYS ==> Pressed(links, table, releaseIdle, io, n)
    ensures var end := links[|links| - 1];
            end.id in end.w.clients && end.w.clients[end.id].phase == Failed
  {
    var n := |links| - 2;
    PressesAreRead(links, table, releaseIdle, io, n);
    LastIsFailed(links, table, releaseIdle, io, n);
  }

  lemma {:induction false} PressesAreRead(links: seq<Link>, table: HeldInput.Table, releaseIdle: bool, io: Io, n: nat)
    requires n < |links| && n <= HeldInput.MAX_HELD_KEYS && Holding(links[0], 0)
    requires forall k :: 0 <= k < n ==> HeldInput.Code(table, k) != 0 && Pressed(links, table, releaseIdle, io, k)
    ensures Holding(links[n], n)
    decreases n
  {
    if n > 0 {
      PressesAreRead(links, table, releaseIdle, io, n - 1);
      NextIsHolding(links, table, releaseIdle, io, n - 1);
    }
  }

  lemma {:induction false} NextIsHolding(links: seq<Link>, table: HeldInput.Table, releaseIdle: bool, io: Io, n: nat)
    requires n + 1 < |links| && n < HeldInput.MAX_HELD_KEYS && Holding(links[n], n)
    requires HeldInput.Code(table, n) != 0 && Pressed(links, table, releaseIdle, io, n)
    ensures Holding(links[n + 1], n + 1)
  {
    PressIsRead(links[n], table, releaseIdle, n, io);
  }

  lemma {:induction false} LastIsFailed(links: seq<Link>, table: HeldInput.Table, releaseIdle: bool, io: Io, n: nat)
    requires n + 1 < |links| && n == HeldInput.MAX_HELD_KEYS && Holding(links[n], n)
    requires HeldInput.Code(table, n) != 0 && Pressed(links, table, releaseIdle, io, n)
    ensures links[n + 1].id in links[n + 1].w.clients && links[n + 1].w.clients[links[n + 1].id].phase == Failed
  {
    LastPress(links[n], table, releaseIdle, n, io);
  }

  lemma {:induction false} LastPress(l: Link, table: HeldInput.Table, releaseIdle: bool, n: nat, io: Io)
    requires Holding(l, n) && n == HeldInput.MAX_HELD_KEYS && HeldInput.Code(table, n) != 0
    ensures var end := NextLink(NextLink(l, table, releaseIdle, ToolTypes(n, true)), table, releaseIdle, ServerReads(io));
            end.id in end.w.clients && end.w.clients[end.id].phase == Failed
  {
    PressIsQueued(l, table, releaseIdle, n);
    PressDecodes(table, l.input, n);
    PressIsRefused(l, table, releaseIdle, Tool.KeyBytes(n, true), io);
  }

  lemma {:induction false} PressIsRefused(l: Link, table: HeldInput.Table, releaseIdle: bool, b: Bytes, io: Io)
    requires l.id in l.w.clients && l.w.clients[l.id].phase == Normal
    requires ServerMessages.StepOf(table, l.input, b) == Refused(l.input)
    ensures var end := NextLink(l.(requests := b), table, releaseIdle, ServerReads(io));
            end.id in end.w.clients && end.w.clients[end.id].phase == Failed
  {
  }

  // At rest the pictures are equal: when the tool has read everything and the server owes it
  // nothing, it shows the presented frame, pixel for pixel.
  lemma {:induction false} AtRestTheToolShowsTheFrame(l: Link, name: Bytes, table: HeldInput.Table, releaseIdle: bool,
                                                      events: seq<Event>, x: nat, y: nat)
    requires Begins(l, name) && FairRun(l, table, releaseIdle, events)
    requires var end := RunLink(l, table, releaseIdle, events);
             && end.pipe == [] && end.id in end.w.clients && end.w.observed.Some?
             && var c, f := end.w.clients[end.id], end.w.observed.value;
                c.phase == Normal && c.delivery.pending == [] && !Resized(c, f) && Readable(f) && InFrame(f, x, y)
    ensures var end := RunLink(l, table, releaseIdle, events);
            && WireAgreement.Shows(end.reader.state, end.w.observed.value.width, end.w.observed.value.height)
            && end.reader.state.frame.value.At(x, y) == PixelAt(end.w.observed.value, x, y)
  {
    ToolFollowsServer(l, name, table, releaseIdle, events);
    BeginsInOrder(l, name);
    RunKeepsLink(l, table, releaseIdle, events);
    var end := RunLink(l, table, releaseIdle, events);
    var c, f := end.w.clients[end.id], end.w.observed.value;
    assert Coherent(c, f) && !Covers(c.delivery.pending, x, y);
    assert !Stale(c, f, x, y);
  }
}
