// The client of the command-line tool (tools/hyremote-tool/rfb_client.cpp): process and
// parseFramebufferUpdate, one turn of the loop at a time.
module ToolClient {
  import opened Option
  import opened Frames
  import opened Wire
  import opened Chunking

  const MAX_RAW_BYTES: nat := 64 * 1024 * 1024
  const MAX_PIXELS: nat := 16 * 1024 * 1024
  const MAX_UPDATE_BYTES: nat := 96 * 1024 * 1024
  const MAX_RECEIVE: nat := 128 * 1024 * 1024
  const MAX_RECTS: nat := 64
  const MAX_TEXT: nat := 4096

  datatype Handshake = Version | SecurityTypes | SecurityResult | ServerInit | Streaming

  // Rows of pixels; a cursor pixel is None where it is transparent.
  datatype Image = Image(width: nat, height: nat, rows: seq<seq<Rgb>>) {
    predicate Valid() {
      |rows| == height && forall y :: 0 <= y < height ==> |rows[y]| == width
    }

    function At(x: nat, y: nat): Rgb
      requires Valid() && x < width && y < height
    {
      rows[y][x]
    }
  }

  datatype Cursor = Cursor(hotX: nat, hotY: nat, width: nat, height: nat, rows: seq<seq<Option<Rgb>>>)

  // waiting: a request is outstanding; written: everything the parser sent to the server.
  datatype Tool = Tool(phase: Handshake, frame: Option<Image>, name: Bytes, cursor: Option<Cursor>,
                       waiting: bool, frames: nat, written: Bytes)

  const BLACK: Rgb := Rgb(0, 0, 0)

  function BlackImage(width: nat, height: nat): (i: Image)
    ensures i.Valid()
  {
    Image(width, height, seq(height, _ => seq(width, _ => BLACK)))
  }

  function Write(t: Tool, b: Bytes): Tool {
    t.(written := t.written + b)
  }

  function RequestBytes(incremental: bool, width: nat, height: nat): Bytes {
    [3, if incremental then 1 else 0] + U16(0) + U16(0) + U16(width) + U16(height)
  }

  // requestFrame: one whole-size request at a time.
  function RequestFrame(t: Tool, incremental: bool): Tool {
    if t.phase != Streaming || t.waiting || t.frame.None? then t
    else Write(t.(waiting := true), RequestBytes(incremental, t.frame.value.width, t.frame.value.height))
  }

  // sendKey and sendPointer; a pointer is kept inside the picture.
  function KeyBytes(keysym: nat, pressed: bool): Bytes {
    [4, if pressed then 1 else 0, 0, 0] + U32(keysym)
  }

  function PointerBytes(mask: Byte, x: nat, y: nat, width: nat, height: nat): Bytes
    requires width > 0 && height > 0
  {
    [5, mask] + U16(if x < width then x else width - 1) + U16(if y < height then y else height - 1)
  }

  // onReadyRead: a read over the receive budget fails before it is parsed.
  function Receive(r: Reader<Tool>, chunk: Bytes): Reader<Tool> {
    if !r.failed && |r.buffer| + |chunk| > MAX_RECEIVE then Reader(r.state, [], true) else Feed(ToolStep(), r, chunk)
  }

  function SetEncodingsBytes(): Bytes {
    [2, 0] + U16(3) + S32(RAW) + S32(DESKTOP_SIZE) + S32(CURSOR)
  }

  // ---- the handshake ---------------------------------------------------------------------------------

  const VERSION_START: Bytes := [82, 70, 66, 32, 48, 48, 51, 46, 48, 48]
  const OUR_VERSION: Bytes := [82, 70, 66, 32, 48, 48, 51, 46, 48, 48, 56, 10]

  function OnVersion(t: Tool, b: Bytes): Outcome<Tool> {
    if |b| < 12 then NeedMore
    else if b[..10] != VERSION_START || b[11] != 10 then Refused(t)
    else Message(12, Write(t, OUR_VERSION).(phase := SecurityTypes))
  }

  function OnSecurityTypes(t: Tool, b: Bytes): Outcome<Tool> {
    if b == [] then NeedMore
    else if b[0] == 0 then
      if |b| < 5 then NeedMore
      else if ReadU32(b, 1) > MAX_TEXT then Refused(t)
      else if |b| < 5 + ReadU32(b, 1) then NeedMore
      else Refused(t)
    else if |b| < 1 + b[0] as int then NeedMore
    else if 1 !in b[1..1 + b[0] as int] then Refused(t)
    else Message(1 + b[0] as int, Write(t, [1]).(phase := SecurityResult))
  }

  // A refusal with an oversized reason is waited for forever.
  function OnSecurityResult(t: Tool, b: Bytes): Outcome<Tool> {
    if |b| < 4 then NeedMore
    else if ReadU32(b, 0) == 0 then Message(4, Write(t, [1]).(phase := ServerInit))
    else if |b| < 8 || ReadU32(b, 4) > MAX_TEXT || |b| < 8 + ReadU32(b, 4) then NeedMore
    else Refused(t)
  }

  function OnServerInit(t: Tool, b: Bytes): Outcome<Tool> {
    if |b| < 24 then NeedMore
    else
      var width, height, nameLength := ReadU16(b, 0), ReadU16(b, 2), ReadU32(b, 20);
      if width == 0 || height == 0 || Cells(width, height) > MAX_PIXELS then Refused(t)
      else if b[4] != 32 || b[5] != 24 || b[6] != 0 || b[7] != 1
              || ReadU16(b, 8) != 255 || ReadU16(b, 10) != 255 || ReadU16(b, 12) != 255
              || b[14] != 0 || b[15] != 8 || b[16] != 16 then Refused(t)
      else if nameLength > MAX_TEXT then Refused(t)
      else if |b| < 24 + nameLength then NeedMore
      else
        var ready := t.(name := b[24..24 + nameLength], frame := Some(BlackImage(width, height)), phase := Streaming);
        Message(24 + nameLength, RequestFrame(Write(ready, SetEncodingsBytes()), false))
  }

  // ---- framebuffer updates ---------------------------------------------------------------------------

  datatype Rectangle = Rectangle(x: nat, y: nat, width: nat, height: nat, encoding: int, at: nat, bytes: nat)

  function CursorBytes(width: nat, height: nat): nat {
    Cells(width, height) * 4 + Cells((width + 7) / 8, height)
  }

  // The payload length a header announces; None: the rectangle is refused.
  function PayloadBytes(width: nat, height: nat, encoding: int): (n: Option<nat>)
    ensures n.Some? && encoding == RAW ==> n.value == Cells(width, height) * 4
    ensures n.Some? && encoding == CURSOR ==> n.value == CursorBytes(width, height) && 0 < width <= 256 && 0 < height <= 256
    ensures n.Some? ==> encoding == RAW || encoding == DESKTOP_SIZE || encoding == CURSOR
  {
    if encoding == RAW then if Cells(width, height) * 4 > MAX_RAW_BYTES then None else Some(Cells(width, height) * 4)
    else if encoding == DESKTOP_SIZE then Some(0)
    else if encoding == CURSOR then
      if width == 0 || height == 0 || width > 256 || height > 256 then None else Some(CursorBytes(width, height))
    else None
  }

  datatype Scan = Wait | Bad | Scanned(rectangles: seq<Rectangle>, end: nat)

  // A rectangle whose payload lies in the buffer and has the length of its encoding.
  predicate Fits(r: Rectangle, size: nat) {
    r.at + r.bytes <= size && PayloadBytes(r.width, r.height, r.encoding) == Some(r.bytes)
  }

  predicate AllFit(rectangles: seq<Rectangle>, size: nat) {
    forall i :: 0 <= i < |rectangles| ==> Fits(rectangles[i], size)
  }

  // The first pass: the headers, until the whole message is present.
  function ScanRects(b: Bytes, offset: nat, n: nat): (s: Scan)
    requires offset <= |b|
    ensures s.Scanned? ==> |s.rectangles| == n && offset <= s.end <= |b| && AllFit(s.rectangles, s.end)
    decreases n
  {
    if n == 0 then Scanned([], offset)
    else if |b| < offset + 12 then Wait
    else
      var width, height, encoding := ReadU16(b, offset + 4), ReadU16(b, offset + 6), ReadS32(b, offset + 8);
      match PayloadBytes(width, height, encoding)
      case None => Bad
      case Some(bytes) =>
        var end := offset + 12 + bytes;
        if |b| < end then Wait
        else if end > MAX_UPDATE_BYTES then Bad
        else
          match ScanRects(b, end, n - 1)
          case Wait => Wait
          case Bad => Bad
          case Scanned(rest, last) =>
            Scanned([Rectangle(ReadU16(b, offset), ReadU16(b, offset + 2), width, height, encoding,
                               offset + 12, bytes)] + rest, last)
  }

  // Pixels from four bytes each; the last is unused.
  function ReadRow(b: Bytes, at: nat, width: nat): (row: seq<Rgb>)
    requires at + 4 * width <= |b|
    ensures |row| == width
    decreases width
  {
    if width == 0 then [] else [Rgb(b[at], b[at + 1], b[at + 2])] + ReadRow(b, at + 4, width - 1)
  }

  function Splice(row: seq<Rgb>, x: nat, pixels: seq<Rgb>): (r: seq<Rgb>)
    requires x + |pixels| <= |row|
    ensures |r| == |row|
    ensures forall i :: 0 <= i < |row| ==> r[i] == if x <= i < x + |pixels| then pixels[i - x] else row[i]
  {
    row[..x] + pixels + row[x + |pixels|..]
  }

  // Copies the rows of a raw rectangle into the image.
  function Blit(i: Image, b: Bytes, at: nat, x: nat, y: nat, width: nat, height: nat): (r: Image)
    requires i.Valid() && x + width <= i.width && y + height <= i.height && at + Cells(width, height) * 4 <= |b|
    ensures r.Valid() && r.width == i.width && r.height == i.height
    decreases height
  {
    if height == 0 then i
    else
      var row := Splice(i.rows[y], x, ReadRow(b, at, width));
      Blit(i.(rows := i.rows[y := row]), b, at + 4 * width, x, y + 1, width, height - 1)
  }

  function Halved(value: nat, n: nat): nat {
    if n == 0 then value else Halved(value / 2, n - 1)
  }

  // Bit 0 is the leftmost pixel, the highest bit of the byte.
  function BitOf(value: Byte, bit: nat): bool
    requires bit < 8
  {
    Halved(value, 7 - bit) % 2 == 1
  }

  function CursorPixel(b: Bytes, at: nat, width: nat, height: nat, row: nat, col: nat): Option<Rgb>
    requires row < height && col < width && at + CursorBytes(width, height) <= |b|
  {
    GridIndex(width, height, col, row);
    GridIndex((width + 7) / 8, height, col / 8, row);
    var pixel := at + (Cells(width, row) + col) * 4;
    var mask := at + Cells(width, height) * 4 + (Cells((width + 7) / 8, row) + col / 8);
    if BitOf(b[mask], col % 8) then Some(Rgb(b[pixel], b[pixel + 1], b[pixel + 2])) else None
  }

  function ReadCursor(b: Bytes, r: Rectangle): Cursor
    requires r.encoding == CURSOR && Fits(r, |b|)
  {
    Cursor(r.x, r.y, r.width, r.height,
           seq(r.height, row requires 0 <= row < r.height =>
             seq(r.width, col requires 0 <= col < r.width => CursorPixel(b, r.at, r.width, r.height, row, col))))
  }

  // The second pass.  A refusal leaves the rectangles before it applied.
  datatype Applied = Applied(tool: Tool, ok: bool, resized: bool, changed: bool)

  function ApplyRect(t: Tool, b: Bytes, r: Rectangle): Applied
    requires Fits(r, |b|)
  {
    if r.encoding == DESKTOP_SIZE then
      if r.width == 0 || r.height == 0 || Cells(r.width, r.height) > MAX_PIXELS then Applied(t, false, false, false)
      else Applied(t.(frame := Some(BlackImage(r.width, r.height))), true, true, true)
    else if r.encoding == CURSOR then Applied(t.(cursor := Some(ReadCursor(b, r))), true, false, false)
    else if t.frame.None? || !t.frame.value.Valid()
            || r.x + r.width > t.frame.value.width || r.y + r.height > t.frame.value.height then
      Applied(t, false, false, false)
    else
      Applied(t.(frame := Some(Blit(t.frame.value, b, r.at, r.x, r.y, r.width, r.height))), true, false, true)
  }

  function ApplyRects(t: Tool, b: Bytes, rectangles: seq<Rectangle>): Applied
    requires AllFit(rectangles, |b|)
    decreases |rectangles|
  {
    if rectangles == [] then Applied(t, true, false, false)
    else
      var first := ApplyRect(t, b, rectangles[0]);
      if !first.ok then first
      else
        var rest := ApplyRects(first.tool, b, rectangles[1..]);
        Applied(rest.tool, rest.ok, first.resized || rest.resized, first.changed || rest.changed)
  }

  // The answer to a complete update: the next request, for everything after a resize.
  function Completed(a: Applied): Tool {
    RequestFrame(a.tool.(waiting := false, frames := if a.changed then a.tool.frames + 1 else a.tool.frames), !a.resized)
  }

  function OnUpdate(t: Tool, b: Bytes): Outcome<Tool> {
    if |b| < 4 then NeedMore
    else if ReadU16(b, 2) > MAX_RECTS then Refused(t)
    else
      match ScanRects(b, 4, ReadU16(b, 2))
      case Wait => NeedMore
      case Bad => Refused(t)
      case Scanned(rectangles, end) =>
        var a := ApplyRects(t, b[..end], rectangles);
        if a.ok then Message(end, Completed(a)) else Refused(a.tool)
  }

  function OnStream(t: Tool, b: Bytes): Outcome<Tool> {
    if b == [] then NeedMore
    else if b[0] == 0 then OnUpdate(t, b)
    else if b[0] == 2 then Message(1, t)
    else if b[0] == 3 then
      if |b| < 8 then NeedMore
      else if ReadU32(b, 4) > MAX_RAW_BYTES then Refused(t)
      else if |b| < 8 + ReadU32(b, 4) then NeedMore
      else Message(8 + ReadU32(b, 4), t)
    else Refused(t)
  }

  // One turn of process.
  function StepOf(t: Tool, b: Bytes): Outcome<Tool> {
    match t.phase
    case Version => OnVersion(t, b)
    case SecurityTypes => OnSecurityTypes(t, b)
    case SecurityResult => OnSecurityResult(t, b)
    case ServerInit => OnServerInit(t, b)
    case Streaming => OnStream(t, b)
  }

  function ToolStep(): (Tool, Bytes) -> Outcome<Tool> {
    (t: Tool, b: Bytes) => StepOf(t, b)
  }

  // ---- chunking --------------------------------------------------------------------------------------

  lemma {:induction false} ReadsAgree(b: Bytes, more: Bytes, at: nat)
    ensures at + 2 <= |b| ==> ReadU16(b + more, at) == ReadU16(b, at)
    ensures at + 4 <= |b| ==> ReadU32(b + more, at) == ReadU32(b, at) && ReadS32(b + more, at) == ReadS32(b, at)
  {
  }

  // What the bytes of b say, the longer sequence says as well.
  predicate Extends(whole: Bytes, b: Bytes) {
    && |b| <= |whole|
    && (forall at :: 0 <= at <= |b| - 2 ==> ReadU16(whole, at) == ReadU16(b, at))
    && (forall at :: 0 <= at <= |b| - 4 ==> ReadS32(whole, at) == ReadS32(b, at))
  }

  lemma {:induction false} ScanExtends(b: Bytes, whole: Bytes, offset: nat, n: nat)
    requires offset <= |b| && !ScanRects(b, offset, n).Wait? && Extends(whole, b)
    ensures ScanRects(whole, offset, n) == ScanRects(b, offset, n)
    decreases n
  {
    if n > 0 && |b| >= offset + 12 {
      match PayloadBytes(ReadU16(b, offset + 4), ReadU16(b, offset + 6), ReadS32(b, offset + 8))
      case None =>
      case Some(bytes) =>
        var end := offset + 12 + bytes;
        if end <= |b| && end <= MAX_UPDATE_BYTES { ScanExtends(b, whole, end, n - 1); }
    }
  }

  lemma {:induction false} ScanIsStable(b: Bytes, more: Bytes, offset: nat, n: nat)
    requires offset <= |b| && !ScanRects(b, offset, n).Wait?
    ensures ScanRects(b + more, offset, n) == ScanRects(b, offset, n)
  {
    forall at: nat | at + 2 <= |b|
      ensures ReadU16(b + more, at) == ReadU16(b, at)
      ensures at + 4 <= |b| ==> ReadS32(b + more, at) == ReadS32(b, at)
    {
      ReadsAgree(b, more, at);
    }
    ScanExtends(b, b + more, offset, n);
  }

  lemma {:induction false} UpdateIsStable(t: Tool, b: Bytes, more: Bytes)
    requires !OnUpdate(t, b).NeedMore?
    ensures OnUpdate(t, b + more) == OnUpdate(t, b)
    ensures OnUpdate(t, b).Message? ==> 0 < OnUpdate(t, b).consumed <= |b|
  {
    ReadsAgree(b, more, 2);
    if ReadU16(b, 2) <= MAX_RECTS {
      ScanIsStable(b, more, 4, ReadU16(b, 2));
      match ScanRects(b, 4, ReadU16(b, 2))
      case Bad =>
      case Scanned(_, end) => assert (b + more)[..end] == b[..end];
    }
  }

  lemma {:induction false} HandshakeIsStable(t: Tool, b: Bytes, more: Bytes)
    requires t.phase != Streaming
    ensures StableAt(ToolStep(), t, b, more)
  {
    match t.phase
    case Version => if |b| >= 12 { assert (b + more)[..10] == b[..10]; }
    case SecurityTypes =>
      ReadsAgree(b, more, 1);
      if b != [] && |b| >= 1 + b[0] as int { assert (b + more)[1..1 + b[0] as int] == b[1..1 + b[0] as int]; }
    case SecurityResult =>
      ReadsAgree(b, more, 0);
      ReadsAgree(b, more, 4);
    case ServerInit => if !OnServerInit(t, b).NeedMore? { ServerInitIsStable(t, b, more); }
  }

  lemma {:induction false} ServerInitIsStable(t: Tool, b: Bytes, more: Bytes)
    requires !OnServerInit(t, b).NeedMore?
    ensures OnServerInit(t, b + more) == OnServerInit(t, b)
    ensures OnServerInit(t, b).Message? ==> 0 < OnServerInit(t, b).consumed <= |b|
  {
    var c := b + more;
    ReadsAgree(b, more, 0);
    ReadsAgree(b, more, 2);
    ReadsAgree(b, more, 8);
    ReadsAgree(b, more, 10);
    ReadsAgree(b, more, 12);
    ReadsAgree(b, more, 20);
    assert forall i :: 0 <= i < |b| ==> c[i] == b[i];
    if |b| >= 24 + ReadU32(b, 20) { assert c[24..24 + ReadU32(b, 20)] == b[24..24 + ReadU32(b, 20)]; }
  }

  lemma {:induction false} ToolIsStable()
    ensures Stable(ToolStep())
  {
    forall t, b, more
      ensures StableAt(ToolStep(), t, b, more)
    {
      if t.phase != Streaming {
        HandshakeIsStable(t, b, more);
      } else if b != [] && b[0] == 0 {
        if !OnUpdate(t, b).NeedMore? { UpdateIsStable(t, b, more); }
      } else {
        ReadsAgree(b, more, 4);
      }
    }
  }

  // The tool ends in the same state however its stream is split into reads.
  lemma {:induction false} ToolChunkingDoesNotMatter(t: Tool, a: seq<Bytes>, b: seq<Bytes>)
    requires a != [] && b != [] && Concat(a) == Concat(b)
    ensures FeedAll(ToolStep(), Reader(t, [], false), a) == FeedAll(ToolStep(), Reader(t, [], false), b)
  {
    ToolIsStable();
    SameStreamSameResult(ToolStep(), Reader(t, [], false), a, b);
  }
}
