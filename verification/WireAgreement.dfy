// The server's printers and the tool's parser agree: ServerInit, and updates with raw and
// DesktopSize rectangles (src/runtime/src/transport/rfb_transport.cpp and
// tools/hyremote-tool/rfb_client.cpp).
module WireAgreement {
  import opened Option
  import opened RfbRegion
  import opened Frames
  import opened Wire
  import opened Chunking
  import opened ToolClient

  // ---- numbers inside a message ----------------------------------------------------------------------

  lemma {:induction false} U16Inside(front: Bytes, v: nat, back: Bytes)
    requires v < 0x1_0000
    ensures ReadU16(front + U16(v) + back, |front|) == v
  {
    var b := front + U16(v) + back;
    assert b[|front|] == U16(v)[0] && b[|front| + 1] == U16(v)[1];
  }

  lemma {:induction false} U32Inside(front: Bytes, v: nat, back: Bytes)
    requires v < 0x1_0000_0000
    ensures ReadU32(front + U32(v) + back, |front|) == v
  {
    U32RoundTrip(v);
    var b := front + U32(v) + back;
    assert forall i :: 0 <= i < 4 ==> b[|front| + i] == U32(v)[i];
  }

  // ---- ServerInit -------------------------------------------------------------------------------------

  lemma {:induction false} InitFields(width: nat, height: nat, name: Bytes, rest: Bytes)
    requires width < 0x1_0000 && height < 0x1_0000 && |name| < 0x1_0000_0000
    ensures var b := InitBytes(width, height, name) + rest;
            && |b| == 24 + |name| + |rest|
            && ReadU16(b, 0) == width && ReadU16(b, 2) == height && ReadU32(b, 20) == |name|
            && b[4..20] == SpecBytes(NATIVE) && b[24..24 + |name|] == name
  {
    var b := InitBytes(width, height, name) + rest;
    var spec := SpecBytes(NATIVE);
    assert b == [] + U16(width) + (U16(height) + spec + U32(|name|) + name + rest);
    U16Inside([], width, U16(height) + spec + U32(|name|) + name + rest);
    assert b == U16(width) + U16(height) + (spec + U32(|name|) + name + rest);
    U16Inside(U16(width), height, spec + U32(|name|) + name + rest);
    assert b == (U16(width) + U16(height) + spec) + U32(|name|) + (name + rest);
    U32Inside(U16(width) + U16(height) + spec, |name|, name + rest);
  }

  lemma {:induction false} NativeSpecFields(b: Bytes)
    requires |b| >= 24 && b[4..20] == SpecBytes(NATIVE)
    ensures b[4] == 32 && b[5] == 24 && b[6] == 0 && b[7] == 1 && b[14] == 0 && b[15] == 8 && b[16] == 16
    ensures ReadU16(b, 8) == 255 && ReadU16(b, 10) == 255 && ReadU16(b, 12) == 255
  {
    var s := SpecBytes(NATIVE);
    assert s == [32, 24, 0, 1, 0, 255, 0, 255, 0, 255, 0, 8, 16, 0, 0, 0];
    assert forall i :: 4 <= i < 20 ==> b[i] == s[i - 4];
  }

  // The tool accepts the server's ServerInit, whatever follows it, takes over size and name,
  // starts from a black picture and asks for the whole of it.
  lemma {:induction false} ServerInitAgrees(t: Tool, width: nat, height: nat, name: Bytes, rest: Bytes)
    requires t.phase == ServerInit && !t.waiting
    requires 0 < width < 0x1_0000 && 0 < height < 0x1_0000 && Cells(width, height) <= MAX_PIXELS && |name| <= MAX_TEXT
    ensures var ready := t.(name := name, frame := Some(BlackImage(width, height)), phase := Streaming, waiting := true,
                            written := t.written + SetEncodingsBytes() + RequestBytes(false, width, height));
            ToolClient.StepOf(t, InitBytes(width, height, name) + rest)
              == Message(|InitBytes(width, height, name)|, ready)
  {
    var b := InitBytes(width, height, name) + rest;
    InitFields(width, height, name, rest);
    NativeSpecFields(b);
  }

  // ---- raw rectangles --------------------------------------------------------------------------------

  // The cells of the native format: red, green, blue and a zero.
  ghost predicate Native(cells: CellBytes, pic: Colours) {
    forall x, y :: cells(x, y) == [pic(x, y).r, pic(x, y).g, pic(x, y).b, 0]
  }

  lemma {:induction false} NativeCells(pic: Colours)
    ensures Native(CellsOf(pic, NATIVE), pic)
  {
    forall x, y
      ensures CellsOf(pic, NATIVE)(x, y) == [pic(x, y).r, pic(x, y).g, pic(x, y).b, 0]
    {
      NativePixel(pic(x, y));
    }
  }

  // The buffer holds the given bytes at a position.
  predicate Holds(b: Bytes, at: nat, part: Bytes) {
    at + |part| <= |b| && b[at..at + |part|] == part
  }

  lemma {:induction false} HoldsParts(b: Bytes, at: nat, first: Bytes, second: Bytes)
    requires Holds(b, at, first + second)
    ensures Holds(b, at, first) && Holds(b, at + |first|, second)
  {
    var whole := first + second;
    assert b[at..at + |first|] == whole[..|first|];
    assert b[at + |first|..at + |whole|] == whole[|first|..];
  }

  lemma {:induction false} FirstPixel(cells: CellBytes, pic: Colours, b: Bytes, at: nat, x: int, y: int)
    requires Native(cells, pic) && Holds(b, at, cells(x, y))
    ensures |cells(x, y)| == 4 && at + 4 <= |b| && Rgb(b[at], b[at + 1], b[at + 2]) == pic(x, y)
  {
    var cell := cells(x, y);
    assert b[at..at + 4] == cell;
    assert b[at] == cell[0] && b[at + 1] == cell[1] && b[at + 2] == cell[2];
  }

  lemma {:induction false} RowReadBack(cells: CellBytes, pic: Colours, b: Bytes, at: nat, x: nat, y: nat, width: nat)
    requires Native(cells, pic) && Holds(b, at, RawRow(cells, x, y, width))
    ensures |RawRow(cells, x, y, width)| == 4 * width
    ensures forall i :: 0 <= i < width ==> ReadRow(b, at, width)[i] == pic(x + i, y)
    decreases width
  {
    if width > 0 {
      HoldsParts(b, at, cells(x, y), RawRow(cells, x + 1, y, width - 1));
      FirstPixel(cells, pic, b, at, x, y);
      RowReadBack(cells, pic, b, at + 4, x + 1, y, width - 1);
      forall i | 0 <= i < width
        ensures ReadRow(b, at, width)[i] == pic(x + i, y)
      {
        if i > 0 { assert x + 1 + (i - 1) == x + i; }
      }
    }
  }

  function Drawn(i: Image, pic: Colours, x: nat, y: nat, width: nat, height: nat, px: nat, py: nat): Rgb
    requires i.Valid() && px < i.width && py < i.height
  {
    if x <= px < x + width && y <= py < y + height then pic(px, py) else i.At(px, py)
  }

  // Copying one row in.
  function RowCopied(i: Image, b: Bytes, at: nat, x: nat, y: nat, width: nat): (r: Image)
    requires i.Valid() && x + width <= i.width && y < i.height && at + 4 * width <= |b|
    ensures r.Valid() && r.width == i.width && r.height == i.height
  {
    i.(rows := i.rows[y := Splice(i.rows[y], x, ReadRow(b, at, width))])
  }

  lemma {:induction false} RowCopiedPixel(cells: CellBytes, pic: Colours, i: Image, b: Bytes, at: nat, x: nat, y: nat,
                                          width: nat, px: nat, py: nat)
    requires Native(cells, pic) && Holds(b, at, RawRow(cells, x, y, width)) && at + 4 * width <= |b|
    requires i.Valid() && x + width <= i.width && y < i.height && px < i.width && py < i.height
    ensures RowCopied(i, b, at, x, y, width).At(px, py) == Drawn(i, pic, x, y, width, 1, px, py)
  {
    RowReadBack(cells, pic, b, at, x, y, width);
    if py == y && x <= px < x + width {
      assert ReadRow(b, at, width)[px - x] == pic(x + (px - x), y);
    }
  }

  // The pixel of an image after the rows of a rectangle were copied in.
  lemma {:induction false} BlitPixel(cells: CellBytes, pic: Colours, i: Image, b: Bytes, at: nat, x: nat, y: nat,
                                     width: nat, height: nat, px: nat, py: nat)
    requires Native(cells, pic) && Holds(b, at, RawRows(cells, x, y, width, height))
    requires i.Valid() && x + width <= i.width && y + height <= i.height && px < i.width && py < i.height
    requires at + Cells(width, height) * 4 <= |b|
    ensures Blit(i, b, at, x, y, width, height).At(px, py) == Drawn(i, pic, x, y, width, height, px, py)
    decreases height
  {
    if height > 0 {
      RowsInBuffer(cells, pic, b, at, x, y, width, height);
      var next := RowCopied(i, b, at, x, y, width);
      RowCopiedPixel(cells, pic, i, b, at, x, y, width, px, py);
      BlitPixel(cells, pic, next, b, at + 4 * width, x, y + 1, width, height - 1, px, py);
      DrawnTwice(i, next, pic, x, y, width, height, px, py);
    }
  }

  lemma {:induction false} RowsInBuffer(cells: CellBytes, pic: Colours, b: Bytes, at: nat, x: nat, y: nat, width: nat, height: nat)
    requires Native(cells, pic) && height > 0 && Holds(b, at, RawRows(cells, x, y, width, height))
    ensures Holds(b, at, RawRow(cells, x, y, width))
    ensures Holds(b, at + 4 * width, RawRows(cells, x, y + 1, width, height - 1))
  {
    NativeRowLength(cells, pic, x, y, width);
    HoldsParts(b, at, RawRow(cells, x, y, width), RawRows(cells, x, y + 1, width, height - 1));
  }

  lemma {:induction false} DrawnTwice(i: Image, next: Image, pic: Colours, x: nat, y: nat, width: nat, height: nat, px: nat, py: nat)
    requires height > 0 && i.Valid() && next.Valid() && next.width == i.width && next.height == i.height
    requires px < i.width && py < i.height && next.At(px, py) == Drawn(i, pic, x, y, width, 1, px, py)
    ensures Drawn(next, pic, x, y + 1, width, height - 1, px, py) == Drawn(i, pic, x, y, width, height, px, py)
  {
  }

  lemma {:induction false} NativeRowLength(cells: CellBytes, pic: Colours, x: nat, y: nat, width: nat)
    requires Native(cells, pic)
    ensures |RawRow(cells, x, y, width)| == width * 4
    decreases width
  {
    if width > 0 { NativeRowLength(cells, pic, x + 1, y, width - 1); }
  }

  lemma {:induction false} NativeRowsLength(cells: CellBytes, pic: Colours, x: nat, y: nat, width: nat, height: nat)
    requires Native(cells, pic)
    ensures |RawRows(cells, x, y, width, height)| == Cells(width, height) * 4
    decreases height
  {
    if height > 0 {
      NativeRowLength(cells, pic, x, y, width);
      NativeRowsLength(cells, pic, x, y + 1, width, height - 1);
    }
  }

  // ---- updates ----------------------------------------------------------------------------------------

  predicate Inside(r: Rect, width: nat, height: nat) {
    0 <= r.x && 0 <= r.y && r.width > 0 && r.height > 0 && r.x + r.width <= width && r.y + r.height <= height
  }

  predicate AllInside(rects: seq<Rect>, width: nat, height: nat) {
    forall i :: 0 <= i < |rects| ==> Inside(rects[i], width, height)
  }

  // The first part of trySendUpdate's message, and the rectangles of appendRawRectangle.
  function RectMessage(cells: CellBytes, r: Rect): Bytes
    requires 0 <= r.x && 0 <= r.y && 0 <= r.width && 0 <= r.height
  {
    Header(r.x, r.y, r.width, r.height, RAW) + RawRows(cells, r.x, r.y, r.width, r.height)
  }

  function RectMessages(cells: CellBytes, rects: seq<Rect>, width: nat, height: nat): Bytes
    requires AllInside(rects, width, height)
  {
    if rects == [] then [] else RectMessage(cells, rects[0]) + RectMessages(cells, rects[1..], width, height)
  }

  function One(b: bool): nat {
    if b then 1 else 0
  }

  function UpdateBytes(cells: CellBytes, resized: bool, width: nat, height: nat, rects: seq<Rect>): Bytes
    requires AllInside(rects, width, height)
  {
    [0, 0] + U16(|rects| + One(resized))
    + ((if resized then Header(0, 0, width, height, DESKTOP_SIZE) else []) + RectMessages(cells, rects, width, height))
  }

  lemma {:induction false} HeaderFields(b: Bytes, at: nat, x: nat, y: nat, width: nat, height: nat, encoding: int)
    requires -0x8000_0000 <= encoding < 0x8000_0000
    requires x < 0x1_0000 && y < 0x1_0000 && width < 0x1_0000 && height < 0x1_0000
    requires Holds(b, at, Header(x, y, width, height, encoding))
    ensures ReadU16(b, at) == x && ReadU16(b, at + 2) == y && ReadU16(b, at + 4) == width
    ensures ReadU16(b, at + 6) == height && ReadS32(b, at + 8) == encoding
  {
    var h := Header(x, y, width, height, encoding);
    assert forall i :: 0 <= i < 12 ==> b[at + i] == h[i];
    S32RoundTrip(encoding);
    assert h[0..2] == U16(x) && h[2..4] == U16(y) && h[4..6] == U16(width) && h[6..8] == U16(height);
    assert h[8..12] == S32(encoding);
  }

  // What the scan finds for the rectangles printed at an offset.
  function Described(rects: seq<Rect>, at: nat, width: nat, height: nat): seq<Rectangle>
    requires AllInside(rects, width, height)
  {
    if rects == [] then []
    else
      var r := rects[0];
      [Rectangle(r.x, r.y, r.width, r.height, RAW, at + 12, Cells(r.width, r.height) * 4)]
      + Described(rects[1..], at + 12 + Cells(r.width, r.height) * 4, width, height)
  }

  function Consed(r: Rectangle, s: Scan): Scan {
    if s.Scanned? then Scanned([r] + s.rectangles, s.end) else s
  }

  // The scan reads one header and goes on behind its payload.
  lemma {:induction false} ScanOne(b: Bytes, at: nat, x: nat, y: nat, width: nat, height: nat, encoding: int, bytes: nat, n: nat)
    requires -0x8000_0000 <= encoding < 0x8000_0000
    requires x < 0x1_0000 && y < 0x1_0000 && width < 0x1_0000 && height < 0x1_0000
    requires Holds(b, at, Header(x, y, width, height, encoding)) && PayloadBytes(width, height, encoding) == Some(bytes)
    requires at + 12 + bytes <= |b| && at + 12 + bytes <= MAX_UPDATE_BYTES
    ensures ScanRects(b, at, n + 1)
            == Consed(Rectangle(x, y, width, height, encoding, at + 12, bytes), ScanRects(b, at + 12 + bytes, n))
  {
    HeaderFields(b, at, x, y, width, height, encoding);
  }

  lemma {:induction false} RawPayload(r: Rect, width: nat, height: nat)
    requires Inside(r, width, height) && Cells(width, height) <= MAX_PIXELS
    ensures PayloadBytes(r.width, r.height, RAW) == Some(Cells(r.width, r.height) * 4)
  {
    CellsMonotone(r.width, r.height, width, height);
  }

  // One printed rectangle in the buffer: its header, its payload, and what follows.
  lemma {:induction false} RectInBuffer(cells: CellBytes, pic: Colours, b: Bytes, at: nat, rects: seq<Rect>, width: nat, height: nat)
    requires Native(cells, pic) && AllInside(rects, width, height) && rects != []
    requires Holds(b, at, RectMessages(cells, rects, width, height))
    ensures var r := rects[0];
            var bytes := Cells(r.width, r.height) * 4;
            var rest := RectMessages(cells, rects[1..], width, height);
            && |RectMessages(cells, rects, width, height)| == 12 + bytes + |rest|
            && Holds(b, at, Header(r.x, r.y, r.width, r.height, RAW))
            && Holds(b, at + 12, RawRows(cells, r.x, r.y, r.width, r.height))
            && |RawRows(cells, r.x, r.y, r.width, r.height)| == bytes
            && Holds(b, at + 12 + bytes, rest)
  {
    var r := rects[0];
    HoldsParts(b, at, RectMessage(cells, r), RectMessages(cells, rects[1..], width, height));
    HoldsParts(b, at, Header(r.x, r.y, r.width, r.height, RAW), RawRows(cells, r.x, r.y, r.width, r.height));
    NativeRowsLength(cells, pic, r.x, r.y, r.width, r.height);
  }

  lemma {:induction false} DescribedFirst(rects: seq<Rect>, at: nat, width: nat, height: nat)
    requires AllInside(rects, width, height) && rects != []
    ensures var r := rects[0];
            var bytes := Cells(r.width, r.height) * 4;
            Described(rects, at, width, height)
            == [Rectangle(r.x, r.y, r.width, r.height, RAW, at + 12, bytes)]
               + Described(rects[1..], at + 12 + bytes, width, height)
  {
  }

  // The scan of one raw rectangle whose header is held at a position.
  lemma {:induction false} ScanRaw(b: Bytes, at: nat, r: Rect, width: nat, height: nat, bytes: nat, n: nat)
    requires Inside(r, width, height) && width < 0x1_0000 && height < 0x1_0000 && Cells(width, height) <= MAX_PIXELS
    requires Holds(b, at, Header(r.x, r.y, r.width, r.height, RAW)) && bytes == Cells(r.width, r.height) * 4
    requires at + 12 + bytes <= |b| && at + 12 + bytes <= MAX_UPDATE_BYTES
    ensures ScanRects(b, at, n + 1) == Consed(Rectangle(r.x, r.y, r.width, r.height, RAW, at + 12, bytes),
                                              ScanRects(b, at + 12 + bytes, n))
  {
    RawPayload(r, width, height);
    ScanOne(b, at, r.x, r.y, r.width, r.height, RAW, bytes, n);
  }

  // Where the next message begins, and how long the others are.
  lemma {:induction false} NextInBuffer(cells: CellBytes, pic: Colours, b: Bytes, at: nat, rects: seq<Rect>, width: nat, height: nat)
    returns (next: nat)
    requires Native(cells, pic) && AllInside(rects, width, height) && rects != []
    requires Holds(b, at, RectMessages(cells, rects, width, height))
    ensures next == at + 12 + Cells(rects[0].width, rects[0].height) * 4 && next <= |b|
    ensures next + |RectMessages(cells, rects[1..], width, height)| == at + |RectMessages(cells, rects, width, height)|
    ensures Holds(b, next, RectMessages(cells, rects[1..], width, height))
    ensures Holds(b, at, Header(rects[0].x, rects[0].y, rects[0].width, rects[0].height, RAW))
  {
    RectInBuffer(cells, pic, b, at, rects, width, height);
    next := at + 12 + Cells(rects[0].width, rects[0].height) * 4;
  }

  lemma {:induction false} ConsedScan(scan: Scan, first: Rectangle, rest: Scan, d: seq<Rectangle>, end: nat)
    requires d != [] && d[0] == first && scan == Consed(first, rest) && rest == Scanned(d[1..], end)
    ensures scan == Scanned(d, end)
  {
    assert [first] + d[1..] == d;
  }

  // One rectangle in front of others whose scan is known.
  lemma {:induction false} ScanMore(b: Bytes, at: nat, r: Rect, width: nat, height: nat, next: nat, n: nat, d: seq<Rectangle>, end: nat)
    requires Inside(r, width, height) && width < 0x1_0000 && height < 0x1_0000 && Cells(width, height) <= MAX_PIXELS
    requires Holds(b, at, Header(r.x, r.y, r.width, r.height, RAW))
    requires next == at + 12 + Cells(r.width, r.height) * 4 && next <= |b| && next <= MAX_UPDATE_BYTES
    requires d != [] && d[0] == Rectangle(r.x, r.y, r.width, r.height, RAW, at + 12, Cells(r.width, r.height) * 4)
    requires ScanRects(b, next, n) == Scanned(d[1..], end)
    ensures ScanRects(b, at, n + 1) == Scanned(d, end)
  {
    var rest := ScanRects(b, next, n);
    var bytes := Cells(r.width, r.height) * 4;
    ConsedScan(Consed(d[0], rest), d[0], rest, d, end);
    assert ScanRects(b, at, n + 1) == Consed(d[0], rest) by { ScanRaw(b, at, r, width, height, bytes, n); }
  }

  lemma {:induction false} ScanOfRects(cells: CellBytes, pic: Colours, b: Bytes, at: nat, rects: seq<Rect>, n: nat,
                                       width: nat, height: nat, d: seq<Rectangle>, end: nat)
    requires Native(cells, pic) && AllInside(rects, width, height) && n == |rects|
    requires width < 0x1_0000 && height < 0x1_0000 && Cells(width, height) <= MAX_PIXELS
    requires Holds(b, at, RectMessages(cells, rects, width, height))
    requires d == Described(rects, at, width, height)
    requires end == at + |RectMessages(cells, rects, width, height)| <= MAX_UPDATE_BYTES
    ensures ScanRects(b, at, n) == Scanned(d, end)
    decreases n
  {
    if n > 0 {
      var next := NextInBuffer(cells, pic, b, at, rects, width, height);
      DescribedFirst(rects, at, width, height);
      ScanOfRects(cells, pic, b, next, rects[1..], n - 1, width, height, d[1..], end);
      ScanMore(b, at, rects[0], width, height, next, n - 1, d, end);
    }
  }

  // ---- what the tool shows ----------------------------------------------------------------------------

  predicate Shows(t: Tool, width: nat, height: nat) {
    t.frame.Some? && t.frame.value.Valid() && t.frame.value.width == width && t.frame.value.height == height
  }

  // The pixel after the rectangles were drawn over a picture.
  ghost function After(rects: seq<Rect>, pic: Colours, old_: Rgb, px: int, py: int): Rgb {
    if Covers(rects, px, py) then pic(px, py) else old_
  }

  lemma {:induction false} ApplyRaw(cells: CellBytes, pic: Colours, t: Tool, b: Bytes, r: Rect, at: nat, bytes: nat, width: nat, height: nat,
                 px: nat, py: nat)
    requires Native(cells, pic) && Inside(r, width, height) && Shows(t, width, height) && px < width && py < height
    requires Holds(b, at, RawRows(cells, r.x, r.y, r.width, r.height))
    requires PayloadBytes(r.width, r.height, RAW) == Some(bytes) && at + bytes <= |b|
    ensures var a := ApplyRect(t, b, Rectangle(r.x, r.y, r.width, r.height, RAW, at, bytes));
            && a == Applied(t.(frame := a.tool.frame), true, false, true) && Shows(a.tool, width, height)
            && a.tool.frame.value.At(px, py) == After([r], pic, t.frame.value.At(px, py), px, py)
  {
    BlitPixel(cells, pic, t.frame.value, b, at, r.x, r.y, r.width, r.height, px, py);
    assert Covers([r], px, py) <==> r.Has(px, py) by {
      if r.Has(px, py) { assert [r][0].Has(px, py); }
    }
  }

  lemma {:induction false} CoversFirst(rects: seq<Rect>, px: int, py: int)
    requires rects != []
    ensures Covers(rects, px, py) <==> Covers([rects[0]], px, py) || Covers(rects[1..], px, py)
  {
    if Covers([rects[0]], px, py) { assert rects[0].Has(px, py); }
    if Covers(rects[1..], px, py) {
      var i :| 0 <= i < |rects[1..]| && rects[1..][i].Has(px, py);
      assert rects[i + 1].Has(px, py);
    }
    if Covers(rects, px, py) {
      var i :| 0 <= i < |rects| && rects[i].Has(px, py);
      if i == 0 { assert [rects[0]][0].Has(px, py); } else { assert rects[1..][i - 1].Has(px, py); }
    }
  }

  // The effect of drawing the rectangles, seen at one pixel.
  ghost predicate Drew(a: Applied, t: Tool, rects: seq<Rect>, pic: Colours, width: nat, height: nat, px: nat, py: nat)
    requires Shows(t, width, height) && px < width && py < height
  {
    && a == Applied(t.(frame := a.tool.frame), true, false, rects != []) && Shows(a.tool, width, height)
    && a.tool.frame.value.At(px, py) == After(rects, pic, t.frame.value.At(px, py), px, py)
  }

  lemma {:induction false} DrewTwice(t: Tool, first: Applied, rest: Applied, rects: seq<Rect>, pic: Colours,
                  width: nat, height: nat, px: nat, py: nat)
    requires rects != [] && Shows(t, width, height) && px < width && py < height
    requires Drew(first, t, [rects[0]], pic, width, height, px, py)
    requires Drew(rest, first.tool, rects[1..], pic, width, height, px, py)
    ensures Drew(Applied(rest.tool, rest.ok, first.resized || rest.resized, first.changed || rest.changed),
                 t, rects, pic, width, height, px, py)
  {
    CoversFirst(rects, px, py);
  }

  lemma {:induction false} ApplyFirst(cells: CellBytes, pic: Colours, t: Tool, b: Bytes, rects: seq<Rect>, at: nat, width: nat, height: nat,
                   px: nat, py: nat, bytes: nat)
    requires Native(cells, pic) && AllInside(rects, width, height) && Shows(t, width, height) && px < width && py < height
    requires Cells(width, height) <= MAX_PIXELS && rects != []
    requires Holds(b, at, RectMessages(cells, rects, width, height))
    requires bytes == Cells(rects[0].width, rects[0].height) * 4
    ensures var r := rects[0];
            var first := Rectangle(r.x, r.y, r.width, r.height, RAW, at + 12, bytes);
            Fits(first, |b|) && Drew(ApplyRect(t, b, first), t, [r], pic, width, height, px, py)
    ensures Holds(b, at + 12 + bytes, RectMessages(cells, rects[1..], width, height))
  {
    FirstHeld(cells, pic, b, rects, at, width, height, bytes);
    ApplyHeld(cells, pic, t, b, rects[0], at + 12, bytes, width, height, px, py);
  }

  lemma {:induction false} FirstHeld(cells: CellBytes, pic: Colours, b: Bytes, rects: seq<Rect>, at: nat, width: nat, height: nat,
                                     bytes: nat)
    requires Native(cells, pic) && AllInside(rects, width, height) && rects != []
    requires Holds(b, at, RectMessages(cells, rects, width, height)) && bytes == Cells(rects[0].width, rects[0].height) * 4
    ensures var r := rects[0];
            Inside(r, width, height) && at + 12 + bytes <= |b| && Holds(b, at + 12, RawRows(cells, r.x, r.y, r.width, r.height))
    ensures Holds(b, at + 12 + bytes, RectMessages(cells, rects[1..], width, height))
  {
    RectInBuffer(cells, pic, b, at, rects, width, height);
  }

  // One raw rectangle whose payload is held at a position.
  lemma {:induction false} ApplyHeld(cells: CellBytes, pic: Colours, t: Tool, b: Bytes, r: Rect, at: nat, bytes: nat,
                                     width: nat, height: nat, px: nat, py: nat)
    requires Native(cells, pic) && Inside(r, width, height) && Shows(t, width, height) && px < width && py < height
    requires Cells(width, height) <= MAX_PIXELS && bytes == Cells(r.width, r.height) * 4 && at + bytes <= |b|
    requires Holds(b, at, RawRows(cells, r.x, r.y, r.width, r.height))
    ensures var first := Rectangle(r.x, r.y, r.width, r.height, RAW, at, bytes);
            Fits(first, |b|) && Drew(ApplyRect(t, b, first), t, [r], pic, width, height, px, py)
  {
    RawPayload(r, width, height);
    ApplyRaw(cells, pic, t, b, r, at, bytes, width, height, px, py);
  }

  // One rectangle in front of others whose effect is known.
  lemma {:induction false} ApplyMore(t: Tool, b: Bytes, d: seq<Rectangle>, first: Applied, rects: seq<Rect>, pic: Colours,
                                     width: nat, height: nat, px: nat, py: nat)
    requires AllFit(d, |b|) && d != [] && rects != [] && Shows(t, width, height) && px < width && py < height
    requires first == ApplyRect(t, b, d[0]) && Drew(first, t, [rects[0]], pic, width, height, px, py)
    requires Drew(ApplyRects(first.tool, b, d[1..]), first.tool, rects[1..], pic, width, height, px, py)
    ensures Drew(ApplyRects(t, b, d), t, rects, pic, width, height, px, py)
  {
    DrewTwice(t, first, ApplyRects(first.tool, b, d[1..]), rects, pic, width, height, px, py);
  }

  lemma {:induction false} OthersFit(rects: seq<Rect>, at: nat, width: nat, height: nat, d: seq<Rectangle>, size: nat)
    requires AllInside(rects, width, height) && rects != []
    requires d == Described(rects, at, width, height) && AllFit(d, size)
    ensures var r, bytes := rects[0], Cells(rects[0].width, rects[0].height) * 4;
            && d != [] && d[0] == Rectangle(r.x, r.y, r.width, r.height, RAW, at + 12, bytes)
            && d[1..] == Described(rects[1..], at + 12 + bytes, width, height) && AllFit(d[1..], size)
  {
    DescribedFirst(rects, at, width, height);
    var bytes := Cells(rects[0].width, rects[0].height) * 4;
    assert d[1..] == Described(rects[1..], at + 12 + bytes, width, height);
    assert forall i :: 0 <= i < |d| - 1 ==> d[1..][i] == d[i + 1];
  }

  lemma {:induction false} ApplyAll(cells: CellBytes, pic: Colours, t: Tool, b: Bytes, rects: seq<Rect>, at: nat,
                                    d: seq<Rectangle>, width: nat, height: nat, px: nat, py: nat)
    requires Native(cells, pic) && AllInside(rects, width, height) && Shows(t, width, height) && px < width && py < height
    requires Cells(width, height) <= MAX_PIXELS
    requires Holds(b, at, RectMessages(cells, rects, width, height))
    requires d == Described(rects, at, width, height) && AllFit(d, |b|)
    ensures Drew(ApplyRects(t, b, d), t, rects, pic, width, height, px, py)
    decreases |rects|
  {
    if rects != [] {
      var r, bytes := rects[0], Cells(rects[0].width, rects[0].height) * 4;
      var first := Rectangle(r.x, r.y, r.width, r.height, RAW, at + 12, bytes);
      var others := Described(rects[1..], at + 12 + bytes, width, height);
      OthersFit(rects, at, width, height, d, |b|);
      ApplyFirst(cells, pic, t, b, rects, at, width, height, px, py, bytes);
      var drawn := ApplyRect(t, b, first);
      ApplyAll(cells, pic, drawn.tool, b, rects[1..], at + 12 + bytes, others, width, height, px, py);
      ApplyMore(t, b, d, drawn, rects, pic, width, height, px, py);
    }
  }

  // ---- whole updates ----------------------------------------------------------------------------------

  // What the tool's picture is drawn on: a resize starts from black.
  function Base(t: Tool, resized: bool, width: nat, height: nat): Tool {
    if resized then t.(frame := Some(BlackImage(width, height))) else t
  }

  function ResizeBytes(resized: bool, width: nat, height: nat): Bytes {
    if resized then Header(0, 0, width, height, DESKTOP_SIZE) else []
  }

  lemma {:induction false} UpdateParts(cells: CellBytes, resized: bool, width: nat, height: nat, rects: seq<Rect>, rest: Bytes)
    requires AllInside(rects, width, height) && |rects| + One(resized) < 0x1_0000
    ensures var u := UpdateBytes(cells, resized, width, height, rects);
            var b := u + rest;
            && b[0] == 0 && ReadU16(b, 2) == |rects| + One(resized)
            && Holds(b, 4, ResizeBytes(resized, width, height))
            && Holds(b, 4 + 12 * One(resized), RectMessages(cells, rects, width, height))
            && |u| == 4 + 12 * One(resized) + |RectMessages(cells, rects, width, height)|
  {
    var resize := ResizeBytes(resized, width, height);
    CountedParts(|rects| + One(resized), resize, RectMessages(cells, rects, width, height), rest);
    assert |resize| == 12 * One(resized);
  }

  // A type byte, padding, a count, and two parts behind them.
  lemma {:induction false} CountedParts(count: nat, first: Bytes, second: Bytes, rest: Bytes)
    requires count < 0x1_0000
    ensures var b := [0, 0] + U16(count) + (first + second) + rest;
            && b[0] == 0 && ReadU16(b, 2) == count && Holds(b, 4, first) && Holds(b, 4 + |first|, second)
  {
    var b := [0, 0] + U16(count) + (first + second) + rest;
    assert b == [0, 0] + U16(count) + (first + second + rest);
    U16Inside([0, 0], count, first + second + rest);
    assert b[4..4 + |first + second|] == first + second;
    HoldsParts(b, 4, first, second);
  }

  // What the scan of a printed update finds: the DesktopSize rectangle, if any, and the raw ones.
  function UpdateRectangles(resized: bool, width: nat, height: nat, rects: seq<Rect>): seq<Rectangle>
    requires AllInside(rects, width, height)
  {
    (if resized then [Rectangle(0, 0, width, height, DESKTOP_SIZE, 16, 0)] else [])
    + Described(rects, 4 + 12 * One(resized), width, height)
  }

  lemma {:induction false} ScanBehindResize(b: Bytes, at: nat, width: nat, height: nat, n: nat, d: seq<Rectangle>, end: nat)
    requires width < 0x1_0000 && height < 0x1_0000 && at + 12 <= MAX_UPDATE_BYTES
    requires Holds(b, at, Header(0, 0, width, height, DESKTOP_SIZE)) && ScanRects(b, at + 12, n) == Scanned(d, end)
    ensures ScanRects(b, at, n + 1) == Scanned([Rectangle(0, 0, width, height, DESKTOP_SIZE, at + 12, 0)] + d, end)
  {
    ScanOne(b, at, 0, 0, width, height, DESKTOP_SIZE, 0, n);
  }

  // The scan of the rectangles of an update that begin at a position.
  lemma {:induction false} ScanOfUpdate(cells: CellBytes, pic: Colours, resized: bool, width: nat, height: nat, rects: seq<Rect>,
                                        b: Bytes, start: nat, at: nat, end: nat)
    requires Native(cells, pic) && AllInside(rects, width, height) && at == start + 12 * One(resized)
    requires width < 0x1_0000 && height < 0x1_0000 && Cells(width, height) <= MAX_PIXELS
    requires Holds(b, start, ResizeBytes(resized, width, height))
    requires Holds(b, at, RectMessages(cells, rects, width, height))
    requires end == at + |RectMessages(cells, rects, width, height)| <= MAX_UPDATE_BYTES
    ensures ScanRects(b, start, |rects| + One(resized))
            == Scanned((if resized then [Rectangle(0, 0, width, height, DESKTOP_SIZE, start + 12, 0)] else [])
                       + Described(rects, at, width, height), end)
  {
    var described := Described(rects, at, width, height);
    ScanOfRects(cells, pic, b, at, rects, |rects|, width, height, described, end);
    if resized {
      ScanBehindResize(b, start, width, height, |rects|, described, end);
    } else {
      assert at == start && [] + described == described;
    }
  }

  // Applying what was scanned draws the rectangles over the old picture, or over black.
  lemma {:induction false} ApplyUpdate(cells: CellBytes, pic: Colours, t: Tool, resized: bool, width: nat, height: nat, rects: seq<Rect>,
                    u: Bytes, d: seq<Rectangle>, px: nat, py: nat)
    requires Native(cells, pic) && AllInside(rects, width, height)
    requires 0 < width && 0 < height && Cells(width, height) <= MAX_PIXELS && px < width && py < height
    requires resized || Shows(t, width, height)
    requires Holds(u, 4 + 12 * One(resized), RectMessages(cells, rects, width, height))
    requires d == UpdateRectangles(resized, width, height, rects) && AllFit(d, |u|)
    ensures var a := ApplyRects(t, u, d);
            && Shows(a.tool, width, height) && Shows(Base(t, resized, width, height), width, height)
            && a == Applied(t.(frame := a.tool.frame), true, resized, resized || rects != [])
            && a.tool.frame.value.At(px, py)
               == After(rects, pic, Base(t, resized, width, height).frame.value.At(px, py), px, py)
  {
    var described := Described(rects, 4 + 12 * One(resized), width, height);
    var base := Base(t, resized, width, height);
    forall i | 0 <= i < |described|
      ensures Fits(described[i], |u|)
    {
      assert d[i + One(resized)] == described[i];
    }
    ApplyAll(cells, pic, base, u, rects, 4 + 12 * One(resized), described, width, height, px, py);
    if resized {
      assert d[1..] == described;
      assert ApplyRect(t, u, d[0]) == Applied(base, true, true, true);
    } else {
      assert d == described;
    }
  }

  // The parser's answer to a printed update, by its two passes.
  lemma {:induction false} UpdateOutcome(t: Tool, u: Bytes, rest: Bytes, count: nat, d: seq<Rectangle>)
    requires t.phase == Streaming && 4 <= |u| && (u + rest)[0] == 0 && ReadU16(u + rest, 2) == count <= MAX_RECTS
    requires ScanRects(u + rest, 4, count) == Scanned(d, |u|) && AllFit(d, |u|) && ApplyRects(t, u, d).ok
    ensures ToolClient.StepOf(t, u + rest) == Message(|u|, Completed(ApplyRects(t, u, d)))
  {
    assert (u + rest)[..|u|] == u;
  }

  // The header pass over a buffer that holds a printed update.
  lemma {:induction false} UpdateScanned(cells: CellBytes, pic: Colours, resized: bool, width: nat, height: nat, rects: seq<Rect>,
                                         b: Bytes, start: nat, size: nat)
    requires Native(cells, pic) && AllInside(rects, width, height) && start == 4
    requires width < 0x1_0000 && height < 0x1_0000 && Cells(width, height) <= MAX_PIXELS
    requires Holds(b, start, ResizeBytes(resized, width, height))
    requires Holds(b, start + 12 * One(resized), RectMessages(cells, rects, width, height))
    requires size == start + 12 * One(resized) + |RectMessages(cells, rects, width, height)| <= MAX_UPDATE_BYTES
    ensures ScanRects(b, start, |rects| + One(resized)) == Scanned(UpdateRectangles(resized, width, height, rects), size)
    ensures AllFit(UpdateRectangles(resized, width, height, rects), size)
  {
    var at := start + 12 * One(resized);
    ScanOfUpdate(cells, pic, resized, width, height, rects, b, start, at, size);
    RectanglesAre(resized, width, height, rects, start, at);
    ScannedFit(b, start, |rects| + One(resized), UpdateRectangles(resized, width, height, rects), size);
  }

  lemma {:induction false} RectanglesAre(resized: bool, width: nat, height: nat, rects: seq<Rect>, start: nat, at: nat)
    requires AllInside(rects, width, height) && start == 4 && at == start + 12 * One(resized)
    ensures (if resized then [Rectangle(0, 0, width, height, DESKTOP_SIZE, start + 12, 0)] else [])
            + Described(rects, at, width, height)
            == UpdateRectangles(resized, width, height, rects)
  {
  }

  lemma {:induction false} ScannedFit(b: Bytes, offset: nat, n: nat, d: seq<Rectangle>, end: nat)
    requires offset <= |b| && ScanRects(b, offset, n) == Scanned(d, end)
    ensures AllFit(d, end)
  {
  }

  lemma {:induction false} UpdateHeld(cells: CellBytes, pic: Colours, resized: bool, width: nat, height: nat, rects: seq<Rect>,
                                      u: Bytes, d: seq<Rectangle>)
    requires Native(cells, pic) && AllInside(rects, width, height) && |rects| + One(resized) <= MAX_RECTS
    requires width < 0x1_0000 && height < 0x1_0000 && Cells(width, height) <= MAX_PIXELS
    requires u == UpdateBytes(cells, resized, width, height, rects) && |u| <= MAX_UPDATE_BYTES
    requires d == UpdateRectangles(resized, width, height, rects)
    ensures AllFit(d, |u|) && Holds(u, 4 + 12 * One(resized), RectMessages(cells, rects, width, height))
  {
    UpdateParts(cells, resized, width, height, rects, []);
    assert u + [] == u;
    UpdateScanned(cells, pic, resized, width, height, rects, u, 4, |u|);
  }

  // One turn of the parser over a printed update.
  lemma {:induction false} UpdateStep(cells: CellBytes, pic: Colours, t: Tool, resized: bool, width: nat, height: nat, rects: seq<Rect>,
                                      u: Bytes, d: seq<Rectangle>, rest: Bytes)
    requires Native(cells, pic) && AllInside(rects, width, height) && |rects| + One(resized) <= MAX_RECTS
    requires width < 0x1_0000 && height < 0x1_0000 && Cells(width, height) <= MAX_PIXELS
    requires u == UpdateBytes(cells, resized, width, height, rects) && |u| <= MAX_UPDATE_BYTES
    requires d == UpdateRectangles(resized, width, height, rects) && AllFit(d, |u|)
    requires t.phase == Streaming && ApplyRects(t, u, d).ok
    ensures ToolClient.StepOf(t, u + rest) == Message(|u|, Completed(ApplyRects(t, u, d)))
  {
    UpdateParts(cells, resized, width, height, rects, rest);
    UpdateScanned(cells, pic, resized, width, height, rects, u + rest, 4, |u|);
    UpdateOutcome(t, u, rest, |rects| + One(resized), d);
  }

  // The tool reads the server's update completely, whatever follows it.  Afterwards every
  // pixel of its picture is the frame's where a rectangle covers it, and otherwise what it
  // was, or black after a resize; nothing else but the request bookkeeping changes.
  lemma {:induction false} UpdateAgrees(pic: Colours, t: Tool, resized: bool, width: nat, height: nat, rects: seq<Rect>, rest: Bytes,
                     px: nat, py: nat) returns (after: Tool)
    requires t.phase == Streaming && AllInside(rects, width, height) && |rects| + One(resized) <= MAX_RECTS
    requires 0 < width < 0x1_0000 && 0 < height < 0x1_0000 && Cells(width, height) <= MAX_PIXELS
    requires resized || Shows(t, width, height)
    requires |UpdateBytes(CellsOf(pic, NATIVE), resized, width, height, rects)| <= MAX_UPDATE_BYTES
    requires px < width && py < height
    ensures var u := UpdateBytes(CellsOf(pic, NATIVE), resized, width, height, rects);
            ToolClient.StepOf(t, u + rest) == Message(|u|, after)
    ensures Shows(after, width, height) && Shows(Base(t, resized, width, height), width, height)
    ensures after.frame.value.At(px, py)
            == After(rects, pic, Base(t, resized, width, height).frame.value.At(px, py), px, py)
    ensures after == t.(frame := after.frame, waiting := true, frames := after.frames,
                        written := t.written + RequestBytes(!resized, width, height))
    ensures after.frames == t.frames + One(resized || rects != [])
  {
    var cells := CellsOf(pic, NATIVE);
    NativeCells(pic);
    var u := UpdateBytes(cells, resized, width, height, rects);
    var d := UpdateRectangles(resized, width, height, rects);
    UpdateHeld(cells, pic, resized, width, height, rects, u, d);
    ApplyUpdate(cells, pic, t, resized, width, height, rects, u, d, px, py);
    UpdateStep(cells, pic, t, resized, width, height, rects, u, d, rest);
    after := Completed(ApplyRects(t, u, d));
  }
}
