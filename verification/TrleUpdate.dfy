// A whole update for a viewer that takes TRLE.
module TrleUpdate {
  // The message of trySendUpdate in src/runtime/src/transport/rfb_transport.cpp with TRLE
  // rectangles, and a reader for it written from sections 7.6.1, 7.7.5 and 7.8.2 of RFC 6143.

  import opened Option
  import opened RfbRegion
  import opened Frames
  import opened Trle
  import Wire
  import WireAgreement

  const TRLE: int := 15

  // ---- printing --------------------------------------------------------------------------------------

  // The bytes of every rectangle of a frame.
  type RectBytes = Rect -> seq<int>

  function TrleRects(f: Frame): RectBytes {
    (r: Rect) => if WireAgreement.Inside(r, f.width, f.height) then RectMessage(f, r) else []
  }

  function RectMessage(f: Frame, r: Rect): seq<int>
    requires WireAgreement.Inside(r, f.width, f.height)
  {
    Wire.Header(r.x, r.y, r.width, r.height, TRLE) + EncodeRect(f, r.x, r.y, r.width, r.height)
  }

  function Messages(encoded: RectBytes, rects: seq<Rect>): seq<int> {
    if rects == [] then [] else encoded(rects[0]) + Messages(encoded, rects[1..])
  }

  function ResizeBytes(width: nat, height: nat, resized: bool): seq<int> {
    if resized then Wire.Header(0, 0, width, height, Wire.DESKTOP_SIZE) else []
  }

  function Count(resized: bool, rects: seq<Rect>): nat {
    |rects| + WireAgreement.One(resized)
  }

  function UpdateBytes(encoded: RectBytes, width: nat, height: nat, resized: bool, rects: seq<Rect>): seq<int> {
    [0, 0] + Wire.U16(Count(resized, rects)) + (ResizeBytes(width, height, resized) + Messages(encoded, rects))
  }

  // ---- reading ---------------------------------------------------------------------------------------

  predicate IsByte(b: int) {
    0 <= b < 256
  }

  function ReadWord(bytes: seq<int>): Parsed<nat> {
    if |bytes| < 2 || !IsByte(bytes[0]) || !IsByte(bytes[1]) then Malformed
    else Parsed(bytes[0] * 256 + bytes[1], bytes[2..])
  }

  // The encoding number is signed.
  function ReadEncoding(bytes: seq<int>): Parsed<int> {
    var high := ReadWord(bytes);
    if high.Malformed? then Malformed
    else
      var low := ReadWord(high.rest);
      if low.Malformed? then Malformed
      else Parsed((if high.value < 0x8000 then high.value else high.value - 0x1_0000) * 0x1_0000 + low.value, low.rest)
  }

  datatype Head = Head(x: nat, y: nat, width: nat, height: nat, encoding: int)

  function ReadHead(bytes: seq<int>): Parsed<Head> {
    var x := ReadWord(bytes);
    if x.Malformed? then Malformed else
      var y := ReadWord(x.rest);
      if y.Malformed? then Malformed else
        var width := ReadWord(y.rest);
        if width.Malformed? then Malformed else
          var height := ReadWord(width.rest);
          if height.Malformed? then Malformed else
            var encoding := ReadEncoding(height.rest);
            if encoding.Malformed? then Malformed
            else Parsed(Head(x.value, y.value, width.value, height.value, encoding.value), encoding.rest)
  }

  datatype Part = Resize(width: nat, height: nat) | Patch(x: nat, y: nat, width: nat, height: nat, tiles: seq<TileImage>)

  function ReadPart(bytes: seq<int>): Parsed<Part> {
    var head := ReadHead(bytes);
    if head.Malformed? then Malformed
    else
      var h := head.value;
      if h.encoding == Wire.DESKTOP_SIZE then Parsed(Resize(h.width, h.height), head.rest)
      else if h.encoding == TRLE then
        var tiles := DecodeTiles(head.rest, h.width, h.height, 0);
        if tiles.Malformed? then Malformed else Parsed(Patch(h.x, h.y, h.width, h.height, tiles.value), tiles.rest)
      else Malformed
  }

  // How one rectangle is read.
  type PartReader = seq<int> -> Parsed<Part>

  function TrlePart(): PartReader {
    (bytes: seq<int>) => ReadPart(bytes)
  }

  function ReadParts(part: PartReader, bytes: seq<int>, n: nat): Parsed<seq<Part>>
    decreases n
  {
    if n == 0 then Parsed([], bytes)
    else
      var first := part(bytes);
      if first.Malformed? then Malformed
      else
        var others := ReadParts(part, first.rest, n - 1);
        if others.Malformed? then Malformed else Parsed([first.value] + others.value, others.rest)
  }

  function ReadUpdate(part: PartReader, bytes: seq<int>): Parsed<seq<Part>> {
    if |bytes| < 2 || bytes[0] != 0 then Malformed
    else
      var count := ReadWord(bytes[2..]);
      if count.Malformed? then Malformed else ReadParts(part, count.rest, count.value)
  }

  // What a viewer shows at a pixel; a resize leaves nothing known.
  function Shows(parts: seq<Part>, before: Option<Rgb>, px: nat, py: nat): Option<Rgb>
    decreases |parts|
  {
    if parts == [] then before
    else
      var next := match parts[0]
        case Resize(_, _) => None
        case Patch(x, y, width, height, tiles) =>
          if x <= px < x + width && y <= py < y + height then ColourAt(tiles, px - x, py - y) else before;
      Shows(parts[1..], next, px, py)
  }

  // ---- reading back ----------------------------------------------------------------------------------

  lemma {:induction false} WordRoundTrip(v: nat, rest: seq<int>)
    requires v < 0x1_0000
    ensures ReadWord(Wire.U16(v) + rest) == Parsed(v, rest)
  {
    assert (Wire.U16(v) + rest)[2..] == rest;
  }

  lemma {:induction false} TwoWords(u: nat)
    requires u < 0x1_0000_0000
    ensures Wire.U32(u) == Wire.U16(u / 0x1_0000) + Wire.U16(u % 0x1_0000)
  {
    var high, low := u / 0x1_0000, u % 0x1_0000;
    assert u == high * 0x1_0000 + low;
    assert u / 0x100_0000 == high / 0x100 && u / 0x100 == high * 0x100 + low / 0x100;
  }

  lemma {:induction false} EncodingRoundTrip(v: int, rest: seq<int>)
    requires -0x8000_0000 <= v < 0x8000_0000
    ensures ReadEncoding(Wire.S32(v) + rest) == Parsed(v, rest)
  {
    var u := if v < 0 then v + 0x1_0000_0000 else v;
    var high, low := u / 0x1_0000, u % 0x1_0000;
    TwoWords(u);
    assert Wire.S32(v) + rest == Wire.U16(high) + (Wire.U16(low) + rest);
    WordRoundTrip(high, Wire.U16(low) + rest);
    WordRoundTrip(low, rest);
  }

  lemma {:induction false} HeadRoundTrip(x: nat, y: nat, width: nat, height: nat, encoding: int, rest: seq<int>)
    requires x < 0x1_0000 && y < 0x1_0000 && width < 0x1_0000 && height < 0x1_0000
    requires -0x8000_0000 <= encoding < 0x8000_0000
    ensures ReadHead(Wire.Header(x, y, width, height, encoding) + rest) == Parsed(Head(x, y, width, height, encoding), rest)
  {
    var e: seq<int> := Wire.S32(encoding) + rest;
    var h: seq<int> := Wire.U16(height) + e;
    var w: seq<int> := Wire.U16(width) + h;
    assert Wire.Header(x, y, width, height, encoding) + rest == Wire.U16(x) + (Wire.U16(y) + w);
    WordRoundTrip(x, Wire.U16(y) + w);
    WordRoundTrip(y, w);
    WordRoundTrip(width, h);
    WordRoundTrip(height, e);
    EncodingRoundTrip(encoding, rest);
  }

  lemma {:induction false} PatchRead(x: nat, y: nat, width: nat, height: nat, payload: seq<int>, tiles: seq<TileImage>, rest: seq<int>)
    requires x < 0x1_0000 && y < 0x1_0000 && width < 0x1_0000 && height < 0x1_0000
    requires DecodeTiles(payload + rest, width, height, 0) == Parsed(tiles, rest)
    ensures ReadPart(Wire.Header(x, y, width, height, TRLE) + payload + rest) == Parsed(Patch(x, y, width, height, tiles), rest)
  {
    HeadRoundTrip(x, y, width, height, TRLE, payload + rest);
    assert Wire.Header(x, y, width, height, TRLE) + payload + rest == Wire.Header(x, y, width, height, TRLE) + (payload + rest);
  }

  // The colours of a decoded rectangle.
  ghost predicate Presents(f: Frame, r: Rect, tiles: seq<TileImage>)
    requires Readable(f) && WireAgreement.Inside(r, f.width, f.height)
  {
    forall px: nat, py: nat :: px < r.width && py < r.height ==> ColourAt(tiles, px, py) == Some(PixelAt(f, r.x + px, r.y + py))
  }

  lemma {:induction false} RectDecoded(f: Frame, r: Rect, rest: seq<int>) returns (tiles: seq<TileImage>)
    requires Readable(f) && WireAgreement.Inside(r, f.width, f.height)
    ensures DecodeTiles(EncodeRect(f, r.x, r.y, r.width, r.height) + rest, r.width, r.height, 0) == Parsed(tiles, rest)
    ensures Presents(f, r, tiles)
  {
    var decoded := DecodeTiles(EncodeRect(f, r.x, r.y, r.width, r.height) + rest, r.width, r.height, 0);
    TrleRoundTrip(f, r.x, r.y, r.width, r.height, rest, 0, 0);
    tiles := decoded.value;
    forall px: nat, py: nat | px < r.width && py < r.height
      ensures ColourAt(tiles, px, py) == Some(PixelAt(f, r.x + px, r.y + py))
    {
      TrleRoundTrip(f, r.x, r.y, r.width, r.height, rest, px, py);
    }
  }

  lemma {:induction false} RectRoundTrip(f: Frame, r: Rect, rest: seq<int>) returns (tiles: seq<TileImage>)
    requires Readable(f) && WireAgreement.Inside(r, f.width, f.height) && f.width < 0x1_0000 && f.height < 0x1_0000
    ensures TrlePart()(TrleRects(f)(r) + rest) == Parsed(Patch(r.x, r.y, r.width, r.height, tiles), rest)
    ensures Presents(f, r, tiles)
  {
    tiles := RectDecoded(f, r, rest);
    PatchRead(r.x, r.y, r.width, r.height, EncodeRect(f, r.x, r.y, r.width, r.height), tiles, rest);
  }

  // A reader undoes the bytes of every rectangle of a frame, whatever follows them.
  ghost predicate Undoes(part: PartReader, encoded: RectBytes, f: Frame)
    requires Readable(f)
  {
    forall r, rest :: WireAgreement.Inside(r, f.width, f.height) ==> UndoesOne(part, encoded, f, r, rest)
  }

  ghost predicate UndoesOne(part: PartReader, encoded: RectBytes, f: Frame, r: Rect, rest: seq<int>)
    requires Readable(f) && WireAgreement.Inside(r, f.width, f.height)
  {
    var read := part(encoded(r) + rest);
    && read.Parsed? && read.rest == rest && read.value.Patch?
    && read.value == Patch(r.x, r.y, r.width, r.height, read.value.tiles) && Presents(f, r, read.value.tiles)
  }

  lemma {:induction false} TrleUndoes(f: Frame)
    requires Readable(f) && f.width < 0x1_0000 && f.height < 0x1_0000
    ensures Undoes(TrlePart(), TrleRects(f), f)
  {
    forall r, rest | WireAgreement.Inside(r, f.width, f.height)
      ensures UndoesOne(TrlePart(), TrleRects(f), f, r, rest)
    {
      var tiles := RectRoundTrip(f, r, rest);
    }
  }

  lemma {:induction false} PartsRead(part: PartReader, bytes: seq<int>, n: nat, first: Part, more: seq<int>,
                                     others: seq<Part>, rest: seq<int>)
    requires part(bytes) == Parsed(first, more) && ReadParts(part, more, n) == Parsed(others, rest)
    ensures ReadParts(part, bytes, n + 1) == Parsed([first] + others, rest)
  {
  }

  lemma {:induction false} PatchShows(f: Frame, r: Rect, tiles: seq<TileImage>, others: seq<Part>, before: Option<Rgb>, px: nat, py: nat)
    requires Readable(f) && WireAgreement.Inside(r, f.width, f.height) && Presents(f, r, tiles)
    requires px < f.width && py < f.height
    ensures Shows([Patch(r.x, r.y, r.width, r.height, tiles)] + others, before, px, py)
         == Shows(others, if r.Has(px, py) then Some(PixelAt(f, px, py)) else before, px, py)
  {
    var parts := [Patch(r.x, r.y, r.width, r.height, tiles)] + others;
    assert parts[1..] == others;
    if r.Has(px, py) {
      var col, row := px - r.x, py - r.y;
      assert ColourAt(tiles, col, row) == Some(PixelAt(f, r.x + col, r.y + row));
    }
  }

  // What the reader of the rectangles ends with at one pixel.
  function After(f: Frame, rects: seq<Rect>, before: Option<Rgb>, px: nat, py: nat): Option<Rgb>
    requires Readable(f) && px < f.width && py < f.height
    decreases |rects|
  {
    if rects == [] then before
    else After(f, rects[1..], if rects[0].Has(px, py) then Some(PixelAt(f, px, py)) else before, px, py)
  }

  // One more rectangle in front, whatever its bytes are.
  lemma {:induction false} MoreRead(part: PartReader, encoded: RectBytes, rects: seq<Rect>, rest: seq<int>,
                                    first: Part, others: seq<Part>)
    requires rects != []
    requires var more := Messages(encoded, rects[1..]) + rest;
             && part(encoded(rects[0]) + more) == Parsed(first, more)
             && ReadParts(part, more, |rects| - 1) == Parsed(others, rest)
    ensures ReadParts(part, Messages(encoded, rects) + rest, |rects|) == Parsed([first] + others, rest)
  {
    var more := Messages(encoded, rects[1..]) + rest;
    assert Messages(encoded, rects) + rest == encoded(rects[0]) + more;
    PartsRead(part, encoded(rects[0]) + more, |rects| - 1, first, more, others, rest);
  }

  lemma {:induction false} RectsRoundTrip(part: PartReader, encoded: RectBytes, f: Frame, rects: seq<Rect>, rest: seq<int>,
                                          before: Option<Rgb>, px: nat, py: nat) returns (parts: seq<Part>)
    requires Readable(f) && WireAgreement.AllInside(rects, f.width, f.height) && Undoes(part, encoded, f)
    requires px < f.width && py < f.height
    ensures ReadParts(part, Messages(encoded, rects) + rest, |rects|) == Parsed(parts, rest)
    ensures Shows(parts, before, px, py) == After(f, rects, before, px, py)
    decreases |rects|
  {
    if rects == [] {
      parts := [];
      assert Messages(encoded, []) + rest == rest;
    } else {
      var r, more := rects[0], Messages(encoded, rects[1..]) + rest;
      assert UndoesOne(part, encoded, f, r, more);
      var first := part(encoded(r) + more).value;
      var next := if r.Has(px, py) then Some(PixelAt(f, px, py)) else before;
      var others := RectsRoundTrip(part, encoded, f, rects[1..], rest, next, px, py);
      parts := [first] + others;
      MoreRead(part, encoded, rects, rest, first, others);
      PatchShows(f, r, first.tiles, others, before, px, py);
    }
  }

  lemma {:induction false} AfterIsCovered(f: Frame, rects: seq<Rect>, before: Option<Rgb>, px: nat, py: nat)
    requires Readable(f) && px < f.width && py < f.height
    ensures After(f, rects, before, px, py) == if Covers(rects, px, py) then Some(PixelAt(f, px, py)) else before
    decreases |rects|
  {
    if rects != [] {
      AfterIsCovered(f, rects[1..], if rects[0].Has(px, py) then Some(PixelAt(f, px, py)) else before, px, py);
      CoversCons(rects, px, py);
    }
  }

  lemma {:induction false} CountRead(part: PartReader, count: nat, body: seq<int>)
    requires count < 0x1_0000
    ensures ReadUpdate(part, [0, 0] + Wire.U16(count) + body) == ReadParts(part, body, count)
  {
    var message := [0, 0] + Wire.U16(count) + body;
    assert message[2..] == Wire.U16(count) + body;
    WordRoundTrip(count, body);
  }

  lemma {:induction false} ResizeRead(width: nat, height: nat, body: seq<int>)
    requires width < 0x1_0000 && height < 0x1_0000
    ensures TrlePart()(ResizeBytes(width, height, true) + body) == Parsed(Resize(width, height), body)
  {
    HeadRoundTrip(0, 0, width, height, Wire.DESKTOP_SIZE, body);
  }

  // A message, taken apart behind its count.
  lemma {:induction false} MessageParts(encoded: RectBytes, width: nat, height: nat, resized: bool, rects: seq<Rect>, rest: seq<int>)
    ensures UpdateBytes(encoded, width, height, resized, rects) + rest
            == [0, 0] + Wire.U16(Count(resized, rects))
               + (ResizeBytes(width, height, resized) + (Messages(encoded, rects) + rest))
  {
    Regrouped([0, 0] + Wire.U16(Count(resized, rects)), ResizeBytes(width, height, resized), Messages(encoded, rects), rest);
  }

  lemma {:induction false} Regrouped(a: seq<int>, b: seq<int>, c: seq<int>, d: seq<int>)
    ensures a + (b + c) + d == a + (b + (c + d))
  {
  }

  // The parts a whole message is read as.
  function WithResize(width: nat, height: nat, resized: bool, parts: seq<Part>): seq<Part> {
    if resized then [Resize(width, height)] + parts else parts
  }

  // The rectangles behind a front that is read as a resize, or is empty.
  lemma {:induction false} TailRead(part: PartReader, front: seq<int>, width: nat, height: nat, resized: bool, n: nat,
                                    body: seq<int>, parts: seq<Part>, rest: seq<int>)
    requires if resized then part(front + body) == Parsed(Resize(width, height), body) else front == []
    requires ReadParts(part, body, n) == Parsed(parts, rest)
    ensures ReadParts(part, front + body, n + WireAgreement.One(resized)) == Parsed(WithResize(width, height, resized, parts), rest)
  {
    if resized { PartsRead(part, front + body, n, Resize(width, height), body, parts, rest); } else { assert front + body == body; }
  }

  // The round trip of a whole update: for every readable frame, alpha mode and list of
  // rectangles in bounds, the reader consumes exactly the message; covered pixels show the
  // presented colour of the frame, the others what they showed, or nothing after a resize.
  lemma {:induction false} TrleUpdateRoundTrip(f: Frame, resized: bool, rects: seq<Rect>, rest: seq<int>,
                                               before: Option<Rgb>, px: nat, py: nat)
    requires Readable(f) && WireAgreement.AllInside(rects, f.width, f.height) && f.width < 0x1_0000 && f.height < 0x1_0000
    requires px < f.width && py < f.height && Count(resized, rects) < 0x1_0000
    ensures var read := ReadUpdate(TrlePart(), UpdateBytes(TrleRects(f), f.width, f.height, resized, rects) + rest);
            && read.Parsed? && read.rest == rest
            && (resized ==> read.value != [] && read.value[0] == Resize(f.width, f.height))
            && Shows(read.value, before, px, py)
               == if Covers(rects, px, py) then Some(PixelAt(f, px, py)) else if resized then None else before
  {
    var start := if resized then None else before;
    TrleUndoes(f);
    var parts := RectsRoundTrip(TrlePart(), TrleRects(f), f, rects, rest, start, px, py);
    var body := Messages(TrleRects(f), rects) + rest;
    ResizeRead(f.width, f.height, body);
    AfterIsCovered(f, rects, start, px, py);
    UpdateRead(TrlePart(), TrleRects(f), f.width, f.height, resized, rects, parts, rest);
    ResizeShows(f.width, f.height, parts, before, px, py);
  }

  lemma {:induction false} UpdateRead(part: PartReader, encoded: RectBytes, width: nat, height: nat, resized: bool,
                                      rects: seq<Rect>, parts: seq<Part>, rest: seq<int>)
    requires var body := Messages(encoded, rects) + rest;
             && ReadParts(part, body, |rects|) == Parsed(parts, rest)
             && part(ResizeBytes(width, height, true) + body) == Parsed(Resize(width, height), body)
    requires Count(resized, rects) < 0x1_0000
    ensures ReadUpdate(part, UpdateBytes(encoded, width, height, resized, rects) + rest)
            == Parsed(WithResize(width, height, resized, parts), rest)
  {
    var body, front := Messages(encoded, rects) + rest, ResizeBytes(width, height, resized);
    MessageParts(encoded, width, height, resized, rects, rest);
    CountRead(part, Count(resized, rects), front + body);
    TailRead(part, front, width, height, resized, |rects|, body, parts, rest);
  }

  lemma {:induction false} ResizeShows(width: nat, height: nat, parts: seq<Part>, before: Option<Rgb>, px: nat, py: nat)
    ensures Shows([Resize(width, height)] + parts, before, px, py) == Shows(parts, None, px, py)
  {
    assert ([Resize(width, height)] + parts)[1..] == parts;
  }
}
