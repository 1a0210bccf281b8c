// The TRLE encoder (src/runtime/src/transport/rfb_trle.hpp) and a decoder for it.
module Trle {
  // The decoder is written from section 7.7.5 of RFC 6143 for the subencodings the encoder
  // uses: raw (0), solid (1) and packed palette (2 to 16).

  import opened Option
  import opened Frames

  const TRLE_TILE: nat := 16
  const MAX_PALETTE: nat := 16

  // A colour in 24 bits, red in the most significant byte.
  type Pixel = p: int | 0 <= p < 0x100_0000

  function PackRgb(c: Rgb): Pixel {
    c.r * 65536 + c.g * 256 + c.b
  }

  // ---- encoding, as functions -----------------------------------------------------------------

  // The wire form of one pixel: the unused byte of the 32-bit format is left out.
  function Cpixel(p: Pixel): seq<Byte> {
    [p / 65536, p / 256 % 256, p % 256]
  }

  function Cpixels(ps: seq<Pixel>): seq<Byte> {
    if ps == [] then [] else Cpixel(ps[0]) + Cpixels(ps[1..])
  }

  function PaletteFrom(ps: seq<Pixel>, palette: seq<Pixel>): seq<Pixel>
    decreases |ps|
  {
    if ps == [] then palette
    else PaletteFrom(ps[1..], if ps[0] in palette then palette else palette + [ps[0]])
  }

  // The distinct colours in order of first appearance.
  function Palette(ps: seq<Pixel>): seq<Pixel> {
    PaletteFrom(ps, [])
  }

  function IndexOf(palette: seq<Pixel>, p: Pixel): (i: nat)
    ensures i <= |palette|
    ensures i < |palette| ==> palette[i] == p
    ensures p in palette <==> i < |palette|
    ensures forall j :: 0 <= j < i ==> palette[j] != p
  {
    if palette == [] then 0 else if palette[0] == p then 0 else 1 + IndexOf(palette[1..], p)
  }

  function Indices(ps: seq<Pixel>, palette: seq<Pixel>): (r: seq<nat>)
    ensures |r| == |ps|
  {
    if ps == [] then [] else [IndexOf(palette, ps[0])] + Indices(ps[1..], palette)
  }

  // The number of bits of one packed index: 1, 2 or 4.
  datatype Depth = One | Two | Four {
    function Bits(): nat {
      match this case One => 1 case Two => 2 case Four => 4
    }

    function PerByte(): nat {
      match this case One => 8 case Two => 4 case Four => 2
    }

    function Base(): nat {
      match this case One => 2 case Two => 4 case Four => 16
    }

    // value << bits
    function Shift(value: nat): nat {
      match this case One => 2 * value case Two => 4 * value case Four => 16 * value
    }

    function High(value: nat): nat {
      match this case One => value / 2 case Two => value / 4 case Four => value / 16
    }

    function Low(value: nat): nat {
      match this case One => value % 2 case Two => value % 4 case Four => value % 16
    }

    // used == n * bits
    predicate Uses(n: nat, used: nat) {
      match this case One => used == n case Two => used == 2 * n case Four => used == 4 * n
    }
  }

  function PackedDepth(paletteSize: nat): Depth {
    if paletteSize == 2 then One else if paletteSize <= 4 then Two else Four
  }

  // value << n
  function ShiftLeft(value: nat, n: nat): nat
    decreases n
  {
    if n == 0 then value else 2 * ShiftLeft(value, n - 1)
  }

  // The bit packing of one row, with the pending byte and its used bits as in the loop.
  function PackRow(indices: seq<nat>, depth: Depth, packed: nat, used: nat): seq<int>
    requires used < 8
    decreases |indices|
  {
    if indices == [] then (if used != 0 then [ShiftLeft(packed, 8 - used)] else [])
    else
      var next := depth.Shift(packed) + indices[0];
      if used + depth.Bits() < 8 then PackRow(indices[1..], depth, next, used + depth.Bits())
      else [next] + PackRow(indices[1..], depth, 0, 0)
  }

  function PackRows(indices: seq<nat>, depth: Depth, width: nat, rows: nat): seq<int>
    requires |indices| == Cells(width, rows)
    decreases rows
  {
    if rows == 0 then []
    else PackRow(indices[..width], depth, 0, 0) + PackRows(indices[width..], depth, width, rows - 1)
  }

  function EncodeTile(ps: seq<Pixel>, width: nat, height: nat): seq<int>
    requires |ps| == Cells(width, height)
  {
    var palette := Palette(ps);
    if |palette| > MAX_PALETTE then [0] + Cpixels(ps)
    else if |palette| == 1 then [1] + Cpixel(palette[0])
    else [|palette|] + Cpixels(palette) + PackRows(Indices(ps, palette), PackedDepth(|palette|), width, height)
  }

  // The colours of a rectangle, by position inside it.
  type Picture = (int, int) -> Pixel

  // The presented colours of the rectangle of the frame that starts at (x, y).
  function PictureOf(f: Frame, x: nat, y: nat): Picture {
    (col: int, row: int) => CellOf(f, x + col, y + row)
  }

  function CellOf(f: Frame, x: int, y: int): Pixel {
    if Readable(f) && InFrame(f, x, y) then PackRgb(PixelAt(f, x, y)) else 0
  }

  function RowPixels(pic: Picture, cx: nat, cy: nat, width: nat): (r: seq<Pixel>)
    ensures |r| == width
    ensures forall k :: 0 <= k < width ==> r[k] == pic(cx + k, cy)
    decreases width
  {
    if width == 0 then [] else RowPixels(pic, cx, cy, width - 1) + [pic(cx + width - 1, cy)]
  }

  // The pixels of a tile, row by row.
  function TilePixels(pic: Picture, cx: nat, cy: nat, width: nat, height: nat): (r: seq<Pixel>)
    ensures |r| == Cells(width, height)
    decreases height
  {
    if height == 0 then [] else RowPixels(pic, cx, cy, width) + TilePixels(pic, cx, cy + 1, width, height - 1)
  }

  function TileSpan(total: nat, at: nat): nat
    requires at < total
  {
    if total - at < TRLE_TILE then total - at else TRLE_TILE
  }

  // Tiles go left to right, then top to bottom; (cx, cy) is a position in the rectangle.
  function EncodeTileRow(pic: Picture, width: nat, height: nat, cx: nat, cy: nat): seq<int>
    requires cy < height
    decreases width - cx
  {
    if cx >= width then []
    else
      var tw, th := TileSpan(width, cx), TileSpan(height, cy);
      EncodeTile(TilePixels(pic, cx, cy, tw, th), tw, th)
      + EncodeTileRow(pic, width, height, cx + TRLE_TILE, cy)
  }

  function EncodeTiles(pic: Picture, width: nat, height: nat, cy: nat): seq<int>
    decreases height - cy
  {
    if cy >= height then []
    else EncodeTileRow(pic, width, height, 0, cy) + EncodeTiles(pic, width, height, cy + TRLE_TILE)
  }

  function EncodeRect(f: Frame, x: nat, y: nat, width: nat, height: nat): seq<int> {
    EncodeTiles(PictureOf(f, x, y), width, height, 0)
  }

  // ---- decoding, from the standard ---------------------------------------------------------------

  datatype Parsed<T> = Malformed | Parsed(value: T, rest: seq<int>)

  function ReadPixel(bytes: seq<int>): Parsed<Pixel> {
    if |bytes| < 3 || !(0 <= bytes[0] < 256 && 0 <= bytes[1] < 256 && 0 <= bytes[2] < 256) then Malformed
    else Parsed(bytes[0] * 65536 + bytes[1] * 256 + bytes[2], bytes[3..])
  }

  function ReadPixels(bytes: seq<int>, n: nat): Parsed<seq<Pixel>> {
    if n == 0 then Parsed([], bytes)
    else
      var first := ReadPixel(bytes);
      if first.Malformed? then Malformed
      else
        var others := ReadPixels(first.rest, n - 1);
        if others.Malformed? then Malformed else Parsed([first.value] + others.value, others.rest)
  }

  // Palettes of 2, of 3 or 4, and of 5 to 16 colours have indices of 1, 2 and 4 bits.
  function DepthOf(size: nat): Depth {
    if size <= 2 then One else if size <= 4 then Two else Four
  }

  // Tiles are 16 pixels wide and high, less at the right and lower edge.
  function Span(total: nat, at: nat): nat
    requires at < total
  {
    if at + 16 <= total then 16 else total - at
  }

  // The palette indices in one byte, the leftmost in the most significant bits.
  function Digits(byte: nat, depth: Depth, n: nat): (r: seq<nat>)
    ensures |r| == n
  {
    if n == 0 then [] else Digits(depth.High(byte), depth, n - 1) + [depth.Low(byte)]
  }

  // A row of packed indices is padded to a whole number of bytes.
  function ReadIndexRow(bytes: seq<int>, depth: Depth, width: nat): Parsed<seq<nat>>
    decreases width
  {
    if width == 0 then Parsed([], bytes)
    else if bytes == [] || bytes[0] < 0 then Malformed
    else
      var digits := Digits(bytes[0], depth, depth.PerByte());
      if width <= depth.PerByte() then Parsed(digits[..width], bytes[1..])
      else
        var others := ReadIndexRow(bytes[1..], depth, width - depth.PerByte());
        if others.Malformed? then Malformed else Parsed(digits + others.value, others.rest)
  }

  function ReadIndexRows(bytes: seq<int>, depth: Depth, width: nat, rows: nat): Parsed<seq<nat>>
    decreases rows
  {
    if rows == 0 then Parsed([], bytes)
    else
      var row := ReadIndexRow(bytes, depth, width);
      if row.Malformed? then Malformed
      else
        var others := ReadIndexRows(row.rest, depth, width, rows - 1);
        if others.Malformed? then Malformed else Parsed(row.value + others.value, others.rest)
  }

  function Resolve(indices: seq<nat>, palette: seq<Pixel>): (r: Option<seq<Pixel>>)
    ensures r.Some? ==> |r.value| == |indices|
  {
    if indices == [] then Some([])
    else if indices[0] >= |palette| then None
    else
      var others := Resolve(indices[1..], palette);
      if others.None? then None else Some([palette[indices[0]]] + others.value)
  }

  function DecodeTile(bytes: seq<int>, width: nat, height: nat): Parsed<seq<Pixel>> {
    if bytes == [] then Malformed
    else
      var mode, body := bytes[0], bytes[1..];
      if mode == 0 then ReadPixels(body, Cells(width, height))
      else if mode == 1 then
        var colour := ReadPixel(body);
        if colour.Malformed? then Malformed else Parsed(seq(Cells(width, height), _ => colour.value), colour.rest)
      else if 2 <= mode <= 16 then
        var palette := ReadPixels(body, mode);
        if palette.Malformed? then Malformed
        else
          var indices := ReadIndexRows(palette.rest, DepthOf(mode), width, height);
          if indices.Malformed? then Malformed
          else
            var pixels := Resolve(indices.value, palette.value);
            if pixels.None? then Malformed else Parsed(pixels.value, indices.rest)
      else Malformed
  }

  datatype TileImage = TileImage(x: nat, y: nat, width: nat, height: nat, pixels: seq<Pixel>)

  function DecodeTileRow(bytes: seq<int>, width: nat, height: nat, cx: nat, cy: nat): Parsed<seq<TileImage>>
    requires cy < height
    decreases width - cx
  {
    if cx >= width then Parsed([], bytes)
    else
      var tw, th := Span(width, cx), Span(height, cy);
      var tile := DecodeTile(bytes, tw, th);
      if tile.Malformed? then Malformed
      else
        var others := DecodeTileRow(tile.rest, width, height, cx + 16, cy);
        if others.Malformed? then Malformed
        else Parsed([TileImage(cx, cy, tw, th, tile.value)] + others.value, others.rest)
  }

  function DecodeTiles(bytes: seq<int>, width: nat, height: nat, cy: nat): Parsed<seq<TileImage>>
    decreases height - cy
  {
    if cy >= height then Parsed([], bytes)
    else
      var row := DecodeTileRow(bytes, width, height, 0, cy);
      if row.Malformed? then Malformed
      else
        var others := DecodeTiles(row.rest, width, height, cy + 16);
        if others.Malformed? then Malformed else Parsed(row.value + others.value, others.rest)
  }

  predicate TileHas(t: TileImage, px: int, py: int) {
    t.x <= px < t.x + t.width && t.y <= py < t.y + t.height && |t.pixels| == Cells(t.width, t.height)
  }

  // The colour a decoded image has at a position, from the first tile that holds it.
  function DrawnAt(tiles: seq<TileImage>, px: int, py: int): Option<Pixel> {
    if tiles == [] then None
    else if TileHas(tiles[0], px, py) then
      var t := tiles[0];
      GridIndex(t.width, t.height, px - t.x, py - t.y);
      Some(t.pixels[Cells(t.width, py - t.y) + (px - t.x)])
    else DrawnAt(tiles[1..], px, py)
  }

  // The colour a viewer shows at a pixel of the decoded rectangle.
  function ColourAt(tiles: seq<TileImage>, px: int, py: int): Option<Rgb> {
    if DrawnAt(tiles, px, py).Some? then Some(UnpackRgb(DrawnAt(tiles, px, py).value)) else None
  }

  function UnpackRgb(p: Pixel): Rgb {
    Rgb(p / 65536, p / 256 % 256, p % 256)
  }

  // ---- pixels and palettes -------------------------------------------------------------------------

  lemma {:induction false} RgbRoundTrip(c: Rgb)
    ensures UnpackRgb(PackRgb(c)) == c
    ensures Cpixel(PackRgb(c)) == [c.r, c.g, c.b]
  {
    var p := PackRgb(c);
    assert p == c.r * 65536 + (c.g * 256 + c.b) && 0 <= c.g * 256 + c.b < 65536;
    assert p / 65536 == c.r;
    assert p / 256 == c.r * 256 + c.g;
  }

  lemma {:induction false} PixelsRoundTrip(ps: seq<Pixel>, rest: seq<int>)
    ensures ReadPixels(Cpixels(ps) + rest, |ps|) == Parsed(ps, rest)
  {
    if ps == [] {
      assert Cpixels(ps) + rest == rest;
    } else {
      var tail := Cpixels(ps[1..]) + rest;
      assert Cpixels(ps) + rest == Cpixel(ps[0]) + tail;
      assert ps == [ps[0]] + ps[1..];
      PixelsRoundTrip(ps[1..], rest);
    }
  }

  lemma {:induction false} PaletteHolds(ps: seq<Pixel>, palette: seq<Pixel>)
    ensures palette <= PaletteFrom(ps, palette)
    ensures forall i :: 0 <= i < |ps| ==> ps[i] in PaletteFrom(ps, palette)
    ensures (ps != [] || palette != []) ==> |PaletteFrom(ps, palette)| > 0
    decreases |ps|
  {
    if ps != [] {
      var next := if ps[0] in palette then palette else palette + [ps[0]];
      PaletteHolds(ps[1..], next);
      forall i | 0 <= i < |ps|
        ensures ps[i] in PaletteFrom(ps, palette)
      {
        if i > 0 {
          assert ps[i] == ps[1..][i - 1];
        } else {
          var j :| 0 <= j < |next| && next[j] == ps[0];
          assert PaletteFrom(ps, palette)[j] == ps[0];
        }
      }
    }
  }

  lemma {:induction false} ResolveIndices(ps: seq<Pixel>, palette: seq<Pixel>)
    requires forall i :: 0 <= i < |ps| ==> ps[i] in palette
    ensures Resolve(Indices(ps, palette), palette) == Some(ps)
    ensures forall i :: 0 <= i < |ps| ==> Indices(ps, palette)[i] < |palette|
  {
    if ps != [] {
      var others, index := Indices(ps[1..], palette), IndexOf(palette, ps[0]);
      assert forall i :: 0 <= i < |ps[1..]| ==> ps[1..][i] == ps[i + 1];
      ResolveIndices(ps[1..], palette);
      assert ps[0] in palette && palette[index] == ps[0];
      assert Indices(ps, palette) == [index] + others;
      assert ([index] + others)[1..] == others;
      assert ps == [ps[0]] + ps[1..];
    }
  }

  // ---- bit packing -----------------------------------------------------------------------------------

  // The number whose digits, most significant first, are the list.
  function Horner(digits: seq<nat>, depth: Depth): nat {
    if digits == [] then 0
    else depth.Shift(Horner(digits[..|digits| - 1], depth)) + digits[|digits| - 1]
  }

  predicate AreDigits(digits: seq<nat>, depth: Depth) {
    forall i :: 0 <= i < |digits| ==> digits[i] < depth.Base()
  }

  lemma {:induction false} DigitsOfHorner(digits: seq<nat>, depth: Depth)
    requires AreDigits(digits, depth)
    ensures Digits(Horner(digits, depth), depth, |digits|) == digits
  {
    if digits != [] {
      var front, last := digits[..|digits| - 1], digits[|digits| - 1];
      var h := Horner(digits, depth);
      assert depth.High(h) == Horner(front, depth) && depth.Low(h) == last;
      DigitsOfHorner(front, depth);
      assert digits == front + [last];
    }
  }

  function Zeros(n: nat): (r: seq<nat>)
    ensures |r| == n && forall i :: 0 <= i < n ==> r[i] == 0
  {
    if n == 0 then [] else Zeros(n - 1) + [0]
  }

  // Shifting left by whole digits appends zero digits.
  lemma {:induction false} HornerZeros(digits: seq<nat>, depth: Depth, zeros: nat, shift: nat)
    requires depth.Uses(zeros, shift)
    ensures Horner(digits + Zeros(zeros), depth) == ShiftLeft(Horner(digits, depth), shift)
    decreases zeros
  {
    if zeros == 0 {
      assert digits + Zeros(0) == digits;
    } else {
      assert digits + Zeros(zeros) == (digits + Zeros(zeros - 1)) + [0];
      HornerZeros(digits, depth, zeros - 1, shift - depth.Bits());
      ShiftMore(Horner(digits, depth), shift - depth.Bits(), depth);
    }
  }

  lemma {:induction false} ShiftMore(value: nat, n: nat, depth: Depth)
    ensures ShiftLeft(value, n + depth.Bits()) == depth.Shift(ShiftLeft(value, n))
  {
    assert ShiftLeft(value, n + 1) == 2 * ShiftLeft(value, n);
    assert depth.Bits() > 1 ==> ShiftLeft(value, n + 2) == 2 * ShiftLeft(value, n + 1);
    assert depth.Bits() > 2 ==> ShiftLeft(value, n + 3) == 2 * ShiftLeft(value, n + 2);
    assert depth.Bits() > 2 ==> ShiftLeft(value, n + 4) == 2 * ShiftLeft(value, n + 3);
  }

  // base to the power n
  function Cap(n: nat, depth: Depth): nat {
    if n == 0 then 1 else depth.Shift(Cap(n - 1, depth))
  }

  lemma {:induction false} HornerBound(digits: seq<nat>, depth: Depth)
    requires AreDigits(digits, depth)
    ensures Horner(digits, depth) < Cap(|digits|, depth)
  {
    if digits != [] {
      HornerBound(digits[..|digits| - 1], depth);
    }
  }

  lemma {:induction false} FullByteCap(depth: Depth)
    ensures Cap(depth.PerByte(), depth) == 256
  {
    assert Cap(1, depth) == depth.Base();
    assert Cap(2, depth) == depth.Shift(depth.Base());
    assert Cap(3, depth) == depth.Shift(Cap(2, depth));
    assert Cap(4, depth) == depth.Shift(Cap(3, depth));
    assert Cap(5, depth) == depth.Shift(Cap(4, depth));
    assert Cap(6, depth) == depth.Shift(Cap(5, depth));
    assert Cap(7, depth) == depth.Shift(Cap(6, depth));
    assert Cap(8, depth) == depth.Shift(Cap(7, depth));
  }

  ghost predicate AreBytes(bytes: seq<int>) {
    forall i :: 0 <= i < |bytes| ==> 0 <= bytes[i] < 256
  }

  lemma {:induction false} RowRoundTrip(digits: seq<nat>, indices: seq<nat>, depth: Depth, used: nat, rest: seq<int>)
    requires |digits| < depth.PerByte() && depth.Uses(|digits|, used)
    requires AreDigits(digits, depth) && AreDigits(indices, depth)
    ensures var packed := PackRow(indices, depth, Horner(digits, depth), used);
            && ReadIndexRow(packed + rest, depth, |digits| + |indices|) == Parsed(digits + indices, rest)
            && AreBytes(packed)
    decreases |indices|, 0
  {
    if indices == [] {
      LastByteRoundTrip(digits, depth, used, rest);
      assert digits + indices == digits;
    } else {
      var longer := digits + [indices[0]];
      assert digits + indices == longer + indices[1..];
      if |longer| < depth.PerByte() {
        RowRoundTrip(longer, indices[1..], depth, used + depth.Bits(), rest);
      } else {
        FullByteRoundTrip(longer, indices[1..], depth, rest);
      }
    }
  }

  // A full byte in front of a row that can be read.
  lemma {:induction false} ReadFullByte(byte: nat, digits: seq<nat>, body: seq<int>, depth: Depth, more: seq<nat>, rest: seq<int>)
    requires byte < 256 && |digits| == depth.PerByte() && Digits(byte, depth, |digits|) == digits
    requires ReadIndexRow(body, depth, |more|) == Parsed(more, rest)
    ensures ReadIndexRow([byte] + body, depth, |digits| + |more|) == Parsed(digits + more, rest)
  {
    assert ([byte] + body)[1..] == body;
    if more == [] { assert digits[..|digits|] == digits && digits + more == digits; }
  }

  // A full byte, followed by the rest of the row.
  lemma {:induction false} FullByteRoundTrip(digits: seq<nat>, indices: seq<nat>, depth: Depth, rest: seq<int>)
    requires |digits| == depth.PerByte() && AreDigits(digits, depth) && AreDigits(indices, depth)
    ensures var packed := [Horner(digits, depth)] + PackRow(indices, depth, 0, 0);
            && ReadIndexRow(packed + rest, depth, |digits| + |indices|) == Parsed(digits + indices, rest)
            && AreBytes(packed)
    decreases |indices|, 1
  {
    HornerBound(digits, depth);
    FullByteCap(depth);
    DigitsOfHorner(digits, depth);
    RowRoundTrip([], indices, depth, 0, rest);
    var tail := PackRow(indices, depth, 0, 0);
    assert [] + indices == indices;
    assert [Horner(digits, depth)] + tail + rest == [Horner(digits, depth)] + (tail + rest);
    ReadFullByte(Horner(digits, depth), digits, tail + rest, depth, indices, rest);
  }

  // The last byte of a row is padded with zero bits on the right.
  lemma {:induction false} LastByteRoundTrip(digits: seq<nat>, depth: Depth, used: nat, rest: seq<int>)
    requires |digits| < depth.PerByte() && depth.Uses(|digits|, used) && AreDigits(digits, depth)
    ensures var packed := PackRow([], depth, Horner(digits, depth), used);
            && ReadIndexRow(packed + rest, depth, |digits|) == Parsed(digits, rest)
            && AreBytes(packed)
  {
    if digits == [] {
      assert PackRow([], depth, 0, 0) + rest == rest;
    } else {
      var zeros := depth.PerByte() - |digits|;
      var padded := digits + Zeros(zeros);
      var byte := Horner(padded, depth);
      HornerZeros(digits, depth, zeros, 8 - used);
      HornerBound(padded, depth);
      FullByteCap(depth);
      DigitsOfHorner(padded, depth);
      ReadLastByte(byte, padded, digits, depth, rest);
    }
  }

  // The first digits of one byte.
  lemma {:induction false} ReadLastByte(byte: nat, padded: seq<nat>, digits: seq<nat>, depth: Depth, rest: seq<int>)
    requires |padded| == depth.PerByte() && Digits(byte, depth, |padded|) == padded
    requires 0 < |digits| <= |padded| && digits <= padded
    ensures ReadIndexRow([byte] + rest, depth, |digits|) == Parsed(digits, rest)
  {
    assert ([byte] + rest)[1..] == rest;
    assert padded[..|digits|] == digits;
  }

  lemma {:induction false} Regroup(a: seq<int>, b: seq<int>, c: seq<int>)
    ensures a + b + c == a + (b + c)
  {
  }

  lemma {:induction false} RowsRoundTrip(indices: seq<nat>, depth: Depth, width: nat, rows: nat, rest: seq<int>)
    requires |indices| == Cells(width, rows) && AreDigits(indices, depth)
    ensures ReadIndexRows(PackRows(indices, depth, width, rows) + rest, depth, width, rows) == Parsed(indices, rest)
    ensures AreBytes(PackRows(indices, depth, width, rows))
    decreases rows
  {
    if rows == 0 {
      assert PackRows(indices, depth, width, rows) + rest == rest;
    } else {
      var first, others := indices[..width], indices[width..];
      var tail := PackRows(others, depth, width, rows - 1);
      Regroup(PackRow(first, depth, 0, 0), tail, rest);
      RowRoundTrip([], first, depth, 0, tail + rest);
      assert [] + first == first;
      RowsRoundTrip(others, depth, width, rows - 1, rest);
      assert first + others == indices;
    }
  }

  // ---- tiles --------------------------------------------------------------------------------------------

  // A message split behind its first element.
  lemma {:induction false} Behind(first: int, a: seq<int>, b: seq<int>, rest: seq<int>)
    ensures ([first] + a + b + rest)[0] == first && ([first] + a + b + rest)[1..] == a + (b + rest)
    ensures ([first] + a + rest)[0] == first && ([first] + a + rest)[1..] == a + rest
  {
  }

  lemma {:induction false} RawTileRoundTrip(ps: seq<Pixel>, width: nat, height: nat, rest: seq<int>)
    requires |ps| == Cells(width, height)
    ensures DecodeTile([0] + Cpixels(ps) + rest, width, height) == Parsed(ps, rest)
  {
    Behind(0, Cpixels(ps), [], rest);
    PixelsRoundTrip(ps, rest);
  }

  lemma {:induction false} PackedTileRoundTrip(ps: seq<Pixel>, palette: seq<Pixel>, indices: seq<nat>, depth: Depth,
                            width: nat, height: nat, rest: seq<int>)
    requires |indices| == Cells(width, height) && 2 <= |palette| <= MAX_PALETTE && depth == PackedDepth(|palette|)
    requires AreDigits(indices, depth) && Resolve(indices, palette) == Some(ps)
    ensures DecodeTile([|palette|] + Cpixels(palette) + PackRows(indices, depth, width, height) + rest, width, height)
            == Parsed(ps, rest)
  {
    var rows := PackRows(indices, depth, width, height);
    var bytes := [|palette|] + Cpixels(palette) + rows + rest;
    Behind(|palette|, Cpixels(palette), rows, rest);
    PixelsRoundTrip(palette, rows + rest);
    RowsRoundTrip(indices, depth, width, height, rest);
  }

  // Every tile decodes to its pixels, and exactly its bytes are consumed.
  lemma {:induction false} TileRoundTrip(ps: seq<Pixel>, width: nat, height: nat, rest: seq<int>)
    requires |ps| == Cells(width, height) && |ps| > 0
    ensures DecodeTile(EncodeTile(ps, width, height) + rest, width, height) == Parsed(ps, rest)
  {
    var palette := Palette(ps);
    PaletteHolds(ps, []);
    if |palette| > MAX_PALETTE {
      RawTileRoundTrip(ps, width, height, rest);
    } else if |palette| == 1 {
      assert seq(Cells(width, height), _ => palette[0]) == ps;
    } else {
      ResolveIndices(ps, palette);
      PackedTileRoundTrip(ps, palette, Indices(ps, palette), PackedDepth(|palette|), width, height, rest);
    }
  }

  lemma {:induction false} BytesTogether(a: seq<int>, b: seq<int>)
    requires AreBytes(a) && AreBytes(b)
    ensures AreBytes(a + b)
  {
  }

  lemma {:induction false} CpixelsAreBytes(ps: seq<Pixel>)
    ensures AreBytes(Cpixels(ps))
  {
    var bytes: seq<Byte> := Cpixels(ps);
  }

  // Nothing but bytes is emitted: the packing loop never overflows its 8-bit register.
  lemma {:induction false} TileIsBytes(ps: seq<Pixel>, width: nat, height: nat)
    requires |ps| == Cells(width, height) && |ps| > 0
    ensures AreBytes(EncodeTile(ps, width, height))
  {
    var palette := Palette(ps);
    PaletteHolds(ps, []);
    if |palette| > MAX_PALETTE {
      CpixelsAreBytes(ps);
    } else if |palette| > 1 {
      var indices, depth := Indices(ps, palette), PackedDepth(|palette|);
      ResolveIndices(ps, palette);
      RowsRoundTrip(indices, depth, width, height, []);
      CpixelsAreBytes(palette);
      BytesTogether([|palette|] + Cpixels(palette), PackRows(indices, depth, width, height));
    }
  }

  function TilesOfRow(pic: Picture, width: nat, height: nat, cx: nat, cy: nat): seq<TileImage>
    requires cy < height
    decreases width - cx
  {
    if cx >= width then []
    else
      var tw, th := TileSpan(width, cx), TileSpan(height, cy);
      [TileImage(cx, cy, tw, th, TilePixels(pic, cx, cy, tw, th))]
      + TilesOfRow(pic, width, height, cx + TRLE_TILE, cy)
  }

  function TilesOf(pic: Picture, width: nat, height: nat, cy: nat): seq<TileImage>
    decreases height - cy
  {
    if cy >= height then []
    else TilesOfRow(pic, width, height, 0, cy) + TilesOf(pic, width, height, cy + TRLE_TILE)
  }

  lemma {:induction false} TileRowRoundTrip(pic: Picture, width: nat, height: nat, cx: nat, cy: nat, rest: seq<int>)
    requires cy < height
    ensures DecodeTileRow(EncodeTileRow(pic, width, height, cx, cy) + rest, width, height, cx, cy)
            == Parsed(TilesOfRow(pic, width, height, cx, cy), rest)
    decreases width - cx
  {
    if cx >= width {
      assert EncodeTileRow(pic, width, height, cx, cy) + rest == rest;
    } else {
      var tw, th := TileSpan(width, cx), TileSpan(height, cy);
      var ps := TilePixels(pic, cx, cy, tw, th);
      var tail := EncodeTileRow(pic, width, height, cx + TRLE_TILE, cy) + rest;
      assert EncodeTileRow(pic, width, height, cx, cy) + rest == EncodeTile(ps, tw, th) + tail;
      TileRoundTrip(ps, tw, th, tail);
      TileRowRoundTrip(pic, width, height, cx + TRLE_TILE, cy, rest);
    }
  }

  lemma {:induction false} TilesRoundTrip(pic: Picture, width: nat, height: nat, cy: nat, rest: seq<int>)
    ensures DecodeTiles(EncodeTiles(pic, width, height, cy) + rest, width, height, cy)
            == Parsed(TilesOf(pic, width, height, cy), rest)
    decreases height - cy
  {
    if cy >= height {
      assert EncodeTiles(pic, width, height, cy) + rest == rest;
    } else {
      var tail := EncodeTiles(pic, width, height, cy + TRLE_TILE) + rest;
      assert EncodeTiles(pic, width, height, cy) + rest == EncodeTileRow(pic, width, height, 0, cy) + tail;
      TileRowRoundTrip(pic, width, height, 0, cy, tail);
      TilesRoundTrip(pic, width, height, cy + TRLE_TILE, rest);
    }
  }

  lemma {:induction false} TilePixelAt(pic: Picture, cx: nat, cy: nat, width: nat, height: nat, col: nat, row: nat)
    requires col < width && row < height
    ensures Cells(width, row) + col < |TilePixels(pic, cx, cy, width, height)|
    ensures TilePixels(pic, cx, cy, width, height)[Cells(width, row) + col] == pic(cx + col, cy + row)
    decreases height
  {
    GridIndex(width, height, col, row);
    if row > 0 {
      TilePixelAt(pic, cx, cy + 1, width, height - 1, col, row - 1);
    }
  }

  lemma {:induction false} OwnColour(pic: Picture, t: TileImage, col: nat, row: nat)
    requires t.pixels == TilePixels(pic, t.x, t.y, t.width, t.height) && col < t.width && row < t.height
    ensures DrawnAt([t], t.x + col, t.y + row) == Some(pic(t.x + col, t.y + row))
    ensures TileHas(t, t.x + col, t.y + row)
  {
    TilePixelAt(pic, t.x, t.y, t.width, t.height, col, row);
  }

  lemma {:induction false} TileColour(pic: Picture, cx: nat, cy: nat, width: nat, height: nat, others: seq<TileImage>, px: nat, py: nat)
    ensures var t := TileImage(cx, cy, width, height, TilePixels(pic, cx, cy, width, height));
            && (cx <= px < cx + width && cy <= py < cy + height
                ==> DrawnAt([t] + others, px, py) == Some(pic(px, py)))
            && (!(cx <= px < cx + width && cy <= py < cy + height)
                ==> DrawnAt([t] + others, px, py) == DrawnAt(others, px, py))
  {
    var t := TileImage(cx, cy, width, height, TilePixels(pic, cx, cy, width, height));
    if cx <= px < cx + width && cy <= py < cy + height {
      OwnColour(pic, t, px - cx, py - cy);
    }
  }

  // A row of tiles split at its first tile.
  lemma {:induction false} RowOfTiles(pic: Picture, width: nat, height: nat, cx: nat, cy: nat, others: seq<TileImage>)
    requires cy < height && cx < width
    ensures var tw, th := TileSpan(width, cx), TileSpan(height, cy);
            TilesOfRow(pic, width, height, cx, cy) + others
            == [TileImage(cx, cy, tw, th, TilePixels(pic, cx, cy, tw, th))]
               + (TilesOfRow(pic, width, height, cx + TRLE_TILE, cy) + others)
  {
  }

  // The tile of a picture at a position of the grid.
  function TileAt(pic: Picture, width: nat, height: nat, cx: nat, cy: nat): TileImage
    requires cy < height && cx < width
  {
    TileImage(cx, cy, TileSpan(width, cx), TileSpan(height, cy),
              TilePixels(pic, cx, cy, TileSpan(width, cx), TileSpan(height, cy)))
  }

  // What the first tile of a list decides about a position in its band of tiles.
  lemma {:induction false} FirstTile(pic: Picture, width: nat, height: nat, cx: nat, cy: nat, right: seq<TileImage>, px: nat, py: nat)
    requires cy < height && cx < width
    ensures var tiles := [TileAt(pic, width, height, cx, cy)] + right;
            var inside := cx <= px < cx + TRLE_TILE && px < width && cy <= py < cy + TRLE_TILE && py < height;
            && (inside ==> DrawnAt(tiles, px, py) == Some(pic(px, py)))
            && (px < width && py < height && !inside ==> DrawnAt(tiles, px, py) == DrawnAt(right, px, py))
  {
    TileColour(pic, cx, cy, TileSpan(width, cx), TileSpan(height, cy), right, px, py);
  }

  lemma {:induction false} ColourInRow(pic: Picture, width: nat, height: nat, cx: nat, cy: nat,
                                       others: seq<TileImage>, tiles: seq<TileImage>, px: nat, py: nat)
    requires cy <= py < cy + TRLE_TILE && py < height && cx <= px < width
    requires tiles == TilesOfRow(pic, width, height, cx, cy) + others
    ensures DrawnAt(tiles, px, py) == Some(pic(px, py))
    decreases width - cx
  {
    var right := TilesOfRow(pic, width, height, cx + TRLE_TILE, cy) + others;
    assert tiles == [TileAt(pic, width, height, cx, cy)] + right by { RowOfTiles(pic, width, height, cx, cy, others); }
    FirstTile(pic, width, height, cx, cy, right, px, py);
    if px >= cx + TRLE_TILE {
      ColourInRow(pic, width, height, cx + TRLE_TILE, cy, others, right, px, py);
    }
  }

  lemma {:induction false} ColourBelowRow(pic: Picture, width: nat, height: nat, cx: nat, cy: nat,
                                          others: seq<TileImage>, tiles: seq<TileImage>, px: nat, py: nat)
    requires cy + TRLE_TILE <= py < height && px < width
    requires tiles == TilesOfRow(pic, width, height, cx, cy) + others
    ensures DrawnAt(tiles, px, py) == DrawnAt(others, px, py)
    decreases width - cx
  {
    if cx >= width {
      assert tiles == others;
    } else {
      var right := TilesOfRow(pic, width, height, cx + TRLE_TILE, cy) + others;
      assert tiles == [TileAt(pic, width, height, cx, cy)] + right by { RowOfTiles(pic, width, height, cx, cy, others); }
      FirstTile(pic, width, height, cx, cy, right, px, py);
      ColourBelowRow(pic, width, height, cx + TRLE_TILE, cy, others, right, px, py);
    }
  }

  lemma {:induction false} ColourInTiles(pic: Picture, width: nat, height: nat, cy: nat, tiles: seq<TileImage>, px: nat, py: nat)
    requires px < width && cy <= py < height && tiles == TilesOf(pic, width, height, cy)
    ensures DrawnAt(tiles, px, py) == Some(pic(px, py))
    decreases height - cy
  {
    var below, left := TilesOf(pic, width, height, cy + TRLE_TILE), 0;
    assert tiles == TilesOfRow(pic, width, height, left, cy) + below;
    if py < cy + TRLE_TILE {
      ColourInRow(pic, width, height, left, cy, below, tiles, px, py);
    } else {
      ColourBelowRow(pic, width, height, left, cy, below, tiles, px, py);
      ColourInTiles(pic, width, height, cy + TRLE_TILE, below, px, py);
    }
  }

  lemma {:induction false} PictureRoundTrip(pic: Picture, width: nat, height: nat, rest: seq<int>, px: nat, py: nat)
    requires px < width && py < height
    ensures var decoded := DecodeTiles(EncodeTiles(pic, width, height, 0) + rest, width, height, 0);
            && decoded.Parsed? && decoded.rest == rest
            && DrawnAt(decoded.value, px, py) == Some(pic(px, py))
  {
    TilesRoundTrip(pic, width, height, 0, rest);
    ColourInTiles(pic, width, height, 0, TilesOf(pic, width, height, 0), px, py);
  }

  lemma {:induction false} PictureIsPresented(f: Frame, x: nat, y: nat, col: nat, row: nat)
    requires Readable(f) && InFrame(f, x + col, y + row)
    ensures PictureOf(f, x, y)(col, row) == PackRgb(PixelAt(f, x + col, y + row))
  {
    assert PictureOf(f, x, y)(col, row) == CellOf(f, x + col, y + row);
  }

  // The round trip: for every readable frame, alpha mode and rectangle in bounds, decoding
  // consumes exactly the emitted bytes and gives the presented colour of every pixel.
  lemma {:induction false} TrleRoundTrip(f: Frame, x: nat, y: nat, width: nat, height: nat, rest: seq<int>, px: nat, py: nat)
    requires Readable(f) && x + width <= f.width && y + height <= f.height
    requires px < width && py < height
    ensures var decoded := DecodeTiles(EncodeRect(f, x, y, width, height) + rest, width, height, 0);
            && decoded.Parsed? && decoded.rest == rest
            && ColourAt(decoded.value, px, py) == Some(PixelAt(f, x + px, y + py))
  {
    PictureRoundTrip(PictureOf(f, x, y), width, height, rest, px, py);
    PictureIsPresented(f, x, y, px, py);
    RgbRoundTrip(PixelAt(f, x + px, y + py));
  }

  // ---- how long tiles are --------------------------------------------------------------------------------

  lemma {:induction false} PackRowLength(indices: seq<nat>, depth: Depth, packed: nat, used: nat)
    requires used < 8 && used % depth.Bits() == 0
    ensures |PackRow(indices, depth, packed, used)| == (used + |indices| * depth.Bits() + 7) / 8
    decreases |indices|
  {
    if indices != [] {
      var next := depth.Shift(packed) + indices[0];
      if used + depth.Bits() < 8 {
        PackRowLength(indices[1..], depth, next, used + depth.Bits());
      } else {
        PackRowLength(indices[1..], depth, 0, 0);
      }
    }
  }

  lemma {:induction false} PackRowsLength(indices: seq<nat>, depth: Depth, width: nat, rows: nat)
    requires |indices| == Cells(width, rows)
    ensures |PackRows(indices, depth, width, rows)| == Cells((width * depth.Bits() + 7) / 8, rows)
    decreases rows
  {
    if rows > 0 {
      PackRowLength(indices[..width], depth, 0, 0);
      PackRowsLength(indices[width..], depth, width, rows - 1);
    }
  }

  lemma {:induction false} CpixelsLength(ps: seq<Pixel>)
    ensures |Cpixels(ps)| == 3 * |ps|
  {
    if ps != [] { CpixelsLength(ps[1..]); }
  }

  // The bits of a palette index.
  function IndexBits(colours: nat): nat {
    if colours == 2 then 1 else if colours <= 4 then 2 else 4
  }

  lemma {:induction false} PackedTileLength(palette: seq<Pixel>, indices: seq<nat>, depth: Depth, width: nat, height: nat)
    requires 2 <= |palette| <= MAX_PALETTE && depth == PackedDepth(|palette|) && |indices| == Cells(width, height)
    ensures |[|palette|] + Cpixels(palette) + PackRows(indices, depth, width, height)|
            == 1 + 3 * |palette| + Cells((width * IndexBits(|palette|) + 7) / 8, height)
  {
    CpixelsLength(palette);
    assert depth.Bits() == IndexBits(|palette|);
    PackRowsLength(indices, depth, width, height);
  }

  // A tile of one colour takes four bytes; one of 2, of 3 or 4, and of 5 to 16 colours three bytes a
  // colour and 1, 2 and 4 bits a pixel, rows padded to bytes; only one with more colours takes three
  // bytes a pixel.
  lemma {:induction false} TileLength(ps: seq<Pixel>, width: nat, height: nat)
    requires |ps| == Cells(width, height) && |ps| > 0
    ensures var colours := |Palette(ps)|;
            |EncodeTile(ps, width, height)|
            == if colours == 1 then 4
               else if colours <= 16 then 1 + 3 * colours + Cells((width * IndexBits(colours) + 7) / 8, height)
               else 1 + 3 * Cells(width, height)
  {
    var palette := Palette(ps);
    PaletteHolds(ps, []);
    if |palette| > MAX_PALETTE {
      CpixelsLength(ps);
    } else if |palette| > 1 {
      ResolveIndices(ps, palette);
      PackedTileLength(palette, Indices(ps, palette), PackedDepth(|palette|), width, height);
    }
  }
}
