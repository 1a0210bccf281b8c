// The bytes of the RFB messages both ends print and read (src/runtime/src/transport/
// rfb_transport.cpp; sections 7.3.2, 7.4, 7.6.1, 7.7.1, 7.8.1 and 7.8.2 of RFC 6143).
module Wire {
  import opened Frames

  type Bytes = seq<Byte>

  const RAW: int := 0
  const DESKTOP_SIZE: int := -223
  const CURSOR: int := -239

  // ---- numbers ---------------------------------------------------------------------------------------

  // A value is cast to its width before it is written.
  function U16(v: nat): (b: Bytes)
    ensures |b| == 2
  {
    [v / 0x100 % 0x100, v % 0x100]
  }

  function U32(v: nat): (b: Bytes)
    ensures |b| == 4
  {
    [v / 0x100_0000 % 0x100, v / 0x1_0000 % 0x100, v / 0x100 % 0x100, v % 0x100]
  }

  function S32(v: int): (b: Bytes)
    requires -0x8000_0000 <= v < 0x8000_0000
    ensures |b| == 4
  {
    U32(if v < 0 then v + 0x1_0000_0000 else v)
  }

  function ReadU16(b: Bytes, at: nat): (v: nat)
    requires at + 2 <= |b|
    ensures v < 0x1_0000
  {
    b[at] as int * 0x100 + b[at + 1] as int
  }

  function ReadU32(b: Bytes, at: nat): (v: nat)
    requires at + 4 <= |b|
    ensures v < 0x1_0000_0000
  {
    b[at] as int * 0x100_0000 + b[at + 1] as int * 0x1_0000 + b[at + 2] as int * 0x100 + b[at + 3] as int
  }

  function ReadS32(b: Bytes, at: nat): int
    requires at + 4 <= |b|
  {
    var raw := ReadU32(b, at);
    if raw < 0x8000_0000 then raw else raw - 0x1_0000_0000
  }

  lemma {:induction false} U32RoundTrip(v: nat)
    requires v < 0x1_0000_0000
    ensures ReadU32(U32(v), 0) == v
  {
    assert v / 0x100_0000 < 0x100;
    assert v / 0x1_0000 == v / 0x100_0000 * 0x100 + v / 0x1_0000 % 0x100;
    assert v / 0x100 == v / 0x1_0000 * 0x100 + v / 0x100 % 0x100;
  }

  lemma {:induction false} S32RoundTrip(v: int)
    requires -0x8000_0000 <= v < 0x8000_0000
    ensures ReadS32(S32(v), 0) == v
  {
    U32RoundTrip(if v < 0 then v + 0x1_0000_0000 else v);
  }

  // ---- pixel formats ---------------------------------------------------------------------------------

  datatype PixelSpec = PixelSpec(bitsPerPixel: Byte, depth: Byte, bigEndian: bool, trueColor: bool,
                                 redMax: nat, greenMax: nat, blueMax: nat,
                                 redShift: Byte, greenShift: Byte, blueShift: Byte)

  const NATIVE: PixelSpec := PixelSpec(32, 24, false, true, 255, 255, 255, 0, 8, 16)

  function SpecBytes(s: PixelSpec): (b: Bytes)
    ensures |b| == 16
  {
    [s.bitsPerPixel, s.depth, if s.bigEndian then 1 else 0, if s.trueColor then 1 else 0]
    + U16(s.redMax) + U16(s.greenMax) + U16(s.blueMax)
    + [s.redShift, s.greenShift, s.blueShift, 0, 0, 0]
  }

  function Pow2(n: nat): nat {
    if n == 0 then 1 else 2 * Pow2(n - 1)
  }

  predicate ChannelFits(max: nat, shift: Byte, bits: nat) {
    shift < 32 && max * Pow2(shift) <= Pow2(bits) - 1
  }

  // pixelSpecSupported
  predicate Supported(s: PixelSpec) {
    && s.trueColor && (s.bitsPerPixel == 8 || s.bitsPerPixel == 16 || s.bitsPerPixel == 32)
    && s.redMax > 0 && s.greenMax > 0 && s.blueMax > 0
    && ChannelFits(s.redMax, s.redShift, s.bitsPerPixel) && ChannelFits(s.greenMax, s.greenShift, s.bitsPerPixel)
    && ChannelFits(s.blueMax, s.blueShift, s.bitsPerPixel)
  }

  function Scale(value: Byte, max: nat): nat {
    (value * max + 127) / 255
  }

  function BitOr(a: nat, b: nat): nat {
    if a == 0 then b
    else if b == 0 then a
    else 2 * BitOr(a / 2, b / 2) + (if a % 2 == 1 || b % 2 == 1 then 1 else 0)
  }

  // The channels, scaled, shifted and or-ed together.
  function PixelValue(c: Rgb, s: PixelSpec): nat {
    BitOr(BitOr(Scale(c.r, s.redMax) * Pow2(s.redShift), Scale(c.g, s.greenMax) * Pow2(s.greenShift)),
          Scale(c.b, s.blueMax) * Pow2(s.blueShift))
  }

  // The n low bytes of a value, least significant first.
  function LowBytes(value: nat, n: nat): (b: Bytes)
    ensures |b| == n
  {
    if n == 0 then [] else [value % 0x100] + LowBytes(value / 0x100, n - 1)
  }

  function Reversed(b: Bytes): (r: Bytes)
    ensures |r| == |b|
  {
    if b == [] then [] else Reversed(b[1..]) + [b[0]]
  }

  // appendEncodedPixel
  function EncodedPixel(c: Rgb, s: PixelSpec): (b: Bytes)
    ensures |b| == s.bitsPerPixel / 8
  {
    var low := LowBytes(PixelValue(c, s), s.bitsPerPixel / 8);
    if s.bigEndian then Reversed(low) else low
  }

  // A value whose n low bits are zero.
  predicate LowBitsClear(m: nat, n: nat) {
    n == 0 || (m % 2 == 0 && LowBitsClear(m / 2, n - 1))
  }

  lemma {:induction false} ShiftedIsClear(b: nat, n: nat)
    ensures LowBitsClear(b * Pow2(n), n)
  {
    if n > 0 {
      ShiftedIsClear(b, n - 1);
      Twice(b, Pow2(n - 1));
    }
  }

  lemma {:induction false} Twice(b: nat, p: nat)
    ensures b * (2 * p) == 2 * (b * p)
  {
  }

  lemma {:induction false} BitOrOfDisjoint(a: nat, m: nat, n: nat)
    requires a < Pow2(n) && LowBitsClear(m, n)
    ensures BitOr(a, m) == a + m
  {
    if n > 0 {
      BitOrOfDisjoint(a / 2, m / 2, n - 1);
    }
  }

  lemma {:induction false} FullScale(value: Byte)
    ensures Scale(value, 255) == value
  {
  }

  lemma {:induction false} BitOrShifted(a: nat, b: nat, n: nat)
    requires a < Pow2(n)
    ensures BitOr(a, b * Pow2(n)) == a + b * Pow2(n)
  {
    ShiftedIsClear(b, n);
    BitOrOfDisjoint(a, b * Pow2(n), n);
  }

  lemma {:induction false} BytePowers()
    ensures Pow2(0) == 1 && Pow2(8) == 0x100 && Pow2(16) == 0x1_0000
  {
  }

  lemma {:induction false} NativeValue(c: Rgb)
    ensures PixelValue(c, NATIVE) == c.r as int + c.g as int * 0x100 + c.b as int * 0x1_0000
  {
    FullScale(c.r);
    FullScale(c.g);
    FullScale(c.b);
    BytePowers();
    var low: nat := c.r as int + c.g as int * Pow2(8);
    assert BitOr(c.r, c.g as int * Pow2(8)) == low by { BitOrShifted(c.r, c.g, 8); }
    assert BitOr(low, c.b as int * Pow2(16)) == low + c.b as int * Pow2(16) by { BitOrShifted(low, c.b, 16); }
    assert c.r as int * Pow2(0) == c.r;
  }

  lemma {:induction false} ThreeLowBytes(r: Byte, g: Byte, b: Byte)
    ensures LowBytes(r as int + g as int * 0x100 + b as int * 0x1_0000, 4) == [r, g, b, 0]
  {
    var value := r as int + g as int * 0x100 + b as int * 0x1_0000;
    assert value % 0x100 == r && value / 0x100 == g as int + b as int * 0x100;
    assert LowBytes(value, 4) == [r] + LowBytes(g as int + b as int * 0x100, 3);
    assert LowBytes(g as int + b as int * 0x100, 3) == [g] + LowBytes(b, 2);
    assert LowBytes(b, 2) == [b] + LowBytes(0, 1);
    assert LowBytes(0, 1) == [0] + LowBytes(0, 0);
  }

  // In the native format a pixel is its red, green and blue byte and a zero.
  lemma {:induction false} NativePixel(c: Rgb)
    ensures EncodedPixel(c, NATIVE) == [c.r, c.g, c.b, 0]
  {
    NativeValue(c);
    ThreeLowBytes(c.r, c.g, c.b);
  }

  // ---- supported formats -----------------------------------------------------------------------------

  // The number little-endian bytes stand for.
  function Value(b: Bytes): nat {
    if b == [] then 0 else b[0] as int + 0x100 * Value(b[1..])
  }

  lemma {:induction false} ReversedTwice(b: Bytes)
    ensures Reversed(Reversed(b)) == b
  {
    if b != [] {
      ReversedTwice(b[1..]);
      ReversedSnoc(Reversed(b[1..]), b[0]);
    }
  }

  lemma {:induction false} ReversedSnoc(b: Bytes, last: Byte)
    ensures Reversed(b + [last]) == [last] + Reversed(b)
  {
    if b != [] {
      assert (b + [last])[1..] == b[1..] + [last];
      ReversedSnoc(b[1..], last);
    } else {
      assert b + [last] == [last] && [last][1..] == [];
    }
  }

  lemma {:induction false} LowBytesValue(value: nat, n: nat)
    requires value < Pow2(8 * n)
    ensures Value(LowBytes(value, n)) == value
    decreases n
  {
    if n > 0 {
      assert Pow2(8 * n) == 0x100 * Pow2(8 * (n - 1)) by { EightTwos(8 * (n - 1)); }
      LowBytesValue(value / 0x100, n - 1);
      assert LowBytes(value, n)[1..] == LowBytes(value / 0x100, n - 1);
    }
  }

  lemma {:induction false} EightTwos(k: nat)
    ensures Pow2(k + 8) == 0x100 * Pow2(k)
  {
    assert Pow2(k + 8) == 2 * Pow2(k + 7) && Pow2(k + 7) == 2 * Pow2(k + 6) && Pow2(k + 6) == 2 * Pow2(k + 5);
    assert Pow2(k + 5) == 2 * Pow2(k + 4) && Pow2(k + 4) == 2 * Pow2(k + 3) && Pow2(k + 3) == 2 * Pow2(k + 2);
    assert Pow2(k + 2) == 2 * Pow2(k + 1);
  }

  lemma {:induction false} BitOrBound(a: nat, b: nat, n: nat)
    requires a < Pow2(n) && b < Pow2(n)
    ensures BitOr(a, b) < Pow2(n)
    decreases n
  {
    if n > 0 { BitOrBound(a / 2, b / 2, n - 1); }
  }

  lemma {:induction false} ScaleBound(value: Byte, max: nat)
    ensures Scale(value, max) <= max
  {
    assert value * max <= 255 * max;
  }

  lemma {:induction false} TimesMonotone(a: nat, b: nat, p: nat)
    requires a <= b
    ensures a * p <= b * p
  {
  }

  lemma {:induction false} ChannelBound(value: Byte, max: nat, shift: Byte, bits: nat)
    requires ChannelFits(max, shift, bits)
    ensures Scale(value, max) * Pow2(shift) < Pow2(bits)
  {
    ScaleBound(value, max);
    TimesMonotone(Scale(value, max), max, Pow2(shift));
  }

  lemma {:induction false} ValueBound(c: Rgb, s: PixelSpec, bits: nat)
    requires ChannelFits(s.redMax, s.redShift, bits) && ChannelFits(s.greenMax, s.greenShift, bits)
    requires ChannelFits(s.blueMax, s.blueShift, bits)
    ensures PixelValue(c, s) < Pow2(bits)
  {
    var red, green, blue := Scale(c.r, s.redMax) * Pow2(s.redShift), Scale(c.g, s.greenMax) * Pow2(s.greenShift),
                            Scale(c.b, s.blueMax) * Pow2(s.blueShift);
    ChannelBound(c.r, s.redMax, s.redShift, bits);
    ChannelBound(c.g, s.greenMax, s.greenShift, bits);
    ChannelBound(c.b, s.blueMax, s.blueShift, bits);
    BitOrBound(red, green, bits);
    BitOrBound(BitOr(red, green), blue, bits);
  }

  // In every supported format, of either byte order, nothing of the pixel value is cut off:
  // the bytes stand for exactly the value.
  lemma {:induction false} NothingIsCutOff(c: Rgb, s: PixelSpec)
    requires Supported(s)
    ensures var bytes := EncodedPixel(c, s);
            Value(if s.bigEndian then Reversed(bytes) else bytes) == PixelValue(c, s)
  {
    ValueBound(c, s, s.bitsPerPixel);
    ValueOfBytes(PixelValue(c, s), s.bitsPerPixel, s.bitsPerPixel / 8, s.bigEndian);
  }

  lemma {:induction false} ValueOfBytes(value: nat, bits: nat, n: nat, bigEndian: bool)
    requires value < Pow2(bits) && bits == 8 * n
    ensures var low := LowBytes(value, n);
            var bytes := if bigEndian then Reversed(low) else low;
            Value(if bigEndian then Reversed(bytes) else bytes) == value
  {
    LowBytesValue(value, n);
    ReversedTwice(LowBytes(value, n));
  }

  // ---- server messages -------------------------------------------------------------------------------

  // The picture an update is taken from.
  type Colours = (int, int) -> Rgb

  function ColoursOf(f: Frame): Colours {
    (x: int, y: int) => if Shown(f, x, y).Some? then Shown(f, x, y).value else Rgb(0, 0, 0)
  }

  // The bytes of every pixel of a picture in a viewer's format.
  type CellBytes = (int, int) -> Bytes

  function CellsOf(pic: Colours, s: PixelSpec): CellBytes {
    (x: int, y: int) => EncodedPixel(pic(x, y), s)
  }

  function RawRow(cells: CellBytes, x: nat, y: nat, width: nat): Bytes
    decreases width
  {
    if width == 0 then [] else cells(x, y) + RawRow(cells, x + 1, y, width - 1)
  }

  function RawRows(cells: CellBytes, x: nat, y: nat, width: nat, height: nat): Bytes
    decreases height
  {
    if height == 0 then [] else RawRow(cells, x, y, width) + RawRows(cells, x, y + 1, width, height - 1)
  }

  function Header(x: nat, y: nat, width: nat, height: nat, encoding: int): (b: Bytes)
    requires -0x8000_0000 <= encoding < 0x8000_0000
    ensures |b| == 12
  {
    U16(x) + U16(y) + U16(width) + U16(height) + S32(encoding)
  }

  function InitBytes(width: nat, height: nat, name: Bytes): Bytes {
    U16(width) + U16(height) + SpecBytes(NATIVE) + U32(|name|) + name
  }

  lemma {:induction false} RawRowSnoc(cells: CellBytes, x: nat, y: nat, width: nat)
    ensures RawRow(cells, x, y, width + 1) == RawRow(cells, x, y, width) + cells(x + width, y)
    decreases width
  {
    if width == 0 {
      assert RawRow(cells, x + 1, y, 0) == [];
    } else {
      RawRowSnoc(cells, x + 1, y, width - 1);
      assert x + 1 + (width - 1) == x + width;
    }
  }

  lemma {:induction false} RawRowsSnoc(cells: CellBytes, x: nat, y: nat, width: nat, height: nat)
    ensures RawRows(cells, x, y, width, height + 1)
         == RawRows(cells, x, y, width, height) + RawRow(cells, x, y + height, width)
    decreases height
  {
    if height == 0 {
      assert RawRows(cells, x, y + 1, width, 0) == [];
    } else {
      RawRowsSnoc(cells, x, y + 1, width, height - 1);
      assert y + 1 + (height - 1) == y + height;
    }
  }
}
