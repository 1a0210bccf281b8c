// The cursor pseudo-rectangle (section 7.8.1 of RFC 6143): sendCursor of src/runtime/src/
// transport/rfb_transport.cpp prints what tools/hyremote-tool/rfb_client.cpp reads back.
module CursorAgreement {
  import opened Option
  import opened Frames
  import opened Wire
  import opened Chunking
  import opened ToolClient
  import opened WireAgreement

  // A cursor image as the provider hands it over: four bytes per pixel.
  datatype Snapshot = Snapshot(hotX: int, hotY: int, width: int, height: int, rgba: Bytes)

  predicate Usable(s: Snapshot) {
    0 < s.width <= 256 && 0 < s.height <= 256 && |s.rgba| == Cells(s.width, s.height) * 4
  }

  function Clamp(v: int, low: int, high: int): int {
    if v < low then low else if v > high then high else v
  }

  function PixelIndex(s: Snapshot, x: nat, y: nat): (i: nat)
    requires Usable(s) && x < s.width && y < s.height
    ensures i + 3 < |s.rgba|
  {
    GridIndex(s.width, s.height, x, y);
    (Cells(s.width, y) + x) * 4
  }

  function SnapshotColours(s: Snapshot): Colours
    requires Usable(s)
  {
    (x: int, y: int) =>
      if 0 <= x < s.width && 0 <= y < s.height then
        var i := PixelIndex(s, x, y);
        Rgb(s.rgba[i], s.rgba[i + 1], s.rgba[i + 2])
      else Rgb(0, 0, 0)
  }

  // Which pixels belong to the mask.
  type Shape = (int, int) -> bool

  // Any alpha but zero makes a pixel part of the mask.
  function ShapeOf(s: Snapshot): Shape
    requires Usable(s)
  {
    (x: int, y: int) => 0 <= x < s.width && 0 <= y < s.height && s.rgba[PixelIndex(s, x, y) + 3] != 0
  }

  // The mask bits of eight pixels, the leftmost first.
  function MaskBits(shape: Shape, y: nat, k: nat): (bits: seq<bool>)
    ensures |bits| == 8
  {
    seq(8, j requires 0 <= j < 8 => shape(8 * k + j, y))
  }

  // Bits as a number, the first one highest.
  function Packed(bits: seq<bool>): nat {
    if bits == [] then 0 else Packed(bits[..|bits| - 1]) * 2 + (if bits[|bits| - 1] then 1 else 0)
  }

  lemma {:induction false} PackedBound(bits: seq<bool>)
    ensures Packed(bits) < Pow2(|bits|)
  {
    if bits != [] { PackedBound(bits[..|bits| - 1]); }
  }

  lemma {:induction false} PackedBits(bits: seq<bool>, n: nat)
    requires n <= |bits|
    ensures Halved(Packed(bits), n) == Packed(bits[..|bits| - n])
    decreases n
  {
    if n > 0 {
      var front := bits[..|bits| - 1];
      assert Packed(bits) / 2 == Packed(front);
      PackedBits(front, n - 1);
      assert front[..|front| - (n - 1)] == bits[..|bits| - n];
    } else {
      assert bits[..|bits|] == bits;
    }
  }

  function MaskByte(shape: Shape, y: nat, k: nat): (b: Byte)
  {
    PackedBound(MaskBits(shape, y, k));
    Packed(MaskBits(shape, y, k))
  }

  lemma {:induction false} PackedBit(bits: seq<bool>, j: nat)
    requires j < |bits| == 8 && Packed(bits) < 256
    ensures BitOf(Packed(bits), j) <==> bits[j]
  {
    var front := bits[..j + 1];
    assert Halved(Packed(bits), 7 - j) == Packed(front) by {
      PackedBits(bits, 7 - j);
      assert bits[..|bits| - (7 - j)] == front;
    }
  }

  lemma {:induction false} MaskBit(shape: Shape, y: nat, x: nat)
    ensures BitOf(MaskByte(shape, y, x / 8), x % 8) <==> shape(x, y)
  {
    var bits := MaskBits(shape, y, x / 8);
    PackedBound(bits);
    PackedBit(bits, x % 8);
    assert x == 8 * (x / 8) + x % 8;
  }

  function Stride(width: nat): nat {
    (width + 7) / 8
  }

  // Bits past the width are clear: the shape is empty there.
  function MaskRow(shape: Shape, stride: nat, y: nat): (m: Bytes)
    ensures |m| == stride
  {
    seq(stride, k requires 0 <= k < stride => MaskByte(shape, y, k))
  }

  function MaskRows(shape: Shape, stride: nat, y: nat, height: nat): (m: Bytes)
    ensures |m| == Cells(stride, height)
    decreases height
  {
    if height == 0 then [] else MaskRow(shape, stride, y) + MaskRows(shape, stride, y + 1, height - 1)
  }

  function CursorPayload(s: Snapshot): Bytes
    requires Usable(s)
  {
    RawRows(CellsOf(SnapshotColours(s), NATIVE), 0, 0, s.width, s.height)
    + MaskRows(ShapeOf(s), Stride(s.width), 0, s.height)
  }

  // The message for a viewer on the native format.
  function CursorMessage(s: Snapshot): Bytes
    requires Usable(s)
  {
    [0, 0] + U16(1)
    + (Header(Clamp(s.hotX, 0, s.width - 1), Clamp(s.hotY, 0, s.height - 1), s.width, s.height, CURSOR)
       + CursorPayload(s))
  }

  // ---- reading it back -------------------------------------------------------------------------------

  lemma {:induction false} RowByte(cells: CellBytes, pic: Colours, x: nat, y: nat, width: nat, col: nat, k: nat)
    requires Native(cells, pic) && col < width && k < 4
    ensures |RawRow(cells, x, y, width)| == width * 4
    ensures RawRow(cells, x, y, width)[col * 4 + k] == cells(x + col, y)[k]
    decreases width
  {
    NativeRowLength(cells, pic, x, y, width);
    if col > 0 {
      RowByte(cells, pic, x + 1, y, width - 1, col - 1, k);
      assert x + 1 + (col - 1) == x + col;
    }
  }

  lemma {:induction false} RowsByte(cells: CellBytes, pic: Colours, x: nat, y: nat, width: nat, height: nat,
                                    col: nat, row: nat, k: nat)
    requires Native(cells, pic) && col < width && row < height && k < 4
    ensures |RawRows(cells, x, y, width, height)| == Cells(width, height) * 4
    ensures (Cells(width, row) + col) * 4 + k < Cells(width, height) * 4
    ensures RawRows(cells, x, y, width, height)[(Cells(width, row) + col) * 4 + k] == cells(x + col, y + row)[k]
    decreases height
  {
    NativeRowsLength(cells, pic, x, y, width, height);
    GridIndex(width, height, col, row);
    NativeRowLength(cells, pic, x, y, width);
    if row == 0 {
      RowByte(cells, pic, x, y, width, col, k);
    } else {
      RowsByte(cells, pic, x, y + 1, width, height - 1, col, row - 1, k);
      CellsStep(width, row);
      ByteBehind(RawRow(cells, x, y, width), RawRows(cells, x, y + 1, width, height - 1), (Cells(width, row - 1) + col) * 4 + k,
                 (Cells(width, row) + col) * 4 + k);
      assert y + 1 + (row - 1) == y + row;
    }
  }

  lemma {:induction false} ByteBehind(first: Bytes, rest: Bytes, at: nat, i: nat)
    requires at < |rest| && i == |first| + at
    ensures (first + rest)[i] == rest[at]
  {
  }

  lemma {:induction false} CellsStep(width: nat, row: nat)
    requires row > 0
    ensures Cells(width, row) == Cells(width, row - 1) + width
  {
  }

  lemma {:induction false} MaskRowsByte(shape: Shape, stride: nat, y: nat, height: nat, row: nat, k: nat)
    requires row < height && k < stride
    ensures Cells(stride, row) + k < Cells(stride, height)
    ensures MaskRows(shape, stride, y, height)[Cells(stride, row) + k] == MaskByte(shape, y + row, k)
    decreases height
  {
    GridIndex(stride, height, k, row);
    var first, more := MaskRow(shape, stride, y), MaskRows(shape, stride, y + 1, height - 1);
    if row > 0 {
      MaskRowsByte(shape, stride, y + 1, height - 1, row - 1, k);
      CellsStep(stride, row);
      assert y + 1 + (row - 1) == y + row;
      assert (first + more)[stride + (Cells(stride, row - 1) + k)] == more[Cells(stride, row - 1) + k];
    } else {
      assert (first + more)[k] == first[k];
    }
  }

  lemma {:induction false} HoldsAt(b: Bytes, at: nat, part: Bytes, i: nat)
    requires Holds(b, at, part) && i < |part|
    ensures at + i < |b| && b[at + i] == part[i]
  {
    assert b[at..at + |part|][i] == b[at + i];
  }

  lemma {:induction false} PayloadParts(s: Snapshot, b: Bytes, at: nat)
    requires Usable(s) && Holds(b, at, CursorPayload(s))
    ensures |CursorPayload(s)| == CursorBytes(s.width, s.height)
    ensures Holds(b, at, RawRows(CellsOf(SnapshotColours(s), NATIVE), 0, 0, s.width, s.height))
    ensures Holds(b, at + Cells(s.width, s.height) * 4, MaskRows(ShapeOf(s), Stride(s.width), 0, s.height))
  {
    var pic := SnapshotColours(s);
    var cells := CellsOf(pic, NATIVE);
    NativeCells(pic);
    NativeRowsLength(cells, pic, 0, 0, s.width, s.height);
    HoldsParts(b, at, RawRows(cells, 0, 0, s.width, s.height), MaskRows(ShapeOf(s), Stride(s.width), 0, s.height));
  }

  lemma {:induction false} ColourReadBack(cells: CellBytes, pic: Colours, b: Bytes, at: nat, width: nat, height: nat, col: nat, row: nat)
    requires Native(cells, pic) && col < width && row < height && Holds(b, at, RawRows(cells, 0, 0, width, height))
    ensures var i := at + (Cells(width, row) + col) * 4;
            i + 2 < |b| && Rgb(b[i], b[i + 1], b[i + 2]) == pic(col, row)
  {
    var raw := RawRows(cells, 0, 0, width, height);
    var i := (Cells(width, row) + col) * 4;
    RowsByte(cells, pic, 0, 0, width, height, col, row, 0);
    HoldsAt(b, at, raw, i);
    RowsByte(cells, pic, 0, 0, width, height, col, row, 1);
    HoldsAt(b, at, raw, i + 1);
    RowsByte(cells, pic, 0, 0, width, height, col, row, 2);
    HoldsAt(b, at, raw, i + 2);
    assert cells(0 + col, 0 + row) == [pic(col, row).r, pic(col, row).g, pic(col, row).b, 0];
  }

  lemma {:induction false} MaskReadBack(shape: Shape, b: Bytes, at: nat, stride: nat, height: nat, col: nat, row: nat)
    requires col / 8 < stride && row < height && Holds(b, at, MaskRows(shape, stride, 0, height))
    ensures var j := at + (Cells(stride, row) + col / 8);
            j < |b| && (BitOf(b[j], col % 8) <==> shape(col, row))
  {
    MaskRowsByte(shape, stride, 0, height, row, col / 8);
    HoldsAt(b, at, MaskRows(shape, stride, 0, height), Cells(stride, row) + col / 8);
    MaskBit(shape, row, col);
  }

  // What the tool reads at one pixel of a printed payload.
  lemma {:induction false} CursorPixelIs(b: Bytes, at: nat, width: nat, height: nat, row: nat, col: nat, pixel: nat, mask: nat)
    requires row < height && col < width && at + CursorBytes(width, height) <= |b|
    requires pixel == at + (Cells(width, row) + col) * 4
    requires mask == at + Cells(width, height) * 4 + (Cells(Stride(width), row) + col / 8)
    ensures pixel + 2 < |b| && mask < |b|
    ensures CursorPixel(b, at, width, height, row, col)
            == if BitOf(b[mask], col % 8) then Some(Rgb(b[pixel], b[pixel + 1], b[pixel + 2])) else None
  {
    GridIndex(width, height, col, row);
    GridIndex(Stride(width), height, col / 8, row);
  }

  lemma {:induction false} CursorPixelReadBack(cells: CellBytes, pic: Colours, shape: Shape, b: Bytes, at: nat, width: nat, height: nat,
                            col: nat, row: nat)
    requires Native(cells, pic) && col < width && row < height
    requires Holds(b, at, RawRows(cells, 0, 0, width, height))
    requires Holds(b, at + Cells(width, height) * 4, MaskRows(shape, Stride(width), 0, height))
    requires at + CursorBytes(width, height) <= |b|
    ensures CursorPixel(b, at, width, height, row, col) == if shape(col, row) then Some(pic(col, row)) else None
  {
    var pixel := at + (Cells(width, row) + col) * 4;
    var mask := at + Cells(width, height) * 4 + (Cells(Stride(width), row) + col / 8);
    CursorPixelIs(b, at, width, height, row, col, pixel, mask);
    assert Rgb(b[pixel], b[pixel + 1], b[pixel + 2]) == pic(col, row) by {
      ColourReadBack(cells, pic, b, at, width, height, col, row);
    }
    assert BitOf(b[mask], col % 8) <==> shape(col, row) by {
      MaskReadBack(shape, b, at + Cells(width, height) * 4, Stride(width), height, col, row);
    }
  }

  // The scan of one cursor rectangle around any payload of the right length.
  lemma {:induction false} CursorScan(hotX: nat, hotY: nat, width: nat, height: nat, payload: Bytes, rest: Bytes)
    requires 0 < width <= 256 && 0 < height <= 256 && hotX < width && hotY < height
    requires |payload| == CursorBytes(width, height) <= MAX_RAW_BYTES
    ensures var m := [0, 0] + U16(1) + (Header(hotX, hotY, width, height, CURSOR) + payload);
            && |m| == 16 + |payload| && m[0] == 0 && ReadU16(m + rest, 2) == 1 && Holds(m, 16, payload)
            && ScanRects(m + rest, 4, 1)
               == Scanned([Rectangle(hotX, hotY, width, height, CURSOR, 16, |payload|)], |m|)
  {
    var header := Header(hotX, hotY, width, height, CURSOR);
    var m := [0, 0] + U16(1) + (header + payload);
    var b := m + rest;
    assert b == [0, 0] + U16(1) + (header + payload + rest);
    U16Inside([0, 0], 1, header + payload + rest);
    assert m[4..4 + |header + payload|] == header + payload;
    HoldsParts(m, 4, header, payload);
    assert Holds(b, 4, header) by { assert b[4..16] == m[4..16]; }
    ScanOne(b, 4, hotX, hotY, width, height, CURSOR, |payload|, 0);
  }

  lemma {:induction false} CursorIsSmall(width: nat, height: nat)
    requires width <= 256 && height <= 256
    ensures CursorBytes(width, height) <= MAX_RAW_BYTES
  {
    CellsMonotone(width, height, 256, 256);
    CellsMonotone((width + 7) / 8, height, 256, 256);
    CellsIsProduct(256, 256);
  }

  // The rectangle the scan finds.
  function CursorRectangle(s: Snapshot): Rectangle
    requires Usable(s)
  {
    Rectangle(Clamp(s.hotX, 0, s.width - 1), Clamp(s.hotY, 0, s.height - 1), s.width, s.height, CURSOR, 16,
              CursorBytes(s.width, s.height))
  }

  lemma {:induction false} CursorFound(s: Snapshot, rest: Bytes)
    requires Usable(s)
    ensures var m := CursorMessage(s);
            && m[0] == 0 && ReadU16(m + rest, 2) == 1 && Holds(m, 16, CursorPayload(s))
            && Fits(CursorRectangle(s), |m|) && |m| == 16 + CursorBytes(s.width, s.height)
            && ScanRects(m + rest, 4, 1) == Scanned([CursorRectangle(s)], |m|)
  {
    var r := CursorRectangle(s);
    var payload := CursorPayload(s);
    assert payload[0..|payload|] == payload;
    PayloadParts(s, payload, 0);
    CursorIsSmall(s.width, s.height);
    CursorScan(r.x, r.y, s.width, s.height, payload, rest);
  }

  lemma {:induction false} CursorPixelShown(s: Snapshot, col: nat, row: nat)
    requires Usable(s) && col < s.width && row < s.height
    requires Fits(CursorRectangle(s), |CursorMessage(s)|) && Holds(CursorMessage(s), 16, CursorPayload(s))
    ensures ReadCursor(CursorMessage(s), CursorRectangle(s)).rows[row][col]
            == if ShapeOf(s)(col, row) then Some(SnapshotColours(s)(col, row)) else None
  {
    var m := CursorMessage(s);
    PayloadParts(s, m, 16);
    NativeCells(SnapshotColours(s));
    CursorPixelReadBack(CellsOf(SnapshotColours(s), NATIVE), SnapshotColours(s), ShapeOf(s), m, 16,
                        s.width, s.height, col, row);
  }

  lemma {:induction false} OneCursorApplied(t: Tool, b: Bytes, r: Rectangle)
    requires r.encoding == CURSOR && Fits(r, |b|)
    ensures ApplyRects(t, b, [r]) == Applied(t.(cursor := Some(ReadCursor(b, r))), true, false, false)
  {
    assert [r][1..] == [];
  }

  // The tool ends with the provider's colours where the alpha is not zero, transparent
  // pixels elsewhere, and the hotspot clamped into the image; its picture is untouched.
  lemma {:induction false} CursorAgrees(t: Tool, s: Snapshot, rest: Bytes, col: nat, row: nat) returns (after: Tool)
    requires t.phase == Streaming && t.frame.Some? && Usable(s) && col < s.width && row < s.height
    ensures ToolClient.StepOf(t, CursorMessage(s) + rest) == Message(|CursorMessage(s)|, after)
    ensures after == t.(cursor := after.cursor, waiting := true,
                        written := t.written + RequestBytes(true, t.frame.value.width, t.frame.value.height))
    ensures after.cursor.Some?
    ensures var c := after.cursor.value;
            && c.hotX == Clamp(s.hotX, 0, s.width - 1) && c.hotY == Clamp(s.hotY, 0, s.height - 1)
            && c.width == s.width && c.height == s.height && |c.rows| == s.height && |c.rows[row]| == s.width
            && c.rows[row][col] == if ShapeOf(s)(col, row) then Some(SnapshotColours(s)(col, row)) else None
  {
    CursorFound(s, rest);
    CursorPixelShown(s, col, row);
    var m := CursorMessage(s);
    assert (m + rest)[..|m|] == m;
    OneCursorApplied(t, m, CursorRectangle(s));
    after := Completed(ApplyRects(t, m, [CursorRectangle(s)]));
  }

  // The hotspot is moved to the nearest pixel of the cursor.
  lemma {:induction false} ClampIsNearest(v: int, low: int, high: int, other: int)
    requires low <= high && low <= other <= high
    ensures low <= Clamp(v, low, high) <= high
    ensures (if Clamp(v, low, high) < v then v - Clamp(v, low, high) else Clamp(v, low, high) - v)
            <= (if other < v then v - other else other - v)
  {
  }

  // A cursor of up to 256 by 256 pixels with all its bytes is sent, and the pixel the tool shows is
  // that of its place in the image: row by row, four bytes each, transparent where alpha is zero.
  lemma {:induction false} CursorPixelIsShown(t: Tool, s: Snapshot, rest: Bytes, col: nat, row: nat) returns (after: Tool)
    requires t.phase == Streaming && t.frame.Some? && col < s.width && row < s.height
    requires 1 <= s.width <= 256 && 1 <= s.height <= 256 && |s.rgba| == s.width * s.height * 4
    ensures Usable(s) && ToolClient.StepOf(t, CursorMessage(s) + rest) == Message(|CursorMessage(s)|, after)
    ensures var i := (row * s.width + col) * 4;
            && 0 <= i && i + 3 < |s.rgba| && after.cursor.Some?
            && |after.cursor.value.rows| == s.height && |after.cursor.value.rows[row]| == s.width
            && after.cursor.value.rows[row][col]
               == if s.rgba[i + 3] != 0 then Some(Rgb(s.rgba[i], s.rgba[i + 1], s.rgba[i + 2])) else None
  {
    CellsIsProduct(s.width, s.height);
    after := CursorAgrees(t, s, rest, col, row);
    SnapshotPixel(s, col, row);
  }

  lemma {:induction false} SnapshotPixel(s: Snapshot, col: nat, row: nat)
    requires Usable(s) && col < s.width && row < s.height
    ensures var i := (row * s.width + col) * 4;
            && 0 <= i && i + 3 < |s.rgba|
            && (ShapeOf(s)(col, row) <==> s.rgba[i + 3] != 0)
            && SnapshotColours(s)(col, row) == Rgb(s.rgba[i], s.rgba[i + 1], s.rgba[i + 2])
  {
    CellsIsProduct(s.width, row);
    assert PixelIndex(s, col, row) == (row * s.width + col) * 4;
  }
}
