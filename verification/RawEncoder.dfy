// appendRawRectangle of src/runtime/src/transport/rfb_transport.cpp: the row copy for
// native pixels and the conversion pixel by pixel, both against the same bytes.
module RawEncoder {
  import opened Frames
  import opened Wire

  const INT_MAX: nat := 0x7FFF_FFFF

  function RectBytes(f: Frame, x: nat, y: nat, width: nat, height: nat, s: PixelSpec): Bytes {
    Header(x, y, width, height, RAW) + RawRows(CellsOf(ColoursOf(f), s), x, y, width, height)
  }

  // The bytes of one native row as they lie in the plane, with every fourth one cleared.
  predicate Copied(target: Bytes, data: Bytes, source: nat, pixels: nat)
    requires |target| >= 4 * pixels && source + 4 * pixels <= |data|
  {
    forall i :: 0 <= i < 4 * pixels ==> target[i] == if i % 4 == 3 then 0 else data[source + i]
  }

  lemma {:induction false} NativeCell(f: Frame, x: nat, y: nat)
    requires Readable(f) && f.alpha != Straight && x < f.width && y < f.height
    ensures var data, at := PlaneOf(f).data, Offset(f, x, y);
            CellsOf(ColoursOf(f), NATIVE)(x, y) == [data[at], data[at + 1], data[at + 2], 0]
  {
    NativePixel(ColoursOf(f)(x, y));
  }

  // A copied row is the presented row: without straight alpha the stored colours are shown.
  lemma {:induction false} CopiedIsPresented(f: Frame, target: Bytes, source: nat, x: nat, y: nat, width: nat)
    requires Readable(f) && f.alpha != Straight && x + width <= f.width && y < f.height && |target| == 4 * width
    requires source + 4 * width <= |PlaneOf(f).data| && (width > 0 ==> source == Offset(f, x, y))
    requires Copied(target, PlaneOf(f).data, source, width)
    ensures target == RawRow(CellsOf(ColoursOf(f), NATIVE), x, y, width)
    decreases width
  {
    if width > 0 {
      var cells := CellsOf(ColoursOf(f), NATIVE);
      NativeCell(f, x, y);
      CopiedIsPresented(f, target[4..], source + 4, x + 1, y, width - 1);
      assert target == target[..4] + target[4..];
    }
  }

  method CopyRow(data: Bytes, source: nat, width: nat) returns (row: Bytes)
    requires source + 4 * width <= |data|
    ensures |row| == 4 * width && Copied(row, data, source, width)
  {
    var target := new Byte[4 * width](i requires 0 <= i < 4 * width => data[source + i]);
    var col := 0;
    while col < width
      invariant 0 <= col <= width
      invariant forall i :: 0 <= i < 4 * width ==>
                  target[i] == if i % 4 == 3 && i < 4 * col then 0 else data[source + i]
    {
      target[col * 4 + 3] := 0;
      col := col + 1;
    }
    row := target[..];
  }

  lemma {:induction false} RowFits(f: Frame, x: nat, y: nat, width: nat)
    requires Readable(f) && width > 0 && x + width <= f.width && y < f.height
    ensures Offset(f, x, y) + 4 * width <= |PlaneOf(f).data|
  {
    assert Offset(f, x + width - 1, y) == Offset(f, x, y) + 4 * (width - 1);
  }

  method ConvertRow(f: Frame, x: nat, y: nat, width: nat, s: PixelSpec) returns (row: Bytes)
    requires Readable(f) && x + width <= f.width && y < f.height
    ensures row == RawRow(CellsOf(ColoursOf(f), s), x, y, width)
  {
    row := [];
    var data := PlaneOf(f).data;
    var col := 0;
    while col < width
      invariant 0 <= col <= width
      invariant row == RawRow(CellsOf(ColoursOf(f), s), x, y, col)
    {
      RawRowSnoc(CellsOf(ColoursOf(f), s), x, y, col);
      var at := Offset(f, x + col, y);
      var alpha := data[at + 3];
      var pixel := Rgb(OpaqueChannel(data[at], alpha, f.alpha),
                       OpaqueChannel(data[at + 1], alpha, f.alpha),
                       OpaqueChannel(data[at + 2], alpha, f.alpha));
      row := row + EncodedPixel(pixel, s);
      col := col + 1;
    }
  }

  // One row of either path.
  method PresentedRow(f: Frame, x: nat, y: nat, width: nat, s: PixelSpec) returns (line: Bytes)
    requires Readable(f) && width > 0 && x + width <= f.width && y < f.height
    ensures line == RawRow(CellsOf(ColoursOf(f), s), x, y, width)
  {
    if s == NATIVE && f.alpha != Straight {
      RowFits(f, x, y, width);
      line := CopyRow(PlaneOf(f).data, Offset(f, x, y), width);
      CopiedIsPresented(f, line, Offset(f, x, y), x, y, width);
    } else {
      line := ConvertRow(f, x, y, width, s);
    }
  }

  // Both paths produce the header and the presented pixels in the viewer's format; a frame
  // that cannot be read, or a payload over the int range, is refused.
  method AppendRawRectangle(message: Bytes, f: Frame, s: PixelSpec, x: nat, y: nat, width: nat, height: nat)
    returns (ok: bool, out: Bytes)
    requires x + width <= f.width && y + height <= f.height && width > 0
    ensures ok <==> Readable(f) && width * height * (s.bitsPerPixel / 8) <= INT_MAX
    ensures ok ==> out == message + RectBytes(f, x, y, width, height, s)
  {
    out := message;
    ok := Readable(f) && width * height * (s.bitsPerPixel / 8) <= INT_MAX;
    if !ok { return; }
    var payload := AppendRows(f, s, x, y, width, height);
    out := message + (Header(x, y, width, height, RAW) + payload);
  }

  method AppendRows(f: Frame, s: PixelSpec, x: nat, y: nat, width: nat, height: nat) returns (payload: Bytes)
    requires Readable(f) && x + width <= f.width && y + height <= f.height && width > 0
    ensures payload == RawRows(CellsOf(ColoursOf(f), s), x, y, width, height)
  {
    payload := [];
    ghost var cells := CellsOf(ColoursOf(f), s);
    var row := 0;
    while row < height
      invariant 0 <= row <= height
      invariant payload == RawRows(cells, x, y, width, row)
    {
      RawRowsSnoc(cells, x, y, width, row);
      var line := PresentedRow(f, x, y + row, width, s);
      payload := payload + line;
      row := row + 1;
    }
  }
}
