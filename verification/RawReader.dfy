// What a viewer reads from a Raw rectangle in its own pixel format
// (src/runtime/src/transport/rfb_transport.cpp; section 7.7.1 of RFC 6143).
module RawReader {
  import opened RfbRegion
  import opened Frames
  import opened Wire
  import opened PixelChannels

  // Every pixel has the same number of bytes.
  ghost predicate Uniform(cells: CellBytes, n: nat) {
    forall x, y :: |cells(x, y)| == n
  }

  lemma {:induction false} FormatIsUniform(pic: Colours, s: PixelSpec)
    ensures Uniform(CellsOf(pic, s), s.bitsPerPixel / 8)
  {
    forall x, y
      ensures |CellsOf(pic, s)(x, y)| == s.bitsPerPixel / 8
    {
      assert CellsOf(pic, s)(x, y) == EncodedPixel(pic(x, y), s);
    }
  }

  lemma {:induction false} NextMultiple(a: nat, n: nat)
    ensures (a + 1) * n == a * n + n
  {
  }

  lemma {:induction false} RowLength(cells: CellBytes, n: nat, x: nat, y: nat, width: nat)
    requires Uniform(cells, n)
    ensures |RawRow(cells, x, y, width)| == width * n
    decreases width
  {
    if width > 0 {
      RowLength(cells, n, x + 1, y, width - 1);
      NextMultiple(width - 1, n);
    }
  }

  lemma {:induction false} RowCell(cells: CellBytes, n: nat, x: nat, y: nat, width: nat, col: nat)
    requires Uniform(cells, n) && col < width
    ensures 0 <= col * n && col * n + n <= |RawRow(cells, x, y, width)|
    ensures RawRow(cells, x, y, width)[col * n..col * n + n] == cells(x + col, y)
    decreases width
  {
    var first, rest := cells(x, y), RawRow(cells, x + 1, y, width - 1);
    RowLength(cells, n, x + 1, y, width - 1);
    if col == 0 {
      assert (first + rest)[..n] == first;
    } else {
      RowCell(cells, n, x + 1, y, width - 1, col - 1);
      NextMultiple(col - 1, n);
      Behind(first, rest, (col - 1) * n, n);
    }
  }

  // A slice behind the first part.
  lemma {:induction false} Behind(first: Bytes, rest: Bytes, at: nat, n: nat)
    requires at + n <= |rest|
    ensures (first + rest)[|first| + at..|first| + at + n] == rest[at..at + n]
  {
  }

  lemma {:induction false} RowsCell(cells: CellBytes, n: nat, x: nat, y: nat, width: nat, height: nat, col: nat, row: nat)
    returns (at: nat)
    requires Uniform(cells, n) && col < width && row < height
    ensures at == row * (width * n) + col * n && at + n <= |RawRows(cells, x, y, width, height)|
    ensures RawRows(cells, x, y, width, height)[at..at + n] == cells(x + col, y + row)
    decreases height
  {
    var first, rest := RawRow(cells, x, y, width), RawRows(cells, x, y + 1, width, height - 1);
    RowLength(cells, n, x, y, width);
    if row == 0 {
      RowCell(cells, n, x, y, width, col);
      at := col * n;
      assert (first + rest)[at..at + n] == first[at..at + n];
    } else {
      var before := RowsCell(cells, n, x, y + 1, width, height - 1, col, row - 1);
      at := |first| + before;
      NextMultiple(row - 1, width * n);
      Behind(first, rest, before, n);
    }
  }

  // In every supported format whose channels have no bit in common, a viewer that reads a Raw
  // rectangle pixel by pixel finds the nearest colours to the picture, row by row from the top.
  lemma {:induction false} RawReadsBack(pic: Colours, s: PixelSpec, red: nat, green: nat, blue: nat,
                                        r: Rect, col: nat, row: nat) returns (at: nat)
    requires Supported(s) && Masks(s, red, green, blue) && AllApart(s, red, green, blue)
    requires 0 <= r.x && 0 <= r.y && 0 <= r.width && 0 <= r.height && col < r.width && row < r.height
    requires Pow2(s.redShift) > 0 && Pow2(s.greenShift) > 0 && Pow2(s.blueShift) > 0
    ensures var n := s.bitsPerPixel / 8;
            var payload := RawRows(CellsOf(pic, s), r.x, r.y, r.width, r.height);
            && at == row * (r.width * n) + col * n && at + n <= |payload|
            && ReadsBack(payload[at..at + n], pic(r.x + col, r.y + row), s)
  {
    FormatIsUniform(pic, s);
    at := RowsCell(CellsOf(pic, s), s.bitsPerPixel / 8, r.x, r.y, r.width, r.height, col, row);
    ApartReadsBack(pic(r.x + col, r.y + row), s, red, green, blue);
  }
}
