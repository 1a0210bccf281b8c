// The loops of appendNativeTrlePayload (src/runtime/src/transport/rfb_trle.hpp), proved to
// emit exactly the bytes of Trle.EncodeRect, whose decoding is proved there.
module TrleEncoder {
  import opened Frames
  import opened Trle

  predicate TrleEncodable(f: Frame, x: nat, y: nat, width: nat, height: nat) {
    && Readable(f) && f.planeCount == 1 && width != 0 && height != 0
    && x + width <= f.width && y + height <= f.height
  }

  // ---- arithmetic of the packing register -------------------------------------------------------

  lemma {:induction false} ShiftBound(value: nat, used: nat, n: nat)
    requires value < ShiftLeft(1, used)
    ensures ShiftLeft(value, n) < ShiftLeft(1, used + n)
    decreases n
  {
    if n > 0 {
      ShiftBound(value, used, n - 1);
      assert ShiftLeft(1, used + n) == 2 * ShiftLeft(1, used + (n - 1));
    }
  }

  lemma {:induction false} ShiftMonotone(n: nat, m: nat)
    requires n <= m
    ensures 1 <= ShiftLeft(1, n) <= ShiftLeft(1, m)
    decreases m
  {
    if n < m {
      ShiftMonotone(n, m - 1);
    } else if n > 0 {
      ShiftMonotone(n - 1, n - 1);
    }
  }

  // Shifting one index in keeps the register inside eight bits.
  lemma {:induction false} RegisterFits(depth: Depth, packed: nat, used: nat, index: nat)
    requires packed < ShiftLeft(1, used) && index < depth.Base() && used + depth.Bits() <= 8
    ensures depth.Shift(packed) + index < ShiftLeft(1, used + depth.Bits()) <= 256
  {
    ShiftMore(1, used, depth);
    ShiftMonotone(used + depth.Bits(), 8);
  }

  lemma {:induction false} CpixelsLength(ps: seq<Pixel>)
    ensures |Cpixels(ps)| == 3 * |ps|
  {
    if ps != [] {
      CpixelsLength(ps[1..]);
    }
  }

  lemma {:induction false} CpixelsSnoc(ps: seq<Pixel>, p: Pixel)
    ensures Cpixels(ps + [p]) == Cpixels(ps) + Cpixel(p)
  {
    if ps == [] {
      assert [] + [p] == [p];
      assert Cpixels([p][1..]) == [];
    } else {
      assert (ps + [p])[1..] == ps[1..] + [p];
      CpixelsSnoc(ps[1..], p);
    }
  }

  lemma {:induction false} IndicesAt(ps: seq<Pixel>, palette: seq<Pixel>, k: nat)
    requires k < |ps|
    ensures Indices(ps, palette)[k] == IndexOf(palette, ps[k])
  {
    if k > 0 {
      IndicesAt(ps[1..], palette, k - 1);
    }
  }

  lemma {:induction false} IndexOfStable(palette: seq<Pixel>, longer: seq<Pixel>, p: Pixel)
    requires palette <= longer && p in palette
    ensures IndexOf(longer, p) == IndexOf(palette, p)
  {
    var i := IndexOf(palette, p);
    assert longer[i] == p;
    assert forall j :: 0 <= j < i ==> longer[j] == palette[j] && longer[j] != p;
  }

  // ---- one tile ------------------------------------------------------------------------------------

  method FindColour(palette: array<Pixel>, size: nat, pixel: Pixel) returns (index: nat)
    requires size <= palette.Length
    ensures index == IndexOf(palette[..size], pixel)
  {
    index := 0;
    while index < size && palette[index] != pixel
      invariant 0 <= index <= size
      invariant forall j :: 0 <= j < index ==> palette[j] != pixel
    {
      index := index + 1;
    }
  }

  // What the scan knows after k pixels.
  ghost predicate Scanned(ps: seq<Pixel>, k: nat, colours: seq<Pixel>, indices: seq<nat>) {
    && k <= |ps| && k <= |indices|
    && PaletteFrom(ps[k..], colours) == Palette(ps)
    && (forall i :: 0 <= i < k ==> ps[i] in colours && indices[i] == IndexOf(colours, ps[i]))
  }

  lemma {:induction false} ScanStep(ps: seq<Pixel>, k: nat, colours: seq<Pixel>, indices: seq<nat>)
    requires Scanned(ps, k, colours, indices) && k < |ps| && k < |indices|
    ensures var next := if ps[k] in colours then colours else colours + [ps[k]];
            && Scanned(ps, k + 1, next, indices[k := IndexOf(colours, ps[k])])
            && next <= Palette(ps)
  {
    var pixel := ps[k];
    var next := if pixel in colours then colours else colours + [pixel];
    var index := IndexOf(colours, pixel);
    var updated := indices[k := index];
    assert ps[k..][0] == pixel && ps[k..][1..] == ps[k + 1..];
    PaletteHolds(ps[k + 1..], next);
    forall i | 0 <= i < k + 1
      ensures ps[i] in next && updated[i] == IndexOf(next, ps[i])
    {
      if i < k {
        IndexOfStable(colours, next, ps[i]);
      } else if pixel in colours {
        IndexOfStable(colours, next, pixel);
      } else {
        assert next[index] == pixel;
        assert forall j :: 0 <= j < index ==> next[j] == colours[j];
      }
    }
  }

  lemma {:induction false} ScanEnd(ps: seq<Pixel>, colours: seq<Pixel>, indices: seq<nat>)
    requires Scanned(ps, |ps|, colours, indices)
    ensures colours == Palette(ps) && indices[..|ps|] == Indices(ps, colours)
  {
    assert ps[|ps|..] == [];
    forall i | 0 <= i < |ps|
      ensures indices[i] == Indices(ps, colours)[i]
    {
      IndicesAt(ps, colours, i);
    }
  }

  // One pixel of the scan: its index is noted, a new colour is appended to the palette.
  method ScanPixel(ps: seq<Pixel>, k: nat, palette: array<Pixel>, size: nat, indices: array<nat>,
                   ghost colours: seq<Pixel>, ghost found: seq<nat>)
    returns (next: nat, overflow: bool, ghost colours': seq<Pixel>, ghost found': seq<nat>)
    requires palette.Length == MAX_PALETTE && size <= MAX_PALETTE && k < |ps| && k < indices.Length
    requires palette[..size] == colours && indices[..] == found && Scanned(ps, k, colours, found)
    modifies palette, indices
    ensures overflow ==> |Palette(ps)| > MAX_PALETTE
    ensures !overflow ==> next <= MAX_PALETTE && palette[..next] == colours' && indices[..] == found'
    ensures !overflow ==> Scanned(ps, k + 1, colours', found')
  {
    next, overflow, colours', found' := size, false, colours, found;
    var index := FindColour(palette, size, ps[k]);
    ScanStep(ps, k, colours, found);
    if index == size {
      if size == MAX_PALETTE {
        overflow := true;
        return;
      }
      palette[size] := ps[k];
      next := size + 1;
      colours' := colours + [ps[k]];
    }
    indices[k] := index;
    found' := found[k := index];
  }

  // Scans the tile once.  On success palette and indices are those of the tile; the scan
  // gives up at the seventeenth colour.
  method ScanPalette(ps: seq<Pixel>, palette: array<Pixel>, indices: array<nat>)
    returns (size: nat, overflow: bool)
    requires palette.Length == MAX_PALETTE && |ps| <= indices.Length
    modifies palette, indices
    ensures overflow <==> |Palette(ps)| > MAX_PALETTE
    ensures !overflow ==> size <= MAX_PALETTE && palette[..size] == Palette(ps)
    ensures !overflow ==> indices[..|ps|] == Indices(ps, Palette(ps))
  {
    size, overflow := 0, false;
    ghost var colours: seq<Pixel>, found: seq<nat> := [], indices[..];
    var k := 0;
    while k < |ps|
      invariant 0 <= k <= |ps| && size <= MAX_PALETTE
      invariant palette[..size] == colours && indices[..] == found
      invariant Scanned(ps, k, colours, found)
    {
      size, overflow, colours, found := ScanPixel(ps, k, palette, size, indices, colours, found);
      if overflow { return; }
      k := k + 1;
    }
    ScanEnd(ps, colours, found);
    assert indices[..|ps|] == found[..|ps|];
  }

  // packed = (packed << bits) | index, in an 8-bit register.
  method ShiftIn(depth: Depth, packed: nat, used: nat, index: nat) returns (next: nat)
    requires packed < ShiftLeft(1, used) && index < depth.Base() && used + depth.Bits() <= 8
    ensures next == depth.Shift(packed) + index && next < ShiftLeft(1, used + depth.Bits())
  {
    RegisterFits(depth, packed, used, index);
    next := (depth.Shift(packed) + index) % 256;
  }

  // packed << (8 - used), in an 8-bit register.
  method Flush(packed: nat, used: nat) returns (byte: nat)
    requires packed < ShiftLeft(1, used) && used <= 8
    ensures byte == ShiftLeft(packed, 8 - used)
  {
    byte := ShiftLeft(packed, 8 - used) % 256;
  }

  // One row of packed indices, most significant bits first.
  method PackIndexRow(indices: seq<nat>, depth: Depth) returns (bytes: seq<int>)
    requires AreDigits(indices, depth)
    ensures bytes == PackRow(indices, depth, 0, 0)
  {
    bytes := [];
    var packed: nat, used: nat := 0, 0;
    var col := 0;
    while col < |indices|
      invariant 0 <= col <= |indices| && used < 8
      invariant depth.Two? ==> used % 2 == 0
      invariant depth.Four? ==> used % 4 == 0
      invariant packed < ShiftLeft(1, used)
      invariant bytes + PackRow(indices[col..], depth, packed, used) == PackRow(indices, depth, 0, 0)
    {
      assert indices[col..][0] == indices[col] && indices[col..][1..] == indices[col + 1..];
      packed := ShiftIn(depth, packed, used, indices[col]);
      used := used + depth.Bits();
      if used == 8 {
        bytes := bytes + [packed];
        packed, used := 0, 0;
      }
      col := col + 1;
    }
    assert indices[col..] == [];
    if used != 0 {
      var byte := Flush(packed, used);
      bytes := bytes + [byte];
    }
  }

  // A tile with more than sixteen colours: its pixels are written into one buffer.
  method RawTile(ps: seq<Pixel>) returns (bytes: seq<int>)
    ensures bytes == Cpixels(ps)
  {
    var packed := new Byte[3 * |ps|];
    CpixelsLength(ps);
    var k := 0;
    while k < |ps|
      invariant 0 <= k <= |ps|
      invariant packed[..3 * k] == Cpixels(ps[..k])
    {
      var rgb := Cpixel(ps[k]);
      packed[3 * k], packed[3 * k + 1], packed[3 * k + 2] := rgb[0], rgb[1], rgb[2];
      assert ps[..k + 1] == ps[..k] + [ps[k]];
      CpixelsSnoc(ps[..k], ps[k]);
      assert packed[..3 * k + 3] == packed[..3 * k] + rgb;
      k := k + 1;
    }
    assert ps[..k] == ps;
    bytes := packed[..];
    assert packed[..] == packed[..3 * k];
  }

  // The colours of the palette, in order.
  method PaletteBytes(colours: seq<Pixel>) returns (bytes: seq<int>)
    ensures bytes == Cpixels(colours)
  {
    bytes := [];
    var index := 0;
    while index < |colours|
      invariant 0 <= index <= |colours|
      invariant bytes == Cpixels(colours[..index])
    {
      assert colours[..index + 1] == colours[..index] + [colours[index]];
      CpixelsSnoc(colours[..index], colours[index]);
      bytes := bytes + Cpixel(colours[index]);
      index := index + 1;
    }
    assert colours[..index] == colours;
  }

  // The index rows, each padded to whole bytes.
  method PackedRows(flat: seq<nat>, depth: Depth, width: nat, height: nat) returns (bytes: seq<int>)
    requires |flat| == Cells(width, height) && AreDigits(flat, depth)
    ensures bytes == PackRows(flat, depth, width, height)
  {
    bytes := [];
    var row, at := 0, 0;
    while row < height
      invariant 0 <= row <= height && 0 <= at <= |flat|
      invariant |flat| - at == Cells(width, height - row)
      invariant bytes + PackRows(flat[at..], depth, width, height - row) == PackRows(flat, depth, width, height)
    {
      assert flat[at..][..width] == flat[at..at + width];
      assert flat[at..][width..] == flat[at + width..];
      var packed := PackIndexRow(flat[at..at + width], depth);
      bytes := bytes + packed;
      row, at := row + 1, at + width;
    }
  }

  method EncodeTileBytes(ps: seq<Pixel>, width: nat, height: nat) returns (bytes: seq<int>)
    requires |ps| == Cells(width, height) && 0 < |ps|
    ensures bytes == EncodeTile(ps, width, height)
  {
    var palette := new Pixel[MAX_PALETTE];
    var indices := new nat[|ps|];
    var size, overflow := ScanPalette(ps, palette, indices);
    PaletteHolds(ps, []);
    if overflow {
      var raw := RawTile(ps);
      return [0] + raw;
    }
    if size == 1 {
      return [1] + Cpixel(palette[0]);
    }
    var colours, flat := palette[..size], indices[..];
    assert flat == Indices(ps, colours);
    ResolveIndices(ps, colours);
    var header := PaletteBytes(colours);
    var rows := PackedRows(flat, PackedDepth(size), width, height);
    bytes := [size] + header + rows;
  }

  // ---- the rectangle -----------------------------------------------------------------------------------

  // Reads the pixels of one tile, row by row.
  method ReadTileRow(pic: Picture, cx: nat, cy: nat, tw: nat) returns (line: seq<Pixel>)
    ensures line == RowPixels(pic, cx, cy, tw)
  {
    line := [];
    var col := 0;
    while col < tw
      invariant 0 <= col <= tw
      invariant line == RowPixels(pic, cx, cy, col)
    {
      line := line + [pic(cx + col, cy)];
      col := col + 1;
    }
  }

  lemma {:induction false} TilePixelsSnoc(pic: Picture, cx: nat, cy: nat, width: nat, height: nat)
    ensures TilePixels(pic, cx, cy, width, height + 1)
         == TilePixels(pic, cx, cy, width, height) + RowPixels(pic, cx, cy + height, width)
    decreases height
  {
    if height == 0 {
      assert TilePixels(pic, cx, cy + 1, width, 0) == [];
    } else {
      TilePixelsSnoc(pic, cx, cy + 1, width, height - 1);
      assert cy + 1 + (height - 1) == cy + height;
    }
  }

  method ReadTile(pic: Picture, cx: nat, cy: nat, tw: nat, th: nat) returns (ps: seq<Pixel>)
    ensures ps == TilePixels(pic, cx, cy, tw, th)
  {
    ps := [];
    var row := 0;
    while row < th
      invariant 0 <= row <= th
      invariant ps == TilePixels(pic, cx, cy, tw, row)
    {
      TilePixelsSnoc(pic, cx, cy, tw, row);
      var line := ReadTileRow(pic, cx, cy + row, tw);
      ps := ps + line;
      row := row + 1;
    }
  }

  // The tile at a position of a band, and what the band has left.
  method EncodeOneTile(pic: Picture, width: nat, height: nat, cx: nat, cy: nat) returns (bytes: seq<int>)
    requires cy < height && cx < width
    ensures EncodeTileRow(pic, width, height, cx, cy) == bytes + EncodeTileRow(pic, width, height, cx + TRLE_TILE, cy)
  {
    var tw, th := TileSpan(width, cx), TileSpan(height, cy);
    var ps := ReadTile(pic, cx, cy, tw, th);
    GridIndex(tw, th, 0, 0);
    bytes := EncodeTileBytes(ps, tw, th);
  }

  // One band of tiles, from its left edge.
  method EncodeBand(pic: Picture, width: nat, height: nat, left: nat, cy: nat) returns (out: seq<int>)
    requires cy < height
    ensures out == EncodeTileRow(pic, width, height, left, cy)
  {
    out := [];
    var cx := left;
    while cx < width
      invariant out + EncodeTileRow(pic, width, height, cx, cy) == EncodeTileRow(pic, width, height, left, cy)
      decreases width - cx
    {
      var bytes := EncodeOneTile(pic, width, height, cx, cy);
      out := out + bytes;
      cx := cx + TRLE_TILE;
    }
  }

  method EncodeBands(pic: Picture, width: nat, height: nat) returns (out: seq<int>)
    ensures out == EncodeTiles(pic, width, height, 0)
  {
    out := [];
    var cy := 0;
    while cy < height
      invariant out + EncodeTiles(pic, width, height, cy) == EncodeTiles(pic, width, height, 0)
      decreases height - cy
    {
      var band := EncodeBand(pic, width, height, 0, cy);
      out := out + band;
      cy := cy + TRLE_TILE;
    }
  }

  method AppendTrlePayload(f: Frame, x: nat, y: nat, width: nat, height: nat) returns (ok: bool, out: seq<int>)
    ensures ok <==> TrleEncodable(f, x, y, width, height)
    ensures ok ==> out == EncodeRect(f, x, y, width, height)
  {
    if !TrleEncodable(f, x, y, width, height) {
      return false, [];
    }
    out := EncodeBands(PictureOf(f, x, y), width, height);
    ok := true;
  }
}
