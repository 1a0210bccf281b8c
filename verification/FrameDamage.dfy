// What changed between two frames.
module FrameDamage {
  // Which pixels changed between the last observed frame and the newest one
  // (src/runtime/src/transport/rfb_delivery_state.hpp).
  //
  // The source functions are clipCoreDamageRect, regionsFromFrameDamage,
  // rfbPresentedRowDiffers and changedRfbTiles.

  import opened Option
  import opened RfbRegion
  import opened RfbUpdate
  import opened Frames

  const DAMAGE_TILE: nat := 64

  function Full(f: Frame): seq<Rect> {
    AddRect([], FullRect(f.width, f.height))
  }

  function ClipHint(r: Rect, width: nat, height: nat): Rect {
    var left := Max(0, r.x);
    var top := Max(0, r.y);
    var right := Min(width, r.x + r.width);
    var bottom := Min(height, r.y + r.height);
    if right <= left || bottom <= top then NO_RECT
    else Rect(left, top, right - left, bottom - top)
  }

  function AddHints(acc: seq<Rect>, hints: seq<Rect>, width: nat, height: nat): seq<Rect>
    decreases |hints|
  {
    if hints == [] then acc
    else AddHints(AddRect(acc, ClipHint(hints[0], width, height)), hints[1..], width, height)
  }

  function HintedDamage(f: Frame): seq<Rect> {
    if f.damage.Regions? then
      Coalesce(AddHints([], f.damage.rects, f.width, f.height), f.width, f.height)
    else []
  }

  predicate IdsAdjacent(previous: nat, current: nat) {
    previous != 0 && current != 0 && current > previous && current - previous == 1
  }

  // Same size and same interpretation of the bytes.
  predicate SamePresentation(a: Frame, b: Frame) {
    a.width == b.width && a.height == b.height && a.format == b.format
    && a.planeCount == b.planeCount && a.alpha == b.alpha
  }

  predicate HintTrusted(previous: Frame, current: Frame) {
    current.damage.Regions? && IdsAdjacent(previous.id, current.id)
  }

  predicate Comparable(previous: Frame, current: Frame) {
    current.planeCount == 1 && Readable(previous) && Readable(current)
  }

  // One tile of the comparison grid, cut off at the frame edge.
  function Tile(f: Frame, x0: nat, y0: nat): Rect
    requires x0 < f.width && y0 < f.height
  {
    Rect(x0, y0, Min(DAMAGE_TILE, f.width - x0), Min(DAMAGE_TILE, f.height - y0))
  }

  predicate PixelDiffers(a: Frame, b: Frame, x: int, y: int)
    requires SamePresentation(a, b) && Comparable(a, b) && InFrame(b, x, y)
  {
    PixelAt(a, x, y) != PixelAt(b, x, y)
  }

  predicate TileDiffers(a: Frame, b: Frame, t: Rect)
    requires SamePresentation(a, b) && Comparable(a, b)
    requires 0 <= t.x && 0 <= t.y && t.Right() <= b.width && t.Bottom() <= b.height
  {
    exists y, x :: t.y <= y < t.Bottom() && t.x <= x < t.Right() && PixelDiffers(a, b, x, y)
  }

  function TileRow(a: Frame, b: Frame, y0: nat, x0: nat, acc: seq<Rect>): seq<Rect>
    requires SamePresentation(a, b) && Comparable(a, b) && y0 < b.height
    decreases b.width - x0
  {
    if x0 >= b.width then acc
    else
      var t := Tile(b, x0, y0);
      TileRow(a, b, y0, x0 + DAMAGE_TILE, if TileDiffers(a, b, t) then AddRect(acc, t) else acc)
  }

  function TileRows(a: Frame, b: Frame, y0: nat, acc: seq<Rect>): seq<Rect>
    requires SamePresentation(a, b) && Comparable(a, b)
    decreases b.height - y0
  {
    if y0 >= b.height then acc
    else TileRows(a, b, y0 + DAMAGE_TILE, TileRow(a, b, y0, 0, acc))
  }

  // The bulk comparison after an unchanged frame: tight rows, byte for byte equal.
  predicate SameBytes(a: Frame, b: Frame)
    requires SamePresentation(a, b) && Comparable(a, b)
  {
    var pa, pb := PlaneOf(a), PlaneOf(b);
    var rowBytes := b.width * 4;
    && pa.stride == rowBytes && pb.stride == rowBytes
    && pa.data[..rowBytes * b.height] == pb.data[..rowBytes * b.height]
  }

  function ChangedTiles(previous: Option<Frame>, current: Frame, previousUnchanged: bool): seq<Rect> {
    if current.width == 0 || current.height == 0 then []
    else if previous.None? || !SamePresentation(previous.value, current) then Full(current)
    else
      var before := previous.value;
      if HintTrusted(before, current) then HintedDamage(current)
      else if before.storage == current.storage then []
      else if !Comparable(before, current) then Full(current)
      else if previousUnchanged && SameBytes(before, current) then []
      else Coalesce(TileRows(before, current, 0, []), current.width, current.height)
  }

  // ---- hints ------------------------------------------------------------------------------------

  lemma {:induction false} ClipIsExact(r: Rect, width: nat, height: nat, px: int, py: int)
    ensures ClipHint(r, width, height).Has(px, py)
            <==> r.Has(px, py) && FullRect(width, height).Has(px, py)
  {
    var left, top := Max(0, r.x), Max(0, r.y);
    var right, bottom := Min(width, r.x + r.width), Min(height, r.y + r.height);
    assert r.Has(px, py) && FullRect(width, height).Has(px, py)
      <==> left <= px < right && top <= py < bottom;
    if right <= left || bottom <= top {
      assert !NO_RECT.Has(px, py);
    } else {
      assert ClipHint(r, width, height) == Rect(left, top, right - left, bottom - top);
    }
  }

  lemma {:induction false} AddHintsCovers(acc: seq<Rect>, hints: seq<Rect>, width: nat, height: nat, px: int, py: int)
    requires Bounded(acc)
    ensures Bounded(AddHints(acc, hints, width, height))
    ensures Covers(acc, px, py) || (Covers(hints, px, py) && FullRect(width, height).Has(px, py))
            ==> Covers(AddHints(acc, hints, width, height), px, py)
    decreases |hints|
  {
    if hints != [] {
      var clip := ClipHint(hints[0], width, height);
      CoversCons(hints, px, py);
      ClipIsExact(hints[0], width, height, px, py);
      AddRectCovers(acc, clip, px, py);
      AddRectBounded(acc, clip);
      AddHintsCovers(AddRect(acc, clip), hints[1..], width, height, px, py);
    }
  }

  lemma {:induction false} HintedDamageCovers(f: Frame, px: int, py: int)
    requires f.damage.Regions?
    ensures Bounded(HintedDamage(f))
    ensures InFrame(f, px, py) && Covers(f.damage.rects, px, py) ==> Covers(HintedDamage(f), px, py)
  {
    AddHintsCovers([], f.damage.rects, f.width, f.height, px, py);
    CoalesceCovers(AddHints([], f.damage.rects, f.width, f.height), f.width, f.height, px, py);
  }

  // ---- the tile grid -------------------------------------------------------------------------------

  lemma {:induction false} TileRowCovers(a: Frame, b: Frame, y0: nat, x0: nat, acc: seq<Rect>, px: int, py: int)
    requires SamePresentation(a, b) && Comparable(a, b) && y0 < b.height && Bounded(acc)
    ensures Bounded(TileRow(a, b, y0, x0, acc))
    ensures Covers(acc, px, py) ==> Covers(TileRow(a, b, y0, x0, acc), px, py)
    ensures InFrame(b, px, py) && x0 <= px && y0 <= py < y0 + DAMAGE_TILE && PixelDiffers(a, b, px, py)
            ==> Covers(TileRow(a, b, y0, x0, acc), px, py)
    decreases b.width - x0
  {
    if x0 < b.width {
      var t := Tile(b, x0, y0);
      AddRectCovers(acc, t, px, py);
      AddRectBounded(acc, t);
      var next := if TileDiffers(a, b, t) then AddRect(acc, t) else acc;
      TileRowCovers(a, b, y0, x0 + DAMAGE_TILE, next, px, py);
    }
  }

  lemma {:induction false} TileRowsCover(a: Frame, b: Frame, y0: nat, acc: seq<Rect>, px: int, py: int)
    requires SamePresentation(a, b) && Comparable(a, b) && Bounded(acc)
    ensures Bounded(TileRows(a, b, y0, acc))
    ensures Covers(acc, px, py) ==> Covers(TileRows(a, b, y0, acc), px, py)
    ensures InFrame(b, px, py) && y0 <= py && PixelDiffers(a, b, px, py)
            ==> Covers(TileRows(a, b, y0, acc), px, py)
    decreases b.height - y0
  {
    if y0 < b.height {
      TileRowCovers(a, b, y0, 0, acc, px, py);
      TileRowsCover(a, b, y0 + DAMAGE_TILE, TileRow(a, b, y0, 0, acc), px, py);
    }
  }

  ghost predicate SamePicture(a: Frame, b: Frame)
    requires SamePresentation(a, b) && Comparable(a, b)
  {
    forall x, y :: InFrame(b, x, y) ==> !PixelDiffers(a, b, x, y)
  }

  lemma {:induction false} TileRowEmpty(a: Frame, b: Frame, y0: nat, x0: nat)
    requires SamePresentation(a, b) && Comparable(a, b) && y0 < b.height
    requires SamePicture(a, b)
    ensures TileRow(a, b, y0, x0, []) == []
    decreases b.width - x0
  {
    if x0 < b.width {
      TileRowEmpty(a, b, y0, x0 + DAMAGE_TILE);
    }
  }

  lemma {:induction false} TileRowsEmpty(a: Frame, b: Frame, y0: nat)
    requires SamePresentation(a, b) && Comparable(a, b)
    requires SamePicture(a, b)
    ensures TileRows(a, b, y0, []) == []
    decreases b.height - y0
  {
    if y0 < b.height {
      TileRowEmpty(a, b, y0, 0);
      TileRowsEmpty(a, b, y0 + DAMAGE_TILE);
    }
  }

  lemma {:induction false} SameBytesSamePicture(a: Frame, b: Frame)
    requires SamePresentation(a, b) && Comparable(a, b) && SameBytes(a, b)
    ensures SamePicture(a, b)
  {
    var pa, pb := PlaneOf(a), PlaneOf(b);
    var n := b.width * 4 * b.height;
    forall x, y | InFrame(b, x, y)
      ensures !PixelDiffers(a, b, x, y)
    {
      OffsetFits(pa.stride, b.width, b.height, n, x, y);
      var o := Offset(a, x, y);
      assert forall k :: 0 <= k < n ==> pa.data[k] == pa.data[..n][k] && pb.data[k] == pb.data[..n][k];
    }
  }

  // ---- soundness -------------------------------------------------------------------------------------

  // What a producer that supplies Regions promises: the list covers every pixel whose
  // presented colour differs from the immediately preceding accepted frame.
  ghost predicate HonestDelta(previous: Frame, current: Frame) {
    current.damage.Regions? ==>
      forall x, y :: InFrame(current, x, y) && Shown(previous, x, y) != Shown(current, x, y)
        ==> Covers(current.damage.rects, x, y)
  }

  lemma {:induction false} ComparisonIsSound(before: Frame, current: Frame, previousUnchanged: bool, x: int, y: int)
    requires SamePresentation(before, current) && Comparable(before, current) && !HintTrusted(before, current)
    ensures Bounded(ChangedTiles(Some(before), current, previousUnchanged))
    ensures InFrame(current, x, y) && Shown(before, x, y) != Shown(current, x, y)
            ==> Covers(ChangedTiles(Some(before), current, previousUnchanged), x, y)
  {
    TileRowsCover(before, current, 0, [], x, y);
    CoalesceCovers(TileRows(before, current, 0, []), current.width, current.height, x, y);
    if SameBytes(before, current) { SameBytesSamePicture(before, current); }
  }

  // No changed pixel is missing from the damage, whatever path computed it.
  lemma {:induction false} DamageIsSound(previous: Option<Frame>, current: Frame, previousUnchanged: bool, x: int, y: int)
    requires previous.Some? && HintTrusted(previous.value, current) ==> HonestDelta(previous.value, current)
    ensures Bounded(ChangedTiles(previous, current, previousUnchanged))
    ensures InFrame(current, x, y) && (previous.None? || Shown(previous.value, x, y) != Shown(current, x, y))
            ==> Covers(ChangedTiles(previous, current, previousUnchanged), x, y)
  {
    SingleRect(FullRect(current.width, current.height), x, y);
    if current.width != 0 && current.height != 0 && previous.Some? && SamePresentation(previous.value, current) {
      var before := previous.value;
      if HintTrusted(before, current) {
        HintedDamageCovers(current, x, y);
      } else if Comparable(before, current) {
        ComparisonIsSound(before, current, previousUnchanged, x, y);
      }
    }
  }

  // With readable RGBA pixels and no trusted hint, "no damage" means "same picture".
  lemma {:induction false} EmptyDamageIffSamePicture(previous: Frame, current: Frame, previousUnchanged: bool)
    requires current.width > 0 && current.height > 0
    requires SamePresentation(previous, current) && Comparable(previous, current)
    requires !HintTrusted(previous, current)
    ensures ChangedTiles(Some(previous), current, previousUnchanged) == [] <==> SamePicture(previous, current)
  {
    var tiles := TileRows(previous, current, 0, []);
    TileRowsCover(previous, current, 0, [], 0, 0);
    CoalesceKeepsEmptiness(tiles, current.width, current.height);
    if SameBytes(previous, current) {
      SameBytesSamePicture(previous, current);
    }
    if SamePicture(previous, current) {
      TileRowsEmpty(previous, current, 0);
    } else {
      var x, y :| InFrame(current, x, y) && PixelDiffers(previous, current, x, y);
      TileRowsCover(previous, current, 0, [], x, y);
      assert previous.storage != current.storage;
    }
  }

  // ---- dropped frames -----------------------------------------------------------------------------------

  // The frames Core accepted, in acceptance order: the mailbox numbers them 1, 2, 3, ...
  ghost predicate AcceptedStream(accepted: seq<Frame>) {
    && (forall i :: 0 <= i < |accepted| ==> accepted[i].id == i + 1)
    && (forall i :: 1 <= i < |accepted| ==> HonestDelta(accepted[i - 1], accepted[i]))
  }

  // Any number of accepted frames between two observed ones may be dropped, by the
  // mailbox or by the latest-frame slot: a delta of a dropped frame is never relied on.
  lemma {:induction false} SoundAcrossDrops(accepted: seq<Frame>, i: nat, j: nat, previousUnchanged: bool, x: int, y: int)
    requires AcceptedStream(accepted) && i < j < |accepted|
    ensures InFrame(accepted[j], x, y) && Shown(accepted[i], x, y) != Shown(accepted[j], x, y)
            ==> Covers(ChangedTiles(Some(accepted[i]), accepted[j], previousUnchanged), x, y)
  {
    if HintTrusted(accepted[i], accepted[j]) {
      assert j == i + 1;
      assert HonestDelta(accepted[j - 1], accepted[j]);
    }
    DamageIsSound(Some(accepted[i]), accepted[j], previousUnchanged, x, y);
  }

  function OnePixel(id: nat, value: Byte): Frame {
    Frame(id, 1, 1, Rgba8888, 1, Opaque, Some(Storage(id, Some(Plane([value, value, value, 255], 4)))), FullFrame)
  }

  lemma {:induction false} OnePixelShows(id: nat, value: Byte)
    ensures Shown(OnePixel(id, value), 0, 0) == Some(Rgb(value, value, value))
  {
  }

  // Honest accepted frames, the last of which differs from the first at the corner but does not
  // say so in its hint.
  ghost predicate HidesCorner(accepted: seq<Frame>) {
    && AcceptedStream(accepted) && |accepted| == 3
    && accepted[2].damage.Regions? && InFrame(accepted[2], 0, 0)
    && Shown(accepted[0], 0, 0) != Shown(accepted[2], 0, 0) && !Covers(HintedDamage(accepted[2]), 0, 0)
  }

  // A third frame with the picture of the second may say that nothing changed.
  lemma {:induction false} UnchangedThird(f1: Frame, f2: Frame)
    requires f1.id == 1 && f2.id == 2 && f2.damage == FullFrame
    requires InFrame(f2, 0, 0) && Shown(f1, 0, 0) != Shown(f2, 0, 0)
    ensures exists accepted :: HidesCorner(accepted)
  {
    var f3 := f2.(id := 3, damage := Regions([]));
    assert HidesCorner([f1, f2, f3]) by {
      assert forall x, y :: Shown(f2, x, y) == Shown(f3, x, y);
      assert HonestDelta(f2, f3);
      assert HintedDamage(f3) == [];
    }
  }

  // Trusting a hint without adjacent ids would lose a pixel: the middle frame of three is
  // dropped, its one changed pixel is not in the last frame's (honest) hint.
  lemma {:induction false} SkippedHintWouldLosePixels()
    ensures exists accepted :: HidesCorner(accepted)
  {
    OnePixelShows(1, 0);
    OnePixelShows(2, 255);
    UnchangedThird(OnePixel(1, 0), OnePixel(2, 255));
  }

  // ---- the comparison loops --------------------------------------------------------------------------------

  method RegionsFromHint(f: Frame) returns (result: DamageRegion)
    ensures fresh(result) && result.Valid() && result.rects == HintedDamage(f)
  {
    result := new DamageRegion();
    if !f.damage.Regions? {
      return;
    }
    var hints := f.damage.rects;
    var i := 0;
    while i < |hints|
      invariant 0 <= i <= |hints|
      invariant fresh(result) && result.Valid()
      invariant AddHints(result.rects, hints[i..], f.width, f.height) == AddHints([], hints, f.width, f.height)
    {
      assert hints[i..][1..] == hints[i + 1..];
      result.Add(ClipHint(hints[i], f.width, f.height));
      i := i + 1;
    }
    result := CoalesceForPaint(result, f.width, f.height);
  }

  function ChannelAt(data: seq<Byte>, o: nat, channel: nat, mode: AlphaMode): Byte
    requires o + 3 < |data| && channel < 3
  {
    OpaqueChannel(data[o + channel], data[o + 3], mode)
  }

  predicate SamePixelBytes(before: seq<Byte>, after: seq<Byte>, a: nat, b: nat, k: nat, mode: AlphaMode)
    requires a + k * 4 + 3 < |before| && b + k * 4 + 3 < |after|
  {
    PixelOfBytes(before, a + k * 4, mode) == PixelOfBytes(after, b + k * 4, mode)
  }

  lemma {:induction false} EqualRowsSamePixels(before: seq<Byte>, after: seq<Byte>, a: nat, b: nat, pixels: nat, k: nat, mode: AlphaMode)
    requires a + pixels * 4 <= |before| && b + pixels * 4 <= |after| && k < pixels
    requires before[a..a + pixels * 4] == after[b..b + pixels * 4]
    ensures SamePixelBytes(before, after, a, b, k, mode)
  {
    var rowA, rowB := before[a..a + pixels * 4], after[b..b + pixels * 4];
    assert before[a + k * 4] == rowA[k * 4] && after[b + k * 4] == rowB[k * 4];
    assert before[a + k * 4 + 1] == rowA[k * 4 + 1] && after[b + k * 4 + 1] == rowB[k * 4 + 1];
    assert before[a + k * 4 + 2] == rowA[k * 4 + 2] && after[b + k * 4 + 2] == rowB[k * 4 + 2];
    assert before[a + k * 4 + 3] == rowA[k * 4 + 3] && after[b + k * 4 + 3] == rowB[k * 4 + 3];
  }

  // One row of a tile: a bulk comparison first, presented channels only when bytes differ.
  method RowDiffers(before: seq<Byte>, after: seq<Byte>, a: nat, b: nat, pixels: nat, mode: AlphaMode)
    returns (differs: bool)
    requires a + pixels * 4 <= |before| && b + pixels * 4 <= |after|
    ensures differs <==> exists k :: 0 <= k < pixels && !SamePixelBytes(before, after, a, b, k, mode)
  {
    if before[a..a + pixels * 4] == after[b..b + pixels * 4] {
      forall k | 0 <= k < pixels
        ensures SamePixelBytes(before, after, a, b, k, mode)
      {
        EqualRowsSamePixels(before, after, a, b, pixels, k, mode);
      }
      return false;
    }
    var x := 0;
    while x < pixels
      invariant 0 <= x <= pixels
      invariant forall k :: 0 <= k < x ==> SamePixelBytes(before, after, a, b, k, mode)
    {
      var o, p := a + x * 4, b + x * 4;
      var channel := 0;
      while channel < 3
        invariant 0 <= channel <= 3
        invariant forall c :: 0 <= c < channel ==> ChannelAt(before, o, c, mode) == ChannelAt(after, p, c, mode)
      {
        if ChannelAt(before, o, channel, mode) != ChannelAt(after, p, channel, mode) {
          assert !SamePixelBytes(before, after, a, b, x, mode);
          return true;
        }
        channel := channel + 1;
      }
      assert ChannelAt(before, o, 0, mode) == ChannelAt(after, p, 0, mode);
      assert ChannelAt(before, o, 1, mode) == ChannelAt(after, p, 1, mode);
      assert ChannelAt(before, o, 2, mode) == ChannelAt(after, p, 2, mode);
      x := x + 1;
    }
    return false;
  }

  lemma {:induction false} RowBytes(before: Frame, current: Frame, x0: nat, y: nat, n: nat)
    requires SamePresentation(before, current) && Comparable(before, current)
    requires n > 0 && x0 + n <= current.width && y < current.height
    ensures Offset(before, x0, y) + n * 4 <= |PlaneOf(before).data|
    ensures Offset(current, x0, y) + n * 4 <= |PlaneOf(current).data|
    ensures forall k :: 0 <= k < n ==>
      (PixelDiffers(before, current, x0 + k, y)
       <==> !SamePixelBytes(PlaneOf(before).data, PlaneOf(current).data,
                            Offset(before, x0, y), Offset(current, x0, y), k, current.alpha))
  {
    assert Offset(before, x0 + n - 1, y) == Offset(before, x0, y) + (n - 1) * 4;
    assert Offset(current, x0 + n - 1, y) == Offset(current, x0, y) + (n - 1) * 4;
    forall k | 0 <= k < n
      ensures PixelDiffers(before, current, x0 + k, y)
        <==> !SamePixelBytes(PlaneOf(before).data, PlaneOf(current).data,
                             Offset(before, x0, y), Offset(current, x0, y), k, current.alpha)
    {
      assert Offset(before, x0 + k, y) == Offset(before, x0, y) + k * 4;
      assert Offset(current, x0 + k, y) == Offset(current, x0, y) + k * 4;
    }
  }

  method TileChanged(before: Frame, current: Frame, t: Rect) returns (changed: bool)
    requires SamePresentation(before, current) && Comparable(before, current)
    requires 0 <= t.x && 0 <= t.y && t.Right() <= current.width && t.Bottom() <= current.height
    requires !t.Empty()
    ensures changed <==> TileDiffers(before, current, t)
  {
    var row := 0;
    while row < t.height
      invariant 0 <= row <= t.height
      invariant forall y, x :: t.y <= y < t.y + row && t.x <= x < t.Right() ==> !PixelDiffers(before, current, x, y)
    {
      var y := t.y + row;
      RowBytes(before, current, t.x, y, t.width);
      var a, b := Offset(before, t.x, y), Offset(current, t.x, y);
      var differs := RowDiffers(PlaneOf(before).data, PlaneOf(current).data, a, b, t.width, current.alpha);
      if differs {
        ghost var k :| 0 <= k < t.width
                    && !SamePixelBytes(PlaneOf(before).data, PlaneOf(current).data, a, b, k, current.alpha);
        assert PixelDiffers(before, current, t.x + k, y);
        return true;
      }
      forall x | t.x <= x < t.Right()
        ensures !PixelDiffers(before, current, x, y)
      {
        assert SamePixelBytes(PlaneOf(before).data, PlaneOf(current).data, a, b, x - t.x, current.alpha);
        assert x == t.x + (x - t.x);
      }
      row := row + 1;
    }
    return false;
  }

  method ComputeDamage(previous: Option<Frame>, current: Frame, previousUnchanged: bool)
    returns (result: DamageRegion)
    ensures fresh(result) && result.Valid()
    ensures result.rects == ChangedTiles(previous, current, previousUnchanged)
  {
    result := new DamageRegion();
    if current.width == 0 || current.height == 0 {
      return;
    }
    if previous.None? || !SamePresentation(previous.value, current) {
      result.Add(FullRect(current.width, current.height));
      return;
    }
    var before := previous.value;
    if HintTrusted(before, current) {
      result := RegionsFromHint(current);
      return;
    }
    if before.storage == current.storage {
      return;
    }
    if !Comparable(before, current) {
      result.Add(FullRect(current.width, current.height));
      return;
    }
    if previousUnchanged && SameBytes(before, current) {
      return;
    }
    var y0 := 0;
    while y0 < current.height
      invariant fresh(result) && result.Valid()
      invariant TileRows(before, current, y0, result.rects) == TileRows(before, current, 0, [])
      decreases current.height - y0
    {
      var x0 := 0;
      ghost var rowStart := result.rects;
      while x0 < current.width
        invariant fresh(result) && result.Valid()
        invariant TileRow(before, current, y0, x0, result.rects) == TileRow(before, current, y0, 0, rowStart)
        decreases current.width - x0
      {
        var t := Tile(current, x0, y0);
        var changed := TileChanged(before, current, t);
        if changed {
          result.Add(t);
        }
        x0 := x0 + DAMAGE_TILE;
      }
      y0 := y0 + DAMAGE_TILE;
    }
    result := CoalesceForPaint(result, current.width, current.height);
  }
}
