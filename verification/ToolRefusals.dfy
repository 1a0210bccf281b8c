// What the tool refuses of a framebuffer update (parseFramebufferUpdate of
// tools/hyremote-tool/rfb_client.cpp).
module ToolRefusals {
  import opened Option
  import opened Frames
  import opened Wire
  import opened Chunking
  import opened ToolClient

  // A header is refused when its raw payload is over 64 MiB, its cursor is not of 1 to 256 pixels in
  // each direction, or its encoding was not asked for.
  lemma {:induction false} HeaderRefusedIff(width: nat, height: nat, encoding: int)
    ensures PayloadBytes(width, height, encoding).None? <==>
            || (encoding == 0 && width * height * 4 > 64 * 1024 * 1024)
            || (encoding == -239 && !(1 <= width <= 256 && 1 <= height <= 256))
            || encoding !in {0, -223, -239}
  {
    CellsIsProduct(width, height);
  }

  // A rectangle is applied when it is a cursor, a resize to a picture of 1 to 16 Mi pixels, or pixels
  // that lie in the picture.
  lemma {:induction false} RectangleAppliesIff(t: Tool, b: Bytes, r: Rectangle)
    requires Fits(r, |b|) && (t.frame.Some? ==> t.frame.value.Valid())
    ensures ApplyRect(t, b, r).ok <==>
            || r.encoding == -239
            || (r.encoding == -223 && r.width > 0 && r.height > 0 && r.width * r.height <= 16 * 1024 * 1024)
            || (r.encoding == 0 && t.frame.Some?
                && r.x + r.width <= t.frame.value.width && r.y + r.height <= t.frame.value.height)
  {
    CellsIsProduct(r.width, r.height);
  }

  // The first rectangle that cannot be applied ends the tool, whatever comes before and after.
  lemma {:induction false} FirstRefusalDecides(t: Tool, b: Bytes, before: seq<Rectangle>, r: Rectangle, after: seq<Rectangle>)
    requires AllFit(before + [r] + after, |b|) && AllFit(before, |b|) && Fits(r, |b|)
    requires ApplyRects(t, b, before).ok && !ApplyRect(ApplyRects(t, b, before).tool, b, r).ok
    ensures !ApplyRects(t, b, before + [r] + after).ok
    decreases |before|
  {
    var all := before + [r] + after;
    if before != [] {
      var first := ApplyRect(t, b, before[0]);
      assert all[0] == before[0] && all[1..] == before[1..] + [r] + after;
      assert AllFit(all[1..], |b|) by { assert forall i :: 0 <= i < |all| - 1 ==> all[1..][i] == all[i + 1]; }
      FirstRefusalDecides(first.tool, b, before[1..], r, after);
    }
  }

  // An update of more than 64 rectangles ends the tool as soon as their number is known, and one of
  // more than 96 MiB as soon as the headers say so.
  lemma {:induction false} LargeUpdateIsRefused(t: Tool, b: Bytes)
    requires t.phase == Streaming && |b| >= 4 && b[0] == 0
    ensures ReadU16(b, 2) > 64 ==> StepOf(t, b) == Refused(t)
    ensures ReadU16(b, 2) <= 64 && ScanRects(b, 4, ReadU16(b, 2)).Scanned? ==>
              ScanRects(b, 4, ReadU16(b, 2)).end <= 96 * 1024 * 1024
  {
    if ScanRects(b, 4, ReadU16(b, 2)).Scanned? {
      var start := 4;
      ScanEnds(b, start, ReadU16(b, 2));
    }
  }

  lemma {:induction false} ScanEnds(b: Bytes, offset: nat, n: nat)
    requires offset <= |b| && offset <= MAX_UPDATE_BYTES && ScanRects(b, offset, n).Scanned?
    ensures ScanRects(b, offset, n).end <= MAX_UPDATE_BYTES
    decreases n
  {
    if n > 0 {
      var bytes := PayloadBytes(ReadU16(b, offset + 4), ReadU16(b, offset + 6), ReadS32(b, offset + 8)).value;
      ScanEnds(b, offset + 12 + bytes, n - 1);
    }
  }

  // An update that is applied answers with the next request and counts as a frame if it changed the
  // picture.
  lemma {:induction false} UpdateIsAnswered(t: Tool, b: Bytes)
    requires t.phase == Streaming && |b| >= 4 && b[0] == 0 && StepOf(t, b).Message? && t.frame.Some?
    ensures var scan := ScanRects(b, 4, ReadU16(b, 2));
            scan.Scanned? && ApplyRects(t, b[..scan.end], scan.rectangles).ok && StepOf(t, b).consumed == scan.end
            && var a, next := ApplyRects(t, b[..scan.end], scan.rectangles), StepOf(t, b).state;
               && next.frames == a.tool.frames + (if a.changed then 1 else 0) && next.frame == a.tool.frame
               && (a.tool.frame.Some? && a.tool.phase == Streaming ==>
                     next.waiting && next.written
                     == a.tool.written + RequestBytes(!a.resized, a.tool.frame.value.width, a.tool.frame.value.height))
  {
  }
}
