// The tool's client as an object: the receive buffer and the session state, consumed and
// updated in the loops of tools/hyremote-tool/rfb_client.cpp.
module ToolObject {
  import opened Option
  import opened Frames
  import opened Wire
  import opened Chunking
  import opened ToolClient

  function Prepended(done: seq<Rectangle>, s: Scan): Scan {
    if s.Scanned? then Scanned(done + s.rectangles, s.end) else s
  }

  // What the scan makes of one header.
  lemma {:induction false} OneHeader(b: Bytes, done: seq<Rectangle>, offset: nat, n: nat)
    requires n > 0 && offset + 12 <= |b|
    ensures var bytes := PayloadBytes(ReadU16(b, offset + 4), ReadU16(b, offset + 6), ReadS32(b, offset + 8));
            var scan := Prepended(done, ScanRects(b, offset, n));
            if bytes.None? then scan == Bad
            else if |b| < offset + 12 + bytes.value then scan == Wait
            else if offset + 12 + bytes.value > MAX_UPDATE_BYTES then scan == Bad
            else scan == Prepended(done + [HeaderAt(b, offset, bytes.value)], ScanRects(b, offset + 12 + bytes.value, n - 1))
  {
    var bytes := PayloadBytes(ReadU16(b, offset + 4), ReadU16(b, offset + 6), ReadS32(b, offset + 8));
    if bytes.Some? && offset + 12 + bytes.value <= |b| {
      var rest := ScanRects(b, offset + 12 + bytes.value, n - 1);
      var r := HeaderAt(b, offset, bytes.value);
      if rest.Scanned? { assert done + ([r] + rest.rectangles) == done + [r] + rest.rectangles; }
    }
  }

  function HeaderAt(b: Bytes, offset: nat, bytes: nat): Rectangle
    requires offset + 12 <= |b|
  {
    Rectangle(ReadU16(b, offset), ReadU16(b, offset + 2), ReadU16(b, offset + 4), ReadU16(b, offset + 6),
              ReadS32(b, offset + 8), offset + 12, bytes)
  }

  // The flags collected so far, over what the remaining rectangles do.
  function Joined(resized: bool, changed: bool, a: Applied): Applied {
    if a.ok then Applied(a.tool, true, resized || a.resized, changed || a.changed) else a
  }

  class RfbClient {
    var input: Bytes
    var tool: Tool
    var failed: bool

    constructor (tool: Tool)
      ensures input == [] && this.tool == tool && !failed
    {
      this.tool, input, failed := tool, [], false;
    }

    // fail(): the connection is aborted and the buffer cleared.
    method Fail()
      modifies this
      ensures failed && input == [] && tool == old(tool)
    {
      failed, input := true, [];
    }

    method ScanHeaders(count: nat) returns (scan: Scan)
      requires |input| >= 4
      ensures scan == ScanRects(input, 4, count)
    {
      var b := input;
      var done: seq<Rectangle> := [];
      var offset: nat := 4;
      var index := 0;
      ghost var whole := ScanRects(b, offset, count);
      while index < count
        invariant 0 <= index <= count && offset <= |b|
        invariant whole == Prepended(done, ScanRects(b, offset, count - index))
      {
        if |b| < offset + 12 { return Wait; }
        OneHeader(b, done, offset, count - index);
        var width, height := ReadU16(b, offset + 4), ReadU16(b, offset + 6);
        var encoding := ReadS32(b, offset + 8);
        var bytes := PayloadBytes(width, height, encoding);
        if bytes.None? { return Bad; }
        var end := offset + 12 + bytes.value;
        if |b| < end { return Wait; }
        if end > MAX_UPDATE_BYTES { return Bad; }
        done := done + [Rectangle(ReadU16(b, offset), ReadU16(b, offset + 2), width, height, encoding,
                                  offset + 12, bytes.value)];
        offset := end;
        index := index + 1;
      }
      scan := Scanned(done, offset);
      assert done + [] == done;
    }

    // Copies the rows of one raw rectangle into the picture.
    method CopyRows(picture: Image, b: Bytes, r: Rectangle) returns (i: Image)
      requires picture.Valid() && r.encoding == RAW && Fits(r, |b|)
      requires r.x + r.width <= picture.width && r.y + r.height <= picture.height
      ensures i == Blit(picture, b, r.at, r.x, r.y, r.width, r.height)
    {
      i := picture;
      var row: nat, at: nat := 0, r.at;
      while row < r.height
        invariant 0 <= row <= r.height && i.Valid() && i.width == picture.width && i.height == picture.height
        invariant at + Cells(r.width, r.height - row) * 4 <= |b|
        invariant Blit(i, b, at, r.x, r.y + row, r.width, r.height - row)
               == Blit(picture, b, r.at, r.x, r.y, r.width, r.height)
      {
        var y := r.y + row;
        var copied := Splice(i.rows[y], r.x, ReadRow(b, at, r.width));
        i := i.(rows := i.rows[y := copied]);
        at := at + 4 * r.width;
        row := row + 1;
      }
    }

    // The second pass over a complete message.
    method ApplyRectangles(b: Bytes, rectangles: seq<Rectangle>) returns (ok: bool, resized: bool, changed: bool)
      requires AllFit(rectangles, |b|)
      modifies this`tool
      ensures var a := ApplyRects(old(tool), b, rectangles);
              tool == a.tool && ok == a.ok && (ok ==> resized == a.resized && changed == a.changed)
    {
      ok, resized, changed := true, false, false;
      var i := 0;
      while i < |rectangles|
        invariant 0 <= i <= |rectangles| && ok
        invariant var a := ApplyRects(old(tool), b, rectangles);
                  var rest := Joined(resized, changed, ApplyRects(tool, b, rectangles[i..]));
                  a.tool == rest.tool && a.ok == rest.ok
                  && (a.ok ==> a.resized == rest.resized && a.changed == rest.changed)
      {
        var r := rectangles[i];
        assert rectangles[i..][1..] == rectangles[i + 1..];
        if r.encoding == DESKTOP_SIZE {
          if r.width == 0 || r.height == 0 || Cells(r.width, r.height) > MAX_PIXELS { return false, resized, changed; }
          tool := tool.(frame := Some(BlackImage(r.width, r.height)));
          resized, changed := true, true;
        } else if r.encoding == CURSOR {
          tool := tool.(cursor := Some(ReadCursor(b, r)));
        } else {
          if tool.frame.None? || !tool.frame.value.Valid()
             || r.x + r.width > tool.frame.value.width || r.y + r.height > tool.frame.value.height {
            return false, resized, changed;
          }
          var picture := CopyRows(tool.frame.value, b, r);
          tool := tool.(frame := Some(picture));
          changed := true;
        }
        i := i + 1;
      }
    }

    // False: more bytes are needed, or the connection failed.
    method ParseFramebufferUpdate() returns (parsed: bool)
      requires !failed
      modifies this
      ensures match OnUpdate(old(tool), old(input))
              case NeedMore => !parsed && !failed && tool == old(tool) && input == old(input)
              case Refused(t) => !parsed && failed && tool == t && input == []
              case Message(n, t) => parsed && !failed && tool == t && n <= |old(input)| && input == old(input)[n..]
    {
      if |input| < 4 { return false; }
      if ReadU16(input, 2) > MAX_RECTS {
        Fail();
        return false;
      }
      var scan := ScanHeaders(ReadU16(input, 2));
      if scan.Wait? { return false; }
      if scan.Bad? {
        Fail();
        return false;
      }
      var ok, resized, changed := ApplyRectangles(input[..scan.end], scan.rectangles);
      if !ok {
        Fail();
        return false;
      }
      input := input[scan.end..];
      tool := tool.(waiting := false, frames := if changed then tool.frames + 1 else tool.frames);
      tool := RequestFrame(tool, !resized);
      return true;
    }

    // process(): takes complete messages off the buffer.
    method Process()
      requires !failed
      modifies this
      ensures Reader(tool, input, failed) == Drain(ToolStep(), old(tool), old(input))
    {
      ToolIsStable();
      while !failed
        invariant (failed ==> input == [])
        invariant (if failed then Reader(tool, input, true) else Drain(ToolStep(), tool, input))
               == Drain(ToolStep(), old(tool), old(input))
        decreases !failed, |input|
      {
        assert StableAt(ToolStep(), tool, input, []);
        if tool.phase == Streaming && input != [] && input[0] == 0 {
          var parsed := ParseFramebufferUpdate();
          if !parsed && !failed { return; }
        } else {
          match StepOf(tool, input) {
            case NeedMore => return;
            case Refused(t) =>
              tool := t;
              Fail();
            case Message(n, t) =>
              tool := t;
              input := input[n..];
          }
        }
      }
    }

    // onReadyRead: a read over the receive budget fails instead of being buffered.
    method OnReadyRead(chunk: Bytes)
      requires !failed
      modifies this
      ensures |old(input)| + |chunk| > MAX_RECEIVE ==> failed && tool == old(tool)
      ensures |old(input)| + |chunk| <= MAX_RECEIVE ==>
                Reader(tool, input, failed) == Feed(ToolStep(), Reader(old(tool), old(input), false), chunk)
    {
      if |input| + |chunk| > MAX_RECEIVE {
        Fail();
        return;
      }
      input := input + chunk;
      Process();
    }
  }
}
