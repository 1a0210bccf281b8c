// The tool as a viewer of the server: what TrySend queues for it stays inside the tool's
// budgets, and its picture is the one the server believes it has.
module ToolMirror {
  import opened Option
  import opened RfbRegion
  import opened RfbUpdate
  import opened Frames
  import opened Wire
  import opened Chunking
  import opened ViewerCoherence
  import Tool = ToolClient
  import WireAgreement

  // ---- budgets ---------------------------------------------------------------------------------------

  lemma {:induction false} UpdateIsInside(c: Client, f: Frame, io: Io)
    requires ClientOk(c) && TrySend(c, Some(f), io).update.Some?
    ensures WireAgreement.AllInside(TrySend(c, Some(f), io).update.value.rects, f.width, f.height)
  {
    var rects := TrySend(c, Some(f), io).update.value.rects;
    UpdateIsConfined(c, f, io, 0, 0);
    forall i | 0 <= i < |rects|
      ensures WireAgreement.Inside(rects[i], f.width, f.height)
    {
      var r := rects[i];
      assert r.Has(r.x, r.y) && r.Has(r.Right() - 1, r.Bottom() - 1);
      assert Covers(rects, r.x, r.y) && Covers(rects, r.Right() - 1, r.Bottom() - 1);
      UpdateIsConfined(c, f, io, r.x, r.y);
      UpdateIsConfined(c, f, io, r.Right() - 1, r.Bottom() - 1);
    }
  }

  lemma {:induction false} MessagesLength(cells: CellBytes, pic: Colours, rects: seq<Rect>, width: nat, height: nat)
    requires WireAgreement.Native(cells, pic) && WireAgreement.AllInside(rects, width, height)
    ensures |WireAgreement.RectMessages(cells, rects, width, height)| == 12 * |rects| + 4 * CoveredArea(rects)
  {
    if rects != [] {
      var r := rects[0];
      WireAgreement.NativeRowsLength(cells, pic, r.x, r.y, r.width, r.height);
      CellsIsProduct(r.width, r.height);
      MessagesLength(cells, pic, rects[1..], width, height);
    }
  }

  // The pixels of one update, counted with multiplicity, never exceed the budget: one
  // rectangle lies in the frame, and more than one cover less than a quarter of the request.
  lemma {:induction false} AnswerArea(c: Client, f: Frame, io: Io, asked: Rect)
    requires ClientOk(c) && TrySend(c, Some(f), io).update.Some?
    requires Arm(c).delivery.request.value.area == asked && asked.width > 0 && asked.height > 0
    requires asked.Area() <= Tool.MAX_PIXELS && Cells(f.width, f.height) <= Tool.MAX_PIXELS
    ensures CoveredArea(TrySend(c, Some(f), io).update.value.rects) <= Tool.MAX_PIXELS
  {
    var rects := TrySend(c, Some(f), io).update.value.rects;
    UpdateIsInside(c, f, io);
    SentIsAnswer(c, f, io);
    OfferedFacts(c, f, 0, 0);
    var d := Offered(c, f);
    SelectConfined(d, 0, 0);
    ClippedIsExact(Arm(c), SelectEligible(d).value, f.width, f.height, 0, 0);
    if |rects| > 1 {
      SelectArea(d);
    } else if |rects| == 1 {
      var r := rects[0];
      CellsIsProduct(r.width, r.height);
      CellsMonotone(r.width, r.height, f.width, f.height);
      assert rects[1..] == [];
    }
  }

  // Answers to a request for at most 16 Mi pixels, from a frame of at most 16 Mi pixels, have
  // at most 64 rectangles and at most 96 MiB; each rectangle has at most 64 MiB.
  lemma {:induction false} AnswerWithinBudgets(c: Client, f: Frame, io: Io, pic: Colours, asked: Rect)
    requires ClientOk(c) && TrySend(c, Some(f), io).update.Some?
    requires Arm(c).delivery.request.value.area == asked && asked.width > 0 && asked.height > 0
    requires asked.Area() <= Tool.MAX_PIXELS && Cells(f.width, f.height) <= Tool.MAX_PIXELS
    ensures var u := TrySend(c, Some(f), io).update.value;
            && WireAgreement.AllInside(u.rects, f.width, f.height)
            && |u.rects| + WireAgreement.One(u.resize) <= Tool.MAX_RECTS
            && |WireAgreement.UpdateBytes(CellsOf(pic, NATIVE), u.resize, f.width, f.height, u.rects)| <= Tool.MAX_UPDATE_BYTES
  {
    var u := TrySend(c, Some(f), io).update.value;
    UpdateIsInside(c, f, io);
    UpdateIsConfined(c, f, io, 0, 0);
    AnswerArea(c, f, io, asked);
    WireAgreement.NativeCells(pic);
    MessagesLength(CellsOf(pic, NATIVE), pic, u.rects, f.width, f.height);
    WireAgreement.UpdateParts(CellsOf(pic, NATIVE), u.resize, f.width, f.height, u.rects, []);
  }

  // ---- the mirrored picture --------------------------------------------------------------------------

  // The tool has the server's frame size, and shows every pixel it was last sent.
  ghost predicate Mirrors(t: Tool.Tool, c: Client) {
    && WireAgreement.Shows(t, c.fbWidth, c.fbHeight)
    && (forall x: nat, y: nat :: x < c.fbWidth && y < c.fbHeight && (x, y) in c.sent ==>
          t.frame.value.At(x, y) == c.sent[(x, y)])
  }

  // The bytes trySendUpdate queues for a viewer on the native format.
  function SentBytes(f: Frame, u: Update): Bytes
    requires WireAgreement.AllInside(u.rects, f.width, f.height)
  {
    WireAgreement.UpdateBytes(CellsOf(ColoursOf(f), NATIVE), u.resize, f.width, f.height, u.rects)
  }

  // One pixel of the tool after an update, whatever decided what is in it.
  lemma {:induction false} SentPixel(t: Tool.Tool, c: Client, f: Frame, u: Update, rest: Bytes, x: nat, y: nat)
    returns (after: Tool.Tool)
    requires t.phase == Tool.Streaming && Mirrors(t, c) && (u.resize <==> Resized(c, f))
    requires ServableSize(f.width, f.height) && Cells(f.width, f.height) <= Tool.MAX_PIXELS && x < f.width && y < f.height
    requires WireAgreement.AllInside(u.rects, f.width, f.height)
    requires u.rects == [] || Readable(f)
    requires |u.rects| + WireAgreement.One(u.resize) <= Tool.MAX_RECTS && |SentBytes(f, u)| <= Tool.MAX_UPDATE_BYTES
    ensures Tool.StepOf(t, SentBytes(f, u) + rest) == Message(|SentBytes(f, u)|, after)
    ensures WireAgreement.Shows(after, f.width, f.height) && after.phase == Tool.Streaming
    ensures var sent := Paint(if u.resize then imap[] else c.sent, f, u.rects);
            (x, y) in sent ==> after.frame.value.At(x, y) == sent[(x, y)]
  {
    after := WireAgreement.UpdateAgrees(ColoursOf(f), t, u.resize, f.width, f.height, u.rects, rest, x, y);
    PaintedPixel(if u.resize then imap[] else c.sent, f, u.rects, x, y);
  }

  lemma {:induction false} MirroredPixel(t: Tool.Tool, c: Client, f: Frame, io: Io, asked: Rect, rest: Bytes, x: nat, y: nat)
    returns (after: Tool.Tool)
    requires ClientOk(c) && TrySend(c, Some(f), io).update.Some? && t.phase == Tool.Streaming && Mirrors(t, c)
    requires Arm(c).delivery.request.value.area == asked && asked.width > 0 && asked.height > 0
    requires asked.Area() <= Tool.MAX_PIXELS && Cells(f.width, f.height) <= Tool.MAX_PIXELS
    requires x < f.width && y < f.height
    ensures WireAgreement.AllInside(TrySend(c, Some(f), io).update.value.rects, f.width, f.height)
    ensures var u := TrySend(c, Some(f), io).update.value;
            Tool.StepOf(t, SentBytes(f, u) + rest) == Message(|SentBytes(f, u)|, after)
    ensures WireAgreement.Shows(after, f.width, f.height) && after.phase == Tool.Streaming
    ensures var sent := TrySend(c, Some(f), io).client.sent;
            (x, y) in sent ==> after.frame.value.At(x, y) == sent[(x, y)]
  {
    AnswerWithinBudgets(c, f, io, ColoursOf(f), asked);
    SentIsAnswer(c, f, io);
    SentGeometry(c, f, io);
    after := SentPixel(t, c, f, TrySend(c, Some(f), io).update.value, rest, x, y);
  }

  // What an update says about the sizes on both ends.
  lemma {:induction false} SentGeometry(c: Client, f: Frame, io: Io)
    requires TrySend(c, Some(f), io).update.Some?
    ensures ServableSize(f.width, f.height)
    ensures TrySend(c, Some(f), io).update.value.resize <==> Resized(c, f)
  {
  }

  // The tool parses the update and again shows exactly what the server counts as sent,
  // whatever area of the tool's allowed size was asked for, an outdated one included.
  lemma {:induction false} UpdateKeepsMirror(t: Tool.Tool, c: Client, f: Frame, io: Io, asked: Rect, rest: Bytes)
    returns (after: Tool.Tool)
    requires ClientOk(c) && TrySend(c, Some(f), io).update.Some? && t.phase == Tool.Streaming && Mirrors(t, c)
    requires Arm(c).delivery.request.value.area == asked && asked.width > 0 && asked.height > 0
    requires asked.Area() <= Tool.MAX_PIXELS && Cells(f.width, f.height) <= Tool.MAX_PIXELS
    ensures WireAgreement.AllInside(TrySend(c, Some(f), io).update.value.rects, f.width, f.height)
    ensures var u := TrySend(c, Some(f), io).update.value;
            Tool.StepOf(t, SentBytes(f, u) + rest) == Message(|SentBytes(f, u)|, after)
    ensures Mirrors(after, TrySend(c, Some(f), io).client) && after.phase == Tool.Streaming
  {
    var out := TrySend(c, Some(f), io).client;
    SentGeometry(c, f, io);
    SentIsAnswer(c, f, io);
    after := MirroredPixel(t, c, f, io, asked, rest, 0, 0);
    forall x: nat, y: nat | x < f.width && y < f.height && (x, y) in out.sent
      ensures after.frame.value.At(x, y) == out.sent[(x, y)]
    {
      var again := MirroredPixel(t, c, f, io, asked, rest, x, y);
      assert again == after;
    }
  }

  // End to end: once a request for everything was answered from a readable frame, the tool's
  // picture is the presented frame, pixel for pixel.
  lemma {:induction false} ToolShowsFrame(t: Tool.Tool, c: Client, f: Frame, io: Io, rest: Bytes, x: nat, y: nat) returns (after: Tool.Tool)
    requires ClientOk(c) && Coherent(c, f) && TrySend(c, Some(f), io).update.Some? && Readable(f)
    requires t.phase == Tool.Streaming && Mirrors(t, c)
    requires Arm(c).delivery.request.value.area == FullRect(c.fbWidth, c.fbHeight) && !Resized(c, f)
    requires 0 < c.fbWidth && 0 < c.fbHeight && c.fbWidth * c.fbHeight <= Tool.MAX_PIXELS
    requires Cells(f.width, f.height) <= Tool.MAX_PIXELS && x < f.width && y < f.height
    ensures WireAgreement.AllInside(TrySend(c, Some(f), io).update.value.rects, f.width, f.height)
    ensures var u := TrySend(c, Some(f), io).update.value;
            Tool.StepOf(t, SentBytes(f, u) + rest) == Message(|SentBytes(f, u)|, after)
    ensures WireAgreement.Shows(after, f.width, f.height) && after.frame.value.At(x, y) == PixelAt(f, x, y)
  {
    after := MirroredPixel(t, c, f, io, FullRect(c.fbWidth, c.fbHeight), rest, x, y);
    WholeFrameAnswerConverges(c, f, io, x, y);
  }

  // Both ends start from the same size and an empty picture: after the server's ServerInit
  // for a viewer, the tool that read it mirrors that viewer and has asked for everything.
  lemma {:induction false} InitMirrors(t: Tool.Tool, c: Client, observed: Option<Frame>, bootstrap: (nat, nat), name: Bytes, rest: Bytes)
    returns (ready: Tool.Tool)
    requires t.phase == Tool.ServerInit && !t.waiting && |name| <= Tool.MAX_TEXT
    requires ServerInit(c, observed, bootstrap).phase == Normal && c.phase != Normal
    requires var out := ServerInit(c, observed, bootstrap); Cells(out.fbWidth, out.fbHeight) <= Tool.MAX_PIXELS
    ensures var out := ServerInit(c, observed, bootstrap);
            && Tool.StepOf(t, InitBytes(out.fbWidth, out.fbHeight, name) + rest)
               == Message(|InitBytes(out.fbWidth, out.fbHeight, name)|, ready)
            && Mirrors(ready, out) && ready.phase == Tool.Streaming && ready.waiting
            && ready.written == t.written + Tool.SetEncodingsBytes() + Tool.RequestBytes(false, out.fbWidth, out.fbHeight)
  {
    var out := ServerInit(c, observed, bootstrap);
    WireAgreement.ServerInitAgrees(t, out.fbWidth, out.fbHeight, name, rest);
    ready := t.(name := name, frame := Some(Tool.BlackImage(out.fbWidth, out.fbHeight)), phase := Tool.Streaming,
                waiting := true, written := t.written + Tool.SetEncodingsBytes()
                                            + Tool.RequestBytes(false, out.fbWidth, out.fbHeight));
  }
}
