// A frame the server captures reaches the tool's screen.
module ToolProgress {
  // ToolSession proves that the tool shows what the server counts as sent; ViewerService that a
  // viewer whose socket is ready is sent what it asked for.  Together: a frame arrives, the tool
  // reads, and shows it.

  import opened Option
  import opened RfbRegion
  import opened RfbUpdate
  import opened Frames
  import opened Wire
  import opened Chunking
  import opened ViewerCoherence
  import opened ViewerService
  import opened ToolSession
  import Tool = ToolClient
  import WireAgreement
  import ToolMirror
  import HeldInput

  // The tool has read everything the server queued.
  lemma {:induction false} ReadAll(l: Link, table: HeldInput.Table, releaseIdle: bool) returns (end: Link)
    requires LinkInv(l) && WithinBudget(l, ToolReads(|l.pipe|))
    ensures end == NextLink(l, table, releaseIdle, ToolReads(|l.pipe|)) && LinkInv(end)
    ensures end.pipe == [] && end.w == l.w && end.id == l.id
    ensures l.id in l.w.clients ==> ToolMirror.Mirrors(end.reader.state, l.w.clients[l.id])
  {
    end := NextLink(l, table, releaseIdle, ToolReads(|l.pipe|));
    EventKeepsInv(l, table, releaseIdle, ToolReads(|l.pipe|));
    assert end.reader.buffer + [] == end.reader.buffer;
  }

  // A pixel the server counts as sent from a frame is on the tool's screen.
  lemma {:induction false} CurrentIsShown(t: Tool.Tool, c: Client, f: Frame, x: nat, y: nat)
    requires ToolMirror.Mirrors(t, c) && Current(c, f, x, y) && InFrame(f, x, y) && Readable(f) && !Resized(c, f)
    ensures WireAgreement.Shows(t, f.width, f.height) && t.frame.value.At(x, y) == PixelAt(f, x, y)
  {
  }

  // A whole frame that finds the tool's viewer waiting for it and its socket ready is on the
  // tool's screen as soon as the tool has read it: every pixel of it, at its size.
  lemma {:induction false} FrameReachesTool(l: Link, table: HeldInput.Table, releaseIdle: bool, served: Frame, latest: (nat, nat),
                                            ios: map<nat, Io>, x: nat, y: nat) returns (mid: Link, end: Link)
    requires LinkInv(l) && FairStep(l.w, FrameArrives(served, latest, ios))
    requires l.id in l.w.clients && l.w.clients[l.id].phase == Normal
    requires IoOf(ios, l.id) == READY && Servable(l.w.clients[l.id], served) && InFrame(served, x, y)
    requires Wants(l.w.clients[l.id], x, y)
    ensures mid == NextLink(l, table, releaseIdle, Server(FrameArrives(served, latest, ios)))
    ensures WithinBudget(mid, ToolReads(|mid.pipe|)) ==>
              && end == NextLink(mid, table, releaseIdle, ToolReads(|mid.pipe|))
              && WireAgreement.Shows(end.reader.state, served.width, served.height)
              && end.reader.state.frame.value.At(x, y) == PixelAt(served, x, y)
  {
    var step := FrameArrives(served, latest, ios);
    mid := NextLink(l, table, releaseIdle, Server(step));
    end := mid;
    EventKeepsInv(l, table, releaseIdle, Server(step));
    FrameServes(l.w, releaseIdle, l.id, served, latest, ios, x, y);
    if WithinBudget(mid, ToolReads(|mid.pipe|)) {
      end := ReadAll(mid, table, releaseIdle);
      CurrentIsShown(end.reader.state, end.w.clients[end.id], served, x, y);
    }
  }
}
