// The delivery protocol of the RFB worker.
module ViewerCoherence {
  // RfbWorker in src/runtime/src/transport/rfb_transport.cpp, viewer by viewer.
  //
  // Frames are diffed, viewers ask for areas, get part of the pending damage, resize, switch
  // to continuous updates and stall.  Each viewer carries the RGB it was last sent for every
  // pixel.  A pixel is stale when that differs from the frame being served; coherence says
  // that every stale pixel is pending damage of that viewer, after any sequence of steps.

  import opened Option
  import opened RfbRegion
  import opened RfbUpdate
  import opened Frames
  import opened FrameDamage

  const MAX_U16: nat := 65535

  // Failed stands for a viewer with a protocol failure whose abort is still queued.
  datatype Phase = Handshake | AwaitInitialFrame | Normal | Failed

  datatype Client = Client(
    phase: Phase,
    desktopSize: bool,
    continuous: bool,
    continuousEnabled: bool,
    continuousArmed: bool,
    continuousRegion: Rect,
    delivery: Delivery,
    fbWidth: nat,
    fbHeight: nat,
    sent: imap<(int, int), Rgb>)

  // What the socket does during one attempt: idle means nothing left to write.
  datatype Io = Io(idle: bool, encodes: bool, writes: bool)

  datatype Update = Update(resize: bool, width: nat, height: nat, rects: seq<Rect>)

  datatype Outcome = Outcome(client: Client, update: Option<Update>)

  const NEW_CLIENT: Client :=
    Client(Handshake, false, false, false, false, NO_RECT, NEW_DELIVERY, 0, 0, imap[])

  ghost function Sent(c: Client, x: int, y: int): Option<Rgb> {
    if (x, y) in c.sent then Some(c.sent[(x, y)]) else None
  }

  // The viewer's picture after the pixels of the rectangles were written to its socket.
  ghost function Paint(sent: imap<(int, int), Rgb>, f: Frame, rects: seq<Rect>): imap<(int, int), Rgb> {
    imap p: (int, int) | p in sent || (Covers(rects, p.0, p.1) && Shown(f, p.0, p.1).Some?)
      :: if Covers(rects, p.0, p.1) && Shown(f, p.0, p.1).Some? then Shown(f, p.0, p.1).value else sent[p]
  }

  // A continuously enabled viewer keeps one outstanding incremental demand.
  function Arm(c: Client): Client {
    if !c.continuousEnabled || c.delivery.request.Some? then c
    else c.(delivery := Ask(c.delivery, true, c.continuousRegion), continuousArmed := true)
  }

  function ServableSize(width: nat, height: nat): bool {
    width != 0 && height != 0 && width <= MAX_U16 && height <= MAX_U16
  }

  // The rectangles of an update: clipped to the frame and, when armed, to the region.
  function Clipped(c: Client, eligible: seq<Rect>, width: nat, height: nat): seq<Rect> {
    var inFrame := Intersected(eligible, FullRect(width, height));
    if c.continuousEnabled && c.continuousArmed then Intersected(inFrame, c.continuousRegion) else inFrame
  }

  function Fail(c: Client): Client {
    c.(phase := Failed)
  }

  // The viewer after its update was queued: the request is spent, the picture painted.
  ghost function Answered(c: Client, d: Delivery, f: Frame, resized: bool, rects: seq<Rect>): Client {
    var base := if resized then imap[] else c.sent;
    Arm(c.(delivery := Commit(d, rects), continuousArmed := false,
           fbWidth := f.width, fbHeight := f.height, sent := Paint(base, f, rects)))
  }

  predicate Resized(c: Client, f: Frame) {
    f.width != c.fbWidth || f.height != c.fbHeight
  }

  // What an armed viewer is answered with, if its request selects anything.
  function Selection(c: Client, d: Delivery, f: Frame): Option<seq<Rect>> {
    var eligible := SelectEligible(d);
    if eligible.None? then None else Some(Clipped(c, eligible.value, f.width, f.height))
  }

  // Encoding and writing of one selected update.
  ghost function Deliver(c: Client, d: Delivery, selection: Option<seq<Rect>>, f: Frame, resized: bool, io: Io): Outcome {
    if selection.None? then Outcome(c.(delivery := d), None)
    else
      var rects := selection.value;
      if rects == [] && !resized then
        Outcome(c.(delivery := Cancel(d), continuousArmed := false), None)
      else if !io.encodes || (rects != [] && !Readable(f)) || !io.writes then
        Outcome(Fail(c.(delivery := d)), None)
      else
        Outcome(Answered(c, d, f, resized, rects), Some(Update(resized, f.width, f.height, rects)))
  }

  // The delivery state a send starts from: a resize makes the whole frame owed again.
  function Offer(c: Client, f: Frame): Delivery {
    if Resized(c, f) then InvalidateFull(c.delivery, f.width, f.height) else c.delivery
  }

  // trySendUpdate.
  ghost function TrySend(client: Client, frame: Option<Frame>, io: Io): Outcome {
    if client.phase != Normal then Outcome(client, None)
    else
      var c := Arm(client);
      if c.delivery.request.None? || !io.idle || frame.None? then Outcome(c, None)
      else
        var f := frame.value;
        if !ServableSize(f.width, f.height) || (Resized(c, f) && !c.desktopSize) then Outcome(Fail(c), None)
        else Deliver(c, Offer(c, f), Selection(c, Offer(c, f), f), f, Resized(c, f), io)
  }

  // ---- the worker -----------------------------------------------------------------------------------

  datatype World = World(observed: Option<Frame>, clients: map<nat, Client>, lastUnchanged: bool)

  const START: World := World(None, map[], false)

  datatype Step =
    | Connect(id: nat)
    | ClientInit(id: nat, bootstrap: Option<(nat, nat)>)
    | FrameArrives(served: Frame, latest: (nat, nat), ios: map<nat, Io>)
    | SetEncodings(id: nat, desktopSize: bool, continuous: bool)
    | RequestUpdate(id: nat, incremental: bool, area: Rect, io: Io)
    | EnableContinuous(id: nat, enable: bool, region: Rect, io: Io)
    | Drained(id: nat, io: Io)
    | ProtocolFailure(id: nat)
    | Disconnect(id: nat)
    | DecorationFails

  const STALLED: Io := Io(false, false, false)

  function IoOf(ios: map<nat, Io>, id: nat): Io {
    if id in ios then ios[id] else STALLED
  }

  // sendServerInit: the observed frame decides the size as soon as there is one.
  function ServerInit(c: Client, observed: Option<Frame>, bootstrap: (nat, nat)): Client {
    var (width, height) := if observed.Some? then (observed.value.width, observed.value.height) else bootstrap;
    if !ServableSize(width, height) then Fail(c)
    else c.(phase := Normal, fbWidth := width, fbHeight := height, sent := imap[],
            delivery := InvalidateFull(c.delivery, width, height))
  }

  predicate GeometryChanged(observed: Option<Frame>, served: Frame) {
    observed.None? || observed.value.width != served.width || observed.value.height != served.height
  }

  predicate HasNormal(clients: map<nat, Client>) {
    exists id :: id in clients && clients[id].phase == Normal
  }

  function DamageFor(w: World, served: Frame): Option<seq<Rect>> {
    if HasNormal(w.clients) && !GeometryChanged(w.observed, served)
    then Some(ChangedTiles(w.observed, served, w.lastUnchanged))
    else None
  }

  function Invalidated(c: Client, served: Frame, changed: bool, damage: Option<seq<Rect>>): Client {
    if changed then c.(delivery := InvalidateFull(c.delivery, served.width, served.height))
    else if damage.Some? then c.(delivery := Accumulate(c.delivery, damage.value))
    else c
  }

  ghost function FrameToClient(c: Client, w: World, served: Frame, bootstrap: (nat, nat), io: Io): Client {
    var ready := if c.phase == AwaitInitialFrame then ServerInit(c, w.observed, bootstrap) else c;
    if ready.phase != Normal then ready
    else
      var owed := Invalidated(ready, served, GeometryChanged(w.observed, served), DamageFor(w, served));
      TrySend(owed, Some(served), io).client
  }

  // releaseIdle is the producer-backed option that drops raw pixels at zero viewers.
  ghost function OnFrame(w: World, releaseIdle: bool, served: Frame, latest: (nat, nat), ios: map<nat, Io>): World {
    if w.clients == map[] && releaseIdle then World(None, w.clients, false)
    else
      var damage := DamageFor(w, served);
      World(Some(served),
            map id | id in w.clients :: FrameToClient(w.clients[id], w, served, latest, IoOf(ios, id)),
            damage.Some? && damage.value == [])
  }

  function EncodingsSet(c: Client, desktopSize: bool, continuous: bool): Client {
    var next := c.(desktopSize := desktopSize, continuous := continuous);
    if c.continuous && !continuous then
      next.(continuousEnabled := false, continuousArmed := false,
            delivery := if c.continuousArmed then Cancel(c.delivery) else c.delivery)
    else next
  }

  ghost function ContinuousSet(c: Client, enable: bool, region: Rect, observed: Option<Frame>, io: Io): Client {
    if !c.continuous || (enable && region.Empty()) then Fail(c)
    else
      var outstanding := c.delivery.request.Some? && c.delivery.request.value.incremental;
      var d := if c.continuousArmed || (enable && outstanding) then Cancel(c.delivery) else c.delivery;
      var next := c.(delivery := d, continuousArmed := false, continuousEnabled := enable);
      if enable then TrySend(Arm(next.(continuousRegion := region)), observed, io).client else next
  }

  ghost function Requested(c: Client, incremental: bool, area: Rect, observed: Option<Frame>, io: Io): Client {
    if c.continuousEnabled && incremental then c
    else TrySend(c.(continuousArmed := false, delivery := Ask(c.delivery, incremental, area)), observed, io).client
  }

  // One step of one viewer; messages are only processed in the Normal phase.
  ghost function ClientStep(c: Client, step: Step, observed: Option<Frame>): Client {
    match step
    case ClientInit(_, bootstrap) =>
      if c.phase != Handshake then c
      else if observed.Some? then ServerInit(c, observed, (0, 0))
      else if bootstrap.Some? then ServerInit(c, observed, bootstrap.value)
      else c.(phase := AwaitInitialFrame)
    case SetEncodings(_, desktopSize, continuous) =>
      if c.phase == Normal then EncodingsSet(c, desktopSize, continuous) else c
    case RequestUpdate(_, incremental, area, io) =>
      if c.phase == Normal then Requested(c, incremental, area, observed, io) else c
    case EnableContinuous(_, enable, region, io) =>
      if c.phase == Normal then ContinuousSet(c, enable, region, observed, io) else c
    case Drained(_, io) => TrySend(c, observed, io).client
    case ProtocolFailure(_) => Fail(c)
    case _ => c
  }

  ghost function Next(w: World, releaseIdle: bool, step: Step): World {
    match step
    case Connect(id) =>
      if id in w.clients then w else w.(clients := w.clients[id := NEW_CLIENT])
    case FrameArrives(served, latest, ios) => OnFrame(w, releaseIdle, served, latest, ios)
    case Disconnect(id) =>
      var left := w.clients - {id};
      if id in w.clients && left == map[] && releaseIdle then World(None, left, false) else w.(clients := left)
    case DecorationFails => START
    case _ =>
      if step.id in w.clients
      then w.(clients := w.clients[step.id := ClientStep(w.clients[step.id], step, w.observed)])
      else w
  }

  // ---- the invariant -------------------------------------------------------------------------------------

  ghost predicate ClientOk(c: Client) {
    Bounded(c.delivery.pending) && ArmedOk(c)
  }

  // An armed viewer has exactly the synthetic request for its continuous region.
  ghost predicate ArmedOk(c: Client) {
    c.continuousArmed ==>
      c.continuousEnabled && c.delivery.request == Some(Request(true, c.continuousRegion))
  }

  ghost predicate Stale(c: Client, f: Frame, x: int, y: int) {
    InFrame(f, x, y) && Sent(c, x, y) != Shown(f, x, y)
  }

  // Every pixel the viewer has wrong is damage it is still owed.
  ghost predicate Coherent(c: Client, f: Frame) {
    && (forall x, y :: Stale(c, f, x, y) ==> Covers(c.delivery.pending, x, y))
    && (c.delivery.forced.Some? ==> c.delivery.forced.value == FullRect(f.width, f.height))
  }

  ghost predicate Inv(w: World) {
    forall id :: id in w.clients ==>
      && ClientOk(w.clients[id])
      && (w.clients[id].phase == Normal && w.observed.Some? ==> Coherent(w.clients[id], w.observed.value))
  }

  // ---- sending -------------------------------------------------------------------------------------------

  lemma {:induction false} ClippedIsExact(c: Client, eligible: seq<Rect>, width: nat, height: nat, px: int, py: int)
    requires Bounded(eligible)
    ensures var rects := Clipped(c, eligible, width, height);
            && Bounded(rects) && |rects| <= |eligible|
            && CoveredArea(rects) <= CoveredArea(eligible)
            && (Covers(rects, px, py) <==>
                  && Covers(eligible, px, py)
                  && FullRect(width, height).Has(px, py)
                  && (c.continuousEnabled && c.continuousArmed ==> c.continuousRegion.Has(px, py)))
  {
    var bounds := FullRect(width, height);
    IntersectedIsExact(eligible, bounds, px, py);
    IntersectedArea(eligible, bounds);
    IntersectedIsExact(Intersected(eligible, bounds), c.continuousRegion, px, py);
    IntersectedArea(Intersected(eligible, bounds), c.continuousRegion);
  }

  lemma {:induction false} PaintedPixel(sent: imap<(int, int), Rgb>, f: Frame, rects: seq<Rect>, x: int, y: int)
    ensures var p := Paint(sent, f, rects);
            && (Covers(rects, x, y) && Shown(f, x, y).Some? ==> (x, y) in p && Some(p[(x, y)]) == Shown(f, x, y))
            && (!Covers(rects, x, y) ==>
                  ((x, y) in p <==> (x, y) in sent) && ((x, y) in sent ==> p[(x, y)] == sent[(x, y)]))
  {
  }

  function Offered(c: Client, f: Frame): Delivery {
    Offer(Arm(c), f)
  }

  lemma {:induction false} OfferedFacts(c: Client, f: Frame, px: int, py: int)
    requires ClientOk(c)
    ensures ClientOk(Arm(c)) && Bounded(Offered(c, f).pending)
    ensures InFrame(f, px, py) && Covers(c.delivery.pending, px, py) ==> Covers(Offered(c, f).pending, px, py)
    ensures Resized(c, f) && InFrame(f, px, py) ==> Covers(Offered(c, f).pending, px, py)
    ensures Offered(c, f).request == Arm(c).delivery.request
    ensures Offered(c, f).forced == if Resized(c, f) then Some(FullRect(f.width, f.height)) else c.delivery.forced
  {
    InvalidateCovers(Arm(c).delivery, f.width, f.height, px, py);
  }

  // A sent update stays inside the request, the frame and an armed continuous region, and
  // has at most 64 rectangles, the DesktopSize pseudo-rectangle included.
  lemma {:induction false} UpdateIsConfined(c: Client, f: Frame, io: Io, px: int, py: int)
    requires ClientOk(c) && TrySend(c, Some(f), io).update.Some?
    ensures var u := TrySend(c, Some(f), io).update.value;
            && Arm(c).delivery.request.Some?
            && (Covers(u.rects, px, py) ==>
                  && Arm(c).delivery.request.value.area.Has(px, py)
                  && InFrame(f, px, py)
                  && (Arm(c).continuousArmed ==> Arm(c).continuousRegion.Has(px, py)))
            && Bounded(u.rects)
            && |u.rects| + (if u.resize then 1 else 0) <= MAX_DAMAGE_RECTS
  {
    OfferedFacts(c, f, px, py);
    var d := Offered(c, f);
    SelectConfined(d, px, py);
    ClippedIsExact(Arm(c), SelectEligible(d).value, f.width, f.height, px, py);
  }

  // One attempt to send, whatever it does, keeps a viewer coherent with the served frame.
  lemma {:induction false} SendKeepsCoherence(c: Client, f: Frame, io: Io)
    requires ClientOk(c) && Coherent(c, f)
    ensures ClientOk(TrySend(c, Some(f), io).client)
    ensures TrySend(c, Some(f), io).client.phase == Normal ==> Coherent(TrySend(c, Some(f), io).client, f)
  {
    var out := TrySend(c, Some(f), io);
    var d := Offered(c, f);
    forall x, y
      ensures ClientOk(out.client)
      ensures out.client.phase == Normal && Stale(out.client, f, x, y) ==> Covers(out.client.delivery.pending, x, y)
    {
      SendKeepsPixel(c, f, io, x, y);
    }
    SendKeepsPixel(c, f, io, 0, 0);
  }

  lemma {:induction false} AnsweredKeepsPixel(c: Client, d: Delivery, f: Frame, resized: bool, rects: seq<Rect>, x: int, y: int)
    requires Bounded(d.pending) && d.request.Some?
    requires InFrame(f, x, y) ==>
      Covers(d.pending, x, y) || (!resized && Sent(c, x, y) == Shown(f, x, y)) || Covers(rects, x, y)
    requires rects == [] || Readable(f)
    ensures var out := Answered(c, d, f, resized, rects);
            ClientOk(out) && out.delivery.forced.None?
            && (Stale(out, f, x, y) ==> Covers(out.delivery.pending, x, y))
  {
    CommitCovers(d, rects, x, y);
    PaintedPixel(if resized then imap[] else c.sent, f, rects, x, y);
  }

  // An attempt that sends nothing only arms, cancels, fails, or records a resize.
  lemma {:induction false} UnsentKeepsDebt(c: Client, f: Frame, io: Io)
    requires ArmedOk(c) && TrySend(c, Some(f), io).update.None?
    ensures var out := TrySend(c, Some(f), io).client;
            && out.sent == c.sent && ArmedOk(out)
            && (|| (out.delivery.pending == c.delivery.pending && out.delivery.forced == c.delivery.forced)
                || (out.delivery.pending == Offered(c, f).pending && out.delivery.forced == Offered(c, f).forced))
  {
    var out := TrySend(c, Some(f), io).client;
    if out != c && out != Arm(c) && out != Fail(Arm(c)) {
      UndeliveredKeepsDebt(Arm(c), Offered(c, f), Selection(Arm(c), Offered(c, f), f), f, Resized(c, f), io);
    }
  }

  lemma {:induction false} UndeliveredKeepsDebt(c: Client, d: Delivery, selection: Option<seq<Rect>>, f: Frame, resized: bool, io: Io)
    requires ArmedOk(c) && d.request == c.delivery.request
    requires Deliver(c, d, selection, f, resized, io).update.None?
    ensures var out := Deliver(c, d, selection, f, resized, io).client;
            && out.sent == c.sent && ArmedOk(out)
            && out.delivery.pending == d.pending && out.delivery.forced == d.forced
  {
  }

  lemma {:induction false} SentIsAnswer(c: Client, f: Frame, io: Io)
    requires TrySend(c, Some(f), io).update.Some?
    ensures var out := TrySend(c, Some(f), io);
            var u := out.update.value;
            && out.client == Answered(Arm(c), Offered(c, f), f, u.resize, u.rects)
            && (u.resize <==> Resized(c, f))
            && Offered(c, f).request.Some? && SelectEligible(Offered(c, f)).Some?
            && u.rects == Clipped(Arm(c), SelectEligible(Offered(c, f)).value, f.width, f.height)
            && (u.rects == [] || Readable(f))
  {
  }

  lemma {:induction false} SendKeepsPixel(c: Client, f: Frame, io: Io, x: int, y: int)
    requires ClientOk(c) && Coherent(c, f)
    ensures var out := TrySend(c, Some(f), io).client;
            && ClientOk(out)
            && (out.phase == Normal && Stale(out, f, x, y) ==> Covers(out.delivery.pending, x, y))
            && (out.phase == Normal && out.delivery.forced.Some? ==> out.delivery.forced.value == FullRect(f.width, f.height))
  {
    var out := TrySend(c, Some(f), io);
    OfferedFacts(c, f, x, y);
    if out.update.Some? {
      SentIsAnswer(c, f, io);
      AnsweredKeepsPixel(Arm(c), Offered(c, f), f, out.update.value.resize, out.update.value.rects, x, y);
    } else {
      UnsentKeepsDebt(c, f, io);
      assert Stale(out.client, f, x, y) ==> Stale(c, f, x, y);
    }
  }

  // ---- frames --------------------------------------------------------------------------------------------

  lemma {:induction false} ServerInitOk(c: Client, observed: Option<Frame>, bootstrap: (nat, nat))
    requires ClientOk(c)
    ensures var out := ServerInit(c, observed, bootstrap);
            && ClientOk(out)
            && (out.phase == Normal && observed.Some? ==> Coherent(out, observed.value))
  {
    var out := ServerInit(c, observed, bootstrap);
    InvalidateCovers(c.delivery, out.fbWidth, out.fbHeight, 0, 0);
    if out.phase == Normal && observed.Some? {
      var f := observed.value;
      forall x, y | Stale(out, f, x, y)
        ensures Covers(out.delivery.pending, x, y)
      {
        InvalidateCovers(c.delivery, f.width, f.height, x, y);
      }
    }
  }

  // Accounting for a new frame makes the viewer coherent with that frame.
  lemma {:induction false} InvalidatedIsCoherent(c: Client, w: World, served: Frame)
    requires ClientOk(c) && c.phase == Normal
    requires w.observed.Some? ==> Coherent(c, w.observed.value)
    requires HonestHint(w.observed, served)
    requires DamageFor(w, served).None? && !GeometryChanged(w.observed, served) ==>
               forall x, y :: InFrame(served, x, y) ==> Covers(c.delivery.pending, x, y)
    ensures var owed := Invalidated(c, served, GeometryChanged(w.observed, served), DamageFor(w, served));
            ClientOk(owed) && Coherent(owed, served)
  {
    var changed := GeometryChanged(w.observed, served);
    var damage := DamageFor(w, served);
    var owed := Invalidated(c, served, changed, damage);
    forall x, y
      ensures Bounded(owed.delivery.pending)
      ensures Stale(owed, served, x, y) ==> Covers(owed.delivery.pending, x, y)
    {
      InvalidateCovers(c.delivery, served.width, served.height, x, y);
      if !changed && damage.Some? {
        DamageIsSound(w.observed, served, w.lastUnchanged, x, y);
        AddAllCovers(c.delivery.pending, damage.value, x, y);
        assert Stale(c, served, x, y) ==> Stale(c, w.observed.value, x, y) || Covers(damage.value, x, y);
      }
    }
    assert Bounded(owed.delivery.pending) by {
      assert Stale(owed, served, 0, 0) ==> Covers(owed.delivery.pending, 0, 0);
    }
  }

  ghost predicate HonestHint(observed: Option<Frame>, served: Frame) {
    observed.Some? && HintTrusted(observed.value, served) ==> HonestDelta(observed.value, served)
  }

  lemma {:induction false} FrameKeepsCoherence(c: Client, w: World, id: nat, served: Frame, bootstrap: (nat, nat), io: Io)
    requires Inv(w) && id in w.clients && c == w.clients[id]
    requires HonestHint(w.observed, served)
    ensures var out := FrameToClient(c, w, served, bootstrap, io);
            ClientOk(out) && (out.phase == Normal ==> Coherent(out, served))
  {
    var ready := if c.phase == AwaitInitialFrame then ServerInit(c, w.observed, bootstrap) else c;
    ServerInitOk(c, w.observed, bootstrap);
    if ready.phase == Normal {
      if DamageFor(w, served).None? && !GeometryChanged(w.observed, served) {
        assert c.phase != Normal;
        forall x, y | InFrame(served, x, y)
          ensures Covers(ready.delivery.pending, x, y)
        {
          InvalidateCovers(c.delivery, served.width, served.height, x, y);
        }
      }
      InvalidatedIsCoherent(ready, w, served);
      SendKeepsCoherence(Invalidated(ready, served, GeometryChanged(w.observed, served), DamageFor(w, served)), served, io);
    }
  }

  // ---- every step, every run ----------------------------------------------------------------------------

  lemma {:induction false} SendKeepsOk(c: Client, observed: Option<Frame>, io: Io)
    requires ClientOk(c)
    requires c.phase == Normal && observed.Some? ==> Coherent(c, observed.value)
    ensures var out := TrySend(c, observed, io).client;
            ClientOk(out) && (out.phase == Normal && observed.Some? ==> Coherent(out, observed.value))
  {
    if c.phase == Normal && observed.Some? {
      SendKeepsCoherence(c, observed.value, io);
    }
  }

  // What a step of a viewer has to keep.
  ghost predicate Kept(c: Client, observed: Option<Frame>) {
    ClientOk(c) && (c.phase == Normal && observed.Some? ==> Coherent(c, observed.value))
  }

  lemma {:induction false} RequestKeepsInv(c: Client, incremental: bool, area: Rect, observed: Option<Frame>, io: Io)
    requires Kept(c, observed) && c.phase == Normal
    ensures Kept(Requested(c, incremental, area, observed, io), observed)
  {
    var asked := c.(continuousArmed := false, delivery := Ask(c.delivery, incremental, area));
    SendKeepsOk(asked, observed, io);
  }

  lemma {:induction false} ContinuousKeepsInv(c: Client, enable: bool, region: Rect, observed: Option<Frame>, io: Io)
    requires Kept(c, observed) && c.phase == Normal
    ensures Kept(ContinuousSet(c, enable, region, observed, io), observed)
  {
    var outstanding := c.delivery.request.Some? && c.delivery.request.value.incremental;
    var d := if c.continuousArmed || (enable && outstanding) then Cancel(c.delivery) else c.delivery;
    var next := c.(delivery := d, continuousArmed := false, continuousEnabled := enable);
    SendKeepsOk(Arm(next.(continuousRegion := region)), observed, io);
  }

  lemma {:induction false} ClientStepKeepsInv(c: Client, step: Step, observed: Option<Frame>)
    requires Kept(c, observed)
    ensures Kept(ClientStep(c, step, observed), observed)
  {
    match step
    case ClientInit(_, bootstrap) =>
      ServerInitOk(c, observed, (0, 0));
      if bootstrap.Some? { ServerInitOk(c, observed, bootstrap.value); }
    case SetEncodings(_, desktopSize, continuous) =>
    case RequestUpdate(_, incremental, area, io) =>
      if c.phase == Normal { RequestKeepsInv(c, incremental, area, observed, io); }
    case EnableContinuous(_, enable, region, io) =>
      if c.phase == Normal { ContinuousKeepsInv(c, enable, region, observed, io); }
    case Drained(_, io) => SendKeepsOk(c, observed, io);
    case _ =>
  }

  // The one assumption about frames: a hint that is trusted is honest.
  ghost predicate HonestStep(w: World, step: Step) {
    step.FrameArrives? ==> HonestHint(w.observed, step.served)
  }

  lemma {:induction false} StepKeepsInv(w: World, releaseIdle: bool, step: Step)
    requires Inv(w) && HonestStep(w, step)
    ensures Inv(Next(w, releaseIdle, step))
  {
    match step
    case FrameArrives(served, latest, ios) =>
      forall id | id in w.clients
        ensures var out := FrameToClient(w.clients[id], w, served, latest, IoOf(ios, id));
                ClientOk(out) && (out.phase == Normal ==> Coherent(out, served))
      {
        FrameKeepsCoherence(w.clients[id], w, id, served, latest, IoOf(ios, id));
      }
    case Connect(_) =>
    case Disconnect(_) =>
    case DecorationFails =>
    case _ =>
      if step.id in w.clients {
        ClientStepKeepsInv(w.clients[step.id], step, w.observed);
      }
  }

  ghost function Run(w: World, releaseIdle: bool, steps: seq<Step>): World
    decreases |steps|
  {
    if steps == [] then w else Run(Next(w, releaseIdle, steps[0]), releaseIdle, steps[1..])
  }

  ghost predicate HonestRun(w: World, releaseIdle: bool, steps: seq<Step>)
    decreases |steps|
  {
    steps == [] || (HonestStep(w, steps[0]) && HonestRun(Next(w, releaseIdle, steps[0]), releaseIdle, steps[1..]))
  }

  lemma {:induction false} RunKeepsInv(w: World, releaseIdle: bool, steps: seq<Step>)
    requires Inv(w) && HonestRun(w, releaseIdle, steps)
    ensures Inv(Run(w, releaseIdle, steps))
    decreases |steps|
  {
    if steps != [] {
      StepKeepsInv(w, releaseIdle, steps[0]);
      RunKeepsInv(Next(w, releaseIdle, steps[0]), releaseIdle, steps[1..]);
    }
  }

  // Frames reach the worker in id order, with any of them missing, and the latest one again
  // when a second notification finds it still in place; a decorator, if there is one,
  // replaces every hint by FullFrame.
  ghost predicate ServedFrom(accepted: seq<Frame>, decorated: bool, last: nat, steps: seq<Step>)
    decreases |steps|
  {
    steps == []
    || (if !steps[0].FrameArrives? then ServedFrom(accepted, decorated, last, steps[1..])
        else
          var served := steps[0].served;
          && 1 <= served.id && last <= served.id <= |accepted|
          && (if decorated then served.damage == FullFrame else served == accepted[served.id - 1])
          && ServedFrom(accepted, decorated, served.id, steps[1..]))
  }

  lemma {:induction false} ServedRunIsHonest(accepted: seq<Frame>, decorated: bool, last: nat, w: World,
                                             releaseIdle: bool, steps: seq<Step>)
    requires AcceptedStream(accepted) && ServedFrom(accepted, decorated, last, steps)
    requires w.observed.Some? && !decorated ==>
               0 < w.observed.value.id <= last && last <= |accepted| && w.observed.value == accepted[w.observed.value.id - 1]
    ensures HonestRun(w, releaseIdle, steps)
    decreases |steps|
  {
    if steps != [] {
      var next := Next(w, releaseIdle, steps[0]);
      if steps[0].FrameArrives? {
        var served := steps[0].served;
        if w.observed.Some? && HintTrusted(w.observed.value, served) {
          assert HonestDelta(accepted[served.id - 2], accepted[served.id - 1]);
        }
        ServedRunIsHonest(accepted, decorated, served.id, next, releaseIdle, steps[1..]);
      } else {
        ServedRunIsHonest(accepted, decorated, last, next, releaseIdle, steps[1..]);
      }
    }
  }

  // Coherence over every run of the worker on every accepted stream: whatever frames were
  // dropped and however viewers behaved, a stale pixel of a Normal viewer is pending.
  lemma {:induction false} EveryRunIsCoherent(accepted: seq<Frame>, decorated: bool, releaseIdle: bool, steps: seq<Step>,
                           id: nat, x: int, y: int)
    requires AcceptedStream(accepted) && ServedFrom(accepted, decorated, 0, steps)
    ensures var w := Run(START, releaseIdle, steps);
            id in w.clients && w.clients[id].phase == Normal && w.observed.Some?
            && Stale(w.clients[id], w.observed.value, x, y)
            ==> Covers(w.clients[id].delivery.pending, x, y)
  {
    ServedRunIsHonest(accepted, decorated, 0, START, releaseIdle, steps);
    RunKeepsInv(START, releaseIdle, steps);
  }

  // ---- answers repair pictures -----------------------------------------------------------------------------

  // An idle viewer with an outstanding request gets every stale pixel of the requested area.
  lemma {:induction false} AnswerRepairs(c: Client, f: Frame, x: int, y: int)
    requires c.phase == Normal && ClientOk(c) && Coherent(c, f)
    requires ServableSize(f.width, f.height) && Readable(f)
    requires c.desktopSize || !Resized(c, f)
    requires Arm(c).delivery.request.Some? && Arm(c).delivery.request.value.area.Has(x, y)
    requires Stale(c, f, x, y)
    ensures var out := TrySend(c, Some(f), Io(true, true, true));
            && out.update.Some? && Covers(out.update.value.rects, x, y)
            && !Stale(out.client, f, x, y)
  {
    OfferedFacts(c, f, x, y);
    var d := Offered(c, f);
    SelectCovers(d, x, y);
    SelectConfined(d, x, y);
    ClippedIsExact(Arm(c), SelectEligible(d).value, f.width, f.height, x, y);
    var rects := Clipped(Arm(c), SelectEligible(d).value, f.width, f.height);
    AnswerIsSent(c, f, rects);
    PaintedPixel(c.sent, f, rects, x, y);
    PaintedPixel(imap[], f, rects, x, y);
  }

  // An idle viewer whose socket takes everything is sent what its request selects.
  lemma {:induction false} AnswerIsSent(c: Client, f: Frame, rects: seq<Rect>)
    requires c.phase == Normal && ServableSize(f.width, f.height) && Readable(f) && (c.desktopSize || !Resized(c, f))
    requires Arm(c).delivery.request.Some? && SelectEligible(Offered(c, f)).Some? && rects != []
    requires rects == Clipped(Arm(c), SelectEligible(Offered(c, f)).value, f.width, f.height)
    ensures TrySend(c, Some(f), Io(true, true, true))
            == Outcome(Answered(Arm(c), Offered(c, f), f, Resized(c, f), rects),
                       Some(Update(Resized(c, f), f.width, f.height, rects)))
  {
  }

  // After an update answering a request for the whole frame, the viewer shows the frame.
  lemma {:induction false} WholeFrameAnswerConverges(c: Client, f: Frame, io: Io, x: int, y: int)
    requires ClientOk(c) && Coherent(c, f)
    requires TrySend(c, Some(f), io).update.Some?
    requires Readable(f)
    requires InFrame(f, x, y) && Arm(c).delivery.request.value.area.Has(x, y)
    ensures Sent(TrySend(c, Some(f), io).client, x, y) == Shown(f, x, y)
  {
    var rects := TrySend(c, Some(f), io).update.value.rects;
    SentCoversDebt(c, f, io, x, y);
    SentIsAnswer(c, f, io);
    PaintedPixel(c.sent, f, rects, x, y);
    PaintedPixel(imap[], f, rects, x, y);
    if !Covers(rects, x, y) { assert !Stale(c, f, x, y); }
  }

  // What an update leaves out of its requested area was not owed.
  lemma {:induction false} SentCoversDebt(c: Client, f: Frame, io: Io, x: int, y: int)
    requires ClientOk(c) && TrySend(c, Some(f), io).update.Some?
    requires c.delivery.forced.Some? ==> c.delivery.forced.value == FullRect(f.width, f.height)
    requires InFrame(f, x, y) && Arm(c).delivery.request.value.area.Has(x, y)
    ensures Covers(TrySend(c, Some(f), io).update.value.rects, x, y) || (!Resized(c, f) && !Covers(c.delivery.pending, x, y))
  {
    OfferedFacts(c, f, x, y);
    SentIsAnswer(c, f, io);
    var d := Offered(c, f);
    SelectConfined(d, x, y);
    ClippedIsExact(Arm(c), SelectEligible(d).value, f.width, f.height, x, y);
    if Covers(d.pending, x, y) || !d.request.value.incremental { SelectCovers(d, x, y); }
  }

  // Clearing a forced refresh is safe although only part of it may have been sent: what was
  // not sent stays pending, so a small first request does not lose the rest of a resize.
  lemma {:induction false} PartialRefreshKeepsRest(c: Client, f: Frame, io: Io, x: int, y: int)
    requires ClientOk(c) && c.delivery.forced == Some(FullRect(f.width, f.height))
    requires TrySend(c, Some(f), io).update.Some? && InFrame(f, x, y)
    requires Covers(c.delivery.pending, x, y)
    ensures var out := TrySend(c, Some(f), io);
            out.client.delivery.forced == None
            && (Covers(out.update.value.rects, x, y) || Covers(out.client.delivery.pending, x, y))
  {
    OfferedFacts(c, f, x, y);
    UpdateIsConfined(c, f, io, x, y);
    CommitCovers(Offered(c, f), TrySend(c, Some(f), io).update.value.rects, x, y);
  }
}
