// What the worker does for a viewer that waits: requests are answered and continuous viewers
// are kept up to date.
module ViewerService {
  // The other half of ViewerCoherence: there, no stale pixel is forgotten; here, a viewer whose
  // socket is idle is sent what it wants, at every occasion on which the worker tries.

  import opened Option
  import opened RfbRegion
  import opened RfbUpdate
  import opened Frames
  import opened FrameDamage
  import opened ViewerCoherence

  // A socket that has nothing left to write and takes what is written.
  const READY: Io := Io(true, true, true)

  // The viewer waits for this pixel: it asked for an area, or, without a request of its own,
  // enabled continuous updates of one.
  predicate Wants(c: Client, x: int, y: int) {
    if c.delivery.request.Some? then c.delivery.request.value.area.Has(x, y)
    else c.continuousEnabled && c.continuousRegion.Has(x, y)
  }

  // Its request is for the whole area, changed or not.
  predicate WantsAll(c: Client) {
    c.delivery.request.Some? && !c.delivery.request.value.incremental
  }

  predicate Servable(c: Client, f: Frame) {
    ServableSize(f.width, f.height) && Readable(f) && (c.desktopSize || !Resized(c, f))
  }

  // The viewer shows the frame at a pixel.
  ghost predicate Current(c: Client, f: Frame, x: int, y: int) {
    c.phase == Normal && Sent(c, x, y) == Shown(f, x, y)
  }

  // What a viewer waits for is what it asks for when it is tried.
  lemma {:induction false} WantedIsAsked(c: Client, x: int, y: int)
    requires Wants(c, x, y)
    ensures Arm(c).delivery.request.Some? && Arm(c).delivery.request.value.area.Has(x, y)
  {
  }

  // An update of a readable frame that encodes and can be written fails nobody.
  lemma {:induction false} ReadyDelivers(c: Client, d: Delivery, selection: Option<seq<Rect>>, f: Frame, resized: bool)
    requires c.phase == Normal && Readable(f)
    ensures Deliver(c, d, selection, f, resized, READY).client.phase == Normal
    ensures Deliver(c, d, selection, f, resized, READY).update.None? ==>
              Deliver(c, d, selection, f, resized, READY).client.sent == c.sent
  {
  }

  lemma {:induction false} ReadyStaysNormal(c: Client, f: Frame)
    requires c.phase == Normal && Servable(c, f)
    ensures TrySend(c, Some(f), READY).client.phase == Normal
    ensures TrySend(c, Some(f), READY).update.None? ==>
              TrySend(c, Some(f), READY).client.sent == c.sent
  {
    var armed := Arm(c);
    ReadyDelivers(armed, Offer(armed, f), Selection(armed, Offer(armed, f), f), f, Resized(armed, f));
  }

  // A viewer that waits for a pixel is sent it if it is stale, if it asked for everything, or if
  // the size changed; afterwards it has the frame's size and shows the frame there.
  lemma {:induction false} WaitingIsServed(c: Client, f: Frame, x: int, y: int)
    requires c.phase == Normal && ClientOk(c) && Coherent(c, f) && Servable(c, f)
    requires Wants(c, x, y) && InFrame(f, x, y)
    ensures var out := TrySend(c, Some(f), READY);
            && Current(out.client, f, x, y) && !Resized(out.client, f)
            && (Stale(c, f, x, y) || WantsAll(c) || Resized(c, f) ==>
                  out.update.Some? && Covers(out.update.value.rects, x, y))
  {
    WantedIsAsked(c, x, y);
    ReadyStaysNormal(c, f);
    if Stale(c, f, x, y) {
      AnswerRepairs(c, f, x, y);
    } else if WantsAll(c) || Resized(c, f) {
      AllIsSent(c, f, x, y);
    }
    if TrySend(c, Some(f), READY).update.Some? { WholeFrameAnswerConverges(c, f, READY, x, y); }
    SizeIsTaken(c, f);
  }

  lemma {:induction false} SizeIsTaken(c: Client, f: Frame)
    requires c.phase == Normal
    ensures var out := TrySend(c, Some(f), READY);
            && (out.update.Some? ==> !Resized(out.client, f))
            && (out.update.None? ==> out.client.fbWidth == c.fbWidth && out.client.fbHeight == c.fbHeight)
  {
    if TrySend(c, Some(f), READY).update.Some? { SentIsAnswer(c, f, READY); }
  }

  lemma {:induction false} AllIsSent(c: Client, f: Frame, x: int, y: int)
    requires c.phase == Normal && ClientOk(c) && Coherent(c, f) && Servable(c, f)
    requires Wants(c, x, y) && InFrame(f, x, y) && (WantsAll(c) || Resized(c, f))
    ensures var out := TrySend(c, Some(f), READY);
            out.update.Some? && Covers(out.update.value.rects, x, y)
  {
    WantedIsAsked(c, x, y);
    OfferedFacts(c, f, x, y);
    var d := Offered(c, f);
    SelectCovers(d, x, y);
    SelectConfined(d, x, y);
    ClippedIsExact(Arm(c), SelectEligible(d).value, f.width, f.height, x, y);
    AnswerIsSent(c, f, Clipped(Arm(c), SelectEligible(d).value, f.width, f.height));
  }

  // ---- the occasions ---------------------------------------------------------------------------------

  // The socket has drained.
  lemma {:induction false} DrainServes(w: World, releaseIdle: bool, id: nat, x: int, y: int)
    requires Inv(w) && id in w.clients && w.clients[id].phase == Normal && w.observed.Some?
    requires Servable(w.clients[id], w.observed.value) && Wants(w.clients[id], x, y) && InFrame(w.observed.value, x, y)
    ensures Current(Next(w, releaseIdle, Drained(id, READY)).clients[id], w.observed.value, x, y)
  {
    WaitingIsServed(w.clients[id], w.observed.value, x, y);
  }

  // A frame arrives.
  lemma {:induction false} FrameServes(w: World, releaseIdle: bool, id: nat, served: Frame, latest: (nat, nat),
                                       ios: map<nat, Io>, x: int, y: int)
    requires Inv(w) && HonestStep(w, FrameArrives(served, latest, ios)) && id in w.clients && w.clients[id].phase == Normal
    requires IoOf(ios, id) == READY && Servable(w.clients[id], served)
    requires Wants(w.clients[id], x, y) && InFrame(served, x, y)
    ensures var w' := Next(w, releaseIdle, FrameArrives(served, latest, ios));
            && w'.observed == Some(served) && id in w'.clients
            && Current(w'.clients[id], served, x, y) && !Resized(w'.clients[id], served)
  {
    var c := w.clients[id];
    InvalidatedIsCoherent(c, w, served);
    WaitingIsServed(Invalidated(c, served, GeometryChanged(w.observed, served), DamageFor(w, served)), served, x, y);
  }

  // A viewer's request is tried at once.
  lemma {:induction false} RequestedIsServed(c: Client, f: Frame, incremental: bool, area: Rect, x: int, y: int)
    requires c.phase == Normal && ClientOk(c) && Coherent(c, f) && Servable(c, f)
    requires area.Has(x, y) && InFrame(f, x, y) && !(c.continuousEnabled && incremental)
    ensures Current(Requested(c, incremental, area, Some(f), READY), f, x, y)
    ensures !incremental ==>
              var asked := c.(continuousArmed := false, delivery := c.delivery.(request := Some(Request(false, area))));
              var out := TrySend(asked, Some(f), READY);
              && out.update.Some? && Covers(out.update.value.rects, x, y)
              && Requested(c, incremental, area, Some(f), READY) == out.client
  {
    WaitingIsServed(c.(continuousArmed := false, delivery := Ask(c.delivery, incremental, area)), f, x, y);
  }

  // The viewer asks for an area: it shows the frame there, and a request that is not
  // incremental is sent every pixel of it, stale or not.
  lemma {:induction false} RequestServes(w: World, releaseIdle: bool, id: nat, incremental: bool, area: Rect, x: int, y: int)
    requires Inv(w) && id in w.clients && w.clients[id].phase == Normal && w.observed.Some?
    requires Servable(w.clients[id], w.observed.value) && area.Has(x, y) && InFrame(w.observed.value, x, y)
    requires !(w.clients[id].continuousEnabled && incremental)
    ensures Current(Next(w, releaseIdle, RequestUpdate(id, incremental, area, READY)).clients[id], w.observed.value, x, y)
  {
    RequestedIsServed(w.clients[id], w.observed.value, incremental, area, x, y);
  }

  // ---- continuous updates ----------------------------------------------------------------------------

  // The viewer is kept up to date in a region: it has no request of its own left.
  predicate Follows(c: Client, region: Rect) {
    && c.phase == Normal && c.continuous && c.continuousEnabled && c.continuousRegion == region
    && (c.continuousArmed || c.delivery.request.None?)
  }

  lemma {:induction false} FollowerWants(c: Client, region: Rect, x: int, y: int)
    requires Follows(c, region) && ArmedOk(c) && region.Has(x, y)
    ensures Wants(c, x, y)
  {
  }

  // Enabling continuous updates, with no full request outstanding, sends what is stale in the
  // region and starts following it.
  lemma {:induction false} EnabledIsServed(c: Client, f: Frame, region: Rect, x: int, y: int)
    requires c.phase == Normal && ClientOk(c) && Coherent(c, f) && Servable(c, f) && c.continuous
    requires !WantsAll(c) && region.Has(x, y) && InFrame(f, x, y)
    ensures var out := ContinuousSet(c, true, region, Some(f), READY);
            Current(out, f, x, y) && Follows(out, region)
  {
    var start := c.(delivery := Cancel(c.delivery), continuousArmed := false, continuousEnabled := true,
                    continuousRegion := region);
    EnabledStarts(c, f, region);
    WaitingIsServed(start, f, x, y);
    TriedFollows(start, Some(f), READY, region);
  }

  lemma {:induction false} EnabledStarts(c: Client, f: Frame, region: Rect)
    requires c.phase == Normal && ClientOk(c) && c.continuous && !WantsAll(c) && !region.Empty()
    ensures var start := c.(delivery := Cancel(c.delivery), continuousArmed := false, continuousEnabled := true,
                            continuousRegion := region);
            ContinuousSet(c, true, region, Some(f), READY) == TrySend(start, Some(f), READY).client
  {
    var start := c.(delivery := Cancel(c.delivery), continuousArmed := false, continuousEnabled := true,
                    continuousRegion := region);
    ArmedTwice(start, Some(f), READY);
  }

  lemma {:induction false} ArmedTwice(c: Client, frame: Option<Frame>, io: Io)
    requires c.phase == Normal
    ensures TrySend(Arm(c), frame, io) == TrySend(c, frame, io)
  {
    assert Arm(Arm(c)) == Arm(c);
  }

  // An attempt, whatever comes of it, keeps a viewer following while it stays Normal.
  lemma {:induction false} TriedFollows(c: Client, frame: Option<Frame>, io: Io, region: Rect)
    requires Follows(c, region) && TrySend(c, frame, io).client.phase == Normal
    ensures Follows(TrySend(c, frame, io).client, region)
  {
    var armed := Arm(c);
    assert Follows(armed, region) && armed.continuousArmed;
    if armed.delivery.request.Some? && io.idle && frame.Some? {
      var f := frame.value;
      if ServableSize(f.width, f.height) && (!Resized(armed, f) || armed.desktopSize) {
        DeliveredFollows(armed, Offer(armed, f), Selection(armed, Offer(armed, f), f), f, Resized(armed, f), io, region);
      }
    }
  }

  lemma {:induction false} DeliveredFollows(c: Client, d: Delivery, selection: Option<seq<Rect>>, f: Frame, resized: bool, io: Io,
                                            region: Rect)
    requires Follows(c, region) && c.continuousArmed && Deliver(c, d, selection, f, resized, io).client.phase == Normal
    ensures Follows(Deliver(c, d, selection, f, resized, io).client, region)
  {
  }

  lemma {:induction false} EnablingServes(w: World, releaseIdle: bool, id: nat, region: Rect, x: int, y: int)
    requires Inv(w) && id in w.clients && w.clients[id].phase == Normal && w.clients[id].continuous && w.observed.Some?
    requires Servable(w.clients[id], w.observed.value) && region.Has(x, y) && InFrame(w.observed.value, x, y)
    requires !WantsAll(w.clients[id])
    ensures var c := Next(w, releaseIdle, EnableContinuous(id, true, region, READY)).clients[id];
            Current(c, w.observed.value, x, y) && Follows(c, region)
  {
    EnabledIsServed(w.clients[id], w.observed.value, region, x, y);
  }

  // Steps in which the viewer neither ends nor changes its continuous updates; whatever other
  // viewers do, and its own incremental requests, are among them.
  predicate Undisturbed(id: nat, step: Step) {
    match step
    case EnableContinuous(i, _, _, _) => i != id
    case SetEncodings(i, _, continuous) => i != id || continuous
    case RequestUpdate(i, incremental, _, _) => i != id || incremental
    case ProtocolFailure(i) => i != id
    case Disconnect(i) => i != id
    case DecorationFails => false
    case _ => true
  }

  lemma {:induction false} StepKeepsFollowing(w: World, releaseIdle: bool, step: Step, id: nat, region: Rect)
    requires id in w.clients && Follows(w.clients[id], region) && Undisturbed(id, step)
    requires id in Next(w, releaseIdle, step).clients ==> Next(w, releaseIdle, step).clients[id].phase == Normal
    ensures id in Next(w, releaseIdle, step).clients && Follows(Next(w, releaseIdle, step).clients[id], region)
  {
    var c := w.clients[id];
    match step
    case FrameArrives(served, latest, ios) =>
      TriedFollows(Invalidated(c, served, GeometryChanged(w.observed, served), DamageFor(w, served)), Some(served),
                   IoOf(ios, id), region);
    case Drained(i, io) => if i == id { TriedFollows(c, w.observed, io, region); }
    case _ =>
  }

  // The viewer is left alone and stays Normal.
  ghost predicate UndisturbedRun(w: World, releaseIdle: bool, steps: seq<Step>, id: nat)
    decreases |steps|
  {
    id in w.clients && w.clients[id].phase == Normal
    && (steps == []
        || (Undisturbed(id, steps[0]) && UndisturbedRun(Next(w, releaseIdle, steps[0]), releaseIdle, steps[1..], id)))
  }

  lemma {:induction false} RunKeepsFollowing(w: World, releaseIdle: bool, steps: seq<Step>, id: nat, region: Rect)
    requires id in w.clients && Follows(w.clients[id], region) && UndisturbedRun(w, releaseIdle, steps, id)
    ensures id in Run(w, releaseIdle, steps).clients && Follows(Run(w, releaseIdle, steps).clients[id], region)
    decreases |steps|
  {
    if steps != [] {
      StepKeepsFollowing(w, releaseIdle, steps[0], id, region);
      RunKeepsFollowing(Next(w, releaseIdle, steps[0]), releaseIdle, steps[1..], id, region);
    }
  }

  // Once enabled, continuous updates go on without a request: after any undisturbed run, every
  // frame that finds the socket ready is shown in the region.
  lemma {:induction false} ContinuousViewerFollows(w: World, releaseIdle: bool, steps: seq<Step>, id: nat, region: Rect,
                                                   served: Frame, latest: (nat, nat), ios: map<nat, Io>, x: int, y: int)
    requires Inv(w) && HonestRun(w, releaseIdle, steps) && UndisturbedRun(w, releaseIdle, steps, id)
    requires id in w.clients && Follows(w.clients[id], region) && region.Has(x, y)
    requires var mid := Run(w, releaseIdle, steps);
             && HonestStep(mid, FrameArrives(served, latest, ios)) && IoOf(ios, id) == READY
             && (id in mid.clients ==> Servable(mid.clients[id], served)) && InFrame(served, x, y)
    ensures var end := Next(Run(w, releaseIdle, steps), releaseIdle, FrameArrives(served, latest, ios));
            id in end.clients && Current(end.clients[id], served, x, y) && Follows(end.clients[id], region)
  {
    var mid := Run(w, releaseIdle, steps);
    RunKeepsInv(w, releaseIdle, steps);
    RunKeepsFollowing(w, releaseIdle, steps, id, region);
    FollowerWants(mid.clients[id], region, x, y);
    FrameServes(mid, releaseIdle, id, served, latest, ios, x, y);
    StepKeepsFollowing(mid, releaseIdle, FrameArrives(served, latest, ios), id, region);
  }

  // ---- what is not sent --------------------------------------------------------------------------------

  // No update is empty: it has a pixel rectangle or tells a new size.  A request for nothing but
  // pixels outside the frame is dropped unanswered.
  lemma {:induction false} NoEmptyUpdate(c: Client, f: Frame, io: Io)
    requires ClientOk(c)
    ensures var u := TrySend(c, Some(f), io).update;
            u.Some? ==> u.value.rects != [] || u.value.resize
    ensures c.phase == Normal && io.idle && ServableSize(f.width, f.height) && !Resized(c, f)
            && Selection(Arm(c), Offered(c, f), f) == Some([]) ==>
              var out := TrySend(c, Some(f), io);
              out.update.None? && out.client.delivery.request.None? && out.client.phase == Normal
  {
  }

  // Every size the protocol can express is servable, and no other.
  lemma {:induction false} ServableIffExpressible(width: nat, height: nat)
    ensures ServableSize(width, height) <==> 1 <= width <= 65535 && 1 <= height <= 65535
  {
  }

  // A viewer is failed when the frame's size cannot be told to it, or its socket takes no more.
  lemma {:induction false} FailsIff(c: Client, f: Frame, io: Io)
    requires c.phase == Normal && ClientOk(c) && Arm(c).delivery.request.Some? && io.idle
    ensures TrySend(c, Some(f), io).client.phase == Failed <==>
            || !ServableSize(f.width, f.height) || (Resized(c, f) && !c.desktopSize)
            || (var s := Selection(Arm(c), Offered(c, f), f);
                s.Some? && (s.value != [] || Resized(c, f)) && (!io.encodes || !io.writes || (s.value != [] && !Readable(f))))
  {
  }
}
