// How viewers come, change their settings and go
// (RfbWorker in src/runtime/src/transport/rfb_transport.cpp).
module ViewerLifecycle {
  // The steps around the updates: connections, ServerInit, encodings, continuous mode, and what a
  // frame that shows nothing new costs.

  import opened Option
  import opened RfbRegion
  import opened RfbUpdate
  import opened Frames
  import opened FrameDamage
  import opened ViewerCoherence
  import opened ViewerService
  import opened DamagePrecision

  // ---- coming and going --------------------------------------------------------------------------------

  // The step is about one viewer.
  predicate About(step: Step, id: nat) {
    !step.FrameArrives? && !step.DecorationFails? && step.id == id
  }

  // A step about one viewer leaves the others as they are, and the observed frame unless the last
  // viewer of a worker that drops idle frames has left.
  lemma {:induction false} OthersAreLeftAlone(w: World, releaseIdle: bool, step: Step, id: nat, other: nat)
    requires About(step, id) && other != id
    ensures var w' := Next(w, releaseIdle, step);
            && (other in w'.clients <==> other in w.clients)
            && (other in w.clients ==> w'.clients[other] == w.clients[other] && w'.observed == w.observed)
  {
    if other in w.clients { assert other in w.clients - {id}; }
  }

  lemma {:induction false} ConnectsOnce(w: World, releaseIdle: bool, id: nat)
    ensures var w' := Next(w, releaseIdle, Connect(id));
            && id in w'.clients && w'.clients[id] == (if id in w.clients then w.clients[id] else NEW_CLIENT)
            && w'.observed == w.observed
  {
  }

  // A viewer that leaves is forgotten; with the last one a worker that drops idle frames forgets
  // the frame as well, and a frame that arrives meanwhile.
  lemma {:induction false} LeavesForGood(w: World, releaseIdle: bool, id: nat)
    requires id in w.clients
    ensures var w' := Next(w, releaseIdle, Disconnect(id));
            && w'.clients == w.clients - {id}
            && w'.observed == if releaseIdle && w.clients.Keys == {id} then None else w.observed
  {
    assert w.clients - {id} == map[] <==> w.clients.Keys == {id} by {
      assert (w.clients - {id}).Keys == w.clients.Keys - {id};
      if w.clients - {id} == map[] { assert w.clients.Keys - {id} == {}; assert w.clients.Keys == {id}; }
    }
  }

  lemma {:induction false} IdleFrame(w: World, releaseIdle: bool, served: Frame, latest: (nat, nat), ios: map<nat, Io>)
    requires w.clients == map[]
    ensures var w' := Next(w, releaseIdle, FrameArrives(served, latest, ios));
            w'.clients == map[] && w'.observed == if releaseIdle then None else Some(served)
  {
  }

  // A decoration that fails drops all viewers.
  lemma {:induction false} DecorationFailureDropsAll(w: World, releaseIdle: bool)
    ensures Next(w, releaseIdle, DecorationFails) == World(None, map[], false)
  {
  }

  // ---- ServerInit --------------------------------------------------------------------------------------

  // A new viewer is told the size of the observed frame, or else the one known beforehand, and owed
  // everything; without either it waits.  A size that cannot be told ends it.
  lemma {:induction false} InitTellsSize(w: World, releaseIdle: bool, id: nat, bootstrap: Option<(nat, nat)>)
    requires id in w.clients && w.clients[id].phase == Handshake
    ensures var size := if w.observed.Some? then Some((w.observed.value.width, w.observed.value.height)) else bootstrap;
            var c := Next(w, releaseIdle, ClientInit(id, bootstrap)).clients[id];
            if size.None? then c == w.clients[id].(phase := AwaitInitialFrame)
            else if 1 <= size.value.0 <= 65535 && 1 <= size.value.1 <= 65535 then Started(c, size.value.0, size.value.1)
            else c.phase == Failed
  {
    SingleRect(if w.observed.Some? then FullRect(w.observed.value.width, w.observed.value.height)
               else if bootstrap.Some? then FullRect(bootstrap.value.0, bootstrap.value.1) else NO_RECT, 0, 0);
  }

  // A Normal viewer of a size, with nothing sent and everything owed.
  ghost predicate Started(c: Client, width: nat, height: nat) {
    && c.phase == Normal && c.fbWidth == width && c.fbHeight == height && c.sent == imap[]
    && c.delivery.pending == AddRect([], FullRect(width, height)) && c.delivery.forced == Some(FullRect(width, height))
  }

  // A second ClientInit means nothing.
  lemma {:induction false} InitIsOnce(w: World, releaseIdle: bool, id: nat, bootstrap: Option<(nat, nat)>)
    requires id in w.clients && w.clients[id].phase != Handshake
    ensures Next(w, releaseIdle, ClientInit(id, bootstrap)).clients[id] == w.clients[id]
  {
  }

  // The first frame ends the waiting.
  lemma {:induction false} FirstFrameEndsWaiting(w: World, releaseIdle: bool, id: nat, served: Frame, latest: (nat, nat), ios: map<nat, Io>)
    requires id in w.clients && w.clients[id] == NEW_CLIENT.(phase := AwaitInitialFrame) && w.observed.None?
    requires 1 <= latest.0 <= 65535 && 1 <= latest.1 <= 65535
    ensures var w' := Next(w, releaseIdle, FrameArrives(served, latest, ios));
            && w'.observed == Some(served) && id in w'.clients && w'.clients[id].phase == Normal
            && w'.clients[id].fbWidth == latest.0 && w'.clients[id].fbHeight == latest.1
            && w'.clients[id].delivery.forced == Some(FullRect(served.width, served.height))
  {
  }

  // Before it is Normal a viewer's messages mean nothing.
  lemma {:induction false} NothingBeforeNormal(w: World, releaseIdle: bool, id: nat, desktopSize: bool, continuous: bool,
                                               incremental: bool, area: Rect, enable: bool, io: Io)
    requires id in w.clients && w.clients[id].phase != Normal
    ensures Next(w, releaseIdle, SetEncodings(id, desktopSize, continuous)).clients[id] == w.clients[id]
    ensures Next(w, releaseIdle, RequestUpdate(id, incremental, area, io)).clients[id] == w.clients[id]
    ensures Next(w, releaseIdle, EnableContinuous(id, enable, area, io)).clients[id] == w.clients[id]
    ensures Next(w, releaseIdle, Drained(id, io)).clients[id] == w.clients[id]
  {
  }

  // ---- settings ----------------------------------------------------------------------------------------

  // SetEncodings replaces both settings.  Giving up continuous updates ends them, and takes back the
  // request they stood for, but not one of the viewer's own.
  lemma {:induction false} EncodingsTakeEffect(w: World, releaseIdle: bool, id: nat, desktopSize: bool, continuous: bool)
    requires Inv(w) && id in w.clients && w.clients[id].phase == Normal
    ensures var c, c' := w.clients[id], Next(w, releaseIdle, SetEncodings(id, desktopSize, continuous)).clients[id];
            && c'.phase == Normal && c'.desktopSize == desktopSize && c'.continuous == continuous
            && c'.sent == c.sent && c'.delivery.pending == c.delivery.pending && c'.delivery.forced == c.delivery.forced
            && (if c.continuous && !continuous then
                  && !c'.continuousEnabled && !c'.continuousArmed
                  && c'.delivery.request == (if c.continuousArmed then None else c.delivery.request)
                else c'.continuousEnabled == c.continuousEnabled && c'.continuousArmed == c.continuousArmed
                     && c'.delivery.request == c.delivery.request)
  {
  }

  // Enabling is refused without the encoding or for an empty region; disabling sends nothing.
  lemma {:induction false} ContinuousNeedsEncoding(w: World, releaseIdle: bool, id: nat, enable: bool, region: Rect, io: Io)
    requires id in w.clients && w.clients[id].phase == Normal
    ensures var c, c' := w.clients[id], Next(w, releaseIdle, EnableContinuous(id, enable, region, io)).clients[id];
            && (!c.continuous || (enable && region.Empty()) ==> c'.phase == Failed)
            && (c.continuous && !enable ==>
                  && c'.phase == Normal && !c'.continuousEnabled && !c'.continuousArmed && c'.sent == c.sent
                  && c'.delivery == c.delivery.(request := if c.continuousArmed then None else c.delivery.request))
  {
  }

  // While continuous updates are on, an incremental request changes nothing.
  lemma {:induction false} IncrementalIsSuperfluous(w: World, releaseIdle: bool, id: nat, area: Rect, io: Io)
    requires id in w.clients && w.clients[id].phase == Normal && w.clients[id].continuousEnabled
    ensures Next(w, releaseIdle, RequestUpdate(id, true, area, io)).clients[id] == w.clients[id]
  {
  }

  // ---- frames that show nothing new --------------------------------------------------------------------

  // An unchanged picture costs nothing: a Normal viewer that is owed nothing and has asked for
  // changes keeps its request and is sent nothing.
  lemma {:induction false} UnchangedFrameCostsNothing(w: World, releaseIdle: bool, id: nat, served: Frame, latest: (nat, nat),
                                                      ios: map<nat, Io>)
    requires w.observed.Some? && id in w.clients && served.width > 0 && served.height > 0
    requires SamePresentation(w.observed.value, served) && Comparable(w.observed.value, served)
             && SamePicture(w.observed.value, served) && !HintTrusted(w.observed.value, served)
    requires var c := w.clients[id];
             && c.phase == Normal && c.delivery.pending == [] && c.delivery.forced.None? && !Resized(c, served)
             && c.delivery.request.Some? && c.delivery.request.value.incremental && ServableSize(served.width, served.height)
    ensures var w' := Next(w, releaseIdle, FrameArrives(served, latest, ios));
            id in w'.clients && w'.clients[id] == w.clients[id] && w'.lastUnchanged
  {
    EmptyDamageIffSamePicture(w.observed.value, served, w.lastUnchanged);
    assert HasNormal(w.clients) by { assert w.clients[id].phase == Normal; }
    assert DamageFor(w, served) == Some([]);
  }

  // A frame that does not change the size adds its damage to what a viewer is owed, and nothing
  // outside of both.
  lemma {:induction false} FrameAddsItsDamage(w: World, served: Frame, c: Client, outer: Rect)
    requires ClientOk(c) && !GeometryChanged(w.observed, served) && Inside(c.delivery.pending, outer)
    requires DamageFor(w, served).Some? ==> Inside(DamageFor(w, served).value, outer)
    ensures var owed := Invalidated(c, served, GeometryChanged(w.observed, served), DamageFor(w, served));
            && Inside(owed.delivery.pending, outer) && owed.delivery.forced == c.delivery.forced
            && owed.delivery.request == c.delivery.request
  {
    if DamageFor(w, served).Some? { AddAllStaysInside(c.delivery.pending, DamageFor(w, served).value, outer); }
  }

  lemma {:induction false} AddAllStaysInside(rs: seq<Rect>, others: seq<Rect>, outer: Rect)
    requires Bounded(rs) && Inside(rs, outer) && Inside(others, outer)
    ensures Inside(AddAll(rs, others), outer)
    decreases |others|
  {
    if others != [] {
      forall px, py | others[0].Has(px, py)
        ensures outer.Has(px, py)
      {
        CoversCons(others, px, py);
      }
      forall px, py | Covers(others[1..], px, py)
        ensures outer.Has(px, py)
      {
        CoversCons(others, px, py);
      }
      AddRectStaysInside(rs, others[0], outer);
      AddRectBounded(rs, others[0]);
      AddAllStaysInside(AddRect(rs, others[0]), others[1..], outer);
    }
  }
}
