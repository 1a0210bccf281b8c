// The viewer object of the RFB worker (ClientState) and the methods that update it in
// place, each proved against the step functions of ViewerCoherence.
module ViewerObject {
  import opened Option
  import opened RfbRegion
  import opened RfbUpdate
  import opened Frames
  import opened ViewerCoherence

  // An answer is computed from the offered delivery state alone.
  lemma {:induction false} DeliverIgnoresDelivery(c: Client, d: Delivery, selection: Option<seq<Rect>>, f: Frame, resized: bool, io: Io)
    ensures Deliver(c.(delivery := d), d, selection, f, resized, io) == Deliver(c, d, selection, f, resized, io)
    ensures Selection(c.(delivery := d), d, f) == Selection(c, d, f)
  {
  }

  class Viewer {
    var phase: Phase
    var desktopSize: bool
    var continuous: bool
    var continuousEnabled: bool
    var continuousArmed: bool
    var continuousRegion: Rect
    var fbWidth: nat
    var fbHeight: nat
    const delivery: UpdateState
    ghost var sent: imap<(int, int), Rgb>

    ghost predicate Valid()
      reads this, delivery, delivery.pending
    {
      delivery.Valid()
    }

    ghost function View(): Client
      reads this, delivery, delivery.pending
    {
      Client(phase, desktopSize, continuous, continuousEnabled, continuousArmed, continuousRegion,
             delivery.View(), fbWidth, fbHeight, sent)
    }

    constructor ()
      ensures Valid() && View() == NEW_CLIENT
      ensures fresh(delivery) && fresh(delivery.pending)
    {
      phase := Handshake;
      desktopSize, continuous, continuousEnabled, continuousArmed := false, false, false, false;
      continuousRegion := NO_RECT;
      fbWidth, fbHeight := 0, 0;
      delivery := new UpdateState();
      sent := imap[];
    }

    method ArmContinuousRequest()
      requires Valid()
      modifies this`continuousArmed, delivery`request
      ensures Valid() && View() == Arm(old(View()))
    {
      if !continuousEnabled || delivery.request.Some? {
        return;
      }
      delivery.RequestArea(true, continuousRegion);
      continuousArmed := true;
    }

    method SendServerInit(observed: Option<Frame>, latest: (nat, nat))
      requires Valid()
      modifies this, delivery, delivery.pending
      ensures Valid() && View() == ServerInit(old(View()), observed, latest)
    {
      var (width, height) := if observed.Some? then (observed.value.width, observed.value.height) else latest;
      if !ServableSize(width, height) {
        phase := Failed;
        return;
      }
      fbWidth, fbHeight := width, height;
      sent := imap[];
      delivery.Invalidate(width, height);
      phase := Normal;
    }

    // A new frame: either everything is owed again, or its damage is added.
    method TakeDamage(served: Frame, changed: bool, damage: Option<DamageRegion>)
      requires Valid()
      requires damage.Some? ==> damage.value.Valid() && damage.value != delivery.pending
      modifies delivery, delivery.pending
      ensures Valid()
      ensures View() == Invalidated(old(View()), served, changed,
                                    if damage.Some? then Some(old(damage.value.rects)) else None)
    {
      if changed {
        delivery.Invalidate(served.width, served.height);
      } else if damage.Some? {
        delivery.AccumulateDamage(damage.value);
      }
    }

    // What the outstanding request selects, clipped to the frame and an armed region.
    method SelectUpdate(f: Frame) returns (selected: Option<DamageRegion>)
      requires Valid()
      ensures selected.Some? ==> fresh(selected.value) && selected.value.Valid()
      ensures Selection(View(), delivery.View(), f) == if selected.Some? then Some(selected.value.rects) else None
    {
      var eligible := delivery.Select();
      if eligible.None? {
        return None;
      }
      var rects := eligible.value.IntersectedWith(FullRect(f.width, f.height));
      if continuousEnabled && continuousArmed {
        rects := rects.IntersectedWith(continuousRegion);
      }
      selected := Some(rects);
    }

    // Encode, write and commit a selected update.
    method DeliverUpdate(selected: Option<DamageRegion>, f: Frame, resized: bool, io: Io) returns (update: Option<Update>)
      requires Valid()
      requires selected.Some? ==> selected.value.Valid() && selected.value != delivery.pending
      modifies this, delivery, delivery.pending
      ensures Valid()
      ensures var out := Deliver(old(View()), old(delivery.View()),
                                 if selected.Some? then Some(old(selected.value.rects)) else None, f, resized, io);
              View() == out.client && update == out.update
    {
      update := None;
      if selected.None? {
        return;
      }
      var region := selected.value;
      if |region.rects| == 0 && !resized {
        delivery.CancelRequest();
        continuousArmed := false;
        return;
      }
      if !io.encodes || (|region.rects| != 0 && !Readable(f)) || !io.writes {
        phase := Failed;
        return;
      }
      update := Some(Update(resized, f.width, f.height, region.rects));
      delivery.CommitDelivered(region);
      continuousArmed := false;
      fbWidth, fbHeight := f.width, f.height;
      sent := Paint(if resized then imap[] else sent, f, region.rects);
      ArmContinuousRequest();
    }

    // trySendUpdate: the only place where pixels leave for this viewer.
    method TrySendUpdate(frame: Option<Frame>, io: Io) returns (update: Option<Update>)
      requires Valid()
      modifies this, delivery, delivery.pending
      ensures Valid()
      ensures View() == TrySend(old(View()), frame, io).client
      ensures update == TrySend(old(View()), frame, io).update
    {
      update := None;
      if phase != Normal {
        return;
      }
      ArmContinuousRequest();
      if delivery.request.None? || !io.idle || frame.None? {
        return;
      }
      var f := frame.value;
      if !ServableSize(f.width, f.height) || ((f.width != fbWidth || f.height != fbHeight) && !desktopSize) {
        phase := Failed;
        return;
      }
      update := SendTo(f, io);
    }

    // The rest of the attempt, for an armed viewer with an idle socket and a servable frame.
    method SendTo(f: Frame, io: Io) returns (update: Option<Update>)
      requires Valid() && delivery.request.Some? && phase == Normal && io.idle
      requires ServableSize(f.width, f.height) && (Resized(View(), f) ==> desktopSize)
      modifies this, delivery, delivery.pending
      ensures Valid()
      ensures View() == TrySend(old(View()), Some(f), io).client
      ensures update == TrySend(old(View()), Some(f), io).update
    {
      ghost var armed := View();
      var resized := f.width != fbWidth || f.height != fbHeight;
      if resized {
        delivery.Invalidate(f.width, f.height);
      }
      ghost var offered := Offer(armed, f);
      assert View() == armed.(delivery := offered);
      var selected := SelectUpdate(f);
      DeliverIgnoresDelivery(armed, offered, Selection(armed, offered, f), f, resized, io);
      assert TrySend(armed, Some(f), io) == Deliver(armed, offered, Selection(armed, offered, f), f, resized, io);
      update := DeliverUpdate(selected, f, resized, io);
    }
  }

}
