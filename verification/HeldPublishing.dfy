// What is published about keys and buttons, and in which order
// (src/runtime/src/transport/rfb_transport.cpp).
module HeldPublishing {
  // HeldInput proves that the latest transitions are right.  Here: every event publishes exactly
  // the transition it should, and a departure releases buttons, then plain keys, then modifiers.

  import opened Option
  import opened HeldInput

  // ---- one key event ----------------------------------------------------------------------------------

  // A key press is published when nobody holds the key yet, or as a repetition by a viewer that
  // holds this keysym; a press of one more keysym than a viewer may hold ends the viewer.
  lemma {:induction false} PressPublishesIff(t: Table, w: World, id: nat, keysym: nat)
    requires Inv(t, w) && !w.stopping && Active(w, id) && Code(t, keysym) != 0
    ensures var key := Code(t, keysym);
            var w' := Next(t, w, KeyEvent(id, keysym, true));
            var c := w.clients[id];
            var refused := keysym !in c.held && |c.held| == MAX_HELD_KEYS;
            && (w'.published == w.published + [KeyChange(key, true)]
                <==> keysym in c.held || (!refused && KeyHolders(t, w.clients, key) == 0))
            && (w'.published == w.published || w'.published == w.published + [KeyChange(key, true)])
            && (w'.clients[id].open <==> !refused)
            && (!refused ==> keysym in w'.clients[id].held)
  {
    assert ClientOk(t, w.clients[id]) && KeyOk(t, w, Code(t, keysym));
  }

  // A release is published when the viewer holds the keysym and was the last holder of the key.
  lemma {:induction false} ReleasePublishesIff(t: Table, w: World, id: nat, keysym: nat)
    requires Inv(t, w) && !w.stopping && Active(w, id) && Code(t, keysym) != 0
    ensures var key := Code(t, keysym);
            var w' := Next(t, w, KeyEvent(id, keysym, false));
            && (w'.published == w.published + [KeyChange(key, false)]
                <==> keysym in w.clients[id].held && KeyHolders(t, w.clients, key) == 1)
            && (w'.published == w.published || w'.published == w.published + [KeyChange(key, false)])
  {
    assert KeyOk(t, w, Code(t, keysym));
    if keysym in w.clients[id].held { HolderCounts(t, w, id, keysym); }
  }

  // An unknown key is passed on as it comes.
  lemma {:induction false} UnknownKeyIsPassedOn(t: Table, w: World, id: nat, keysym: nat, pressed: bool)
    requires Shaped(w) && !w.stopping && Active(w, id) && Code(t, keysym) == 0
    ensures Next(t, w, KeyEvent(id, keysym, pressed)) == w.(published := w.published + [KeyChange(0, pressed)])
  {
  }

  // ---- one button -------------------------------------------------------------------------------------

  // A button transition is published by the first viewer that presses it and the last one that
  // lets it go.
  lemma {:induction false} ButtonPublishesIff(t: Table, w: World, clients: seq<Client>, before: bv8, after: bv8, button: nat)
    requires Shaped(w) && !w.stopping && button < BUTTONS && ButtonOk(w, clients, button)
    ensures var w' := ChangeButton(w, before, after, button);
            var holders := ButtonHolders(clients, button);
            && (w'.published == w.published + [ButtonChange(button, true)]
                <==> !Down(before, button) && Down(after, button) && holders == 0)
            && (w'.published == w.published + [ButtonChange(button, false)]
                <==> Down(before, button) && !Down(after, button) && holders == 1)
            && (w'.published == w.published || exists pressed :: w'.published == w.published + [ButtonChange(button, pressed)])
  {
    assert w.published + [ButtonChange(button, true)] != w.published + [ButtonChange(button, false)] by {
      assert (w.published + [ButtonChange(button, true)])[|w.published|] != (w.published + [ButtonChange(button, false)])[|w.published|];
    }
  }

  // ---- a departure ------------------------------------------------------------------------------------

  predicate ButtonReleases(changes: seq<Transition>) {
    forall i :: 0 <= i < |changes| ==> changes[i].ButtonChange? && !changes[i].pressed
  }

  predicate KeyReleases(t: Table, changes: seq<Transition>, modifiers: bool) {
    forall i :: 0 <= i < |changes| ==>
      changes[i].KeyChange? && !changes[i].pressed && t.modifier(changes[i].key) == modifiers
  }

  lemma {:induction false} ButtonsReleased(w: World, mask: bv8, n: nat) returns (changes: seq<Transition>)
    requires Shaped(w) && n <= BUTTONS
    ensures ChangeButtons(w, mask, 0, n).published == w.published + changes && ButtonReleases(changes)
  {
    changes := [];
    if n > 0 {
      var before := ButtonsReleased(w, mask, n - 1);
      var w' := ChangeButtons(w, mask, 0, n - 1);
      NothingDown(n - 1);
      changes := if ChangeButton(w', mask, 0, n - 1).published == w'.published then before
                 else before + [ButtonChange(n - 1, false)];
    }
  }

  lemma {:induction false} NothingDown(button: nat)
    ensures !Down(0, button)
  {
  }

  // The keysyms of a list are all modifiers, or all plain keys, and known.
  predicate AllOf(t: Table, keysyms: seq<nat>, modifiers: bool) {
    forall i :: 0 <= i < |keysyms| ==> Code(t, keysyms[i]) != 0 && t.modifier(Code(t, keysyms[i])) == modifiers
  }

  lemma {:induction false} OneKeyReleased(t: Table, w: World, id: nat, keysym: nat) returns (change: seq<Transition>)
    requires Shaped(w) && id < |w.clients| && Code(t, keysym) != 0
    ensures DeliverKey(t, w, id, keysym, false).published == w.published + change
    ensures change == [] || change == [KeyChange(Code(t, keysym), false)]
    ensures |DeliverKey(t, w, id, keysym, false).clients| == |w.clients|
  {
    change := if DeliverKey(t, w, id, keysym, false).published == w.published then [] else [KeyChange(Code(t, keysym), false)];
  }

  lemma {:induction false} KeysReleased(t: Table, w: World, id: nat, keysyms: seq<nat>, modifiers: bool) returns (changes: seq<Transition>)
    requires Shaped(w) && id < |w.clients| && AllOf(t, keysyms, modifiers)
    ensures ReleaseAll(t, w, id, keysyms).published == w.published + changes && KeyReleases(t, changes, modifiers)
    decreases |keysyms|
  {
    changes := [];
    if keysyms != [] {
      var first := OneKeyReleased(t, w, id, keysyms[0]);
      var rest := KeysReleased(t, DeliverKey(t, w, id, keysyms[0], false), id, keysyms[1..], modifiers);
      changes := first + rest;
    }
  }

  lemma {:induction false} WithoutOne(s: seq<nat>, x: nat)
    ensures multiset(Without(s, x)) == multiset(s) - multiset{x}
  {
    var i := IndexOf(s, x);
    if i < |s| {
      assert s == s[..i] + [x] + s[i + 1..];
      OneFewer(s[..i], x, s[i + 1..]);
    } else {
      assert x !in multiset(s);
    }
  }

  lemma {:induction false} OneFewer(a: seq<nat>, x: nat, b: seq<nat>)
    ensures multiset(a + b) == multiset(a + [x] + b) - multiset{x}
  {
  }

  lemma {:induction false} OneRemoved(t: Table, w: World, id: nat, keysym: nat)
    requires Shaped(w) && id < |w.clients| && Code(t, keysym) != 0
    ensures |DeliverKey(t, w, id, keysym, false).clients| == |w.clients|
    ensures multiset(DeliverKey(t, w, id, keysym, false).clients[id].held) == multiset(w.clients[id].held) - multiset{keysym}
  {
    WithoutOne(w.clients[id].held, keysym);
    if keysym !in w.clients[id].held { assert keysym !in multiset(w.clients[id].held); }
  }

  lemma {:induction false} RemovedTwice(a: multiset<nat>, b: multiset<nat>, c: multiset<nat>, keysyms: seq<nat>)
    requires keysyms != [] && b == a - multiset{keysyms[0]} && c == b - multiset(keysyms[1..])
    ensures c == a - multiset(keysyms)
  {
    assert keysyms == [keysyms[0]] + keysyms[1..];
  }

  lemma {:induction false} ReleaseAllRemoves(t: Table, w: World, id: nat, keysyms: seq<nat>)
    requires Shaped(w) && id < |w.clients|
    requires forall i :: 0 <= i < |keysyms| ==> Code(t, keysyms[i]) != 0
    ensures multiset(ReleaseAll(t, w, id, keysyms).clients[id].held) == multiset(w.clients[id].held) - multiset(keysyms)
    decreases |keysyms|
  {
    if keysyms != [] {
      var w' := DeliverKey(t, w, id, keysyms[0], false);
      OneRemoved(t, w, id, keysyms[0]);
      ReleaseAllRemoves(t, w', id, keysyms[1..]);
      RemovedTwice(multiset(w.clients[id].held), multiset(w'.clients[id].held),
                   multiset(ReleaseAll(t, w', id, keysyms[1..]).clients[id].held), keysyms);
    }
  }

  lemma {:induction false} PlainKeysCount(t: Table, keysyms: seq<nat>, x: nat)
    ensures multiset(PlainKeys(t, keysyms))[x] == if t.modifier(Code(t, x)) then 0 else multiset(keysyms)[x]
  {
    if keysyms != [] {
      PlainKeysCount(t, keysyms[1..], x);
      assert keysyms == [keysyms[0]] + keysyms[1..];
    }
  }

  lemma {:induction false} PlainKeysArePlain(t: Table, keysyms: seq<nat>)
    requires forall i :: 0 <= i < |keysyms| ==> Code(t, keysyms[i]) != 0
    ensures AllOf(t, PlainKeys(t, keysyms), false)
  {
    if keysyms != [] { PlainKeysArePlain(t, keysyms[1..]); }
  }

  // After the plain keys only modifiers are left.
  lemma {:induction false} ModifiersAreLeft(t: Table, w: World, id: nat)
    requires Shaped(w) && id < |w.clients|
    requires forall i :: 0 <= i < |w.clients[id].held| ==> Code(t, w.clients[id].held[i]) != 0
    ensures AllOf(t, ReleaseAll(t, w, id, PlainKeys(t, w.clients[id].held)).clients[id].held, true)
  {
    var held := w.clients[id].held;
    PlainKeysArePlain(t, held);
    ReleaseAllRemoves(t, w, id, PlainKeys(t, held));
    var left := ReleaseAll(t, w, id, PlainKeys(t, held)).clients[id].held;
    forall i | 0 <= i < |left|
      ensures Code(t, left[i]) != 0 && t.modifier(Code(t, left[i]))
    {
      PlainKeysCount(t, held, left[i]);
      assert left[i] in multiset(left);
      assert left[i] in held;
    }
  }

  // What the departure of an announced viewer publishes, pass by pass.
  lemma {:induction false} DepartureIsThreePasses(t: Table, w: World, id: nat, w2: World, w3: World)
    requires Shaped(w) && !w.stopping && id < |w.clients| && !w.clients[id].gone && w.clients[id].announced
    requires w2 == ReleaseButtons(w, id) && |w2.clients| == |w.clients| && w3 == ReleaseAll(t, w2, id, PlainKeys(t, w.clients[id].held))
    ensures Next(t, w, Disconnect(id)).published == ReleaseAll(t, w3, id, w3.clients[id].held).published
  {
  }

  lemma {:induction false} FirstPass(w: World, id: nat) returns (buttons: seq<Transition>)
    requires Shaped(w) && id < |w.clients|
    ensures ReleaseButtons(w, id).published == w.published + buttons && ButtonReleases(buttons)
    ensures |ReleaseButtons(w, id).clients| == |w.clients| && ReleaseButtons(w, id).clients[id].held == w.clients[id].held
  {
    var c := w.clients[id];
    buttons := [];
    if c.positionKnown && c.mask != 0 && c.viewportValid { buttons := ButtonsReleased(w, c.mask, BUTTONS); }
  }

  // A viewer that leaves has its buttons released first, then its plain keys, then the modifiers,
  // so that no key is released under other modifiers than it was pressed with.
  lemma {:induction false} DepartureOrder(t: Table, w: World, id: nat)
    returns (buttons: seq<Transition>, plain: seq<Transition>, modifiers: seq<Transition>)
    requires Inv(t, w) && !w.stopping && id < |w.clients| && !w.clients[id].gone
    ensures Next(t, w, Disconnect(id)).published == w.published + buttons + plain + modifiers
    ensures ButtonReleases(buttons) && KeyReleases(t, plain, false) && KeyReleases(t, modifiers, true)
  {
    buttons, plain, modifiers := [], [], [];
    assert ClientOk(t, w.clients[id]);
    if w.clients[id].announced {
      buttons, plain, modifiers := ThreePasses(t, w, id);
    }
  }

  lemma {:induction false} ThreePasses(t: Table, w: World, id: nat)
    returns (buttons: seq<Transition>, plain: seq<Transition>, modifiers: seq<Transition>)
    requires Inv(t, w) && !w.stopping && id < |w.clients| && !w.clients[id].gone && w.clients[id].announced
    requires forall i :: 0 <= i < |w.clients[id].held| ==> Code(t, w.clients[id].held[i]) != 0
    ensures Next(t, w, Disconnect(id)).published == w.published + buttons + plain + modifiers
    ensures ButtonReleases(buttons) && KeyReleases(t, plain, false) && KeyReleases(t, modifiers, true)
  {
    var held := w.clients[id].held;
    buttons := FirstPass(w, id);
    var w2 := ReleaseButtons(w, id);
    PlainKeysArePlain(t, held);
    plain := KeysReleased(t, w2, id, PlainKeys(t, held), false);
    ModifiersAreLeft(t, w2, id);
    var w3 := ReleaseAll(t, w2, id, PlainKeys(t, held));
    modifiers := KeysReleased(t, w3, id, w3.clients[id].held, true);
    DepartureIsThreePasses(t, w, id, w2, w3);
  }

  // ---- the button mask --------------------------------------------------------------------------------

  // The three buttons are the three low bits of the mask, in order.
  lemma {:induction false} ButtonsAreLowBits(mask: bv8)
    ensures Down(mask, 0) <==> mask % 2 == 1
    ensures Down(mask, 1) <==> mask / 2 % 2 == 1
    ensures Down(mask, 2) <==> mask / 4 % 2 == 1
  {
  }

  // ---- the end ----------------------------------------------------------------------------------------

  // A worker that is stopping publishes nothing any more.
  lemma {:induction false} NothingAfterStop(t: Table, w: World, steps: seq<Step>)
    requires Shaped(w) && w.stopping
    ensures Run(t, w, steps).stopping && Run(t, w, steps).published == w.published
    decreases |steps|
  {
    if steps != [] {
      StepStaysStopped(t, w, steps[0]);
      NothingAfterStop(t, Next(t, w, steps[0]), steps[1..]);
    }
  }

  lemma {:induction false} ButtonsStayStopped(w: World, before: bv8, after: bv8, n: nat)
    requires Shaped(w) && w.stopping && n <= BUTTONS
    ensures ChangeButtons(w, before, after, n).published == w.published
  {
    if n > 0 { ButtonsStayStopped(w, before, after, n - 1); }
  }

  lemma {:induction false} StepStaysStopped(t: Table, w: World, step: Step)
    requires Shaped(w) && w.stopping
    ensures Next(t, w, step).stopping && Next(t, w, step).published == w.published
  {
    if step.PointerEvent? && Active(w, step.id) { ButtonsStayStopped(w, w.clients[step.id].mask, step.mask, BUTTONS); }
  }

  // ---- coming and going -------------------------------------------------------------------------------

  // A viewer's input counts from its announcement until it leaves.
  lemma {:induction false} ActiveFromAnnouncementToDeparture(t: Table, w: World, id: nat)
    requires Inv(t, w) && !w.stopping
    ensures Next(t, w, Connect).clients == w.clients + [NEW_CLIENT]
    ensures id < |w.clients| && w.clients[id].open && !w.clients[id].gone ==> Active(Next(t, w, Announce(id)), id)
    ensures id < |w.clients| ==> !Active(Next(t, w, Disconnect(id)), id) && Next(t, w, Disconnect(id)).clients[id].gone
    ensures Next(t, w, Stop).stopping
  {
    if id < |w.clients| && !w.clients[id].gone {
      ReleaseHeldKeepsInv(t, w, id);
      assert Next(t, w, Disconnect(id)).clients[id].gone;
    }
  }

  lemma {:induction false} InactiveIsIgnored(t: Table, w: World, id: nat, keysym: nat, pressed: bool, mask: bv8, valid: bool)
    requires Shaped(w) && !Active(w, id)
    ensures Next(t, w, KeyEvent(id, keysym, pressed)) == w && Next(t, w, PointerEvent(id, mask, valid)) == w
  {
  }

  // A pointer event with a usable viewport leaves its mask with the viewer.
  lemma {:induction false} PointerTakesMask(t: Table, w: World, id: nat, mask: bv8, button: nat)
    requires Inv(t, w) && !w.stopping && Active(w, id) && button < BUTTONS
    ensures var w' := Next(t, w, PointerEvent(id, mask, true));
            && w'.clients[id].mask == mask && Next(t, w, PointerEvent(id, mask, false)) == w
            && (LatestButton(w'.published, button) == Some(true) <==> ButtonHolders(w'.clients, button) > 0)
            && ButtonHolders(w'.clients, button) + (if Down(w.clients[id].mask, button) then 1 else 0)
               == ButtonHolders(w.clients, button) + (if Down(mask, button) then 1 else 0)
  {
    var w' := Next(t, w, PointerEvent(id, mask, true));
    StepKeepsInv(t, w, PointerEvent(id, mask, true));
    assert ButtonOk(w', w'.clients, button);
    ButtonHoldersAfter(w.clients, id, w'.clients[id], button);
  }
}
