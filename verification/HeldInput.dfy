// Keys and buttons held by several viewers at once
// (src/runtime/src/transport/rfb_transport.cpp).
module HeldInput {
  // deliverKey, deliverPointer and releaseHeldInput count the holders of every key and button
  // and publish a transition only when the count leaves or reaches zero.

  import opened Option

  const KEYS: nat := 70        // key codes 1..69; 0 is Unknown
  const BUTTONS: nat := 3
  const MAX_HELD_KEYS: nat := 64

  // The keysym table: the key code of every keysym, and which codes are modifiers.  Several
  // keysyms may share a code.
  datatype Table = Table(code: nat -> nat, modifier: nat -> bool)

  function Code(t: Table, keysym: nat): (code: nat)
    ensures code < KEYS && (t.code(keysym) < KEYS ==> code == t.code(keysym))
  {
    if t.code(keysym) < KEYS then t.code(keysym) else 0
  }

  // A viewer; it stays in the list, empty, after it left.  open: no protocol failure yet.
  datatype Client = Client(announced: bool, open: bool, gone: bool, held: seq<nat>, mask: bv8,
                           positionKnown: bool, viewportValid: bool)

  const NEW_CLIENT: Client := Client(false, true, false, [], 0, false, false)

  // What was published: a key or button transition.  Pointer moves, scrolling and text carry
  // no hold and are not recorded.
  datatype Transition = KeyChange(key: nat, pressed: bool) | ButtonChange(button: nat, pressed: bool)

  datatype World = World(clients: seq<Client>, keyHolders: seq<nat>, buttonHolders: seq<nat>,
                         published: seq<Transition>, stopping: bool)

  const INITIAL: World := World([], seq(KEYS, _ => 0), seq(BUTTONS, _ => 0), [], false)

  // ---- what the worker does ------------------------------------------------------------------------

  function Bit(button: nat): bv8 {
    if button == 0 then 1 else if button == 1 then 2 else 4
  }

  predicate Down(mask: bv8, button: nat) {
    mask & Bit(button) != 0
  }

  function Publish(w: World, change: Transition): World {
    if w.stopping then w else w.(published := w.published + [change])
  }

  function IndexOf(s: seq<nat>, x: nat): (i: nat)
    ensures i <= |s| && (i < |s| ==> s[i] == x) && (i == |s| <==> x !in s)
  {
    if s == [] then 0 else if s[0] == x then 0 else 1 + IndexOf(s[1..], x)
  }

  function Without(s: seq<nat>, x: nat): seq<nat> {
    var i := IndexOf(s, x);
    if i < |s| then s[..i] + s[i + 1..] else s
  }

  function Less(n: nat): nat {
    if n > 0 then n - 1 else 0
  }

  predicate Shaped(w: World) {
    |w.keyHolders| == KEYS && |w.buttonHolders| == BUTTONS
  }

  function Press(w: World, id: nat, keysym: nat, key: nat): World
    requires Shaped(w) && id < |w.clients| && 0 < key < KEYS
  {
    var c := w.clients[id];
    if keysym in c.held then Publish(w, KeyChange(key, true))
    else if |c.held| >= MAX_HELD_KEYS then w.(clients := w.clients[id := c.(open := false)])
    else
      var w' := w.(clients := w.clients[id := c.(held := c.held + [keysym])],
                   keyHolders := w.keyHolders[key := w.keyHolders[key] + 1]);
      if w.keyHolders[key] == 0 then Publish(w', KeyChange(key, true)) else w'
  }

  function Release(w: World, id: nat, keysym: nat, key: nat): World
    requires Shaped(w) && id < |w.clients| && 0 < key < KEYS
  {
    var c := w.clients[id];
    if keysym !in c.held then w
    else
      var w' := w.(clients := w.clients[id := c.(held := Without(c.held, keysym))],
                   keyHolders := w.keyHolders[key := Less(w.keyHolders[key])]);
      if w'.keyHolders[key] == 0 then Publish(w', KeyChange(key, false)) else w'
  }

  // An unknown key is published as it comes and never held.
  function DeliverKey(t: Table, w: World, id: nat, keysym: nat, pressed: bool): World
    requires Shaped(w) && id < |w.clients|
  {
    var key := Code(t, keysym);
    if key == 0 then Publish(w, KeyChange(0, pressed))
    else if pressed then Press(w, id, keysym, key)
    else Release(w, id, keysym, key)
  }

  // One pass of the button loop: before and after are the client's old and new mask.
  function ChangeButton(w: World, before: bv8, after: bv8, button: nat): World
    requires Shaped(w) && button < BUTTONS
  {
    if Down(before, button) == Down(after, button) then w
    else if Down(after, button) then
      var w' := w.(buttonHolders := w.buttonHolders[button := w.buttonHolders[button] + 1]);
      if w.buttonHolders[button] == 0 then Publish(w', ButtonChange(button, true)) else w'
    else if w.buttonHolders[button] == 0 then w
    else
      var w' := w.(buttonHolders := w.buttonHolders[button := w.buttonHolders[button] - 1]);
      if w'.buttonHolders[button] == 0 then Publish(w', ButtonChange(button, false)) else w'
  }

  function ChangeButtons(w: World, before: bv8, after: bv8, n: nat): (w': World)
    requires Shaped(w) && n <= BUTTONS
    ensures Shaped(w') && w'.clients == w.clients && w'.keyHolders == w.keyHolders && w'.stopping == w.stopping
  {
    if n == 0 then w else ChangeButton(ChangeButtons(w, before, after, n - 1), before, after, n - 1)
  }

  function DeliverPointer(w: World, id: nat, mask: bv8, viewportValid: bool): World
    requires Shaped(w) && id < |w.clients|
  {
    var c := w.clients[id];
    if !viewportValid then w
    else
      ChangeButtons(w, c.mask, mask, BUTTONS).(
      clients := w.clients[id := c.(mask := mask, positionKnown := true, viewportValid := true)])
  }

  // The keysyms of a list are released one after the other.
  function ReleaseAll(t: Table, w: World, id: nat, keysyms: seq<nat>): (w': World)
    requires Shaped(w) && id < |w.clients|
    ensures Shaped(w') && |w'.clients| == |w.clients|
    decreases |keysyms|
  {
    if keysyms == [] then w else ReleaseAll(t, DeliverKey(t, w, id, keysyms[0], false), id, keysyms[1..])
  }

  // The plain keys of a list, in its order.
  function PlainKeys(t: Table, keysyms: seq<nat>): seq<nat> {
    if keysyms == [] then []
    else (if t.modifier(Code(t, keysyms[0])) then [] else [keysyms[0]]) + PlainKeys(t, keysyms[1..])
  }

  // Buttons first, then the plain keys, then what is left: the modifiers.
  function ReleaseHeld(t: Table, w: World, id: nat): World
    requires Shaped(w) && id < |w.clients|
  {
    var c := w.clients[id];
    if w.stopping || !c.announced then w
    else
      var w1 := if c.positionKnown && c.mask != 0 && c.viewportValid then ChangeButtons(w, c.mask, 0, BUTTONS) else w;
      var w2 := w1.(clients := w1.clients[id := c.(mask := 0)]);
      var w3 := ReleaseAll(t, w2, id, PlainKeys(t, c.held));
      var w4 := ReleaseAll(t, w3, id, w3.clients[id].held);
      w4.(clients := w4.clients[id := w4.clients[id].(held := [])])
  }

  datatype Step =
    | Connect
    | Announce(id: nat)
    | KeyEvent(id: nat, keysym: nat, pressed: bool)
    | PointerEvent(id: nat, mask: bv8, viewportValid: bool)
    | Disconnect(id: nat)
    | Stop

  predicate Active(w: World, id: nat) {
    id < |w.clients| && w.clients[id].announced && w.clients[id].open && !w.clients[id].gone
  }

  // Messages are processed only in the Normal phase, which comes after the announcement.
  function Next(t: Table, w: World, step: Step): (w': World)
    requires Shaped(w)
    ensures Shaped(w')
  {
    match step
    case Connect => w.(clients := w.clients + [NEW_CLIENT])
    case Announce(id) =>
      if id < |w.clients| then w.(clients := w.clients[id := w.clients[id].(announced := true)]) else w
    case KeyEvent(id, keysym, pressed) =>
      if Active(w, id) then DeliverKey(t, w, id, keysym, pressed) else w
    case PointerEvent(id, mask, viewportValid) =>
      if Active(w, id) then DeliverPointer(w, id, mask, viewportValid) else w
    case Disconnect(id) =>
      if id < |w.clients| && !w.clients[id].gone then
        var w' := ReleaseHeld(t, w, id);
        if id < |w'.clients| then w'.(clients := w'.clients[id := w'.clients[id].(gone := true)]) else w'
      else w
    case Stop => w.(stopping := true)
  }

  // ---- the counts ------------------------------------------------------------------------------------

  function One(b: bool): nat {
    if b then 1 else 0
  }

  // How many keysyms of a list have a given key code.
  function KeysOf(t: Table, held: seq<nat>, key: nat): nat {
    if held == [] then 0 else One(Code(t, held[0]) == key) + KeysOf(t, held[1..], key)
  }

  function KeyHolders(t: Table, clients: seq<Client>, key: nat): nat {
    if clients == [] then 0 else KeysOf(t, clients[0].held, key) + KeyHolders(t, clients[1..], key)
  }

  function ButtonHolders(clients: seq<Client>, button: nat): nat {
    if clients == [] then 0 else One(Down(clients[0].mask, button)) + ButtonHolders(clients[1..], button)
  }

  lemma {:induction false} KeyHoldersAfter(t: Table, clients: seq<Client>, id: nat, c: Client, key: nat)
    requires id < |clients|
    ensures KeyHolders(t, clients[id := c], key) + KeysOf(t, clients[id].held, key)
            == KeyHolders(t, clients, key) + KeysOf(t, c.held, key)
  {
    if id == 0 {
      assert clients[id := c][1..] == clients[1..];
    } else {
      assert clients[id := c][1..] == clients[1..][id - 1 := c];
      KeyHoldersAfter(t, clients[1..], id - 1, c, key);
    }
  }

  lemma {:induction false} ButtonHoldersAfter(clients: seq<Client>, id: nat, c: Client, button: nat)
    requires id < |clients|
    ensures ButtonHolders(clients[id := c], button) + One(Down(clients[id].mask, button))
            == ButtonHolders(clients, button) + One(Down(c.mask, button))
  {
    if id == 0 {
      assert clients[id := c][1..] == clients[1..];
    } else {
      assert clients[id := c][1..] == clients[1..][id - 1 := c];
      ButtonHoldersAfter(clients[1..], id - 1, c, button);
    }
  }

  lemma {:induction false} ConnectAddsNothing(t: Table, clients: seq<Client>, key: nat, button: nat)
    ensures KeyHolders(t, clients + [NEW_CLIENT], key) == KeyHolders(t, clients, key)
    ensures ButtonHolders(clients + [NEW_CLIENT], button) == ButtonHolders(clients, button)
  {
    if clients == [] {
      assert clients + [NEW_CLIENT] == [NEW_CLIENT];
      assert KeyHolders(t, [NEW_CLIENT], key) == KeysOf(t, [], key) + KeyHolders(t, [], key);
      assert ButtonHolders([NEW_CLIENT], button) == One(Down(0, button)) + ButtonHolders([], button);
    } else {
      assert (clients + [NEW_CLIENT])[1..] == clients[1..] + [NEW_CLIENT];
      ConnectAddsNothing(t, clients[1..], key, button);
    }
  }

  lemma {:induction false} KeysAppend(t: Table, held: seq<nat>, keysym: nat, key: nat)
    ensures KeysOf(t, held + [keysym], key) == KeysOf(t, held, key) + One(Code(t, keysym) == key)
  {
    if held == [] {
      assert held + [keysym] == [keysym] && [keysym][1..] == [];
    } else {
      assert (held + [keysym])[1..] == held[1..] + [keysym];
      KeysAppend(t, held[1..], keysym, key);
    }
  }

  lemma {:induction false} WithoutTail(s: seq<nat>, x: nat)
    requires s != [] && s[0] != x
    ensures Without(s, x) == [s[0]] + Without(s[1..], x)
  {
    var i := IndexOf(s[1..], x);
    assert IndexOf(s, x) == i + 1;
    if i < |s[1..]| {
      assert s[..i + 1] == [s[0]] + s[1..][..i];
      assert s[i + 2..] == s[1..][i + 1..];
    }
  }

  lemma {:induction false} KeysWithout(t: Table, held: seq<nat>, keysym: nat, key: nat)
    requires keysym in held
    ensures KeysOf(t, held, key) == KeysOf(t, Without(held, keysym), key) + One(Code(t, keysym) == key)
  {
    if held[0] == keysym {
      assert Without(held, keysym) == held[1..];
    } else {
      var rest := held[1..];
      KeysWithout(t, rest, keysym, key);
      WithoutTail(held, keysym);
      assert ([held[0]] + Without(rest, keysym))[1..] == Without(rest, keysym);
    }
  }

  lemma {:induction false} HeldCounts(t: Table, held: seq<nat>, key: nat)
    ensures KeysOf(t, held, key) > 0 <==> exists i :: 0 <= i < |held| && Code(t, held[i]) == key
  {
    if held != [] {
      HeldCounts(t, held[1..], key);
      if KeysOf(t, held[1..], key) > 0 {
        var i :| 0 <= i < |held[1..]| && Code(t, held[1..][i]) == key;
        assert held[i + 1] == held[1..][i];
      }
      if exists i :: 0 < i < |held| && Code(t, held[i]) == key {
        var i :| 0 < i < |held| && Code(t, held[i]) == key;
        assert held[1..][i - 1] == held[i];
      }
    }
  }

  predicate HoldsKey(t: Table, c: Client, key: nat) {
    exists i :: 0 <= i < |c.held| && Code(t, c.held[i]) == key
  }

  lemma {:induction false} HoldersAreClients(t: Table, clients: seq<Client>, key: nat, button: nat)
    ensures KeyHolders(t, clients, key) > 0 <==> exists i :: 0 <= i < |clients| && HoldsKey(t, clients[i], key)
    ensures ButtonHolders(clients, button) > 0 <==> exists i :: 0 <= i < |clients| && Down(clients[i].mask, button)
  {
    if clients != [] {
      var rest := clients[1..];
      HeldCounts(t, clients[0].held, key);
      HoldersAreClients(t, rest, key, button);
      if KeyHolders(t, rest, key) > 0 {
        var i :| 0 <= i < |rest| && HoldsKey(t, rest[i], key);
        assert clients[i + 1] == rest[i];
      }
      if exists i :: 0 < i < |clients| && HoldsKey(t, clients[i], key) {
        var i :| 0 < i < |clients| && HoldsKey(t, clients[i], key);
        assert rest[i - 1] == clients[i];
      }
      if ButtonHolders(rest, button) > 0 {
        var i :| 0 <= i < |rest| && Down(rest[i].mask, button);
        assert clients[i + 1] == rest[i];
      }
      if exists i :: 0 < i < |clients| && Down(clients[i].mask, button) {
        var i :| 0 < i < |clients| && Down(clients[i].mask, button);
        assert rest[i - 1] == clients[i];
      }
    }
  }

  // The latest published transition of a key or button: Some(true) for a press.
  function LatestKey(published: seq<Transition>, key: nat): Option<bool> {
    if published == [] then None
    else
      var last := published[|published| - 1];
      if last.KeyChange? && last.key == key then Some(last.pressed)
      else LatestKey(published[..|published| - 1], key)
  }

  function LatestButton(published: seq<Transition>, button: nat): Option<bool> {
    if published == [] then None
    else
      var last := published[|published| - 1];
      if last.ButtonChange? && last.button == button then Some(last.pressed)
      else LatestButton(published[..|published| - 1], button)
  }

  lemma {:induction false} Published(published: seq<Transition>, change: Transition, key: nat, button: nat)
    ensures LatestKey(published + [change], key) ==
            if change.KeyChange? && change.key == key then Some(change.pressed) else LatestKey(published, key)
    ensures LatestButton(published + [change], button) ==
            if change.ButtonChange? && change.button == button then Some(change.pressed)
            else LatestButton(published, button)
  {
    assert (published + [change])[..|published|] == published;
  }

  // ---- the invariant ---------------------------------------------------------------------------------

  // The count is the number of holders, and the latest published transition is a press
  // exactly when somebody holds the key.
  predicate KeyOk(t: Table, w: World, key: nat)
    requires Shaped(w) && key < KEYS
  {
    && w.keyHolders[key] == KeyHolders(t, w.clients, key)
    && (LatestKey(w.published, key) == Some(true) <==> w.keyHolders[key] > 0)
  }

  predicate ButtonOk(w: World, clients: seq<Client>, button: nat)
    requires Shaped(w) && button < BUTTONS
  {
    && w.buttonHolders[button] == ButtonHolders(clients, button)
    && (LatestButton(w.published, button) == Some(true) <==> w.buttonHolders[button] > 0)
  }

  predicate NoButtons(c: Client) {
    !Down(c.mask, 0) && !Down(c.mask, 1) && !Down(c.mask, 2)
  }

  predicate ClientOk(t: Table, c: Client) {
    && |c.held| <= MAX_HELD_KEYS
    && (forall i :: 0 <= i < |c.held| ==> Code(t, c.held[i]) != 0)
    && (c.gone || !c.announced ==> c.held == [] && NoButtons(c))
    && (NoButtons(c) || (c.positionKnown && c.viewportValid))
  }

  ghost predicate KeysOk(t: Table, w: World)
    requires Shaped(w)
  {
    forall key :: 0 < key < KEYS ==> KeyOk(t, w, key)
  }

  ghost predicate ButtonsOk(w: World, clients: seq<Client>)
    requires Shaped(w)
  {
    forall button :: 0 <= button < BUTTONS ==> ButtonOk(w, clients, button)
  }

  ghost predicate ClientsOk(t: Table, clients: seq<Client>) {
    forall i :: 0 <= i < |clients| ==> ClientOk(t, clients[i])
  }

  ghost predicate Inv(t: Table, w: World) {
    Shaped(w) && (!w.stopping ==> KeysOk(t, w) && ButtonsOk(w, w.clients) && ClientsOk(t, w.clients))
  }

  lemma {:induction false} HolderCounts(t: Table, w: World, id: nat, keysym: nat)
    requires id < |w.clients| && keysym in w.clients[id].held
    ensures KeyHolders(t, w.clients, Code(t, keysym)) > 0
  {
    assert w.clients[id].held[IndexOf(w.clients[id].held, keysym)] == keysym;
    assert HoldsKey(t, w.clients[id], Code(t, keysym));
    HoldersAreClients(t, w.clients, Code(t, keysym), 0);
  }

  lemma {:induction false} PressKeepsKey(t: Table, w: World, id: nat, keysym: nat, k: nat)
    requires Inv(t, w) && !w.stopping && id < |w.clients| && Code(t, keysym) != 0 && 0 < k < KEYS
    ensures KeyOk(t, Press(w, id, keysym, Code(t, keysym)), k)
  {
    var key := Code(t, keysym);
    var c := w.clients[id];
    if keysym in c.held { HolderCounts(t, w, id, keysym); }
    assert KeyOk(t, w, key) && KeyOk(t, w, k);
    KeyHoldersAfter(t, w.clients, id, Press(w, id, keysym, key).clients[id], k);
    KeysAppend(t, c.held, keysym, k);
    Published(w.published, KeyChange(key, true), k, 0);
  }

  lemma {:induction false} PressKeepsButton(t: Table, w: World, id: nat, keysym: nat, b: nat)
    requires Inv(t, w) && !w.stopping && id < |w.clients| && Code(t, keysym) != 0 && b < BUTTONS
    ensures var w' := Press(w, id, keysym, Code(t, keysym));
            ButtonOk(w', w'.clients, b)
  {
    var key := Code(t, keysym);
    var w' := Press(w, id, keysym, key);
    assert w'.clients == w.clients[id := w'.clients[id]] && w'.clients[id].mask == w.clients[id].mask;
    assert ButtonHolders(w'.clients, b) == ButtonHolders(w.clients, b) by {
      ButtonHoldersAfter(w.clients, id, w'.clients[id], b);
    }
    assert LatestButton(w'.published, b) == LatestButton(w.published, b) by {
      Published(w.published, KeyChange(key, true), 0, b);
    }
    assert ButtonOk(w, w.clients, b);
  }

  lemma {:induction false} PressKeepsInv(t: Table, w: World, id: nat, keysym: nat)
    requires Inv(t, w) && !w.stopping && id < |w.clients| && Code(t, keysym) != 0
    requires w.clients[id].announced && !w.clients[id].gone
    ensures Inv(t, Press(w, id, keysym, Code(t, keysym)))
  {
    var w' := Press(w, id, keysym, Code(t, keysym));
    forall k | 0 < k < KEYS
      ensures KeyOk(t, w', k)
    {
      PressKeepsKey(t, w, id, keysym, k);
    }
    forall b | 0 <= b < BUTTONS
      ensures ButtonOk(w', w'.clients, b)
    {
      PressKeepsButton(t, w, id, keysym, b);
    }
    assert ClientOk(t, w.clients[id]);
  }

  lemma {:induction false} ReleaseKeepsInv(t: Table, w: World, id: nat, keysym: nat)
    requires Inv(t, w) && !w.stopping && id < |w.clients| && Code(t, keysym) != 0
    ensures Inv(t, Release(w, id, keysym, Code(t, keysym)))
  {
    var key := Code(t, keysym);
    var c := w.clients[id];
    var w' := Release(w, id, keysym, key);
    if keysym !in c.held { return; }
    HolderCounts(t, w, id, keysym);
    assert KeyOk(t, w, key);
    forall k | 0 < k < KEYS
      ensures KeyOk(t, w', k)
    {
      assert KeyOk(t, w, k);
      KeyHoldersAfter(t, w.clients, id, w'.clients[id], k);
      KeysWithout(t, c.held, keysym, k);
      Published(w.published, KeyChange(key, false), k, 0);
    }
    forall b | 0 <= b < BUTTONS
      ensures ButtonOk(w', w'.clients, b)
    {
      assert ButtonOk(w, w.clients, b);
      ButtonHoldersAfter(w.clients, id, w'.clients[id], b);
      Published(w.published, KeyChange(key, false), 0, b);
    }
    assert ClientOk(t, c);
  }

  lemma {:induction false} KeyKeepsInv(t: Table, w: World, id: nat, keysym: nat, pressed: bool)
    requires Inv(t, w) && !w.stopping && id < |w.clients| && w.clients[id].announced && !w.clients[id].gone
    ensures Inv(t, DeliverKey(t, w, id, keysym, pressed))
  {
    if Code(t, keysym) == 0 {
      var w' := Publish(w, KeyChange(0, pressed));
      forall k | 0 < k < KEYS
        ensures KeyOk(t, w', k)
      {
        assert KeyOk(t, w, k);
        Published(w.published, KeyChange(0, pressed), k, 0);
      }
      forall b | 0 <= b < BUTTONS
        ensures ButtonOk(w', w'.clients, b)
      {
        assert ButtonOk(w, w.clients, b);
        Published(w.published, KeyChange(0, pressed), 0, b);
      }
    } else if pressed {
      PressKeepsInv(t, w, id, keysym);
    } else {
      ReleaseKeepsInv(t, w, id, keysym);
    }
  }

  // One button: its count moves from the old mask of the client to the new one; nothing else moves.
  lemma {:induction false} ChangeButtonOk(t: Table, w: World, id: nat, c: Client, button: nat)
    requires Shaped(w) && !w.stopping && id < |w.clients| && button < BUTTONS && ButtonOk(w, w.clients, button)
    ensures var w' := ChangeButton(w, w.clients[id].mask, c.mask, button);
            && ButtonOk(w', w.clients[id := c], button)
            && w'.keyHolders == w.keyHolders
            && (forall b :: 0 <= b < BUTTONS && b != button ==>
                  w'.buttonHolders[b] == w.buttonHolders[b]
                  && LatestButton(w'.published, b) == LatestButton(w.published, b))
            && (forall k :: LatestKey(w'.published, k) == LatestKey(w.published, k))
  {
    ButtonHoldersAfter(w.clients, id, c, button);
    forall k: nat, b: nat, on: bool
      ensures LatestKey(w.published + [ButtonChange(button, on)], k) == LatestKey(w.published, k)
      ensures LatestButton(w.published + [ButtonChange(button, on)], b) ==
              if b == button then Some(on) else LatestButton(w.published, b)
    {
      Published(w.published, ButtonChange(button, on), k, b);
    }
  }

  // The first n buttons are counted for the changed client, the others still for the old one.
  ghost predicate HalfChanged(w: World, w': World, changed: seq<Client>, n: nat)
    requires Shaped(w') && n <= BUTTONS
  {
    && (forall b: nat :: b < n ==> ButtonOk(w', changed, b))
    && (forall b: nat :: n <= b < BUTTONS ==> ButtonOk(w', w.clients, b))
    && (forall k :: LatestKey(w'.published, k) == LatestKey(w.published, k))
  }

  lemma {:induction false} ChangeButtonsOk(t: Table, w: World, id: nat, c: Client, n: nat)
    requires Shaped(w) && !w.stopping && id < |w.clients| && n <= BUTTONS && ButtonsOk(w, w.clients)
    ensures HalfChanged(w, ChangeButtons(w, w.clients[id].mask, c.mask, n), w.clients[id := c], n)
  {
    if n > 0 {
      ChangeButtonsOk(t, w, id, c, n - 1);
      var w1 := ChangeButtons(w, w.clients[id].mask, c.mask, n - 1);
      var w2 := ChangeButtons(w, w.clients[id].mask, c.mask, n);
      var changed := w.clients[id := c];
      assert ButtonOk(w1, w.clients, n - 1);
      ChangeButtonOk(t, w1, id, c, n - 1);
      assert w2 == ChangeButton(w1, w.clients[id].mask, c.mask, n - 1);
      forall b: nat | b < n
        ensures ButtonOk(w2, changed, b)
      {
        assert b < n - 1 ==> ButtonOk(w1, changed, b);
      }
      forall b: nat | n <= b < BUTTONS
        ensures ButtonOk(w2, w.clients, b)
      {
        assert ButtonOk(w1, w.clients, b);
      }
    }
  }

  // A client whose mask changes, with the buttons counted accordingly.
  lemma {:induction false} MaskKeepsInv(t: Table, w: World, id: nat, c: Client)
    requires Inv(t, w) && !w.stopping && id < |w.clients| && c.held == w.clients[id].held && ClientOk(t, c)
    ensures Inv(t, ChangeButtons(w, w.clients[id].mask, c.mask, BUTTONS).(clients := w.clients[id := c]))
  {
    var w1 := ChangeButtons(w, w.clients[id].mask, c.mask, BUTTONS);
    var w' := w1.(clients := w.clients[id := c]);
    ChangeButtonsOk(t, w, id, c, BUTTONS);
    forall k | 0 < k < KEYS
      ensures KeyOk(t, w', k)
    {
      assert KeyOk(t, w, k);
      KeyHoldersAfter(t, w.clients, id, c, k);
    }
    forall b | 0 <= b < BUTTONS
      ensures ButtonOk(w', w'.clients, b)
    {
      assert ButtonOk(w1, w.clients[id := c], b);
    }
  }

  // A client whose holds stay as they are.
  lemma {:induction false} FlagsKeepInv(t: Table, w: World, id: nat, c: Client)
    requires Inv(t, w) && !w.stopping && id < |w.clients| && ClientOk(t, c)
    requires c.held == w.clients[id].held && forall b :: Down(c.mask, b) == Down(w.clients[id].mask, b)
    ensures Inv(t, w.(clients := w.clients[id := c]))
  {
    var w' := w.(clients := w.clients[id := c]);
    forall k | 0 < k < KEYS
      ensures KeyOk(t, w', k)
    {
      assert KeyOk(t, w, k);
      KeyHoldersAfter(t, w.clients, id, c, k);
    }
    forall b | 0 <= b < BUTTONS
      ensures ButtonOk(w', w'.clients, b)
    {
      assert ButtonOk(w, w.clients, b);
      ButtonHoldersAfter(w.clients, id, c, b);
    }
  }

  lemma {:induction false} ReleaseAllKeepsInv(t: Table, w: World, id: nat, keysyms: seq<nat>)
    requires Inv(t, w) && !w.stopping && id < |w.clients| && w.clients[id].announced && !w.clients[id].gone
    ensures var w' := ReleaseAll(t, w, id, keysyms);
            && Inv(t, w') && !w'.stopping
            && w'.clients[id] == w.clients[id].(held := w'.clients[id].held)
    decreases |keysyms|
  {
    if keysyms != [] {
      KeyKeepsInv(t, w, id, keysyms[0], false);
      ReleaseAllKeepsInv(t, DeliverKey(t, w, id, keysyms[0], false), id, keysyms[1..]);
    }
  }

  // Releasing the keysyms a client holds leaves it with none.
  lemma {:induction false} ReleaseAllEmpties(t: Table, w: World, id: nat)
    requires Shaped(w) && id < |w.clients| && forall i :: 0 <= i < |w.clients[id].held| ==> Code(t, w.clients[id].held[i]) != 0
    ensures ReleaseAll(t, w, id, w.clients[id].held).clients[id].held == []
    decreases |w.clients[id].held|
  {
    var held := w.clients[id].held;
    if held != [] {
      var w' := DeliverKey(t, w, id, held[0], false);
      assert IndexOf(held, held[0]) == 0;
      assert w'.clients[id].held == held[1..];
      ReleaseAllEmpties(t, w', id);
    }
  }

  // releaseHeldInput up to the buttons.
  function ReleaseButtons(w: World, id: nat): World
    requires Shaped(w) && id < |w.clients|
  {
    var c := w.clients[id];
    var w1 := if c.positionKnown && c.mask != 0 && c.viewportValid then ChangeButtons(w, c.mask, 0, BUTTONS) else w;
    w1.(clients := w1.clients[id := c.(mask := 0)])
  }

  lemma {:induction false} ReleaseButtonsKeepsInv(t: Table, w: World, id: nat)
    requires Inv(t, w) && !w.stopping && id < |w.clients|
    ensures Inv(t, ReleaseButtons(w, id)) && NoButtons(ReleaseButtons(w, id).clients[id])
  {
    var c := w.clients[id];
    assert ClientOk(t, c);
    assert NoButtons(c.(mask := 0));
    if c.positionKnown && c.mask != 0 && c.viewportValid {
      MaskKeepsInv(t, w, id, c.(mask := 0));
    } else {
      FlagsKeepInv(t, w, id, c.(mask := 0));
    }
  }

  // The two passes over the keys leave none.
  lemma {:induction false} ReleaseHeldKeepsInv(t: Table, w: World, id: nat)
    requires Inv(t, w) && !w.stopping && id < |w.clients| && !w.clients[id].gone
    ensures var w' := ReleaseHeld(t, w, id);
            && Inv(t, w') && !w'.stopping && id < |w'.clients|
            && w'.clients[id].held == [] && NoButtons(w'.clients[id])
  {
    var c := w.clients[id];
    assert ClientOk(t, c);
    if !c.announced { return; }
    ReleaseButtonsKeepsInv(t, w, id);
    var w2 := ReleaseButtons(w, id);
    var w3 := ReleaseAll(t, w2, id, PlainKeys(t, c.held));
    var w4 := ReleaseAll(t, w3, id, w3.clients[id].held);
    ReleaseAllKeepsInv(t, w2, id, PlainKeys(t, c.held));
    ReleaseAllKeepsInv(t, w3, id, w3.clients[id].held);
    ReleaseAllEmpties(t, w3, id);
    assert w4.clients[id := w4.clients[id].(held := [])] == w4.clients;
  }

  lemma {:induction false} StepKeepsInv(t: Table, w: World, step: Step)
    requires Inv(t, w)
    ensures Inv(t, Next(t, w, step))
  {
    if w.stopping { return; }
    match step
    case Connect =>
      var w' := Next(t, w, Connect);
      assert NoButtons(NEW_CLIENT);
      forall k | 0 < k < KEYS
        ensures KeyOk(t, w', k)
      {
        assert KeyOk(t, w, k);
        ConnectAddsNothing(t, w.clients, k, 0);
      }
      forall b | 0 <= b < BUTTONS
        ensures ButtonOk(w', w'.clients, b)
      {
        assert ButtonOk(w, w.clients, b);
        ConnectAddsNothing(t, w.clients, 0, b);
      }
    case Announce(id) =>
      if id < |w.clients| {
        assert ClientOk(t, w.clients[id]);
        FlagsKeepInv(t, w, id, w.clients[id].(announced := true));
      }
    case KeyEvent(id, keysym, pressed) => if Active(w, id) { KeyKeepsInv(t, w, id, keysym, pressed); }
    case PointerEvent(id, mask, viewportValid) =>
      if Active(w, id) && viewportValid {
        assert ClientOk(t, w.clients[id]);
        MaskKeepsInv(t, w, id, w.clients[id].(mask := mask, positionKnown := true, viewportValid := true));
      }
    case Disconnect(id) =>
      if id < |w.clients| && !w.clients[id].gone {
        ReleaseHeldKeepsInv(t, w, id);
        var w' := ReleaseHeld(t, w, id);
        assert ClientOk(t, w'.clients[id]);
        FlagsKeepInv(t, w', id, w'.clients[id].(gone := true));
      }
    case Stop =>
  }

  // ---- whole runs ------------------------------------------------------------------------------------

  function Run(t: Table, w: World, steps: seq<Step>): (w': World)
    requires Shaped(w)
    ensures Shaped(w')
    decreases |steps|
  {
    if steps == [] then w else Run(t, Next(t, w, steps[0]), steps[1..])
  }

  lemma {:induction false} RunKeepsInv(t: Table, w: World, steps: seq<Step>)
    requires Inv(t, w)
    ensures Inv(t, Run(t, w, steps))
    decreases |steps|
  {
    if steps != [] {
      StepKeepsInv(t, w, steps[0]);
      RunKeepsInv(t, Next(t, w, steps[0]), steps[1..]);
    }
  }

  ghost predicate HeldByOne(t: Table, clients: seq<Client>, key: nat) {
    exists i :: 0 <= i < |clients| && HoldsKey(t, clients[i], key)
  }

  ghost predicate DownForOne(clients: seq<Client>, button: nat) {
    exists i :: 0 <= i < |clients| && Down(clients[i].mask, button)
  }

  lemma {:induction false} InitialInv(t: Table)
    ensures Inv(t, INITIAL)
  {
  }

  // What is published as held is the union of what the viewers hold: the count of a key is
  // the number of (viewer, keysym) holders, and its latest published transition is a press
  // exactly when there is a holder.  The same for the buttons.
  lemma {:induction false} HeldIsUnionOfViewers(t: Table, steps: seq<Step>, key: nat, button: nat)
    requires !Run(t, INITIAL, steps).stopping && 0 < key < KEYS && button < BUTTONS
    ensures var w := Run(t, INITIAL, steps);
            && w.keyHolders[key] == KeyHolders(t, w.clients, key)
            && w.buttonHolders[button] == ButtonHolders(w.clients, button)
            && (LatestKey(w.published, key) == Some(true) <==> HeldByOne(t, w.clients, key))
            && (LatestButton(w.published, button) == Some(true) <==> DownForOne(w.clients, button))
  {
    InitialInv(t);
    RunKeepsInv(t, INITIAL, steps);
    var w := Run(t, INITIAL, steps);
    assert KeyOk(t, w, key) && ButtonOk(w, w.clients, button);
    HoldersAreClients(t, w.clients, key, button);
  }

  // When a viewer has left, a key is held exactly when a remaining viewer holds it ...
  lemma {:induction false} LeavingReleasesKeys(t: Table, w: World, id: nat, key: nat)
    requires Inv(t, w) && !w.stopping && id < |w.clients| && !w.clients[id].gone && 0 < key < KEYS
    ensures var w' := Next(t, w, Disconnect(id));
            LatestKey(w'.published, key) == Some(true) <==>
              exists i :: 0 <= i < |w.clients| && i != id && HoldsKey(t, w.clients[i], key)
  {
    var w' := Departed(t, w, id);
    assert KeyOk(t, w', key);
    HoldersAreClients(t, w'.clients, key, 0);
    assert !HoldsKey(t, w'.clients[id], key);
    assert forall i :: 0 <= i < |w.clients| && i != id ==> (HoldsKey(t, w'.clients[i], key) <==> HoldsKey(t, w.clients[i], key));
  }

  // ... and a button exactly when a remaining viewer holds it down.
  lemma {:induction false} LeavingReleasesButtons(t: Table, w: World, id: nat, button: nat)
    requires Inv(t, w) && !w.stopping && id < |w.clients| && !w.clients[id].gone && button < BUTTONS
    ensures var w' := Next(t, w, Disconnect(id));
            LatestButton(w'.published, button) == Some(true) <==>
              exists i :: 0 <= i < |w.clients| && i != id && Down(w.clients[i].mask, button)
  {
    var w' := Departed(t, w, id);
    assert ButtonOk(w', w'.clients, button);
    HoldersAreClients(t, w'.clients, 1, button);
    assert !Down(w'.clients[id].mask, button);
    assert forall i :: 0 <= i < |w.clients| && i != id ==> w'.clients[i].mask == w.clients[i].mask;
  }

  // The state after a departure: the viewer is empty, the others are as they were.
  lemma {:induction false} Departed(t: Table, w: World, id: nat) returns (w': World)
    requires Inv(t, w) && !w.stopping && id < |w.clients| && !w.clients[id].gone
    ensures w' == Next(t, w, Disconnect(id)) && Inv(t, w') && !w'.stopping && |w'.clients| == |w.clients|
    ensures NoButtons(w'.clients[id]) && w'.clients[id].held == []
    ensures forall i :: 0 <= i < |w.clients| && i != id ==> w'.clients[i] == w.clients[i]
  {
    StepKeepsInv(t, w, Disconnect(id));
    w' := Next(t, w, Disconnect(id));
    ReleaseHeldKeepsInv(t, w, id);
    OthersUntouched(t, w, id);
  }

  lemma {:induction false} ReleaseAllSparesOthers(t: Table, w: World, id: nat, keysyms: seq<nat>)
    requires Shaped(w) && id < |w.clients|
    ensures var w' := ReleaseAll(t, w, id, keysyms);
            |w'.clients| == |w.clients| && forall i :: 0 <= i < |w.clients| && i != id ==> w'.clients[i] == w.clients[i]
    decreases |keysyms|
  {
    if keysyms != [] { ReleaseAllSparesOthers(t, DeliverKey(t, w, id, keysyms[0], false), id, keysyms[1..]); }
  }

  // A departure changes no other viewer.
  lemma {:induction false} OthersUntouched(t: Table, w: World, id: nat)
    requires Shaped(w) && id < |w.clients|
    ensures var w' := ReleaseHeld(t, w, id);
            |w'.clients| == |w.clients| && forall i :: 0 <= i < |w.clients| && i != id ==> w'.clients[i] == w.clients[i]
  {
    var c := w.clients[id];
    if w.stopping || !c.announced { return; }
    var w1 := if c.positionKnown && c.mask != 0 && c.viewportValid then ChangeButtons(w, c.mask, 0, BUTTONS) else w;
    var w2 := w1.(clients := w1.clients[id := c.(mask := 0)]);
    ReleaseAllSparesOthers(t, w2, id, PlainKeys(t, c.held));
    var w3 := ReleaseAll(t, w2, id, PlainKeys(t, c.held));
    ReleaseAllSparesOthers(t, w3, id, w3.clients[id].held);
  }
}
