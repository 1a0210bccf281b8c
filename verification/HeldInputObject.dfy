// The holder counts of src/runtime/src/transport/rfb_transport.cpp, kept in place: the
// methods follow deliverKey, deliverPointer and releaseHeldInput and are proved to do what
// HeldInput says.
module HeldInputObject {
  import opened HeldInput

  class InputHub {
    const table: Table
    const keyHolders: array<nat>
    const buttonHolders: array<nat>
    var clients: seq<Client>
    var published: seq<Transition>
    var stopping: bool

    ghost predicate Valid()
      reads this
    {
      keyHolders.Length == KEYS && buttonHolders.Length == BUTTONS && keyHolders != buttonHolders
    }

    ghost function Now(): (w: World)
      requires Valid()
      reads this, keyHolders, buttonHolders
      ensures Shaped(w)
    {
      World(clients, keyHolders[..], buttonHolders[..], published, stopping)
    }

    constructor (table: Table)
      ensures Valid() && Now() == INITIAL && fresh(keyHolders) && fresh(buttonHolders)
    {
      this.table := table;
      keyHolders := new nat[KEYS](_ => 0);
      buttonHolders := new nat[BUTTONS](_ => 0);
      clients, published, stopping := [], [], false;
    }

    method PublishChange(change: Transition)
      requires Valid()
      modifies this`published
      ensures Valid() && Now() == Publish(old(Now()), change)
    {
      if !stopping { published := published + [change]; }
    }

    method DeliverKeyEvent(id: nat, keysym: nat, pressed: bool)
      requires Valid() && id < |clients|
      modifies this, keyHolders
      ensures Valid() && Now() == DeliverKey(table, old(Now()), id, keysym, pressed)
    {
      var key := Code(table, keysym);
      var publishTransition := true;
      if key != 0 {
        var c := clients[id];
        var at := IndexOf(c.held, keysym);
        if pressed {
          if at == |c.held| {
            if |c.held| >= MAX_HELD_KEYS {
              clients := clients[id := c.(open := false)];
              return;
            }
            publishTransition := keyHolders[key] == 0;
            clients := clients[id := c.(held := c.held + [keysym])];
            keyHolders[key] := keyHolders[key] + 1;
          }
        } else if at < |c.held| {
          clients := clients[id := c.(held := c.held[..at] + c.held[at + 1..])];
          if keyHolders[key] != 0 { keyHolders[key] := keyHolders[key] - 1; }
          publishTransition := keyHolders[key] == 0;
        } else {
          publishTransition := false;
        }
      }
      if publishTransition { PublishChange(KeyChange(key, pressed)); }
    }

    // One button of the loops in deliverPointer and releaseHeldInput.
    method CountButton(before: bv8, after: bv8, button: nat)
      requires Valid() && button < BUTTONS
      modifies this`published, buttonHolders
      ensures Valid() && Now() == ChangeButton(old(Now()), before, after, button)
    {
      var wasDown, down := Down(before, button), Down(after, button);
      if wasDown == down { return; }
      var publishTransition := false;
      if down {
        publishTransition := buttonHolders[button] == 0;
        buttonHolders[button] := buttonHolders[button] + 1;
      } else if buttonHolders[button] != 0 {
        buttonHolders[button] := buttonHolders[button] - 1;
        publishTransition := buttonHolders[button] == 0;
      }
      if publishTransition { PublishChange(ButtonChange(button, down)); }
    }

    method CountButtons(before: bv8, after: bv8)
      requires Valid()
      modifies this`published, buttonHolders
      ensures Valid() && Now() == ChangeButtons(old(Now()), before, after, BUTTONS)
    {
      var index := 0;
      while index < BUTTONS
        invariant 0 <= index <= BUTTONS && Valid()
        invariant Now() == ChangeButtons(old(Now()), before, after, index)
      {
        CountButton(before, after, index);
        index := index + 1;
      }
    }

    method DeliverPointerEvent(id: nat, mask: bv8, viewportValid: bool)
      requires Valid() && id < |clients|
      modifies this, buttonHolders
      ensures Valid() && Now() == DeliverPointer(old(Now()), id, mask, viewportValid)
    {
      if !viewportValid { return; }
      CountButtons(clients[id].mask, mask);
      clients := clients[id := clients[id].(mask := mask, positionKnown := true, viewportValid := true)];
    }

    method ReleaseKeys(id: nat, keysyms: seq<nat>)
      requires Valid() && id < |clients|
      modifies this, keyHolders
      ensures Valid() && Now() == ReleaseAll(table, old(Now()), id, keysyms)
    {
      var i := 0;
      while i < |keysyms|
        invariant 0 <= i <= |keysyms| && Valid() && id < |clients| && buttonHolders[..] == old(buttonHolders[..])
        invariant ReleaseAll(table, Now(), id, keysyms[i..]) == ReleaseAll(table, old(Now()), id, keysyms)
      {
        assert keysyms[i..][1..] == keysyms[i + 1..];
        DeliverKeyEvent(id, keysyms[i], false);
        i := i + 1;
      }
    }

    // The keysyms that are not modifiers are chosen from a copy of the list.
    method PlainKeysOf(keysyms: seq<nat>) returns (plain: seq<nat>)
      ensures plain == PlainKeys(table, keysyms)
    {
      plain := [];
      var i := |keysyms|;
      while i > 0
        invariant 0 <= i <= |keysyms|
        invariant plain == PlainKeys(table, keysyms[i..])
      {
        i := i - 1;
        assert keysyms[i..][1..] == keysyms[i + 1..];
        if !table.modifier(Code(table, keysyms[i])) { plain := [keysyms[i]] + plain; }
      }
    }

    method ReleaseHeldInput(id: nat)
      requires Valid() && id < |clients|
      modifies this, keyHolders, buttonHolders
      ensures Valid() && Now() == ReleaseHeld(table, old(Now()), id)
    {
      var c := clients[id];
      if stopping || !c.announced { return; }
      if c.positionKnown && c.mask != 0 && c.viewportValid { CountButtons(c.mask, 0); }
      clients := clients[id := c.(mask := 0)];
      var plain := PlainKeysOf(c.held);
      ReleaseKeys(id, plain);
      ReleaseKeys(id, clients[id].held);
      clients := clients[id := clients[id].(held := [])];
    }
  }
}
