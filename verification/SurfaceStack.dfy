// Stacking of application surfaces
// (src/runtime/src/automatic/application_surface_model.cpp).  A serial number given out on
// every show and raise stands for a list in which the surface moves to the end; when the
// counter is exhausted the visible surfaces are renumbered.
module SurfaceStack {
  // The largest 64-bit value.
  const MAX_SERIAL: nat := 0xFFFF_FFFF_FFFF_FFFF

  datatype Point = Point(x: int, y: int)

  datatype Rect = Rect(x: int, y: int, w: int, h: int) {
    predicate Empty() {
      w <= 0 || h <= 0
    }

    predicate Contains(p: Point) {
      x <= p.x < x + w && y <= p.y < y + h
    }
  }

  datatype Surface = Surface(id: nat, geometry: Rect, visible: bool, serial: nat)

  datatype Model = Model(surfaces: seq<Surface>, next: nat)

  const EMPTY_MODEL: Model := Model([], 1)

  // ---- sorting by serial, then by id -------------------------------------------------------------

  predicate Below(a: Surface, b: Surface) {
    a.serial < b.serial || (a.serial == b.serial && a.id < b.id)
  }

  predicate Shown(s: Surface) {
    s.visible && !s.geometry.Empty()
  }

  function Insert(sorted: seq<Surface>, s: Surface): seq<Surface> {
    if sorted == [] then [s]
    else if Below(s, sorted[0]) then [s] + sorted
    else [sorted[0]] + Insert(sorted[1..], s)
  }

  // visibleBackToFront
  function BackToFront(surfaces: seq<Surface>): seq<Surface> {
    if surfaces == [] then []
    else
      var rest := BackToFront(surfaces[1..]);
      if Shown(surfaces[0]) then Insert(rest, surfaces[0]) else rest
  }

  predicate Sorted(list: seq<Surface>) {
    forall i, j :: 0 <= i < j < |list| ==> Below(list[i], list[j])
  }

  predicate UniqueIds(surfaces: seq<Surface>) {
    forall i, j :: 0 <= i < j < |surfaces| ==> surfaces[i].id != surfaces[j].id
  }

  lemma {:induction false} InsertHolds(sorted: seq<Surface>, s: Surface)
    ensures forall x :: x in Insert(sorted, s) <==> x in sorted || x == s
  {
    if sorted != [] && !Below(s, sorted[0]) {
      InsertHolds(sorted[1..], s);
      assert sorted == [sorted[0]] + sorted[1..];
    }
  }

  lemma {:induction false} InsertSorts(sorted: seq<Surface>, s: Surface)
    requires Sorted(sorted) && forall i :: 0 <= i < |sorted| ==> sorted[i].id != s.id
    ensures Sorted(Insert(sorted, s))
  {
    if sorted != [] && !Below(s, sorted[0]) {
      InsertSorts(sorted[1..], s);
      InsertHolds(sorted[1..], s);
      var rest := Insert(sorted[1..], s);
      forall j | 0 <= j < |rest|
        ensures Below(sorted[0], rest[j])
      {
        assert rest[j] in sorted[1..] || rest[j] == s;
      }
    } else if sorted != [] {
      forall j | 0 <= j < |sorted|
        ensures Below(s, sorted[j])
      {
        if j > 0 { assert Below(sorted[0], sorted[j]); }
      }
    }
  }

  // The result lists exactly the visible surfaces with an area, in strictly increasing order.
  lemma {:induction false} BackToFrontSorts(surfaces: seq<Surface>)
    requires UniqueIds(surfaces)
    ensures Sorted(BackToFront(surfaces))
    ensures forall s :: s in BackToFront(surfaces) <==> s in surfaces && Shown(s)
  {
    if surfaces != [] {
      var rest := surfaces[1..];
      BackToFrontSorts(rest);
      assert surfaces == [surfaces[0]] + rest;
      if Shown(surfaces[0]) {
        forall i | 0 <= i < |BackToFront(rest)|
          ensures BackToFront(rest)[i].id != surfaces[0].id
        {
          assert BackToFront(rest)[i] in rest;
        }
        InsertSorts(BackToFront(rest), surfaces[0]);
        InsertHolds(BackToFront(rest), surfaces[0]);
      }
    }
  }

  // ---- the operations ----------------------------------------------------------------------------

  function Find(surfaces: seq<Surface>, id: nat): (i: nat)
    ensures i <= |surfaces| && (i < |surfaces| ==> surfaces[i].id == id)
    ensures forall j :: 0 <= j < i ==> surfaces[j].id != id
  {
    if surfaces == [] then 0 else if surfaces[0].id == id then 0 else 1 + Find(surfaces[1..], id)
  }

  // Entries of the list get the serials 1, 2, ... in its order; the others keep theirs.
  function Renumbered(surfaces: seq<Surface>, list: seq<Surface>): (r: seq<Surface>)
    ensures |r| == |surfaces|
    ensures forall i :: 0 <= i < |r| ==> r[i] == surfaces[i].(serial := r[i].serial)
  {
    seq(|surfaces|, i requires 0 <= i < |surfaces| =>
      var at := Find(list, surfaces[i].id);
      if at < |list| then surfaces[i].(serial := at + 1) else surfaces[i])
  }

  // nextStackSerial without the increment: the model whose counter is the serial to give out.
  function Renormalised(m: Model): Model {
    if m.next != MAX_SERIAL then m
    else
      var list := BackToFront(m.surfaces);
      Model(Renumbered(m.surfaces, list), |list| + 1)
  }

  // Gives surface i the next serial.
  function Topped(m: Model, i: nat): Model
    requires i < |m.surfaces|
  {
    var r := Renormalised(m);
    Model(r.surfaces[i := r.surfaces[i].(serial := r.next)], r.next + 1)
  }

  datatype Op =
    | Upsert(id: nat, geometry: Rect, visible: bool)
    | Remove(id: nat)
    | SetVisible(id: nat, visible: bool)
    | SetGeometry(id: nat, geometry: Rect)
    | Raise(id: nat)

  function Changed(m: Model, i: nat, s: Surface): Model
    requires i < |m.surfaces|
  {
    m.(surfaces := m.surfaces[i := s])
  }

  function AddNew(m: Model, id: nat, geometry: Rect, visible: bool): Model {
    if visible then
      var r := Renormalised(m);
      Model(r.surfaces + [Surface(id, geometry, true, r.next)], r.next + 1)
    else m.(surfaces := m.surfaces + [Surface(id, geometry, false, 0)])
  }

  function CutOut(surfaces: seq<Surface>, i: nat): (r: seq<Surface>)
    requires i < |surfaces|
    ensures |r| == |surfaces| - 1
    ensures forall j :: 0 <= j < |r| ==> r[j] == surfaces[if j < i then j else j + 1]
  {
    surfaces[..i] + surfaces[i + 1..]
  }

  function Apply(m: Model, op: Op): Model {
    var i := Find(m.surfaces, op.id);
    match op
    case Upsert(id, geometry, visible) =>
      if i == |m.surfaces| then AddNew(m, id, geometry, visible)
      else
        var s := m.surfaces[i];
        var m' := Changed(m, i, s.(geometry := geometry, visible := visible));
        if visible && !s.visible then Topped(m', i) else m'
    case Remove(id) =>
      if i == |m.surfaces| then m else m.(surfaces := CutOut(m.surfaces, i))
    case SetVisible(id, visible) =>
      if i == |m.surfaces| || m.surfaces[i].visible == visible then m
      else
        var m' := Changed(m, i, m.surfaces[i].(visible := visible));
        if visible then Topped(m', i) else m'
    case SetGeometry(id, geometry) =>
      if i == |m.surfaces| then m else Changed(m, i, m.surfaces[i].(geometry := geometry))
    case Raise(id) =>
      if i == |m.surfaces| || !m.surfaces[i].visible then m else Topped(m, i)
  }

  // ---- the list it stands for --------------------------------------------------------------------

  function Pos(order: seq<nat>, id: nat): (i: nat)
    ensures i <= |order| && (i < |order| <==> id in order) && (i < |order| ==> order[i] == id)
  {
    if order == [] then 0 else if order[0] == id then 0 else 1 + Pos(order[1..], id)
  }

  function Without(order: seq<nat>, id: nat): seq<nat> {
    if order == [] then [] else if order[0] == id then order[1..] else [order[0]] + Without(order[1..], id)
  }

  function ToEnd(order: seq<nat>, id: nat): seq<nat> {
    Without(order, id) + [id]
  }

  // What an operation means for the list of visible surfaces in order of last show or raise.
  function Restacked(m: Model, order: seq<nat>, op: Op): seq<nat> {
    var i := Find(m.surfaces, op.id);
    var known := i < |m.surfaces|;
    var was := known && m.surfaces[i].visible;
    match op
    case Upsert(id, _, visible) => if visible == was then order else if visible then ToEnd(order, id) else Without(order, id)
    case Remove(id) => Without(order, id)
    case SetVisible(id, visible) =>
      if !known || visible == was then order else if visible then ToEnd(order, id) else Without(order, id)
    case SetGeometry(_, _) => order
    case Raise(id) => if was then ToEnd(order, id) else order
  }

  predicate NoRepeats(order: seq<nat>) {
    forall i, j :: 0 <= i < j < |order| ==> order[i] != order[j]
  }

  // Leaving surface `but` aside: the list holds exactly the visible surfaces, and its order
  // is the order of the serials.
  predicate StackedBut(m: Model, order: seq<nat>, but: nat) {
    && UniqueIds(m.surfaces) && NoRepeats(order) && 1 <= m.next <= MAX_SERIAL
    && (forall i :: 0 <= i < |m.surfaces| && i != but ==>
          (m.surfaces[i].visible <==> m.surfaces[i].id in order)
          && (m.surfaces[i].visible ==> 0 < m.surfaces[i].serial < m.next))
    && (forall id :: id in order ==> Find(m.surfaces, id) < |m.surfaces|)
    && (forall i, j :: 0 <= i < |m.surfaces| && 0 <= j < |m.surfaces| && i != but && j != but
                       && m.surfaces[i].visible && m.surfaces[j].visible ==>
          (m.surfaces[i].serial < m.surfaces[j].serial
           <==> Pos(order, m.surfaces[i].id) < Pos(order, m.surfaces[j].id)))
  }

  predicate Stacked(m: Model, order: seq<nat>) {
    StackedBut(m, order, |m.surfaces|)
  }

  // Every visible surface has an area, as the access controller ensures.
  predicate AreasOk(m: Model, but: nat) {
    forall i :: 0 <= i < |m.surfaces| && i != but && m.surfaces[i].visible ==> !m.surfaces[i].geometry.Empty()
  }

  lemma {:induction false} WithoutPos(order: seq<nat>, id: nat, other: nat)
    requires NoRepeats(order) && other != id
    ensures other in Without(order, id) <==> other in order
    ensures other in order ==>
              Pos(Without(order, id), other) == Pos(order, other) - (if Pos(order, id) < Pos(order, other) then 1 else 0)
  {
    if order != [] && order[0] != id {
      WithoutPos(order[1..], id, other);
    }
  }

  lemma {:induction false} WithoutGone(order: seq<nat>, id: nat)
    requires NoRepeats(order)
    ensures id !in Without(order, id) && NoRepeats(Without(order, id))
    ensures id !in order ==> Without(order, id) == order
  {
    if order != [] && order[0] != id {
      WithoutGone(order[1..], id);
      forall j | 0 <= j < |Without(order[1..], id)|
        ensures Without(order[1..], id)[j] != order[0]
      {
        var x := Without(order[1..], id)[j];
        assert x in Without(order[1..], id);
        WithoutPos(order[1..], id, x);
        assert order[1 + Pos(order[1..], x)] == x;
      }
    } else if order != [] {
      assert forall k :: 0 <= k < |order[1..]| ==> order[1..][k] == order[k + 1];
    }
  }

  lemma {:induction false} AppendPos(order: seq<nat>, id: nat, other: nat)
    requires id !in order
    ensures other in order ==> Pos(order + [id], other) == Pos(order, other)
    ensures Pos(order + [id], id) == |order|
  {
    if order != [] {
      assert (order + [id])[1..] == order[1..] + [id];
      AppendPos(order[1..], id, other);
    } else {
      assert order + [id] == [id];
    }
  }

  lemma {:induction false} BackToFrontLength(surfaces: seq<Surface>)
    ensures |BackToFront(surfaces)| <= |surfaces|
  {
    if surfaces != [] {
      BackToFrontLength(surfaces[1..]);
      if Shown(surfaces[0]) { InsertLength(BackToFront(surfaces[1..]), surfaces[0]); }
    }
  }

  lemma {:induction false} InsertLength(sorted: seq<Surface>, s: Surface)
    ensures |Insert(sorted, s)| == |sorted| + 1
  {
    if sorted != [] && !Below(s, sorted[0]) { InsertLength(sorted[1..], s); }
  }

  // Where a listed surface stands in the list.
  lemma {:induction false} FoundInList(surfaces: seq<Surface>, i: nat)
    requires UniqueIds(surfaces) && i < |surfaces|
    ensures var list := BackToFront(surfaces);
            var at := Find(list, surfaces[i].id);
            && (at < |list| <==> Shown(surfaces[i]))
            && (at < |list| ==> list[at] == surfaces[i])
  {
    BackToFrontSorts(surfaces);
    var list := BackToFront(surfaces);
    var at := Find(list, surfaces[i].id);
    if Shown(surfaces[i]) {
      assert surfaces[i] in list;
      var k :| 0 <= k < |list| && list[k] == surfaces[i];
      assert at <= k;
    }
    if at < |list| {
      assert list[at] in surfaces;
      var k :| 0 <= k < |surfaces| && surfaces[k] == list[at];
      assert k == i;
    }
  }

  lemma {:induction false} SameIdsSameFind(a: seq<Surface>, b: seq<Surface>, id: nat)
    requires |a| == |b| && forall i :: 0 <= i < |a| ==> a[i].id == b[i].id
    ensures Find(a, id) == Find(b, id)
  {
    if a != [] { SameIdsSameFind(a[1..], b[1..], id); }
  }

  // The list names every entry once.
  lemma {:induction false} ListIndex(surfaces: seq<Surface>, k: nat)
    requires UniqueIds(surfaces) && k < |BackToFront(surfaces)|
    ensures var list := BackToFront(surfaces);
            && Find(list, list[k].id) == k
            && Find(surfaces, list[k].id) < |surfaces| && surfaces[Find(surfaces, list[k].id)] == list[k]
  {
    BackToFrontSorts(surfaces);
    var list := BackToFront(surfaces);
    assert list[k] in surfaces;
    var i :| 0 <= i < |surfaces| && surfaces[i] == list[k];
    FoundInList(surfaces, i);
  }

  // Renumbering keeps the order of any two surfaces it renumbers.
  lemma {:induction false} RenumberedPair(surfaces: seq<Surface>, i: nat, j: nat)
    requires UniqueIds(surfaces) && i < |surfaces| && j < |surfaces| && Shown(surfaces[i]) && Shown(surfaces[j])
    ensures var r := Renumbered(surfaces, BackToFront(surfaces));
            && r[i].serial < r[j].serial <==> Below(surfaces[i], surfaces[j])
    ensures 0 < Renumbered(surfaces, BackToFront(surfaces))[i].serial <= |BackToFront(surfaces)|
  {
    BackToFrontSorts(surfaces);
    FoundInList(surfaces, i);
    FoundInList(surfaces, j);
    var list := BackToFront(surfaces);
    var a, b := Find(list, surfaces[i].id), Find(list, surfaces[j].id);
    if a < b { assert Below(list[a], list[b]); }
    if b < a { assert Below(list[b], list[a]); }
  }

  lemma {:induction false} RenormalisedKeeps(m: Model, order: seq<nat>, but: nat)
    requires StackedBut(m, order, but) && |m.surfaces| + 2 < MAX_SERIAL && (m.next == MAX_SERIAL ==> AreasOk(m, but))
    ensures StackedBut(Renormalised(m), order, but) && Renormalised(m).next < MAX_SERIAL
  {
    if m.next != MAX_SERIAL { return; }
    var r := Renormalised(m);
    BackToFrontLength(m.surfaces);
    forall id | id in order
      ensures Find(r.surfaces, id) < |r.surfaces|
    {
      SameIdsSameFind(m.surfaces, r.surfaces, id);
    }
    forall i, j | 0 <= i < |m.surfaces| && 0 <= j < |m.surfaces| && i != but && j != but
                  && m.surfaces[i].visible && m.surfaces[j].visible
      ensures 0 < r.surfaces[i].serial < r.next
      ensures r.surfaces[i].serial < r.surfaces[j].serial
              <==> Pos(order, m.surfaces[i].id) < Pos(order, m.surfaces[j].id)
    {
      RenumberedPair(m.surfaces, i, j);
      if m.surfaces[i].serial == m.surfaces[j].serial {
        assert Pos(order, m.surfaces[i].id) == Pos(order, m.surfaces[j].id);
        assert i == j;
      }
    }
  }

  lemma {:induction false} ToEndPositions(order: seq<nat>, id: nat, other: nat)
    requires NoRepeats(order)
    ensures NoRepeats(ToEnd(order, id)) && id in ToEnd(order, id)
    ensures other != id ==> (other in ToEnd(order, id) <==> other in order)
    ensures other != id && other in order ==>
              Pos(ToEnd(order, id), other) == Pos(Without(order, id), other) < Pos(ToEnd(order, id), id)
  {
    WithoutGone(order, id);
    var rest := Without(order, id);
    if other != id { WithoutPos(order, id, other); }
    AppendPos(rest, id, other);
    forall k | 0 <= k < |rest|
      ensures rest[k] != id
    {
      assert rest[k] in rest;
    }
  }

  // The surface put on top is the last of the list; the others keep their order.
  lemma {:induction false} PutOnTop(r: Model, order: seq<nat>, i: nat)
    requires StackedBut(r, order, i) && i < |r.surfaces| && r.surfaces[i].visible && r.next < MAX_SERIAL
    ensures Stacked(Model(r.surfaces[i := r.surfaces[i].(serial := r.next)], r.next + 1), ToEnd(order, r.surfaces[i].id))
  {
    var t := Model(r.surfaces[i := r.surfaces[i].(serial := r.next)], r.next + 1);
    var id := r.surfaces[i].id;
    var order' := ToEnd(order, id);
    ToEndPositions(order, id, id);
    forall other | other in order'
      ensures Find(t.surfaces, other) < |t.surfaces|
    {
      ToEndPositions(order, id, other);
      SameIdsSameFind(r.surfaces, t.surfaces, other);
      if other == id { assert t.surfaces[i].id == id; }
    }
    forall j | 0 <= j < |t.surfaces|
      ensures t.surfaces[j].visible <==> t.surfaces[j].id in order'
    {
      ToEndPositions(order, id, t.surfaces[j].id);
    }
    forall j, k | 0 <= j < |t.surfaces| && 0 <= k < |t.surfaces| && t.surfaces[j].visible && t.surfaces[k].visible
      ensures t.surfaces[j].serial < t.surfaces[k].serial
              <==> Pos(order', t.surfaces[j].id) < Pos(order', t.surfaces[k].id)
    {
      ToppedPair(r, order, i, j, k);
    }
  }

  lemma {:induction false} ToppedStacks(m: Model, order: seq<nat>, i: nat)
    requires StackedBut(m, order, i) && i < |m.surfaces| && m.surfaces[i].visible
    requires |m.surfaces| + 2 < MAX_SERIAL && (m.next == MAX_SERIAL ==> AreasOk(m, i))
    ensures Stacked(Topped(m, i), ToEnd(order, m.surfaces[i].id))
  {
    RenormalisedKeeps(m, order, i);
    PutOnTop(Renormalised(m), order, i);
  }

  lemma {:induction false} ToppedPair(r: Model, order: seq<nat>, i: nat, j: nat, k: nat)
    requires StackedBut(r, order, i) && i < |r.surfaces| && j < |r.surfaces| && k < |r.surfaces|
    requires j != i ==> r.surfaces[j].visible
    requires k != i ==> r.surfaces[k].visible
    ensures var id := r.surfaces[i].id;
            var s := r.surfaces[i := r.surfaces[i].(serial := r.next)];
            s[j].serial < s[k].serial <==> Pos(ToEnd(order, id), s[j].id) < Pos(ToEnd(order, id), s[k].id)
  {
    var id, a, b := r.surfaces[i].id, r.surfaces[j].id, r.surfaces[k].id;
    if j != i && k != i {
      ToEndPair(order, id, a, b);
      assert r.surfaces[j].serial < r.surfaces[k].serial <==> Pos(order, a) < Pos(order, b);
    } else {
      ToEndPositions(order, id, a);
      ToEndPositions(order, id, b);
    }
  }

  // Two entries that stay keep their order when a third one moves to the end.
  lemma {:induction false} ToEndPair(order: seq<nat>, id: nat, a: nat, b: nat)
    requires NoRepeats(order) && a != id && b != id && a in order && b in order
    ensures Pos(ToEnd(order, id), a) < Pos(ToEnd(order, id), b) <==> Pos(order, a) < Pos(order, b)
  {
    ToEndPositions(order, id, a);
    ToEndPositions(order, id, b);
    WithoutPair(order, id, a, b);
  }

  // Two visible surfaces keep their order when a third one leaves the list.
  lemma {:induction false} StaysStacked(m: Model, order: seq<nat>, id: nat, j: nat, k: nat)
    requires Stacked(m, order) && j < |m.surfaces| && k < |m.surfaces| && m.surfaces[j].visible && m.surfaces[k].visible
    requires m.surfaces[j].id != id && m.surfaces[k].id != id
    ensures m.surfaces[j].serial < m.surfaces[k].serial
            <==> Pos(Without(order, id), m.surfaces[j].id) < Pos(Without(order, id), m.surfaces[k].id)
  {
    WithoutPair(order, id, m.surfaces[j].id, m.surfaces[k].id);
  }

  // A surface that is hidden leaves the list.
  lemma {:induction false} HiddenLeaves(m: Model, order: seq<nat>, i: nat, s: Surface)
    requires Stacked(m, order) && i < |m.surfaces| && s.id == m.surfaces[i].id && !s.visible
    ensures Stacked(Changed(m, i, s), Without(order, s.id))
  {
    var m' := Changed(m, i, s);
    WithoutGone(order, s.id);
    forall j | 0 <= j < |m.surfaces| && j != i
      ensures m.surfaces[j].id in Without(order, s.id) <==> m.surfaces[j].id in order
    {
      WithoutPos(order, s.id, m.surfaces[j].id);
    }
    forall id | id in Without(order, s.id)
      ensures Find(m'.surfaces, id) < |m'.surfaces|
    {
      WithoutPos(order, s.id, id);
      SameIdsSameFind(m.surfaces, m'.surfaces, id);
    }
    forall j, k | 0 <= j < |m.surfaces| && 0 <= k < |m.surfaces| && m'.surfaces[j].visible && m'.surfaces[k].visible
      ensures m'.surfaces[j].serial < m'.surfaces[k].serial
              <==> Pos(Without(order, s.id), m.surfaces[j].id) < Pos(Without(order, s.id), m.surfaces[k].id)
    {
      StaysStacked(m, order, s.id, j, k);
    }
  }

  lemma {:induction false} WithoutPair(order: seq<nat>, id: nat, a: nat, b: nat)
    requires NoRepeats(order) && a != id && b != id && a in order && b in order
    ensures Pos(Without(order, id), a) < Pos(Without(order, id), b) <==> Pos(order, a) < Pos(order, b)
  {
    WithoutPos(order, id, a);
    WithoutPos(order, id, b);
  }

  lemma {:induction false} CutOutFinds(surfaces: seq<Surface>, i: nat, id: nat)
    requires i < |surfaces| && id != surfaces[i].id && Find(surfaces, id) < |surfaces|
    ensures Find(CutOut(surfaces, i), id) < |surfaces| - 1
  {
    var at := Find(surfaces, id);
    assert CutOut(surfaces, i)[if at < i then at else at - 1].id == id;
  }

  lemma {:induction false} RemovedLeaves(m: Model, order: seq<nat>, i: nat)
    requires Stacked(m, order) && i < |m.surfaces|
    ensures Stacked(m.(surfaces := CutOut(m.surfaces, i)), Without(order, m.surfaces[i].id))
  {
    var id := m.surfaces[i].id;
    var s' := CutOut(m.surfaces, i);
    WithoutGone(order, id);
    forall other | other in Without(order, id)
      ensures Find(s', other) < |s'|
    {
      WithoutPos(order, id, other);
      CutOutFinds(m.surfaces, i, other);
    }
    forall j | 0 <= j < |s'|
      ensures s'[j].id in Without(order, id) <==> s'[j].id in order
    {
      WithoutPos(order, id, s'[j].id);
    }
    forall j, k | 0 <= j < |s'| && 0 <= k < |s'| && s'[j].visible && s'[k].visible
      ensures s'[j].serial < s'[k].serial <==> Pos(Without(order, id), s'[j].id) < Pos(Without(order, id), s'[k].id)
    {
      StaysStacked(m, order, id, if j < i then j else j + 1, if k < i then k else k + 1);
    }
  }

  lemma {:induction false} FindAppended(surfaces: seq<Surface>, s: Surface, id: nat)
    ensures id == s.id || Find(surfaces, id) < |surfaces| ==> Find(surfaces + [s], id) <= |surfaces|
  {
    if surfaces != [] {
      assert (surfaces + [s])[1..] == surfaces[1..] + [s];
      FindAppended(surfaces[1..], s, id);
    }
  }

  // A new surface, left aside.
  lemma {:induction false} AddedAside(m: Model, order: seq<nat>, s: Surface)
    requires Stacked(m, order) && Find(m.surfaces, s.id) == |m.surfaces|
    ensures StackedBut(m.(surfaces := m.surfaces + [s]), order, |m.surfaces|) && s.id !in order
  {
    forall id | id in order
      ensures Find(m.surfaces + [s], id) < |m.surfaces| + 1
    {
      FindAppended(m.surfaces, s, id);
    }
  }

  lemma {:induction false} AddedHidden(m: Model, order: seq<nat>, s: Surface)
    requires Stacked(m, order) && Find(m.surfaces, s.id) == |m.surfaces| && !s.visible
    ensures Stacked(m.(surfaces := m.surfaces + [s]), order)
  {
    AddedAside(m, order, s);
  }

  lemma {:induction false} AddedOnTop(m: Model, order: seq<nat>, s: Surface)
    requires Stacked(m, order) && Find(m.surfaces, s.id) == |m.surfaces| && s.visible && s.serial == m.next < MAX_SERIAL
    ensures Stacked(Model(m.surfaces + [s], m.next + 1), ToEnd(order, s.id))
  {
    AddedAside(m, order, s);
    var aside := m.(surfaces := m.surfaces + [s]);
    PutOnTop(aside, order, |m.surfaces|);
    assert aside.surfaces[|m.surfaces| := s.(serial := m.next)] == aside.surfaces;
  }

  // A change that leaves visibility and serial alone.
  lemma {:induction false} SameStacking(m: Model, order: seq<nat>, i: nat, s: Surface)
    requires Stacked(m, order) && i < |m.surfaces|
    requires s.id == m.surfaces[i].id && s.visible == m.surfaces[i].visible && s.serial == m.surfaces[i].serial
    ensures Stacked(Changed(m, i, s), order)
  {
    forall id | id in order
      ensures Find(Changed(m, i, s).surfaces, id) < |m.surfaces|
    {
      SameIdsSameFind(m.surfaces, Changed(m, i, s).surfaces, id);
    }
  }

  // A surface about to be put on top may have been changed freely.
  lemma {:induction false} SetAside(m: Model, order: seq<nat>, i: nat, s: Surface)
    requires Stacked(m, order) && i < |m.surfaces| && s.id == m.surfaces[i].id
    ensures StackedBut(Changed(m, i, s), order, i)
  {
    forall id | id in order
      ensures Find(Changed(m, i, s).surfaces, id) < |m.surfaces|
    {
      SameIdsSameFind(m.surfaces, Changed(m, i, s).surfaces, id);
    }
  }

  // The operation shows or raises a surface.
  predicate Tops(m: Model, op: Op) {
    var i := Find(m.surfaces, op.id);
    var was := i < |m.surfaces| && m.surfaces[i].visible;
    match op
    case Upsert(_, _, visible) => visible && !was
    case SetVisible(_, visible) => visible && !was && i < |m.surfaces|
    case Raise(_) => was
    case _ => false
  }

  // Room for the serials, which 64 bits always leave; and when an operation wraps the counter,
  // all visible surfaces but the one it shows or raises have an area.
  predicate Careful(m: Model, op: Op) {
    |m.surfaces| + 2 < MAX_SERIAL && (Tops(m, op) && m.next == MAX_SERIAL ==> AreasOk(m, Find(m.surfaces, op.id)))
  }

  lemma {:induction false} UnknownIsUnlisted(m: Model, order: seq<nat>, id: nat)
    requires Stacked(m, order) && Find(m.surfaces, id) == |m.surfaces|
    ensures Without(order, id) == order
  {
    WithoutGone(order, id);
  }

  lemma {:induction false} AddRestacks(m: Model, order: seq<nat>, id: nat, geometry: Rect, visible: bool)
    requires Stacked(m, order) && Careful(m, Upsert(id, geometry, visible)) && Find(m.surfaces, id) == |m.surfaces|
    ensures Stacked(AddNew(m, id, geometry, visible), if visible then ToEnd(order, id) else order)
  {
    if visible {
      RenormalisedKeeps(m, order, |m.surfaces|);
      SameIdsSameFind(m.surfaces, Renormalised(m).surfaces, id);
      AddedOnTop(Renormalised(m), order, Surface(id, geometry, true, Renormalised(m).next));
    } else {
      AddedHidden(m, order, Surface(id, geometry, false, 0));
    }
  }

  lemma {:induction false} UpdateRestacks(m: Model, order: seq<nat>, i: nat, geometry: Rect, visible: bool)
    requires Stacked(m, order) && i < |m.surfaces| && i == Find(m.surfaces, m.surfaces[i].id)
    requires Careful(m, Upsert(m.surfaces[i].id, geometry, visible))
    ensures var was := m.surfaces[i];
            var m' := Changed(m, i, was.(geometry := geometry, visible := visible));
            Stacked(if visible && !was.visible then Topped(m', i) else m',
                    if visible == was.visible then order
                    else if visible then ToEnd(order, was.id) else Without(order, was.id))
  {
    var s := m.surfaces[i].(geometry := geometry, visible := visible);
    if visible == m.surfaces[i].visible {
      SameStacking(m, order, i, s);
    } else if visible {
      SetAside(m, order, i, s);
      ToppedStacks(Changed(m, i, s), order, i);
    } else {
      HiddenLeaves(m, order, i, s);
    }
  }

  // Every operation does to the serials what the list does.
  lemma {:induction false} OperationRestacks(m: Model, order: seq<nat>, op: Op)
    requires Stacked(m, order) && Careful(m, op)
    ensures Stacked(Apply(m, op), Restacked(m, order, op))
  {
    var i := Find(m.surfaces, op.id);
    match op
    case Upsert(id, geometry, visible) =>
      if i == |m.surfaces| { AddRestacks(m, order, id, geometry, visible); } else { UpdateRestacks(m, order, i, geometry, visible); }
    case Remove(id) =>
      if i == |m.surfaces| { UnknownIsUnlisted(m, order, id); } else { RemovedLeaves(m, order, i); }
    case SetVisible(id, visible) =>
      if i < |m.surfaces| && visible != m.surfaces[i].visible {
        var s := m.surfaces[i].(visible := visible);
        if visible {
          SetAside(m, order, i, s);
          ToppedStacks(Changed(m, i, s), order, i);
        } else {
          HiddenLeaves(m, order, i, s);
        }
      }
    case SetGeometry(id, geometry) =>
      if i < |m.surfaces| { SameStacking(m, order, i, m.surfaces[i].(geometry := geometry)); }
    case Raise(id) =>
      if i < |m.surfaces| && m.surfaces[i].visible {
        SetAside(m, order, i, m.surfaces[i]);
        assert Changed(m, i, m.surfaces[i]) == m;
        ToppedStacks(m, order, i);
      }
  }

  // ---- whole runs ------------------------------------------------------------------------------------

  function Run(m: Model, ops: seq<Op>): Model
    decreases |ops|
  {
    if ops == [] then m else Run(Apply(m, ops[0]), ops[1..])
  }

  // The move-to-end list alone, driven by the same operations.
  function RunList(m: Model, order: seq<nat>, ops: seq<Op>): seq<nat>
    decreases |ops|
  {
    if ops == [] then order else RunList(Apply(m, ops[0]), Restacked(m, order, ops[0]), ops[1..])
  }

  predicate CarefulRun(m: Model, ops: seq<Op>)
    decreases |ops|
  {
    ops == [] || (Careful(m, ops[0]) && CarefulRun(Apply(m, ops[0]), ops[1..]))
  }

  lemma {:induction false} RunRestacks(m: Model, order: seq<nat>, ops: seq<Op>)
    requires Stacked(m, order) && CarefulRun(m, ops)
    ensures Stacked(Run(m, ops), RunList(m, order, ops))
    decreases |ops|
  {
    if ops != [] {
      OperationRestacks(m, order, ops[0]);
      RunRestacks(Apply(m, ops[0]), Restacked(m, order, ops[0]), ops[1..]);
    }
  }

  function Ids(list: seq<Surface>): seq<nat> {
    seq(|list|, i requires 0 <= i < |list| => list[i].id)
  }

  // Painting order is the order of the last show or raise: two listed surfaces are painted in
  // the order of the list, after any operations including renumbering of the serials.
  lemma {:induction false} PaintOrderIsShowOrder(ops: seq<Op>, a: nat, b: nat)
    requires CarefulRun(EMPTY_MODEL, ops)
    requires var list := BackToFront(Run(EMPTY_MODEL, ops).surfaces);
             a < |list| && b < |list|
    ensures var list := BackToFront(Run(EMPTY_MODEL, ops).surfaces);
            var order := RunList(EMPTY_MODEL, [], ops);
            && list[a].id in order && list[b].id in order
            && (a < b <==> Pos(order, list[a].id) < Pos(order, list[b].id))
  {
    var m := Run(EMPTY_MODEL, ops);
    var order := RunList(EMPTY_MODEL, [], ops);
    RunRestacks(EMPTY_MODEL, [], ops);
    BackToFrontSorts(m.surfaces);
    var list := BackToFront(m.surfaces);
    assert list[a] in m.surfaces && list[b] in m.surfaces;
    var i :| 0 <= i < |m.surfaces| && m.surfaces[i] == list[a];
    var j :| 0 <= j < |m.surfaces| && m.surfaces[j] == list[b];
    if a < b { assert Below(list[a], list[b]); }
    if b < a { assert Below(list[b], list[a]); }
  }

  // Exactly the listed surfaces with an area are painted.
  lemma {:induction false} PaintedIffListed(ops: seq<Op>, s: Surface)
    requires CarefulRun(EMPTY_MODEL, ops) && s in Run(EMPTY_MODEL, ops).surfaces
    ensures s in BackToFront(Run(EMPTY_MODEL, ops).surfaces)
            <==> s.id in RunList(EMPTY_MODEL, [], ops) && !s.geometry.Empty()
  {
    RunRestacks(EMPTY_MODEL, [], ops);
    BackToFrontSorts(Run(EMPTY_MODEL, ops).surfaces);
  }

  // ---- renumbering, exactly --------------------------------------------------------------------------

  predicate SerialsFollow(m: Model, order: seq<nat>) {
    forall i, j :: 0 <= i < |m.surfaces| && 0 <= j < |m.surfaces| && m.surfaces[i].visible && m.surfaces[j].visible
                   && Pos(order, m.surfaces[i].id) < Pos(order, m.surfaces[j].id) ==>
      m.surfaces[i].serial < m.surfaces[j].serial
  }

  // No visible surface without an area lies below one with an area.
  predicate NoGapBelow(m: Model, order: seq<nat>) {
    forall i, j :: 0 <= i < |m.surfaces| && 0 <= j < |m.surfaces| && m.surfaces[i].visible && m.surfaces[j].visible
                   && Pos(order, m.surfaces[i].id) < Pos(order, m.surfaces[j].id)
                   && m.surfaces[i].geometry.Empty() ==>
      m.surfaces[j].geometry.Empty()
  }

  // Listed serials are positive and strictly increasing, so entry k has at least k + 1, and
  // renumbering raises no serial.
  lemma {:induction false} ListedSerial(m: Model, order: seq<nat>, k: nat)
    requires Stacked(m, order) && k < |BackToFront(m.surfaces)|
    ensures BackToFront(m.surfaces)[k].serial >= k + 1
  {
    BackToFrontSorts(m.surfaces);
    ListIndex(m.surfaces, k);
    assert BackToFront(m.surfaces)[k] in m.surfaces && m.surfaces[Find(m.surfaces, BackToFront(m.surfaces)[k].id)].visible;
    if k > 0 {
      ListedSerial(m, order, k - 1);
      ListedSerials(m, order, k - 1, k);
    }
  }

  // Two different visible surfaces of a stacked model have different serials.
  lemma {:induction false} StackedPair(m: Model, order: seq<nat>, i: nat, j: nat)
    requires Stacked(m, order) && i < |m.surfaces| && j < |m.surfaces| && m.surfaces[i].visible && m.surfaces[j].visible
    ensures m.surfaces[i].serial < m.surfaces[j].serial
            <==> Pos(order, m.surfaces[i].id) < Pos(order, m.surfaces[j].id)
    ensures i != j ==> m.surfaces[i].serial != m.surfaces[j].serial && m.surfaces[i].id != m.surfaces[j].id
  {
    if m.surfaces[i].serial == m.surfaces[j].serial {
      assert Pos(order, m.surfaces[i].id) == Pos(order, m.surfaces[j].id);
    }
  }

  // Two entries of the sorted list of a stacked model have different serials.
  lemma {:induction false} ListedSerials(m: Model, order: seq<nat>, a: nat, b: nat)
    requires Stacked(m, order) && a < b < |BackToFront(m.surfaces)|
    ensures var list := BackToFront(m.surfaces);
            list[a].serial < list[b].serial && Pos(order, list[a].id) < Pos(order, list[b].id)
  {
    BackToFrontSorts(m.surfaces);
    ListIndex(m.surfaces, a);
    ListIndex(m.surfaces, b);
    var list := BackToFront(m.surfaces);
    var i, j := Find(m.surfaces, list[a].id), Find(m.surfaces, list[b].id);
    assert list[a] in m.surfaces && list[b] in m.surfaces && Below(list[a], list[b]);
    StackedPair(m, order, i, j);
  }

  lemma {:induction false} RenumberedSerial(m: Model, i: nat)
    requires UniqueIds(m.surfaces) && m.next == MAX_SERIAL && i < |m.surfaces|
    ensures var r := Renormalised(m).surfaces[i];
            var at := Find(BackToFront(m.surfaces), m.surfaces[i].id);
            && r.serial == (if Shown(m.surfaces[i]) then at + 1 else m.surfaces[i].serial)
            && (Shown(m.surfaces[i]) ==> at < |BackToFront(m.surfaces)| && BackToFront(m.surfaces)[at] == m.surfaces[i])
  {
    FoundInList(m.surfaces, i);
  }

  // Without a gap the new serials follow the list.
  lemma {:induction false} NoGapFollows(m: Model, order: seq<nat>, i: nat, j: nat)
    requires Stacked(m, order) && m.next == MAX_SERIAL && NoGapBelow(m, order)
    requires i < |m.surfaces| && j < |m.surfaces| && m.surfaces[i].visible && m.surfaces[j].visible
    requires Pos(order, m.surfaces[i].id) < Pos(order, m.surfaces[j].id)
    ensures Renormalised(m).surfaces[i].serial < Renormalised(m).surfaces[j].serial
  {
    RenumberedSerial(m, i);
    RenumberedSerial(m, j);
    if Shown(m.surfaces[j]) {
      RenumberedPair(m.surfaces, i, j);
    } else if Shown(m.surfaces[i]) {
      ListedSerial(m, order, Find(BackToFront(m.surfaces), m.surfaces[i].id));
    }
  }

  // The first listed surface above a skipped one gets a serial that is not above its own.
  lemma {:induction false} GapBreaks(m: Model, order: seq<nat>, i: nat, k: nat)
    requires Stacked(m, order) && m.next == MAX_SERIAL && SerialsFollow(Renormalised(m), order)
    requires i < |m.surfaces| && m.surfaces[i].visible && m.surfaces[i].geometry.Empty()
    requires k < |BackToFront(m.surfaces)|
    ensures Pos(order, BackToFront(m.surfaces)[k].id) < Pos(order, m.surfaces[i].id)
  {
    var list := BackToFront(m.surfaces);
    BackToFrontSorts(m.surfaces);
    ListIndex(m.surfaces, k);
    var j := Find(m.surfaces, list[k].id);
    assert m.surfaces[j] == list[k] && Shown(m.surfaces[j]);
    RenumberedSerial(m, i);
    RenumberedSerial(m, j);
    assert Renormalised(m).surfaces[j].serial == k + 1;
    if k > 0 {
      GapBreaks(m, order, i, k - 1);
      ListIndex(m.surfaces, k - 1);
      ListedSerial(m, order, k - 1);
      assert m.surfaces[Find(m.surfaces, list[k - 1].id)].serial < m.surfaces[i].serial;
    }
    assert Renormalised(m).surfaces[i].serial >= k + 1;
    assert Pos(order, m.surfaces[i].id) >= Pos(order, m.surfaces[j].id);
    StackedPair(m, order, j, i);
  }

  // Surfaces are skipped by the renumbering when they have no area.  The serials it leaves
  // behind follow the list exactly when no such surface lies below one that was renumbered.
  lemma {:induction false} RenumberingFollowsIff(m: Model, order: seq<nat>)
    requires Stacked(m, order) && m.next == MAX_SERIAL
    ensures SerialsFollow(Renormalised(m), order) <==> NoGapBelow(m, order)
  {
    if NoGapBelow(m, order) {
      forall i, j | 0 <= i < |m.surfaces| && 0 <= j < |m.surfaces| && m.surfaces[i].visible && m.surfaces[j].visible
                    && Pos(order, m.surfaces[i].id) < Pos(order, m.surfaces[j].id)
        ensures Renormalised(m).surfaces[i].serial < Renormalised(m).surfaces[j].serial
      {
        NoGapFollows(m, order, i, j);
      }
    }
    if SerialsFollow(Renormalised(m), order) {
      forall i, j | 0 <= i < |m.surfaces| && 0 <= j < |m.surfaces| && m.surfaces[i].visible && Shown(m.surfaces[j])
                    && m.surfaces[i].geometry.Empty()
        ensures Pos(order, m.surfaces[j].id) < Pos(order, m.surfaces[i].id)
      {
        RenumberedSerial(m, j);
        GapBreaks(m, order, i, Find(BackToFront(m.surfaces), m.surfaces[j].id));
      }
    }
  }

  // For the operation that renumbers this is not enough: the surface it puts on top gets a new
  // serial, and one without an area above all others keeps a larger one.
  lemma {:induction false} NoGapIsNotEnough(a: Surface, b: Surface)
    requires a == Surface(1, Rect(0, 0, 10, 10), true, MAX_SERIAL - 2)
    requires b == Surface(2, Rect(0, 0, 0, 0), true, MAX_SERIAL - 1)
    ensures var m := Model([a, b], MAX_SERIAL);
            && Stacked(m, [1, 2]) && NoGapBelow(m, [1, 2]) && Restacked(m, [1, 2], Raise(1)) == [2, 1]
            && !SerialsFollow(Apply(m, Raise(1)), [2, 1])
  {
    var m := Model([a, b], MAX_SERIAL);
    PairFinds(a, b);
    TwoLists();
    TwoStacked(a, b, MAX_SERIAL);
    BackToFrontLength(m.surfaces);
    RenumberedSerial(m, 1);
    var m' := Apply(m, Raise(1));
    assert m'.surfaces[0].serial <= 3 < m'.surfaces[1].serial;
    assert Pos([2, 1], 2) == 0 && Pos([2, 1], 1) == 1;
  }

  lemma {:induction false} TwoStacked(a: Surface, b: Surface, next: nat)
    requires a.id == 1 && b.id == 2 && a.visible && b.visible && 0 < a.serial < b.serial < next <= MAX_SERIAL
    ensures Stacked(Model([a, b], next), [1, 2])
  {
    PairFinds(a, b);
    assert Pos([1, 2], 1) == 0 && Pos([1, 2], 2) == 1;
  }

  // ---- a run in which the order is lost --------------------------------------------------------------

  function Repeated(op: Op, n: nat): (ops: seq<Op>)
    ensures |ops| == n
  {
    if n == 0 then [] else [op] + Repeated(op, n - 1)
  }

  lemma {:induction false} RunConcat(m: Model, order: seq<nat>, a: seq<Op>, b: seq<Op>)
    ensures Run(m, a + b) == Run(Run(m, a), b)
    ensures RunList(m, order, a + b) == RunList(Run(m, a), RunList(m, order, a), b)
    decreases |a|
  {
    if a == [] {
      assert a + b == b;
    } else {
      assert (a + b)[1..] == a[1..] + b;
      RunConcat(Apply(m, a[0]), Restacked(m, order, a[0]), a[1..], b);
    }
  }

  // Two visible surfaces, 1 below 2, the first without an area.
  function Pair(one: nat, two: nat, next: nat): Model {
    Model([Surface(1, Rect(0, 0, 0, 0), true, one), Surface(2, Rect(0, 0, 10, 10), true, two)], next)
  }

  lemma {:induction false} PairFinds(a: Surface, b: Surface)
    requires a.id == 1 && b.id == 2
    ensures Find([a, b], 1) == 0 && Find([a, b], 2) == 1
  {
    assert [a, b][1..] == [b];
  }

  lemma {:induction false} PairRaises(one: nat, two: nat, next: nat)
    requires next != MAX_SERIAL
    ensures Apply(Pair(one, two, next), Raise(1)) == Pair(next, two, next + 1)
    ensures Apply(Pair(one, two, next), Raise(2)) == Pair(one, next, next + 1)
  {
    var m := Pair(one, two, next);
    PairFinds(m.surfaces[0], m.surfaces[1]);
    assert m.surfaces[0 := m.surfaces[0].(serial := next)] == Pair(next, two, next + 1).surfaces;
    assert m.surfaces[1 := m.surfaces[1].(serial := next)] == Pair(one, next, next + 1).surfaces;
  }

  lemma {:induction false} TwoLists()
    ensures ToEnd([1, 2], 2) == [1, 2] && ToEnd([1, 2], 1) == [2, 1] && ToEnd([2, 1], 2) == [1, 2]
  {
    assert [1, 2][1..] == [2] && [2, 1][1..] == [1];
    assert Without([1, 2], 2) == [1] && Without([1, 2], 1) == [2] && Without([2, 1], 2) == [1];
  }

  // Every raise takes one serial: n of them move the counter by n.
  lemma {:induction false} PairRaisedOften(one: nat, two: nat, next: nat, n: nat)
    requires two == next - 1 && next + n < MAX_SERIAL
    ensures Run(Pair(one, two, next), Repeated(Raise(2), n)) == Pair(one, two + n, next + n)
    ensures RunList(Pair(one, two, next), [1, 2], Repeated(Raise(2), n)) == [1, 2]
    decreases n
  {
    if n > 0 {
      PairRaises(one, two, next);
      PairFinds(Pair(one, two, next).surfaces[0], Pair(one, two, next).surfaces[1]);
      TwoLists();
      assert Repeated(Raise(2), n)[1..] == Repeated(Raise(2), n - 1);
      PairRaisedOften(one, next, next + 1, n - 1);
    }
  }

  lemma {:induction false} TwoSurfacesSorted(a: Surface, b: Surface)
    ensures BackToFront([a, b]) ==
            if Shown(a) && Shown(b) then (if Below(a, b) then [a, b] else [b, a])
            else if Shown(a) then [a] else if Shown(b) then [b] else []
  {
    assert [a, b][1..] == [b] && [b][1..] == [] && BackToFront([]) == [] && Insert([], a) == [a];
    assert BackToFront([b]) == if Shown(b) then [b] else [];
    assert Insert([b], a) == if Below(a, b) then [a] + [b] else [b] + Insert([], a);
  }

  // Showing both surfaces of the pair.
  lemma {:induction false} PairShown()
    ensures var ops := [Upsert(1, Rect(0, 0, 0, 0), true), Upsert(2, Rect(0, 0, 10, 10), true)];
            Run(EMPTY_MODEL, ops) == Pair(1, 2, 3) && RunList(EMPTY_MODEL, [], ops) == [1, 2]
  {
    var ops := [Upsert(1, Rect(0, 0, 0, 0), true), Upsert(2, Rect(0, 0, 10, 10), true)];
    var first := Surface(1, Rect(0, 0, 0, 0), true, 1);
    assert ops[1..] == [ops[1]] && ops[1..][1..] == [];
    assert Apply(EMPTY_MODEL, ops[0]) == Model([first], 2);
    assert [first][1..] == [] && Find([first], 2) == 1;
    assert Apply(Model([first], 2), ops[1]) == Pair(1, 2, 3);
    assert Without([1], 2) == [1] by { assert [1][1..] == []; }
    OneStep(EMPTY_MODEL, [], ops);
    assert Restacked(EMPTY_MODEL, [], ops[0]) == [1];
    OneStep(Model([first], 2), [1], ops[1..]);
    assert Restacked(Model([first], 2), [1], ops[1]) == [1] + [2];
  }

  // The counter wraps: the surface with an area starts again at the bottom.
  lemma {:induction false} PairWraps(one: nat)
    ensures Apply(Pair(one, MAX_SERIAL - 1, MAX_SERIAL), Raise(2)) == Pair(one, 2, 3)
  {
    var m := Pair(one, MAX_SERIAL - 1, MAX_SERIAL);
    var a, b := m.surfaces[0], m.surfaces[1];
    PairFinds(a, b);
    TwoSurfacesSorted(a, b);
    assert Find([b], 1) == 1 && Find([b], 2) == 0 by { assert [b][1..] == []; }
    var r := Renormalised(m);
    assert r.surfaces == [a, b.(serial := 1)] && r.next == 2;
    assert r.surfaces[1 := b.(serial := 2)] == Pair(one, 2, 3).surfaces;
  }

  const WRAPPING_RUN: seq<Op> :=
    [Upsert(1, Rect(0, 0, 0, 0), true), Upsert(2, Rect(0, 0, 10, 10), true)]
    + Repeated(Raise(2), MAX_SERIAL - 5)
    + [Raise(1), Raise(2), Raise(2), SetGeometry(1, Rect(0, 0, 10, 10))]

  // A visible surface whose geometry is empty while the counter wraps: after this run surface
  // 2 was raised last, yet surface 1 is painted above it.
  lemma {:induction false} EmptySurfaceJumpsUp()
    ensures RunList(EMPTY_MODEL, [], WRAPPING_RUN) == [1, 2]
    ensures Ids(BackToFront(Run(EMPTY_MODEL, WRAPPING_RUN).surfaces)) == [2, 1]
  {
    var shows := [Upsert(1, Rect(0, 0, 0, 0), true), Upsert(2, Rect(0, 0, 10, 10), true)];
    var raises := Repeated(Raise(2), MAX_SERIAL - 5);
    var last := [Raise(1), Raise(2), Raise(2), SetGeometry(1, Rect(0, 0, 10, 10))];
    RunConcat(EMPTY_MODEL, [], shows + raises, last);
    RunConcat(EMPTY_MODEL, [], shows, raises);
    PairShown();
    PairRaisedOften(1, 2, 3, MAX_SERIAL - 5);
    PairEnds(last);
  }

  lemma {:induction false} PairEnds(last: seq<Op>)
    requires last == [Raise(1), Raise(2), Raise(2), SetGeometry(1, Rect(0, 0, 10, 10))]
    ensures var m := Pair(1, MAX_SERIAL - 3, MAX_SERIAL - 2);
            && RunList(m, [1, 2], last) == [1, 2]
            && Ids(BackToFront(Run(m, last).surfaces)) == [2, 1]
  {
    var m0 := Pair(1, MAX_SERIAL - 3, MAX_SERIAL - 2);
    var m1 := Pair(MAX_SERIAL - 2, MAX_SERIAL - 3, MAX_SERIAL - 1);
    var m2 := Pair(MAX_SERIAL - 2, MAX_SERIAL - 1, MAX_SERIAL);
    var m3 := Pair(MAX_SERIAL - 2, 2, 3);
    var a, b := Surface(1, Rect(0, 0, 10, 10), true, MAX_SERIAL - 2), Surface(2, Rect(0, 0, 10, 10), true, 2);
    PairRaises(1, MAX_SERIAL - 3, MAX_SERIAL - 2);
    PairRaises(MAX_SERIAL - 2, MAX_SERIAL - 3, MAX_SERIAL - 1);
    PairWraps(MAX_SERIAL - 2);
    PairFinds(m0.surfaces[0], m0.surfaces[1]);
    PairFinds(m1.surfaces[0], m1.surfaces[1]);
    PairFinds(m2.surfaces[0], m2.surfaces[1]);
    PairFinds(m3.surfaces[0], m3.surfaces[1]);
    TwoLists();
    var m4 := Apply(m3, last[3]);
    assert m4.surfaces == [a, b];
    assert Run(m0, last) == m4 && RunList(m0, [1, 2], last) == [1, 2] by { FourSteps(m0, [1, 2], last); }
    TwoSurfacesSorted(a, b);
  }

  lemma {:induction false} FourSteps(m: Model, order: seq<nat>, ops: seq<Op>)
    requires |ops| == 4
    ensures var m1 := Apply(m, ops[0]);
            var m2 := Apply(m1, ops[1]);
            var m3 := Apply(m2, ops[2]);
            && Run(m, ops) == Apply(m3, ops[3])
            && RunList(m, order, ops)
               == Restacked(m3, Restacked(m2, Restacked(m1, Restacked(m, order, ops[0]), ops[1]), ops[2]), ops[3])
  {
    var m1 := Apply(m, ops[0]);
    var m2 := Apply(m1, ops[1]);
    var m3 := Apply(m2, ops[2]);
    var o1 := Restacked(m, order, ops[0]);
    var o2 := Restacked(m1, o1, ops[1]);
    var o3 := Restacked(m2, o2, ops[2]);
    OneStep(m, order, ops);
    OneStep(m1, o1, ops[1..]);
    assert ops[1..][1..] == ops[2..];
    OneStep(m2, o2, ops[2..]);
    assert ops[2..][1..] == ops[3..];
    OneStep(m3, o3, ops[3..]);
    assert ops[3..][1..] == [];
  }

  lemma {:induction false} OneStep(m: Model, order: seq<nat>, ops: seq<Op>)
    requires ops != []
    ensures Run(m, ops) == Run(Apply(m, ops[0]), ops[1..])
    ensures RunList(m, order, ops) == RunList(Apply(m, ops[0]), Restacked(m, order, ops[0]), ops[1..])
  {
  }
}
