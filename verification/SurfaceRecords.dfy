// What an application surface model remembers of its surfaces
// (src/runtime/src/automatic/application_surface_model.cpp).
module SurfaceRecords {
  // SurfaceStack is about the order of the surfaces.  Here: which surfaces there are, and with
  // which geometry and visibility, is that of a map driven by the same operations.

  import opened Option
  import opened SurfaceStack

  datatype Record = Record(geometry: Rect, visible: bool)

  type Records = map<nat, Record>

  // The operations on the map.
  function Updated(r: Records, op: Op): Records {
    match op
    case Upsert(id, geometry, visible) => r[id := Record(geometry, visible)]
    case Remove(id) => r - {id}
    case SetVisible(id, visible) => if id in r then r[id := r[id].(visible := visible)] else r
    case SetGeometry(id, geometry) => if id in r then r[id := r[id].(geometry := geometry)] else r
    case Raise(_) => r
  }

  // The record list and the map say the same.
  ghost predicate Says(surfaces: seq<Surface>, r: Records) {
    && UniqueIds(surfaces)
    && (forall i :: 0 <= i < |surfaces| ==>
          surfaces[i].id in r && r[surfaces[i].id] == Record(surfaces[i].geometry, surfaces[i].visible))
    && (forall id :: id in r ==> Find(surfaces, id) < |surfaces|)
  }

  // Serials do not matter to it.
  lemma {:induction false} SerialsDoNotMatter(a: seq<Surface>, b: seq<Surface>, r: Records)
    requires Says(a, r) && |a| == |b| && forall i :: 0 <= i < |a| ==> b[i] == a[i].(serial := b[i].serial)
    ensures Says(b, r)
  {
    forall id | id in r
      ensures Find(b, id) < |b|
    {
      SameIdsSameFind(a, b, id);
    }
  }

  lemma {:induction false} OneChanged(a: seq<Surface>, r: Records, i: nat, s: Surface)
    requires Says(a, r) && i < |a| && s.id == a[i].id
    ensures Says(a[i := s], r[s.id := Record(s.geometry, s.visible)])
  {
    var b := a[i := s];
    forall id | id in r[s.id := Record(s.geometry, s.visible)]
      ensures Find(b, id) < |b|
    {
      SameIdsSameFind(a, b, id);
    }
  }

  lemma {:induction false} OneAdded(a: seq<Surface>, r: Records, s: Surface)
    requires Says(a, r) && Find(a, s.id) == |a|
    ensures Says(a + [s], r[s.id := Record(s.geometry, s.visible)])
  {
    forall id | id in r[s.id := Record(s.geometry, s.visible)]
      ensures Find(a + [s], id) < |a| + 1
    {
      FindAppended(a, s, id);
    }
  }

  lemma {:induction false} OneRemoved(a: seq<Surface>, r: Records, i: nat)
    requires Says(a, r) && i < |a|
    ensures Says(CutOut(a, i), r - {a[i].id})
  {
    var b := CutOut(a, i);
    forall id | id in r - {a[i].id}
      ensures Find(b, id) < |b|
    {
      CutOutFinds(a, i, id);
    }
  }

  lemma {:induction false} RenormalisedSays(m: Model, r: Records)
    requires Says(m.surfaces, r)
    ensures Says(Renormalised(m).surfaces, r)
  {
    SerialsDoNotMatter(m.surfaces, Renormalised(m).surfaces, r);
  }

  lemma {:induction false} ToppedSays(m: Model, r: Records, i: nat)
    requires Says(m.surfaces, r) && i < |m.surfaces|
    ensures Says(Topped(m, i).surfaces, r)
  {
    SerialsDoNotMatter(m.surfaces, Topped(m, i).surfaces, r);
  }

  lemma {:induction false} AddedSays(m: Model, r: Records, id: nat, geometry: Rect, visible: bool)
    requires Says(m.surfaces, r) && Find(m.surfaces, id) == |m.surfaces|
    ensures Says(AddNew(m, id, geometry, visible).surfaces, r[id := Record(geometry, visible)])
  {
    if visible {
      RenormalisedSays(m, r);
      SameIdsSameFind(m.surfaces, Renormalised(m).surfaces, id);
      OneAdded(Renormalised(m).surfaces, r, Surface(id, geometry, true, Renormalised(m).next));
    } else {
      OneAdded(m.surfaces, r, Surface(id, geometry, false, 0));
    }
  }

  // The change of a known surface, and its serial if it is put on top.
  lemma {:induction false} ChangedSays(m: Model, r: Records, i: nat, s: Surface, tops: bool)
    requires Says(m.surfaces, r) && i < |m.surfaces| && s.id == m.surfaces[i].id
    ensures Says((if tops then Topped(Changed(m, i, s), i) else Changed(m, i, s)).surfaces,
                 r[s.id := Record(s.geometry, s.visible)])
  {
    OneChanged(m.surfaces, r, i, s);
    if tops { ToppedSays(Changed(m, i, s), r[s.id := Record(s.geometry, s.visible)], i); }
  }

  // Every operation does to the records what it does to the map.
  lemma {:induction false} OperationUpdates(m: Model, r: Records, op: Op)
    requires Says(m.surfaces, r)
    ensures Says(Apply(m, op).surfaces, Updated(r, op))
  {
    var i := Find(m.surfaces, op.id);
    var known := i < |m.surfaces|;
    match op
    case Upsert(id, geometry, visible) =>
      if known {
        var s := m.surfaces[i];
        ChangedSays(m, r, i, s.(geometry := geometry, visible := visible), visible && !s.visible);
      } else {
        AddedSays(m, r, id, geometry, visible);
      }
    case Remove(id) => if known { OneRemoved(m.surfaces, r, i); } else { assert r - {id} == r; }
    case SetVisible(id, visible) =>
      if known {
        ChangedSays(m, r, i, m.surfaces[i].(visible := visible), visible);
        assert visible == m.surfaces[i].visible ==> r[id := r[id].(visible := visible)] == r;
      }
    case SetGeometry(id, geometry) =>
      if known { ChangedSays(m, r, i, m.surfaces[i].(geometry := geometry), false); }
    case Raise(id) => if known { ToppedSays(m, r, i); }
  }

  function UpdatedAll(r: Records, ops: seq<Op>): Records
    decreases |ops|
  {
    if ops == [] then r else UpdatedAll(Updated(r, ops[0]), ops[1..])
  }

  lemma {:induction false} RunUpdates(m: Model, r: Records, ops: seq<Op>)
    requires Says(m.surfaces, r)
    ensures Says(Run(m, ops).surfaces, UpdatedAll(r, ops))
    decreases |ops|
  {
    if ops != [] {
      OperationUpdates(m, r, ops[0]);
      RunUpdates(Apply(m, ops[0]), Updated(r, ops[0]), ops[1..]);
    }
  }

  // After any operations the model holds exactly the surfaces of the map, each once, with their
  // geometry and visibility, renumberings included.
  lemma {:induction false} ModelIsMap(ops: seq<Op>)
    ensures Says(Run(EMPTY_MODEL, ops).surfaces, UpdatedAll(map[], ops))
  {
    RunUpdates(EMPTY_MODEL, map[], ops);
  }

  // ---- rectangles --------------------------------------------------------------------------------------

  // A rectangle of one unit holds one point, and one that is cut in two holds what the parts
  // hold, each point once: neither gaps nor overlaps along an edge.
  lemma {:induction false} UnitHoldsPoint(x: int, y: int, p: Point)
    ensures Rect(x, y, 1, 1).Contains(p) <==> p == Point(x, y)
  {
  }

  lemma {:induction false} CutHoldsOnce(r: Rect, w: int, h: int, p: Point)
    requires 0 <= w <= r.w && 0 <= h <= r.h
    ensures r.Contains(p) <==> Rect(r.x, r.y, w, r.h).Contains(p) || Rect(r.x + w, r.y, r.w - w, r.h).Contains(p)
    ensures !(Rect(r.x, r.y, w, r.h).Contains(p) && Rect(r.x + w, r.y, r.w - w, r.h).Contains(p))
    ensures r.Contains(p) <==> Rect(r.x, r.y, r.w, h).Contains(p) || Rect(r.x, r.y + h, r.w, r.h - h).Contains(p)
    ensures !(Rect(r.x, r.y, r.w, h).Contains(p) && Rect(r.x, r.y + h, r.w, r.h - h).Contains(p))
  {
  }

  lemma {:induction false} EmptyHoldsNothing(r: Rect)
    ensures r.Empty() <==> forall p :: !r.Contains(p)
  {
    if !r.Empty() { assert r.Contains(Point(r.x, r.y)); }
  }
}
