// The surface model as an object: src/runtime/src/automatic/application_surface_model.cpp
// with its vector of records and its counter, updated in place.
module SurfaceObject {
  import opened Option
  import opened SurfaceStack
  import opened SurfaceRouting

  // The renumbering after its first k assignments.
  function PartlyRenumbered(surfaces: seq<Surface>, list: seq<Surface>, k: nat): (r: seq<Surface>)
    ensures |r| == |surfaces|
    ensures forall i :: 0 <= i < |r| ==> r[i] == surfaces[i].(serial := r[i].serial)
  {
    seq(|surfaces|, i requires 0 <= i < |surfaces| =>
      var at := Find(list, surfaces[i].id);
      if at < |list| && at < k then surfaces[i].(serial := at + 1) else surfaces[i])
  }

  lemma {:induction false} PartlyRenumberedNext(surfaces: seq<Surface>, k: nat)
    requires UniqueIds(surfaces) && k < |BackToFront(surfaces)|
    ensures var list := BackToFront(surfaces);
            var i := Find(surfaces, list[k].id);
            var before := PartlyRenumbered(surfaces, list, k);
            i < |surfaces| && PartlyRenumbered(surfaces, list, k + 1) == before[i := before[i].(serial := k + 1)]
  {
    ListIndex(surfaces, k);
    var list := BackToFront(surfaces);
    var i := Find(surfaces, list[k].id);
    forall j | 0 <= j < |surfaces| && j != i
      ensures Find(list, surfaces[j].id) != k
    {
      FoundInList(surfaces, j);
    }
  }

  class SurfaceModel {
    var surfaces: seq<Surface>
    var nextSerial: nat

    function Now(): Model
      reads this
    {
      Model(surfaces, nextSerial)
    }

    // The records have different ids.
    ghost predicate Valid()
      reads this
    {
      UniqueIds(surfaces)
    }

    constructor ()
      ensures Valid() && Now() == EMPTY_MODEL
    {
      surfaces, nextSerial := [], 1;
    }

    method FindSurface(id: nat) returns (i: nat)
      ensures i == Find(surfaces, id)
    {
      i := 0;
      while i < |surfaces| && surfaces[i].id != id
        invariant 0 <= i <= |surfaces|
        invariant Find(surfaces, id) == i + Find(surfaces[i..], id)
      {
        assert surfaces[i..][1..] == surfaces[i + 1..];
        i := i + 1;
      }
    }

    // Renumbers the visible surfaces when the counter has reached its end.
    method NextStackSerial() returns (serial: nat)
      requires Valid()
      modifies this
      ensures Valid() && surfaces == Renormalised(old(Now())).surfaces
      ensures serial == Renormalised(old(Now())).next && nextSerial == serial + 1
    {
      if nextSerial == MAX_SERIAL {
        var ordered := BackToFront(surfaces);
        var k := 0;
        while k < |ordered|
          invariant 0 <= k <= |ordered|
          invariant surfaces == PartlyRenumbered(old(surfaces), ordered, k)
        {
          var i := FindSurface(ordered[k].id);
          SameIdsSameFind(old(surfaces), surfaces, ordered[k].id);
          PartlyRenumberedNext(old(surfaces), k);
          surfaces := surfaces[i := surfaces[i].(serial := k + 1)];
          k := k + 1;
        }
        nextSerial := |ordered| + 1;
      }
      serial := nextSerial;
      nextSerial := nextSerial + 1;
    }

    method UpsertSurface(id: nat, geometry: Rect, visible: bool)
      requires Valid()
      modifies this
      ensures Valid() && Now() == Apply(old(Now()), Upsert(id, geometry, visible))
    {
      var i := FindSurface(id);
      if i < |surfaces| {
        var becameVisible := visible && !surfaces[i].visible;
        surfaces := surfaces[i := surfaces[i].(geometry := geometry, visible := visible)];
        if becameVisible {
          var serial := NextStackSerial();
          surfaces := surfaces[i := surfaces[i].(serial := serial)];
        }
        return;
      }
      var serial := 0;
      if visible { serial := NextStackSerial(); }
      surfaces := surfaces + [Surface(id, geometry, visible, serial)];
    }

    method RemoveSurface(id: nat)
      requires Valid()
      modifies this
      ensures Valid() && Now() == Apply(old(Now()), Remove(id))
    {
      var i := FindSurface(id);
      if i < |surfaces| { surfaces := CutOut(surfaces, i); }
    }

    method SetSurfaceVisible(id: nat, visible: bool)
      requires Valid()
      modifies this
      ensures Valid() && Now() == Apply(old(Now()), SetVisible(id, visible))
    {
      var i := FindSurface(id);
      if i == |surfaces| || surfaces[i].visible == visible { return; }
      surfaces := surfaces[i := surfaces[i].(visible := visible)];
      if visible {
        var serial := NextStackSerial();
        surfaces := surfaces[i := surfaces[i].(serial := serial)];
      }
    }

    method SetSurfaceGeometry(id: nat, geometry: Rect)
      requires Valid()
      modifies this
      ensures Valid() && Now() == Apply(old(Now()), SetGeometry(id, geometry))
    {
      var i := FindSurface(id);
      if i < |surfaces| { surfaces := surfaces[i := surfaces[i].(geometry := geometry)]; }
    }

    method RaiseSurface(id: nat)
      requires Valid()
      modifies this
      ensures Valid() && Now() == Apply(old(Now()), Raise(id))
    {
      var i := FindSurface(id);
      if i == |surfaces| || !surfaces[i].visible { return; }
      var serial := NextStackSerial();
      surfaces := surfaces[i := surfaces[i].(serial := serial)];
    }

    method CanvasBounds() returns (bounds: Option<Rect>)
      ensures bounds == Bounds(surfaces)
    {
      bounds := None;
      var i := 0;
      while i < |surfaces|
        invariant 0 <= i <= |surfaces|
        invariant bounds == Bounds(surfaces[..i])
      {
        assert surfaces[..i + 1][..i] == surfaces[..i];
        if Shown(surfaces[i]) {
          bounds := if bounds.None? then Some(surfaces[i].geometry)
                    else Some(United(bounds.value, surfaces[i].geometry));
        }
        i := i + 1;
      }
      assert surfaces[..|surfaces|] == surfaces;
    }

    // The search from the top of the stack.
    method RouteCanvasPoint(p: Point) returns (routed: Option<Routed>)
      ensures routed == Route(surfaces, p)
    {
      var bounds := CanvasBounds();
      if bounds.None? || !Rect(0, 0, bounds.value.w, bounds.value.h).Contains(p) { return None; }
      var at := CanvasPoint(bounds.value, p);
      var list := BackToFront(surfaces);
      var i := |list|;
      assert list[..i] == list;
      while i > 0
        invariant 0 <= i <= |list|
        invariant Painted(list, at) == Painted(list[..i], at)
      {
        assert list[..i][..i - 1] == list[..i - 1];
        i := i - 1;
        if list[i].geometry.Contains(at) {
          return Some(Routed(list[i].id, Point(at.x - list[i].geometry.x, at.y - list[i].geometry.y)));
        }
      }
      return None;
    }
  }
}
