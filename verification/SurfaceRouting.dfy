// Which surface a canvas point belongs to
// (src/runtime/src/automatic/composite_target_routing.cpp).
module SurfaceRouting {
  // The bounds are those of application_surface_model.cpp, and the answer is compared with the
  // order in which composite_target.cpp paints the surfaces.

  import opened Option
  import opened SurfaceStack

  function Min(a: int, b: int): int {
    if a < b then a else b
  }

  function Max(a: int, b: int): int {
    if a < b then b else a
  }

  function United(a: Rect, b: Rect): Rect {
    var x, y := Min(a.x, b.x), Min(a.y, b.y);
    Rect(x, y, Max(a.x + a.w, b.x + b.w) - x, Max(a.y + a.h, b.y + b.h) - y)
  }

  // canvasBounds over the first surfaces; None: nothing visible yet.
  function Bounds(surfaces: seq<Surface>): Option<Rect> {
    if surfaces == [] then None
    else
      var s := surfaces[|surfaces| - 1];
      var rest := Bounds(surfaces[..|surfaces| - 1]);
      if !Shown(s) then rest else if rest.None? then Some(s.geometry) else Some(United(rest.value, s.geometry))
  }

  lemma {:induction false} BoundsHaveArea(surfaces: seq<Surface>)
    ensures Bounds(surfaces).Some? ==> !Bounds(surfaces).value.Empty()
  {
    if surfaces != [] { BoundsHaveArea(surfaces[..|surfaces| - 1]); }
  }

  // The canvas covers every visible surface.
  lemma {:induction false} BoundsCover(surfaces: seq<Surface>, i: nat, p: Point)
    requires i < |surfaces| && Shown(surfaces[i]) && surfaces[i].geometry.Contains(p)
    ensures Bounds(surfaces).Some? && Bounds(surfaces).value.Contains(p)
  {
    var front := surfaces[..|surfaces| - 1];
    var last := surfaces[|surfaces| - 1];
    BoundsHaveArea(front);
    if i < |front| { BoundsCover(front, i, p); }
  }

  // Painting back to front: who owns a point after the first surfaces of the list.
  function Painted(list: seq<Surface>, p: Point): Option<Surface> {
    if list == [] then None
    else
      var s := list[|list| - 1];
      if s.geometry.Contains(p) then Some(s) else Painted(list[..|list| - 1], p)
  }

  datatype Routed = Routed(id: nat, local: Point)

  function CanvasPoint(bounds: Rect, p: Point): Point {
    Point(bounds.x + p.x, bounds.y + p.y)
  }

  // routeCanvasPoint
  function Route(surfaces: seq<Surface>, p: Point): Option<Routed> {
    match Bounds(surfaces)
    case None => None
    case Some(bounds) =>
      if !Rect(0, 0, bounds.w, bounds.h).Contains(p) then None
      else
        var at := CanvasPoint(bounds, p);
        match Painted(BackToFront(surfaces), at)
        case None => None
        case Some(s) => Some(Routed(s.id, Point(at.x - s.geometry.x, at.y - s.geometry.y)))
  }

  lemma {:induction false} PaintedIsTopmost(list: seq<Surface>, p: Point)
    ensures Painted(list, p).None? <==> forall i :: 0 <= i < |list| ==> !list[i].geometry.Contains(p)
    ensures Painted(list, p).Some? ==>
              exists i :: 0 <= i < |list| && list[i] == Painted(list, p).value && list[i].geometry.Contains(p)
                          && (forall j :: i < j < |list| ==> !list[j].geometry.Contains(p))
  {
    if list != [] {
      var front := list[..|list| - 1];
      if !list[|list| - 1].geometry.Contains(p) {
        PaintedIsTopmost(front, p);
        if Painted(front, p).Some? {
          var i :| 0 <= i < |front| && front[i] == Painted(front, p).value && front[i].geometry.Contains(p)
                   && (forall j :: i < j < |front| ==> !front[j].geometry.Contains(p));
          assert list[i] == front[i];
          forall j | i < j < |list|
            ensures !list[j].geometry.Contains(p)
          {
            if j < |front| { assert list[j] == front[j]; }
          }
        } else {
          forall j | 0 <= j < |list|
            ensures !list[j].geometry.Contains(p)
          {
            if j < |front| { assert list[j] == front[j]; }
          }
        }
      }
    }
  }

  // The list entry that owns a point, or none.
  ghost predicate OwnedBy(list: seq<Surface>, at: Point, owner: Surface) {
    exists i :: 0 <= i < |list| && list[i] == owner && list[i].geometry.Contains(at)
                && (forall j :: i < j < |list| ==> !list[j].geometry.Contains(at))
  }

  // Somebody paints the point exactly when it lies in a visible surface.
  lemma {:induction false} PaintedIffCovered(surfaces: seq<Surface>, at: Point)
    requires UniqueIds(surfaces)
    ensures Painted(BackToFront(surfaces), at).None? <==>
            forall s :: s in surfaces && Shown(s) ==> !s.geometry.Contains(at)
  {
    var list := BackToFront(surfaces);
    BackToFrontSorts(surfaces);
    PaintedIsTopmost(list, at);
    if Painted(list, at).Some? {
      var i :| 0 <= i < |list| && list[i] == Painted(list, at).value && list[i].geometry.Contains(at);
      assert list[i] in surfaces;
    }
  }

  // A point of the canvas is routed to the surface that was painted there last, with the
  // point expressed in that surface; it is routed nowhere exactly when no visible surface
  // covers it.
  lemma {:induction false} RouteAgreesWithPaint(surfaces: seq<Surface>, p: Point)
    requires UniqueIds(surfaces) && Bounds(surfaces).Some?
    ensures var at := CanvasPoint(Bounds(surfaces).value, p);
            && (Route(surfaces, p).None? <==> forall s :: s in surfaces && Shown(s) ==> !s.geometry.Contains(at))
            && (Route(surfaces, p).Some? ==>
                  exists s :: OwnedBy(BackToFront(surfaces), at, s) && Route(surfaces, p).value.id == s.id
                              && Route(surfaces, p).value.local == Point(at.x - s.geometry.x, at.y - s.geometry.y)
                              && Rect(0, 0, s.geometry.w, s.geometry.h).Contains(Route(surfaces, p).value.local))
  {
    var at := CanvasPoint(Bounds(surfaces).value, p);
    var list := BackToFront(surfaces);
    PaintedIffCovered(surfaces, at);
    if Route(surfaces, p).Some? {
      PaintedIsTopmost(list, at);
      assert OwnedBy(list, at, Painted(list, at).value);
    } else {
      forall s | s in surfaces && Shown(s)
        ensures !s.geometry.Contains(at)
      {
        if s.geometry.Contains(at) {
          var k :| 0 <= k < |surfaces| && surfaces[k] == s;
          BoundsCover(surfaces, k, at);
        }
      }
    }
  }
}
