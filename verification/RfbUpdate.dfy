// What one viewer is owed.
module RfbUpdate {
  // Pending damage, the outstanding request and a forced refresh
  // (src/runtime/src/transport/rfb_delivery_state.hpp).
  //
  // The source has them in the class RfbUpdateState and in coalesceRfbDamageForPaint.

  import opened Option
  import opened RfbRegion

  const COALESCE_PERCENT: int := 25

  function CoveredArea(rs: seq<Rect>): int {
    if rs == [] then 0 else rs[0].Area() + CoveredArea(rs[1..])
  }

  // Small damage stays precise; damage over a quarter of the frame becomes one rectangle.
  function Coalesce(rs: seq<Rect>, width: int, height: int): seq<Rect> {
    if |rs| <= 1 || width == 0 || height == 0 then rs
    else if CoveredArea(rs) * 100 < width * height * COALESCE_PERCENT then rs
    else AddRect([], BoundAll(rs, NO_RECT))
  }

  datatype Request = Request(incremental: bool, area: Rect)

  datatype Delivery = Delivery(pending: seq<Rect>, request: Option<Request>, forced: Option<Rect>)

  const NEW_DELIVERY: Delivery := Delivery([], None, None)

  function FullRect(width: int, height: int): Rect {
    Rect(0, 0, width, height)
  }

  function Accumulate(d: Delivery, damage: seq<Rect>): Delivery {
    d.(pending := AddAll(d.pending, damage))
  }

  function Ask(d: Delivery, incremental: bool, area: Rect): Delivery {
    d.(request := Some(Request(incremental, area)))
  }

  function Cancel(d: Delivery): Delivery {
    d.(request := None)
  }

  // The rectangles an outstanding request may be answered with, if any.
  function SelectEligible(d: Delivery): Option<seq<Rect>> {
    if d.request.None? then None
    else
      var q := d.request.value;
      if d.forced.Some? then Some(AddRect([], Intersect(d.forced.value, q.area)))
      else if q.incremental then
        var selected := Intersected(d.pending, q.area);
        if selected == [] then None
        else Some(Coalesce(selected, Max(0, q.area.width), Max(0, q.area.height)))
      else Some(AddRect([], q.area))
  }

  function Commit(d: Delivery, delivered: seq<Rect>): Delivery {
    if d.request.None? then d
    else Delivery(SubtractAll(d.pending, delivered), None, None)
  }

  function InvalidateFull(d: Delivery, width: int, height: int): Delivery {
    var full := FullRect(width, height);
    d.(pending := AddRect([], full), forced := Some(full))
  }

  // ---- coalescing -----------------------------------------------------------------------------

  lemma {:induction false} SingleRect(rect: Rect, px: int, py: int)
    ensures Bounded(AddRect([], rect)) && |AddRect([], rect)| <= 1
    ensures Covers(AddRect([], rect), px, py) <==> rect.Has(px, py)
  {
    AddRectBounded([], rect);
    AddRectCovers([], rect, px, py);
    if !rect.Empty() { AbsorbShape([], rect); }
  }

  lemma {:induction false} CoalesceCovers(rs: seq<Rect>, width: int, height: int, px: int, py: int)
    requires Bounded(rs)
    ensures Bounded(Coalesce(rs, width, height))
    ensures Covers(rs, px, py) ==> Covers(Coalesce(rs, width, height), px, py)
  {
    BoundAllCovers(rs, NO_RECT, px, py);
    SingleRect(BoundAll(rs, NO_RECT), px, py);
  }

  // Coalescing never makes an empty region out of a non-empty one, or the reverse.
  lemma {:induction false} CoalesceKeepsEmptiness(rs: seq<Rect>, width: int, height: int)
    requires Bounded(rs)
    ensures Coalesce(rs, width, height) == [] <==> rs == []
  {
    if rs != [] {
      CoalesceCovers(rs, width, height, rs[0].x, rs[0].y);
    }
  }

  lemma {:induction false} BoundAllWithin(rs: seq<Rect>, acc: Rect, outer: Rect)
    requires AllNonEmpty(rs)
    requires forall i :: 0 <= i < |rs| ==> ContainsRect(outer, rs[i])
    requires acc.Empty() || ContainsRect(outer, acc)
    ensures BoundAll(rs, acc).Empty() || ContainsRect(outer, BoundAll(rs, acc))
    decreases |rs|
  {
    if rs != [] {
      BoundAllWithin(rs[1..], Bound(acc, rs[0]), outer);
    }
  }

  // Coalescing stays inside every rectangle that contains the region.
  lemma {:induction false} CoalesceConfined(rs: seq<Rect>, width: int, height: int, outer: Rect)
    requires Bounded(rs)
    requires forall px, py :: Covers(rs, px, py) ==> outer.Has(px, py)
    ensures forall px, py :: Covers(Coalesce(rs, width, height), px, py) ==> outer.Has(px, py)
  {
    forall i | 0 <= i < |rs|
      ensures ContainsRect(outer, rs[i])
    {
      var r := rs[i];
      assert r.Has(r.x, r.y) && r.Has(r.Right() - 1, r.Bottom() - 1);
      assert Covers(rs, r.x, r.y) && Covers(rs, r.Right() - 1, r.Bottom() - 1);
    }
    BoundAllWithin(rs, NO_RECT, outer);
    var all := BoundAll(rs, NO_RECT);
    forall px, py | Covers(Coalesce(rs, width, height), px, py)
      ensures outer.Has(px, py)
    {
      SingleRect(all, px, py);
    }
  }

  // ---- selection ------------------------------------------------------------------------------

  // What is selected never leaves the requested area, and keeps the region bound.
  lemma {:induction false} SelectConfined(d: Delivery, px: int, py: int)
    requires Bounded(d.pending) && SelectEligible(d).Some?
    ensures var selected := SelectEligible(d).value;
            && Bounded(selected)
            && (Covers(selected, px, py) ==> d.request.value.area.Has(px, py))
            && (d.forced.Some? ==> |selected| <= 1)
  {
    var q := d.request.value;
    if d.forced.Some? {
      SingleRect(Intersect(d.forced.value, q.area), px, py);
    } else if q.incremental {
      IntersectedIsExact(d.pending, q.area, px, py);
      forall x, y
        ensures Covers(Intersected(d.pending, q.area), x, y) ==> q.area.Has(x, y)
      {
        IntersectedIsExact(d.pending, q.area, x, y);
      }
      CoalesceConfined(Intersected(d.pending, q.area), Max(0, q.area.width), Max(0, q.area.height), q.area);
      CoalesceCovers(Intersected(d.pending, q.area), Max(0, q.area.width), Max(0, q.area.height), px, py);
    } else {
      SingleRect(q.area, px, py);
    }
  }

  // A request is answered with every damaged pixel of its area: a forced refresh or a
  // full request with the whole area, an incremental one with at least the damage.
  lemma {:induction false} SelectCovers(d: Delivery, px: int, py: int)
    requires Bounded(d.pending) && d.request.Some?
    requires d.request.value.area.Has(px, py)
    requires Covers(d.pending, px, py) || !d.request.value.incremental
    requires d.forced.Some? ==> d.forced.value.Has(px, py)
    ensures SelectEligible(d).Some? && Covers(SelectEligible(d).value, px, py)
  {
    var q := d.request.value;
    if d.forced.Some? {
      SingleRect(Intersect(d.forced.value, q.area), px, py);
    } else if q.incremental {
      IntersectedIsExact(d.pending, q.area, px, py);
      CoalesceCovers(Intersected(d.pending, q.area), Max(0, q.area.width), Max(0, q.area.height), px, py);
    } else {
      SingleRect(q.area, px, py);
    }
  }

  // Nothing is selected only when there is no request, or an incremental one whose area
  // holds no damage.
  lemma {:induction false} SelectNothing(d: Delivery, px: int, py: int)
    requires Bounded(d.pending)
    requires d.request.Some? && d.request.value.area.Has(px, py)
    requires SelectEligible(d).None?
    ensures d.request.value.incremental && d.forced.None? && !Covers(d.pending, px, py)
  {
    IntersectedIsExact(d.pending, d.request.value.area, px, py);
  }

  lemma {:induction false} CommitCovers(d: Delivery, delivered: seq<Rect>, px: int, py: int)
    requires Bounded(d.pending)
    ensures Bounded(Commit(d, delivered).pending)
    ensures Covers(d.pending, px, py) && !Covers(delivered, px, py) ==> Covers(Commit(d, delivered).pending, px, py)
  {
    SubtractAllCovers(d.pending, delivered, px, py);
  }

  lemma {:induction false} InvalidateCovers(d: Delivery, width: int, height: int, px: int, py: int)
    ensures Bounded(InvalidateFull(d, width, height).pending)
    ensures Covers(InvalidateFull(d, width, height).pending, px, py) <==> FullRect(width, height).Has(px, py)
  {
    SingleRect(FullRect(width, height), px, py);
  }

  // ---- payload size ------------------------------------------------------------------------------

  lemma {:induction false} CoveredAreaConcat(a: seq<Rect>, b: seq<Rect>)
    ensures CoveredArea(a + b) == CoveredArea(a) + CoveredArea(b)
  {
    if a == [] {
      assert a + b == b;
    } else {
      assert (a + b)[1..] == a[1..] + b;
      CoveredAreaConcat(a[1..], b);
    }
  }

  lemma {:induction false} AreaOfAdjacent(a: Rect, b: Rect)
    requires ExactlyAdjacent(a, b)
    ensures Bound(a, b).Area() == a.Area() + b.Area()
  {
    if a.y == b.y && a.height == b.height && (a.Right() == b.x || b.Right() == a.x) {
      assert Bound(a, b).width == a.width + b.width && Bound(a, b).height == a.height;
      assert (a.width + b.width) * a.height == a.width * a.height + b.width * a.height;
    } else {
      assert Bound(a, b).width == a.width && Bound(a, b).height == a.height + b.height;
      assert a.width * (a.height + b.height) == a.width * a.height + a.width * b.height;
    }
  }

  lemma {:induction false} AreaWithout(rs: seq<Rect>, i: nat)
    requires i < |rs|
    ensures CoveredArea(rs) == CoveredArea(RemoveAt(rs, i)) + rs[i].Area()
  {
    assert rs == rs[..i] + ([rs[i]] + rs[i + 1..]);
    assert ([rs[i]] + rs[i + 1..])[1..] == rs[i + 1..];
    CoveredAreaConcat(rs[..i], [rs[i]] + rs[i + 1..]);
    CoveredAreaConcat(rs[..i], rs[i + 1..]);
  }

  lemma {:induction false} AreaNonNegative(r: Rect)
    requires !r.Empty()
    ensures r.Area() >= 0
  {
  }

  // Exact merging never increases the number of pixels sent.
  lemma {:induction false} AbsorbArea(rs: seq<Rect>, rect: Rect)
    requires AllNonEmpty(rs) && !rect.Empty()
    ensures CoveredArea(Absorb(rs, rect)) <= CoveredArea(rs) + rect.Area()
    decreases |rs|
  {
    var i := FirstTouch(rs, rect);
    AreaNonNegative(rect);
    if i == |rs| {
      CoveredAreaConcat(rs, [rect]);
      assert CoveredArea([rect]) == rect.Area() + CoveredArea([rect][1..]);
    } else if !ContainsRect(rs[i], rect) {
      AreaWithout(rs, i);
      AreaNonNegative(rs[i]);
      if ContainsRect(rect, rs[i]) {
        AbsorbArea(RemoveAt(rs, i), rect);
      } else {
        AreaOfAdjacent(rect, rs[i]);
        AbsorbArea(RemoveAt(rs, i), Bound(rect, rs[i]));
      }
    }
  }

  lemma {:induction false} IntersectArea(a: Rect, b: Rect)
    requires !a.Empty()
    ensures Intersect(a, b).Area() <= a.Area()
  {
    var r := Intersect(a, b);
    assert 0 <= r.width <= a.width && 0 <= r.height <= a.height;
    MulMonotone(r.width, a.width, r.height, a.height);
  }

  lemma {:induction false} MulMonotone(a: int, b: int, c: int, d: int)
    requires 0 <= a <= b && 0 <= c <= d
    ensures a * c <= b * d
  {
    assert a * c <= b * c;
    assert b * c <= b * d;
  }

  lemma {:induction false} IntersectFromArea(acc: seq<Rect>, rs: seq<Rect>, requested: Rect)
    requires AllNonEmpty(acc) && AllNonEmpty(rs) && |acc| + |rs| <= MAX_DAMAGE_RECTS
    ensures CoveredArea(IntersectFrom(acc, rs, requested)) <= CoveredArea(acc) + CoveredArea(rs)
    decreases |rs|
  {
    if rs != [] {
      var hit := Intersect(rs[0], requested);
      IntersectArea(rs[0], requested);
      if !hit.Empty() {
        AbsorbShape(acc, hit);
        AbsorbArea(acc, hit);
      }
      IntersectFromArea(AddRect(acc, hit), rs[1..], requested);
    }
  }

  // Clipping a region does not increase the number of pixels it sends.
  lemma {:induction false} IntersectedArea(rs: seq<Rect>, requested: Rect)
    requires Bounded(rs)
    ensures CoveredArea(Intersected(rs, requested)) <= CoveredArea(rs)
  {
    IntersectFromArea([], rs, requested);
  }

  // An answer of more than one rectangle covers less than a quarter of its request.
  lemma {:induction false} SelectArea(d: Delivery)
    requires Bounded(d.pending)
    requires SelectEligible(d).Some? && |SelectEligible(d).value| > 1
    requires d.request.value.area.width > 0 && d.request.value.area.height > 0
    ensures CoveredArea(SelectEligible(d).value) * 4 < d.request.value.area.Area()
  {
    var q := d.request.value;
    if d.forced.Some? {
      SingleRect(Intersect(d.forced.value, q.area), 0, 0);
    } else if q.incremental {
      var selected := Intersected(d.pending, q.area);
      IntersectedIsExact(d.pending, q.area, 0, 0);
      SingleRect(BoundAll(selected, NO_RECT), 0, 0);
    } else {
      SingleRect(q.area, 0, 0);
    }
  }

  // ---- the delivery object --------------------------------------------------------------------

  method CoalesceForPaint(damage: DamageRegion, width: int, height: int) returns (result: DamageRegion)
    requires damage.Valid()
    ensures result.Valid() && result.rects == Coalesce(damage.rects, width, height)
    ensures result == damage || fresh(result)
  {
    if |damage.rects| <= 1 || width == 0 || height == 0 {
      return damage;
    }
    var covered := 0;
    var all := NO_RECT;
    var i := 0;
    while i < |damage.rects|
      invariant 0 <= i <= |damage.rects|
      invariant covered + CoveredArea(damage.rects[i..]) == CoveredArea(damage.rects)
      invariant BoundAll(damage.rects[i..], all) == BoundAll(damage.rects, NO_RECT)
    {
      assert damage.rects[i..][1..] == damage.rects[i + 1..];
      covered := covered + damage.rects[i].Area();
      all := Bound(all, damage.rects[i]);
      i := i + 1;
    }
    if covered * 100 < width * height * COALESCE_PERCENT {
      return damage;
    }
    result := new DamageRegion();
    result.Add(all);
  }

  class UpdateState {
    const pending: DamageRegion
    var request: Option<Request>
    var forced: Option<Rect>

    ghost predicate Valid()
      reads this, pending
    {
      pending.Valid()
    }

    ghost function View(): Delivery
      reads this, pending
    {
      Delivery(pending.rects, request, forced)
    }

    constructor ()
      ensures Valid() && fresh(pending) && View() == NEW_DELIVERY
    {
      pending := new DamageRegion();
      request := None;
      forced := None;
    }

    method AccumulateDamage(damage: DamageRegion)
      requires Valid() && damage.Valid() && damage != pending
      modifies pending
      ensures Valid() && View() == Accumulate(old(View()), damage.rects)
    {
      pending.AddRegion(damage);
    }

    method RequestArea(incremental: bool, area: Rect)
      requires Valid()
      modifies this`request
      ensures Valid() && View() == Ask(old(View()), incremental, area)
    {
      request := Some(Request(incremental, area));
    }

    method CancelRequest()
      requires Valid()
      modifies this`request
      ensures Valid() && View() == Cancel(old(View()))
    {
      request := None;
    }

    method Select() returns (selected: Option<DamageRegion>)
      requires Valid()
      ensures selected.Some? <==> SelectEligible(View()).Some?
      ensures selected.Some? ==> fresh(selected.value) && selected.value.Valid()
      ensures selected.Some? ==> selected.value.rects == SelectEligible(View()).value
    {
      if request.None? {
        return None;
      }
      var area := request.value.area;
      if forced.Some? {
        var refresh := new DamageRegion();
        refresh.Add(Intersect(forced.value, area));
        return Some(refresh);
      }
      if request.value.incremental {
        var damage := pending.IntersectedWith(area);
        if |damage.rects| == 0 {
          return None;
        }
        damage := CoalesceForPaint(damage, Max(0, area.width), Max(0, area.height));
        return Some(damage);
      }
      var whole := new DamageRegion();
      whole.Add(area);
      return Some(whole);
    }

    method CommitDelivered(delivered: DamageRegion)
      requires Valid() && delivered.Valid() && delivered != pending
      modifies this, pending
      ensures Valid() && View() == Commit(old(View()), delivered.rects)
    {
      if request.None? {
        return;
      }
      pending.Subtract(delivered);
      forced := None;
      request := None;
    }

    method Invalidate(width: int, height: int)
      requires Valid()
      modifies this, pending
      ensures Valid() && View() == InvalidateFull(old(View()), width, height)
    {
      var full := FullRect(width, height);
      pending.Clear();
      pending.Add(full);
      forced := Some(full);
    }
  }
}
