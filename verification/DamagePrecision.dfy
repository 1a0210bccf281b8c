// Damage and answers are no larger than they have to be.
module DamagePrecision {
  // Elsewhere it is proved that no changed, pending or requested pixel is missing from what
  // src/runtime/src/transport/rfb_delivery_state.hpp computes.  Here it is proved that nothing
  // else is in it: regions are exact until a bound or the 25 percent rule makes them one
  // rectangle, and that rectangle is the smallest one.

  import opened Option
  import opened RfbRegion
  import opened RfbUpdate
  import opened Frames
  import opened FrameDamage

  // Every pixel of the region lies in the rectangle.
  ghost predicate Inside(rs: seq<Rect>, outer: Rect) {
    forall px, py :: Covers(rs, px, py) ==> outer.Has(px, py)
  }

  // ---- regions ---------------------------------------------------------------------------------------

  lemma {:induction false} InsideContains(rs: seq<Rect>, outer: Rect, i: nat)
    requires AllNonEmpty(rs) && Inside(rs, outer) && i < |rs|
    ensures ContainsRect(outer, rs[i])
  {
    var r := rs[i];
    assert r.Has(r.x, r.y) && r.Has(r.Right() - 1, r.Bottom() - 1);
    assert Covers(rs, r.x, r.y) && Covers(rs, r.Right() - 1, r.Bottom() - 1);
  }

  // The bound never reaches outside a rectangle that holds the region.
  lemma {:induction false} EnforceBoundStaysInside(rs: seq<Rect>, outer: Rect)
    requires AllNonEmpty(rs) && Inside(rs, outer)
    ensures Inside(EnforceBound(rs), outer)
  {
    forall i | 0 <= i < |rs|
      ensures ContainsRect(outer, rs[i])
    {
      InsideContains(rs, outer, i);
    }
    BoundAllWithin(rs, NO_RECT, outer);
  }

  lemma {:induction false} AddRectStaysInside(rs: seq<Rect>, rect: Rect, outer: Rect)
    requires AllNonEmpty(rs) && Inside(rs, outer) && (forall px, py :: rect.Has(px, py) ==> outer.Has(px, py))
    ensures Inside(AddRect(rs, rect), outer)
  {
    if !rect.Empty() {
      AbsorbShape(rs, rect);
      forall px, py | Covers(Absorb(rs, rect), px, py)
        ensures outer.Has(px, py)
      {
        AbsorbIsUnion(rs, rect, px, py);
      }
      EnforceBoundStaysInside(Absorb(rs, rect), outer);
    }
  }

  // No intermediate list of pieces is over the bound.
  predicate NeverCollapses(rs: seq<Rect>, cuts: seq<Rect>)
    decreases |cuts|
  {
    cuts == [] || ((cuts[0].Empty() || |Pieces(rs, cuts[0])| <= MAX_DAMAGE_RECTS)
                   && NeverCollapses(SubtractOne(rs, cuts[0]), cuts[1..]))
  }

  // Subtraction removes every delivered rectangle exactly, unless the pieces exceed the bound;
  // even then nothing outside the old region's surroundings becomes pending.
  lemma {:induction false} SubtractAllIsExact(rs: seq<Rect>, cuts: seq<Rect>, px: int, py: int)
    requires Bounded(rs) && NeverCollapses(rs, cuts)
    ensures Covers(SubtractAll(rs, cuts), px, py) <==> Covers(rs, px, py) && !Covers(cuts, px, py)
    decreases |cuts|
  {
    if cuts != [] {
      CoversCons(cuts, px, py);
      SubtractOneCovers(rs, cuts[0], px, py);
      SubtractAllIsExact(SubtractOne(rs, cuts[0]), cuts[1..], px, py);
    }
  }

  lemma {:induction false} SubtractAllStaysInside(rs: seq<Rect>, cuts: seq<Rect>, outer: Rect)
    requires Bounded(rs) && Inside(rs, outer)
    ensures Inside(SubtractAll(rs, cuts), outer)
    decreases |cuts|
  {
    if cuts != [] {
      SubtractOneCovers(rs, cuts[0], 0, 0);
      if !cuts[0].Empty() {
        forall px, py | Covers(Pieces(rs, cuts[0]), px, py)
          ensures outer.Has(px, py)
        {
          PiecesAreExact(rs, cuts[0], px, py);
        }
        PiecesAreExact(rs, cuts[0], 0, 0);
        EnforceBoundStaysInside(Pieces(rs, cuts[0]), outer);
      }
      SubtractAllStaysInside(SubtractOne(rs, cuts[0]), cuts[1..], outer);
    }
  }

  // One rectangle cut by one rectangle never exceeds the bound: what is delivered of a single
  // pending rectangle is exactly what leaves it.
  lemma {:induction false} SingleIsExact(r: Rect, cut: Rect, px: int, py: int)
    requires !r.Empty()
    ensures Covers(SubtractAll([r], [cut]), px, py) <==> r.Has(px, py) && !cut.Has(px, py)
  {
    FewPieces(r, cut);
    assert [r][1..] == [] && [cut][1..] == [];
    SubtractAllIsExact([r], [cut], px, py);
    CoversCons([r], px, py);
    CoversCons([cut], px, py);
  }

  lemma {:induction false} FewPieces(r: Rect, cut: Rect)
    ensures |Pieces([r], cut)| <= 4
  {
    assert [r][1..] == [];
    assert Pieces([r], cut) == SubtractRect(r, cut) + Pieces([], cut);
    if !Intersect(r, cut).Empty() { DropEmptyIsShorter(Strips(r, Intersect(r, cut))); }
  }

  lemma {:induction false} DropEmptyIsShorter(rs: seq<Rect>)
    ensures |DropEmpty(rs)| <= |rs|
  {
    if rs != [] { DropEmptyIsShorter(rs[1..]); }
  }

  // Damage of less than a quarter of the area is left as it is; more becomes the smallest
  // rectangle around it.
  lemma {:induction false} CoalesceIsTight(rs: seq<Rect>, width: nat, height: nat)
    requires Bounded(rs)
    ensures CoveredArea(rs) * 4 < width * height ==> Coalesce(rs, width, height) == rs
    ensures |rs| > 1 && width > 0 && height > 0 && CoveredArea(rs) * 4 >= width * height ==>
              |Coalesce(rs, width, height)| == 1
              && (forall px, py :: Covers(rs, px, py) ==> Covers(Coalesce(rs, width, height), px, py))
              && (forall outer :: Inside(rs, outer) ==> Inside(Coalesce(rs, width, height), outer))
  {
    if |rs| > 1 && width > 0 && height > 0 && CoveredArea(rs) * 4 >= width * height {
      forall px, py
        ensures Covers(rs, px, py) ==> Covers(Coalesce(rs, width, height), px, py)
      {
        CoalesceCovers(rs, width, height, px, py);
      }
      SingleRect(BoundAll(rs, NO_RECT), 0, 0);
      CoalesceKeepsEmptiness(rs, width, height);
      forall outer | Inside(rs, outer)
        ensures Inside(Coalesce(rs, width, height), outer)
      {
        CoalesceConfined(rs, width, height, outer);
      }
    }
  }

  // ---- answers ---------------------------------------------------------------------------------------

  // What an outstanding request selects, exactly: a forced refresh the refreshed part of its
  // area, a full request all of it, and an incremental one its damage, precisely while that is
  // less than a quarter of the area.
  lemma {:induction false} SelectIsExact(d: Delivery, px: int, py: int)
    requires Bounded(d.pending) && d.request.Some?
    ensures var q := d.request.value;
            var damage := Intersected(d.pending, q.area);
            && (SelectEligible(d).None? <==> q.incremental && d.forced.None? && damage == [])
            && (SelectEligible(d).Some? ==>
                  var covered := Covers(SelectEligible(d).value, px, py);
                  if d.forced.Some? then covered <==> d.forced.value.Has(px, py) && q.area.Has(px, py)
                  else if !q.incremental then covered <==> q.area.Has(px, py)
                  else CoveredArea(damage) * 4 < Max(0, q.area.width) * Max(0, q.area.height) ==>
                         (covered <==> Covers(d.pending, px, py) && q.area.Has(px, py)))
  {
    var q := d.request.value;
    if d.forced.Some? {
      SingleRect(Intersect(d.forced.value, q.area), px, py);
    } else if q.incremental {
      IntersectedIsExact(d.pending, q.area, px, py);
      CoalesceIsTight(Intersected(d.pending, q.area), Max(0, q.area.width), Max(0, q.area.height));
    } else {
      SingleRect(q.area, px, py);
    }
  }

  // An incremental answer never reaches outside a rectangle around the damage it is for.
  lemma {:induction false} SelectStaysInside(d: Delivery, outer: Rect)
    requires Bounded(d.pending) && d.request.Some? && d.request.value.incremental && d.forced.None?
    requires SelectEligible(d).Some? && Inside(Intersected(d.pending, d.request.value.area), outer)
    ensures Inside(SelectEligible(d).value, outer)
  {
    var area := d.request.value.area;
    IntersectedIsExact(d.pending, area, 0, 0);
    CoalesceConfined(Intersected(d.pending, area), Max(0, area.width), Max(0, area.height), outer);
  }

  // ---- the tile grid ---------------------------------------------------------------------------------

  // The tile a pixel lies in has a changed pixel.
  predicate InChangedTile(a: Frame, b: Frame, px: int, py: int)
    requires SamePresentation(a, b) && Comparable(a, b)
  {
    InFrame(b, px, py) && TileDiffers(a, b, Tile(b, px - px % DAMAGE_TILE, py - py % DAMAGE_TILE))
  }

  function RowCount(a: Frame, b: Frame, y0: nat, x0: nat): nat
    requires SamePresentation(a, b) && Comparable(a, b) && y0 < b.height
    decreases b.width - x0
  {
    if x0 >= b.width then 0
    else (if TileDiffers(a, b, Tile(b, x0, y0)) then 1 else 0) + RowCount(a, b, y0, x0 + DAMAGE_TILE)
  }

  // The number of changed tiles from a row of tiles on.
  function TileCount(a: Frame, b: Frame, y0: nat): nat
    requires SamePresentation(a, b) && Comparable(a, b)
    decreases b.height - y0
  {
    if y0 >= b.height then 0 else RowCount(a, b, y0, 0) + TileCount(a, b, y0 + DAMAGE_TILE)
  }

  lemma {:induction false} TileHas(b: Frame, x0: nat, y0: nat, px: int, py: int)
    requires x0 < b.width && y0 < b.height && x0 % DAMAGE_TILE == 0 && y0 % DAMAGE_TILE == 0
    ensures Tile(b, x0, y0).Has(px, py)
            <==> InFrame(b, px, py) && px - px % DAMAGE_TILE == x0 && py - py % DAMAGE_TILE == y0
    ensures !Tile(b, x0, y0).Empty()
  {
  }

  // The tiles from y0 on are the one at y0 and those behind it.
  lemma {:induction false} RowsFrom(y0: nat, py: int)
    requires y0 % DAMAGE_TILE == 0
    ensures py - py % DAMAGE_TILE >= y0
            <==> py - py % DAMAGE_TILE == y0 || py - py % DAMAGE_TILE >= y0 + DAMAGE_TILE
  {
  }

  // One tile is added if it changed.
  lemma {:induction false} OneTile(a: Frame, b: Frame, y0: nat, x0: nat, acc: seq<Rect>, next: seq<Rect>, px: int, py: int)
    requires SamePresentation(a, b) && Comparable(a, b) && y0 < b.height && x0 < b.width
    requires x0 % DAMAGE_TILE == 0 && y0 % DAMAGE_TILE == 0 && Bounded(acc)
    requires next == if TileDiffers(a, b, Tile(b, x0, y0)) then AddRect(acc, Tile(b, x0, y0)) else acc
    requires TileDiffers(a, b, Tile(b, x0, y0)) ==> |acc| < MAX_DAMAGE_RECTS
    ensures Bounded(next) && |next| <= |acc| + (if TileDiffers(a, b, Tile(b, x0, y0)) then 1 else 0)
    ensures Covers(next, px, py)
            <==> Covers(acc, px, py)
                 || (InChangedTile(a, b, px, py) && py - py % DAMAGE_TILE == y0 && px - px % DAMAGE_TILE == x0)
  {
    var t := Tile(b, x0, y0);
    TileHas(b, x0, y0, px, py);
    AddRectBounded(acc, t);
    AbsorbShape(acc, t);
    AddRectCovers(acc, t, px, py);
  }

  lemma {:induction false} TileRowIsExact(a: Frame, b: Frame, y0: nat, x0: nat, acc: seq<Rect>, px: int, py: int)
    requires SamePresentation(a, b) && Comparable(a, b) && y0 < b.height
    requires x0 % DAMAGE_TILE == 0 && y0 % DAMAGE_TILE == 0
    requires Bounded(acc) && |acc| + RowCount(a, b, y0, x0) <= MAX_DAMAGE_RECTS
    ensures Bounded(TileRow(a, b, y0, x0, acc)) && |TileRow(a, b, y0, x0, acc)| <= |acc| + RowCount(a, b, y0, x0)
    ensures Covers(TileRow(a, b, y0, x0, acc), px, py)
            <==> Covers(acc, px, py)
                 || (InChangedTile(a, b, px, py) && py - py % DAMAGE_TILE == y0 && px - px % DAMAGE_TILE >= x0)
    decreases b.width - x0
  {
    if x0 < b.width {
      var t := Tile(b, x0, y0);
      var next := if TileDiffers(a, b, t) then AddRect(acc, t) else acc;
      OneTile(a, b, y0, x0, acc, next, px, py);
      RowsFrom(x0, px);
      TileRowIsExact(a, b, y0, x0 + DAMAGE_TILE, next, px, py);
    }
  }

  lemma {:induction false} TileRowsAreExact(a: Frame, b: Frame, y0: nat, acc: seq<Rect>, px: int, py: int)
    requires SamePresentation(a, b) && Comparable(a, b) && y0 % DAMAGE_TILE == 0
    requires Bounded(acc) && |acc| + TileCount(a, b, y0) <= MAX_DAMAGE_RECTS
    ensures Bounded(TileRows(a, b, y0, acc)) && |TileRows(a, b, y0, acc)| <= |acc| + TileCount(a, b, y0)
    ensures Covers(TileRows(a, b, y0, acc), px, py)
            <==> Covers(acc, px, py) || (InChangedTile(a, b, px, py) && py - py % DAMAGE_TILE >= y0)
    decreases b.height - y0
  {
    if y0 < b.height {
      var next := TileRow(a, b, y0, 0, acc);
      assert Bounded(next) && |next| <= |acc| + RowCount(a, b, y0, 0)
             && (Covers(next, px, py) <==> Covers(acc, px, py) || (InChangedTile(a, b, px, py) && py - py % DAMAGE_TILE == y0)) by {
        TileRowIsExact(a, b, y0, 0, acc, px, py);
        if InFrame(b, px, py) { assert px - px % DAMAGE_TILE >= 0; }
      }
      RowsFrom(y0, py);
      TileRowsAreExact(a, b, y0 + DAMAGE_TILE, next, px, py);
    }
  }

  lemma {:induction false} TileStaysInside(a: Frame, b: Frame, y0: nat, x0: nat, outer: Rect)
    requires SamePresentation(a, b) && Comparable(a, b) && y0 < b.height && x0 < b.width
    requires x0 % DAMAGE_TILE == 0 && y0 % DAMAGE_TILE == 0 && TileDiffers(a, b, Tile(b, x0, y0))
    requires forall px, py :: InChangedTile(a, b, px, py) ==> outer.Has(px, py)
    ensures forall px, py :: Tile(b, x0, y0).Has(px, py) ==> outer.Has(px, py)
  {
    forall px, py | Tile(b, x0, y0).Has(px, py)
      ensures outer.Has(px, py)
    {
      TileHas(b, x0, y0, px, py);
      assert InChangedTile(a, b, px, py);
    }
  }

  // However many tiles changed, their damage stays inside a rectangle around them.
  lemma {:induction false} TileRowStaysInside(a: Frame, b: Frame, y0: nat, x0: nat, acc: seq<Rect>, outer: Rect)
    requires SamePresentation(a, b) && Comparable(a, b) && y0 < b.height
    requires x0 % DAMAGE_TILE == 0 && y0 % DAMAGE_TILE == 0 && Bounded(acc) && Inside(acc, outer)
    requires forall px, py :: InChangedTile(a, b, px, py) ==> outer.Has(px, py)
    ensures Bounded(TileRow(a, b, y0, x0, acc)) && Inside(TileRow(a, b, y0, x0, acc), outer)
    decreases b.width - x0
  {
    if x0 < b.width {
      var t := Tile(b, x0, y0);
      if TileDiffers(a, b, t) {
        TileStaysInside(a, b, y0, x0, outer);
        AddRectStaysInside(acc, t, outer);
      }
      AddRectBounded(acc, t);
      TileRowStaysInside(a, b, y0, x0 + DAMAGE_TILE, if TileDiffers(a, b, t) then AddRect(acc, t) else acc, outer);
    }
  }

  lemma {:induction false} TileRowsStayInside(a: Frame, b: Frame, y0: nat, acc: seq<Rect>, outer: Rect)
    requires SamePresentation(a, b) && Comparable(a, b)
    requires y0 % DAMAGE_TILE == 0 && Bounded(acc) && Inside(acc, outer)
    requires forall px, py :: InChangedTile(a, b, px, py) ==> outer.Has(px, py)
    ensures Bounded(TileRows(a, b, y0, acc)) && Inside(TileRows(a, b, y0, acc), outer)
    decreases b.height - y0
  {
    if y0 < b.height {
      TileRowStaysInside(a, b, y0, 0, acc, outer);
      TileRowsStayInside(a, b, y0 + DAMAGE_TILE, TileRow(a, b, y0, 0, acc), outer);
    }
  }

  lemma {:induction false} DamageStaysInside(previous: Frame, current: Frame, previousUnchanged: bool, outer: Rect)
    requires SamePresentation(previous, current) && Comparable(previous, current) && !HintTrusted(previous, current)
    requires forall px, py :: InChangedTile(previous, current, px, py) ==> outer.Has(px, py)
    ensures Inside(ChangedTiles(Some(previous), current, previousUnchanged), outer)
  {
    TileRowsStayInside(previous, current, 0, [], outer);
    CoalesceConfined(TileRows(previous, current, 0, []), current.width, current.height, outer);
  }

  // The changed tiles of the whole frame have at most so many pixels.
  lemma {:induction false} TileRowArea(a: Frame, b: Frame, y0: nat, x0: nat, acc: seq<Rect>)
    requires SamePresentation(a, b) && Comparable(a, b) && y0 < b.height
    requires Bounded(acc) && |acc| + RowCount(a, b, y0, x0) <= MAX_DAMAGE_RECTS
    ensures CoveredArea(TileRow(a, b, y0, x0, acc))
            <= CoveredArea(acc) + RowCount(a, b, y0, x0) * DAMAGE_TILE * DAMAGE_TILE
    decreases b.width - x0
  {
    if x0 < b.width {
      var t := Tile(b, x0, y0);
      AddRectBounded(acc, t);
      AbsorbShape(acc, t);
      AbsorbArea(acc, t);
      MulMonotone(t.width, DAMAGE_TILE, t.height, DAMAGE_TILE);
      var next := if TileDiffers(a, b, t) then AddRect(acc, t) else acc;
      TileRowArea(a, b, y0, x0 + DAMAGE_TILE, next);
    }
  }

  lemma {:induction false} TileRowsArea(a: Frame, b: Frame, y0: nat, acc: seq<Rect>)
    requires SamePresentation(a, b) && Comparable(a, b) && y0 % DAMAGE_TILE == 0
    requires Bounded(acc) && |acc| + TileCount(a, b, y0) <= MAX_DAMAGE_RECTS
    ensures CoveredArea(TileRows(a, b, y0, acc)) <= CoveredArea(acc) + TileCount(a, b, y0) * DAMAGE_TILE * DAMAGE_TILE
    decreases b.height - y0
  {
    if y0 < b.height {
      TileRowIsExact(a, b, y0, 0, acc, 0, 0);
      TileRowArea(a, b, y0, 0, acc);
      TileRowsArea(a, b, y0 + DAMAGE_TILE, TileRow(a, b, y0, 0, acc));
    }
  }

  // An unchanged frame has no changed tile.
  lemma {:induction false} NoChangedTile(a: Frame, b: Frame, px: int, py: int)
    requires SamePresentation(a, b) && Comparable(a, b) && SamePicture(a, b)
    ensures !InChangedTile(a, b, px, py)
  {
  }

  // When at most 64 tiles changed, and less than a quarter of the frame, the damage of two
  // comparable frames is exactly the changed tiles.
  lemma {:induction false} DamageIsChangedTiles(previous: Frame, current: Frame, previousUnchanged: bool, px: int, py: int)
    requires SamePresentation(previous, current) && Comparable(previous, current) && !HintTrusted(previous, current)
    requires TileCount(previous, current, 0) <= MAX_DAMAGE_RECTS
    requires TileCount(previous, current, 0) * DAMAGE_TILE * DAMAGE_TILE * 4 < current.width * current.height
    ensures Covers(ChangedTiles(Some(previous), current, previousUnchanged), px, py) <==> InChangedTile(previous, current, px, py)
  {
    if previous.storage == current.storage || (previousUnchanged && SameBytes(previous, current)) {
      ShortcutsAreRight(previous, current, px, py);
      ShortcutsAreEmpty(previous, current, previousUnchanged);
    } else {
      ComparedByTiles(previous, current, previousUnchanged);
      TilesAreExact(previous, current, px, py);
    }
  }

  // Frames with one storage, or with the same bytes, have no changed tile ...
  lemma {:induction false} ShortcutsAreRight(previous: Frame, current: Frame, px: int, py: int)
    requires SamePresentation(previous, current) && Comparable(previous, current)
    requires previous.storage == current.storage || SameBytes(previous, current)
    ensures !InChangedTile(previous, current, px, py)
  {
    if SameBytes(previous, current) { SameBytesSamePicture(previous, current); }
    NoChangedTile(previous, current, px, py);
  }

  // ... and no damage.
  lemma {:induction false} ShortcutsAreEmpty(previous: Frame, current: Frame, previousUnchanged: bool)
    requires SamePresentation(previous, current) && Comparable(previous, current) && !HintTrusted(previous, current)
    requires previous.storage == current.storage || (previousUnchanged && SameBytes(previous, current))
    ensures ChangedTiles(Some(previous), current, previousUnchanged) == []
  {
  }

  // All others are compared tile by tile.
  lemma {:induction false} ComparedByTiles(previous: Frame, current: Frame, previousUnchanged: bool)
    requires SamePresentation(previous, current) && Comparable(previous, current) && !HintTrusted(previous, current)
    requires previous.storage != current.storage && !(previousUnchanged && SameBytes(previous, current))
    requires current.width * current.height > 0
    ensures ChangedTiles(Some(previous), current, previousUnchanged)
            == Coalesce(TileRows(previous, current, 0, []), current.width, current.height)
  {
  }

  lemma {:induction false} TilesAreExact(previous: Frame, current: Frame, px: int, py: int)
    requires SamePresentation(previous, current) && Comparable(previous, current)
    requires TileCount(previous, current, 0) <= MAX_DAMAGE_RECTS
    requires TileCount(previous, current, 0) * DAMAGE_TILE * DAMAGE_TILE * 4 < current.width * current.height
    ensures Covers(Coalesce(TileRows(previous, current, 0, []), current.width, current.height), px, py)
            <==> InChangedTile(previous, current, px, py)
  {
    var tiles := TileRows(previous, current, 0, []);
    assert Bounded(tiles) && (Covers(tiles, px, py) <==> InChangedTile(previous, current, px, py)) by {
      TileRowsAreExact(previous, current, 0, [], px, py);
    }
    TileRowsArea(previous, current, 0, []);
    CoalesceIsTight(tiles, current.width, current.height);
  }

  // ---- hints -----------------------------------------------------------------------------------------

  lemma {:induction false} AddHintsIsExact(acc: seq<Rect>, hints: seq<Rect>, width: nat, height: nat, px: int, py: int)
    requires Bounded(acc) && |acc| + |hints| <= MAX_DAMAGE_RECTS
    ensures Bounded(AddHints(acc, hints, width, height))
    ensures Covers(AddHints(acc, hints, width, height), px, py)
            <==> Covers(acc, px, py) || (Covers(hints, px, py) && FullRect(width, height).Has(px, py))
    decreases |hints|
  {
    if hints != [] {
      var clip := ClipHint(hints[0], width, height);
      CoversCons(hints, px, py);
      ClipIsExact(hints[0], width, height, px, py);
      AddRectBounded(acc, clip);
      if !clip.Empty() { AbsorbShape(acc, clip); } else { assert !clip.Has(px, py); }
      AddRectCovers(acc, clip, px, py);
      AddHintsIsExact(AddRect(acc, clip), hints[1..], width, height, px, py);
    }
  }

  // The damage of a trusted hint of at most 64 rectangles, while it is less than a quarter of the
  // frame, is exactly the hinted part of the frame.
  lemma {:induction false} HintIsExact(previous: Frame, current: Frame, previousUnchanged: bool, px: int, py: int)
    requires current.width > 0 && current.height > 0 && SamePresentation(previous, current) && HintTrusted(previous, current)
    requires |current.damage.rects| <= MAX_DAMAGE_RECTS
    requires CoveredArea(AddHints([], current.damage.rects, current.width, current.height)) * 4 < current.width * current.height
    ensures Covers(ChangedTiles(Some(previous), current, previousUnchanged), px, py)
            <==> InFrame(current, px, py) && Covers(current.damage.rects, px, py)
  {
    var hinted := AddHints([], current.damage.rects, current.width, current.height);
    AddHintsIsExact([], current.damage.rects, current.width, current.height, px, py);
    CoalesceIsTight(hinted, current.width, current.height);
  }

  // ---- when frames are compared, and when hints are used ----------------------------------------------

  // Two readable frames of one kind are compared pixel by pixel.
  lemma {:induction false} SameKindIsCompared(a: Frame, b: Frame)
    requires Readable(a) && Readable(b) && a.width == b.width && a.height == b.height && a.alpha == b.alpha
    requires a.planeCount == 1 && b.planeCount == 1
    ensures SamePresentation(a, b) && Comparable(a, b)
  {
  }

  // The hint of an accepted frame is used against the accepted frame right before it, and against
  // no other one.
  lemma {:induction false} HintIsUsedWhenAdjacent(accepted: seq<Frame>, i: nat, j: nat)
    requires AcceptedStream(accepted) && i < j < |accepted| && accepted[j].damage.Regions?
    ensures HintTrusted(accepted[i], accepted[j]) <==> j == i + 1
  {
  }

  // Frames that share their storage do not differ, whether it can be read or not.
  lemma {:induction false} SharedStorageIsUnchanged(previous: Frame, current: Frame, previousUnchanged: bool)
    requires SamePresentation(previous, current) && !HintTrusted(previous, current) && previous.storage == current.storage
    ensures ChangedTiles(Some(previous), current, previousUnchanged) == []
  {
  }

  // ---- merging ----------------------------------------------------------------------------------------

  // Two parts of a rectangle cut along a column or a row become one rectangle again, in whichever
  // order they are added.
  lemma {:induction false} PartsMerge(r: Rect, k: int)
    requires !r.Empty()
    ensures 0 < k < r.width ==>
              var left, right := Rect(r.x, r.y, k, r.height), Rect(r.x + k, r.y, r.width - k, r.height);
              AddRect([left], right) == [r] && AddRect([right], left) == [r]
    ensures 0 < k < r.height ==>
              var top, bottom := Rect(r.x, r.y, r.width, k), Rect(r.x, r.y + k, r.width, r.height - k);
              AddRect([top], bottom) == [r] && AddRect([bottom], top) == [r]
  {
    if 0 < k < r.width {
      var left, right := Rect(r.x, r.y, k, r.height), Rect(r.x + k, r.y, r.width - k, r.height);
      TwoMerge(left, right, r);
      TwoMerge(right, left, r);
    }
    if 0 < k < r.height {
      var top, bottom := Rect(r.x, r.y, r.width, k), Rect(r.x, r.y + k, r.width, r.height - k);
      TwoMerge(top, bottom, r);
      TwoMerge(bottom, top, r);
    }
  }

  lemma {:induction false} TwoMerge(stored: Rect, rect: Rect, whole: Rect)
    requires ExactlyAdjacent(rect, stored) && Bound(rect, stored) == whole && !ContainsRect(stored, rect) && !ContainsRect(rect, stored)
    ensures AddRect([stored], rect) == [whole]
  {
    assert RemoveAt([stored], 0) == [];
    assert FirstTouch([stored], rect) == 0;
    assert Absorb([], whole) == [whole];
  }

  // A rectangle inside a stored one adds nothing, and one around it takes its place.
  lemma {:induction false} ContainedIsAbsorbed(stored: Rect, rect: Rect)
    requires !stored.Empty() && !rect.Empty()
    ensures ContainsRect(stored, rect) ==> AddRect([stored], rect) == [stored]
    ensures ContainsRect(rect, stored) && stored != rect ==> AddRect([stored], rect) == [rect]
  {
    assert RemoveAt([stored], 0) == [];
    if Touches(stored, rect) { assert FirstTouch([stored], rect) == 0; }
    assert Absorb([], rect) == [rect];
  }
}
