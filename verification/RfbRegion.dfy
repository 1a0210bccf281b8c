// Rectangles and the bounded damage region.
module RfbRegion {
  // The rectangle algebra and RfbDamageRegion of the RFB transport
  // (src/runtime/src/transport/rfb_delivery_state.hpp).
  //
  // A rectangle means the set of pixels it contains, a list of rectangles the union of
  // those sets.  Every operation of the source is stated as a function on lists first,
  // its pixel meaning is proved as lemmas, and the class DamageRegion, which updates its
  // list in place as the source does, is proved to compute exactly those functions.

  const MAX_DAMAGE_RECTS: nat := 64

  datatype Rect = Rect(x: int, y: int, width: int, height: int) {
    predicate Empty() {
      width <= 0 || height <= 0
    }

    function Right(): int {
      x + width
    }

    function Bottom(): int {
      y + height
    }

    // The pixel meaning of a rectangle.
    predicate Has(px: int, py: int) {
      x <= px < Right() && y <= py < Bottom()
    }

    function Area(): int {
      width * height
    }
  }

  const NO_RECT: Rect := Rect(0, 0, 0, 0)

  // The pixel meaning of a list of rectangles.
  ghost predicate Covers(rs: seq<Rect>, px: int, py: int) {
    exists i :: 0 <= i < |rs| && rs[i].Has(px, py)
  }

  ghost predicate AllNonEmpty(rs: seq<Rect>) {
    forall i :: 0 <= i < |rs| ==> !rs[i].Empty()
  }

  // What every damage region keeps: at most 64 rectangles, none of them empty.
  ghost predicate Bounded(rs: seq<Rect>) {
    |rs| <= MAX_DAMAGE_RECTS && AllNonEmpty(rs)
  }

  function Min(a: int, b: int): int {
    if a <= b then a else b
  }

  function Max(a: int, b: int): int {
    if a >= b then a else b
  }

  // ---- rectangles ---------------------------------------------------------------------

  function Intersect(a: Rect, b: Rect): (r: Rect)
    ensures forall px, py :: r.Has(px, py) <==> a.Has(px, py) && b.Has(px, py)
  {
    var x0 := Max(a.x, b.x);
    var y0 := Max(a.y, b.y);
    var x1 := Min(a.Right(), b.Right());
    var y1 := Min(a.Bottom(), b.Bottom());
    Rect(x0, y0, Max(0, x1 - x0), Max(0, y1 - y0))
  }

  // The bounding box.  An empty argument does not count.
  function Bound(a: Rect, b: Rect): (r: Rect)
    ensures forall px, py :: a.Has(px, py) || b.Has(px, py) ==> r.Has(px, py)
    ensures a.Empty() && b.Empty() <==> r.Empty()
  {
    if a.Empty() then b
    else if b.Empty() then a
    else
      var x0 := Min(a.x, b.x);
      var y0 := Min(a.y, b.y);
      var x1 := Max(a.Right(), b.Right());
      var y1 := Max(a.Bottom(), b.Bottom());
      Rect(x0, y0, x1 - x0, y1 - y0)
  }

  predicate ContainsRect(outer: Rect, inner: Rect) {
    && !inner.Empty()
    && outer.x <= inner.x && outer.y <= inner.y
    && outer.Right() >= inner.Right() && outer.Bottom() >= inner.Bottom()
  }

  // Two rectangles that share a whole edge: their bounding box is their exact union.
  predicate ExactlyAdjacent(a: Rect, b: Rect) {
    && !a.Empty() && !b.Empty()
    && (|| (a.y == b.y && a.height == b.height && (a.Right() == b.x || b.Right() == a.x))
        || (a.x == b.x && a.width == b.width && (a.Bottom() == b.y || b.Bottom() == a.y)))
  }

  // The four candidate strips of source minus cut, in the order of the source.
  function Strips(source: Rect, hit: Rect): seq<Rect> {
    [ Rect(source.x, source.y, source.width, hit.y - source.y),
      Rect(source.x, hit.Bottom(), source.width, source.Bottom() - hit.Bottom()),
      Rect(source.x, hit.y, hit.x - source.x, hit.height),
      Rect(hit.Right(), hit.y, source.Right() - hit.Right(), hit.height) ]
  }

  function DropEmpty(rs: seq<Rect>): seq<Rect> {
    if rs == [] then []
    else (if rs[0].Empty() then [] else [rs[0]]) + DropEmpty(rs[1..])
  }

  function SubtractRect(source: Rect, cut: Rect): seq<Rect> {
    var hit := Intersect(source, cut);
    if hit.Empty() then [source] else DropEmpty(Strips(source, hit))
  }

  // ---- lists of rectangles --------------------------------------------------------------

  function RemoveAt(rs: seq<Rect>, i: nat): seq<Rect>
    requires i < |rs|
  {
    rs[..i] + rs[i + 1..]
  }

  // A stored rectangle that stops or restarts the insertion of rect.
  predicate Touches(stored: Rect, rect: Rect) {
    ContainsRect(stored, rect) || ContainsRect(rect, stored) || ExactlyAdjacent(rect, stored)
  }

  function FirstTouch(rs: seq<Rect>, rect: Rect): (i: nat)
    ensures i <= |rs|
    ensures i < |rs| ==> Touches(rs[i], rect)
    ensures forall j :: 0 <= j < i ==> !Touches(rs[j], rect)
  {
    if rs == [] then 0
    else if Touches(rs[0], rect) then 0
    else 1 + FirstTouch(rs[1..], rect)
  }

  // Insertion without the bound: absorb contained and exactly adjacent rectangles,
  // restarting the scan with the enlarged rectangle.
  function Absorb(rs: seq<Rect>, rect: Rect): seq<Rect>
    decreases |rs|
  {
    var i := FirstTouch(rs, rect);
    if i == |rs| then rs + [rect]
    else if ContainsRect(rs[i], rect) then rs
    else if ContainsRect(rect, rs[i]) then Absorb(RemoveAt(rs, i), rect)
    else Absorb(RemoveAt(rs, i), Bound(rect, rs[i]))
  }

  function BoundAll(rs: seq<Rect>, acc: Rect): Rect {
    if rs == [] then acc else BoundAll(rs[1..], Bound(acc, rs[0]))
  }

  function EnforceBound(rs: seq<Rect>): seq<Rect> {
    if |rs| <= MAX_DAMAGE_RECTS then rs
    else
      var all := BoundAll(rs, NO_RECT);
      if all.Empty() then [] else [all]
  }

  function AddRect(rs: seq<Rect>, rect: Rect): seq<Rect> {
    if rect.Empty() then rs else EnforceBound(Absorb(rs, rect))
  }

  function AddAll(rs: seq<Rect>, others: seq<Rect>): seq<Rect>
    decreases |others|
  {
    if others == [] then rs else AddAll(AddRect(rs, others[0]), others[1..])
  }

  function IntersectFrom(acc: seq<Rect>, rs: seq<Rect>, requested: Rect): seq<Rect>
    decreases |rs|
  {
    if rs == [] then acc
    else IntersectFrom(AddRect(acc, Intersect(rs[0], requested)), rs[1..], requested)
  }

  function Intersected(rs: seq<Rect>, requested: Rect): seq<Rect> {
    IntersectFrom([], rs, requested)
  }

  // The pieces of every stored rectangle, before the bound is applied.
  function Pieces(rs: seq<Rect>, cut: Rect): seq<Rect> {
    if rs == [] then [] else SubtractRect(rs[0], cut) + Pieces(rs[1..], cut)
  }

  function SubtractOne(rs: seq<Rect>, cut: Rect): seq<Rect> {
    if cut.Empty() then rs else EnforceBound(Pieces(rs, cut))
  }

  function SubtractAll(rs: seq<Rect>, cuts: seq<Rect>): seq<Rect>
    decreases |cuts|
  {
    if cuts == [] then rs else SubtractAll(SubtractOne(rs, cuts[0]), cuts[1..])
  }

  // ---- pixel meaning: subtraction of one rectangle ---------------------------------------

  lemma {:induction false} DropEmptyKeepsPixels(rs: seq<Rect>, px: int, py: int)
    ensures Covers(DropEmpty(rs), px, py) <==> Covers(rs, px, py)
    ensures AllNonEmpty(DropEmpty(rs))
  {
    if rs != [] {
      DropEmptyKeepsPixels(rs[1..], px, py);
      CoversCons(rs, px, py);
      if !rs[0].Empty() {
        assert ([rs[0]] + DropEmpty(rs[1..]))[1..] == DropEmpty(rs[1..]);
        CoversCons([rs[0]] + DropEmpty(rs[1..]), px, py);
      } else {
        assert [] + DropEmpty(rs[1..]) == DropEmpty(rs[1..]);
      }
    }
  }

  lemma {:induction false} CoversConcat(a: seq<Rect>, b: seq<Rect>, px: int, py: int)
    ensures Covers(a + b, px, py) <==> Covers(a, px, py) || Covers(b, px, py)
  {
    if Covers(a, px, py) {
      var i :| 0 <= i < |a| && a[i].Has(px, py);
      assert (a + b)[i].Has(px, py);
    }
    if Covers(b, px, py) {
      var i :| 0 <= i < |b| && b[i].Has(px, py);
      assert (a + b)[|a| + i].Has(px, py);
    }
  }

  lemma {:induction false} CoversCons(rs: seq<Rect>, px: int, py: int)
    requires rs != []
    ensures Covers(rs, px, py) <==> rs[0].Has(px, py) || Covers(rs[1..], px, py)
  {
    assert rs == [rs[0]] + rs[1..];
    CoversConcat([rs[0]], rs[1..], px, py);
    assert Covers([rs[0]], px, py) <==> rs[0].Has(px, py) by {
      if rs[0].Has(px, py) { assert [rs[0]][0].Has(px, py); }
    }
  }

  lemma {:induction false} CoversRemoveAt(rs: seq<Rect>, i: nat, px: int, py: int)
    requires i < |rs|
    ensures Covers(rs, px, py) <==> rs[i].Has(px, py) || Covers(RemoveAt(rs, i), px, py)
  {
    assert rs == rs[..i] + rs[i..];
    assert rs[i..][1..] == rs[i + 1..];
    CoversConcat(rs[..i], rs[i..], px, py);
    CoversCons(rs[i..], px, py);
    CoversConcat(rs[..i], rs[i + 1..], px, py);
  }

  // The four strips of a non-empty hit are pairwise disjoint and make up exactly the
  // pixels of source that are not in the hit.
  lemma {:induction false} StripsPartition(source: Rect, cut: Rect, px: int, py: int)
    requires !Intersect(source, cut).Empty()
    ensures var s := Strips(source, Intersect(source, cut));
            && (Covers(s, px, py) <==> source.Has(px, py) && !cut.Has(px, py))
            && (forall i, j :: 0 <= i < j < 4 ==> !(s[i].Has(px, py) && s[j].Has(px, py)))
  {
    var hit := Intersect(source, cut);
    var s := Strips(source, hit);
    assert hit.Has(px, py) <==> source.Has(px, py) && cut.Has(px, py);
    assert s[0].Has(px, py) || s[1].Has(px, py) || s[2].Has(px, py) || s[3].Has(px, py)
      <==> source.Has(px, py) && !hit.Has(px, py);
    if Covers(s, px, py) {
      var i :| 0 <= i < |s| && s[i].Has(px, py);
      assert i == 0 || i == 1 || i == 2 || i == 3;
    }
  }

  // subtractRfbRect is exact: its pieces cover source minus cut, and nothing else.
  lemma {:induction false} SubtractRectIsExact(source: Rect, cut: Rect, px: int, py: int)
    ensures Covers(SubtractRect(source, cut), px, py) <==> source.Has(px, py) && !cut.Has(px, py)
    ensures !source.Empty() ==> AllNonEmpty(SubtractRect(source, cut))
  {
    var hit := Intersect(source, cut);
    if hit.Empty() {
      assert !hit.Has(px, py);
      CoversCons([source], px, py);
    } else {
      StripsPartition(source, cut, px, py);
      DropEmptyKeepsPixels(Strips(source, hit), px, py);
    }
  }

  ghost predicate PairwiseDisjoint(rs: seq<Rect>) {
    forall i, j, px, py :: 0 <= i < j < |rs| ==> !(rs[i].Has(px, py) && rs[j].Has(px, py))
  }

  lemma {:induction false} DropEmptyKeepsDisjoint(rs: seq<Rect>)
    requires PairwiseDisjoint(rs)
    ensures PairwiseDisjoint(DropEmpty(rs))
  {
    if rs != [] {
      var rest := rs[1..];
      assert forall i :: 0 <= i < |rest| ==> rest[i] == rs[i + 1];
      DropEmptyKeepsDisjoint(rest);
      var out := DropEmpty(rs);
      forall i, j, px, py | 0 <= i < j < |out|
        ensures !(out[i].Has(px, py) && out[j].Has(px, py))
      {
        if !rs[0].Empty() {
          assert out == [rs[0]] + DropEmpty(rest);
          if i == 0 && rs[0].Has(px, py) {
            assert !Covers(rest, px, py);
            DropEmptyKeepsPixels(rest, px, py);
            assert !DropEmpty(rest)[j - 1].Has(px, py);
          }
        }
      }
    }
  }

  // ... and the pieces do not overlap, so no pixel is damaged twice by a split.
  lemma {:induction false} SubtractRectPiecesDisjoint(source: Rect, cut: Rect)
    ensures PairwiseDisjoint(SubtractRect(source, cut))
  {
    var hit := Intersect(source, cut);
    if !hit.Empty() {
      var s := Strips(source, hit);
      forall i, j, px, py | 0 <= i < j < |s|
        ensures !(s[i].Has(px, py) && s[j].Has(px, py))
      {
        StripsPartition(source, cut, px, py);
      }
      DropEmptyKeepsDisjoint(s);
    }
  }

  // ---- pixel meaning: insertion ----------------------------------------------------------

  // Insertion before the bound is the exact union.
  lemma {:induction false} AbsorbIsUnion(rs: seq<Rect>, rect: Rect, px: int, py: int)
    ensures Covers(Absorb(rs, rect), px, py) <==> Covers(rs, px, py) || rect.Has(px, py)
    decreases |rs|
  {
    var i := FirstTouch(rs, rect);
    if i == |rs| {
      CoversConcat(rs, [rect], px, py);
      CoversCons([rect], px, py);
    } else if ContainsRect(rs[i], rect) {
      if rect.Has(px, py) {
        assert rs[i].Has(px, py);
      }
    } else {
      CoversRemoveAt(rs, i, px, py);
      if ContainsRect(rect, rs[i]) {
        AbsorbIsUnion(RemoveAt(rs, i), rect, px, py);
      } else {
        AbsorbIsUnion(RemoveAt(rs, i), Bound(rect, rs[i]), px, py);
      }
    }
  }

  lemma {:induction false} AbsorbShape(rs: seq<Rect>, rect: Rect)
    requires AllNonEmpty(rs) && !rect.Empty()
    ensures AllNonEmpty(Absorb(rs, rect))
    ensures |Absorb(rs, rect)| <= |rs| + 1
    decreases |rs|
  {
    var i := FirstTouch(rs, rect);
    if i < |rs| && !ContainsRect(rs[i], rect) {
      if ContainsRect(rect, rs[i]) {
        AbsorbShape(RemoveAt(rs, i), rect);
      } else {
        AbsorbShape(RemoveAt(rs, i), Bound(rect, rs[i]));
      }
    }
  }

  lemma {:induction false} BoundAllCovers(rs: seq<Rect>, acc: Rect, px: int, py: int)
    ensures acc.Has(px, py) || Covers(rs, px, py) ==> BoundAll(rs, acc).Has(px, py)
    ensures !acc.Empty() ==> !BoundAll(rs, acc).Empty()
    ensures rs != [] && AllNonEmpty(rs) ==> !BoundAll(rs, acc).Empty()
    decreases |rs|
  {
    if rs != [] {
      CoversCons(rs, px, py);
      BoundAllCovers(rs[1..], Bound(acc, rs[0]), px, py);
    }
  }

  // Collapsing past 64 rectangles never loses a pixel, and never exceeds the bound.
  lemma {:induction false} EnforceBoundCovers(rs: seq<Rect>, px: int, py: int)
    requires AllNonEmpty(rs)
    ensures Covers(rs, px, py) ==> Covers(EnforceBound(rs), px, py)
    ensures Bounded(EnforceBound(rs))
  {
    BoundAllCovers(rs, NO_RECT, px, py);
    var all := BoundAll(rs, NO_RECT);
    if |rs| > MAX_DAMAGE_RECTS && all.Has(px, py) {
      assert [all][0].Has(px, py);
    }
  }

  // add covers the union; it is the exact union unless the insertion overflowed the bound.
  lemma {:induction false} AddRectCovers(rs: seq<Rect>, rect: Rect, px: int, py: int)
    requires AllNonEmpty(rs)
    ensures Covers(rs, px, py) || rect.Has(px, py) ==> Covers(AddRect(rs, rect), px, py)
    ensures rect.Empty() || |Absorb(rs, rect)| <= MAX_DAMAGE_RECTS
            ==> (Covers(AddRect(rs, rect), px, py) <==> Covers(rs, px, py) || rect.Has(px, py))
  {
    if !rect.Empty() {
      AbsorbIsUnion(rs, rect, px, py);
      AbsorbShape(rs, rect);
      EnforceBoundCovers(Absorb(rs, rect), px, py);
    }
  }

  lemma {:induction false} AddRectBounded(rs: seq<Rect>, rect: Rect)
    requires Bounded(rs)
    ensures Bounded(AddRect(rs, rect))
    ensures |AddRect(rs, rect)| <= |rs| + 1
  {
    if !rect.Empty() {
      AbsorbShape(rs, rect);
      EnforceBoundCovers(Absorb(rs, rect), 0, 0);
    }
  }

  lemma {:induction false} AddAllCovers(rs: seq<Rect>, others: seq<Rect>, px: int, py: int)
    requires Bounded(rs)
    ensures Bounded(AddAll(rs, others))
    ensures Covers(rs, px, py) || Covers(others, px, py) ==> Covers(AddAll(rs, others), px, py)
    decreases |others|
  {
    if others != [] {
      CoversCons(others, px, py);
      AddRectCovers(rs, others[0], px, py);
      AddRectBounded(rs, others[0]);
      AddAllCovers(AddRect(rs, others[0]), others[1..], px, py);
    }
  }

  // ---- pixel meaning: intersection -------------------------------------------------------

  lemma {:induction false} IntersectFromIsExact(acc: seq<Rect>, rs: seq<Rect>, requested: Rect, px: int, py: int)
    requires AllNonEmpty(acc) && |acc| + |rs| <= MAX_DAMAGE_RECTS
    ensures var out := IntersectFrom(acc, rs, requested);
            && Bounded(out)
            && |out| <= |acc| + |rs|
            && (Covers(out, px, py) <==> Covers(acc, px, py) || (Covers(rs, px, py) && requested.Has(px, py)))
    decreases |rs|
  {
    if rs != [] {
      var hit := Intersect(rs[0], requested);
      assert hit.Has(px, py) <==> rs[0].Has(px, py) && requested.Has(px, py);
      CoversCons(rs, px, py);
      AddRectBounded(acc, hit);
      if !hit.Empty() { AbsorbShape(acc, hit); }
      AddRectCovers(acc, hit, px, py);
      if hit.Empty() { assert !hit.Has(px, py); }
      IntersectFromIsExact(AddRect(acc, hit), rs[1..], requested, px, py);
    }
  }

  // intersected is exact for every region that keeps its bound: it can never collapse.
  lemma {:induction false} IntersectedIsExact(rs: seq<Rect>, requested: Rect, px: int, py: int)
    requires Bounded(rs)
    ensures Bounded(Intersected(rs, requested))
    ensures |Intersected(rs, requested)| <= |rs|
    ensures Covers(Intersected(rs, requested), px, py) <==> Covers(rs, px, py) && requested.Has(px, py)
  {
    IntersectFromIsExact([], rs, requested, px, py);
  }

  // ---- pixel meaning: region subtraction ---------------------------------------------------

  lemma {:induction false} PiecesAreExact(rs: seq<Rect>, cut: Rect, px: int, py: int)
    requires AllNonEmpty(rs)
    ensures AllNonEmpty(Pieces(rs, cut))
    ensures Covers(Pieces(rs, cut), px, py) <==> Covers(rs, px, py) && !cut.Has(px, py)
  {
    if rs != [] {
      SubtractRectIsExact(rs[0], cut, px, py);
      PiecesAreExact(rs[1..], cut, px, py);
      CoversCons(rs, px, py);
      CoversConcat(SubtractRect(rs[0], cut), Pieces(rs[1..], cut), px, py);
    }
  }

  lemma {:induction false} SubtractOneCovers(rs: seq<Rect>, cut: Rect, px: int, py: int)
    requires Bounded(rs)
    ensures Bounded(SubtractOne(rs, cut))
    ensures Covers(rs, px, py) && !cut.Has(px, py) ==> Covers(SubtractOne(rs, cut), px, py)
    ensures cut.Empty() || |Pieces(rs, cut)| <= MAX_DAMAGE_RECTS
            ==> (Covers(SubtractOne(rs, cut), px, py) <==> Covers(rs, px, py) && !cut.Has(px, py))
  {
    if cut.Empty() {
      assert !cut.Has(px, py);
    } else {
      PiecesAreExact(rs, cut, px, py);
      EnforceBoundCovers(Pieces(rs, cut), px, py);
    }
  }

  // subtract never forgets a pixel that was not delivered.
  lemma {:induction false} SubtractAllCovers(rs: seq<Rect>, cuts: seq<Rect>, px: int, py: int)
    requires Bounded(rs)
    ensures Bounded(SubtractAll(rs, cuts))
    ensures Covers(rs, px, py) && !Covers(cuts, px, py) ==> Covers(SubtractAll(rs, cuts), px, py)
    decreases |cuts|
  {
    if cuts != [] {
      CoversCons(cuts, px, py);
      SubtractOneCovers(rs, cuts[0], px, py);
      SubtractAllCovers(SubtractOne(rs, cuts[0]), cuts[1..], px, py);
    }
  }

  // Delivering one rectangle that contains the whole region leaves nothing pending.
  lemma {:induction false} SubtractWholeLeavesNothing(rs: seq<Rect>, cut: Rect)
    requires Bounded(rs)
    requires forall px, py :: Covers(rs, px, py) ==> cut.Has(px, py)
    ensures SubtractAll(rs, [cut]) == []
  {
    var pieces := Pieces(rs, cut);
    if pieces != [] {
      PiecesAreExact(rs, cut, pieces[0].x, pieces[0].y);
      assert false;
    }
    assert SubtractOne(rs, cut) == [];
    assert SubtractAll(rs, [cut]) == SubtractAll(SubtractOne(rs, cut), [cut][1..]);
  }

  // ---- the region object --------------------------------------------------------------------

  // RfbDamageRegion: one mutable list of rectangles.
  class DamageRegion {
    var rects: seq<Rect>

    ghost predicate Valid()
      reads this
    {
      Bounded(rects)
    }

    constructor ()
      ensures Valid() && rects == []
    {
      rects := [];
    }

    method Clear()
      modifies this
      ensures Valid() && rects == []
    {
      rects := [];
    }

    // The restart loop: every absorbed rectangle shortens the list, so it terminates.
    method Add(rect: Rect)
      requires Valid()
      modifies this
      ensures Valid() && rects == AddRect(old(rects), rect)
    {
      AddRectBounded(rects, rect);
      if rect.Empty() {
        return;
      }
      var candidate := rect;
      var changed := true;
      while changed
        invariant !candidate.Empty()
        invariant Bounded(rects)
        invariant Absorb(rects, candidate) == Absorb(old(rects), rect)
        invariant !changed ==> FirstTouch(rects, candidate) == |rects|
        decreases |rects|, changed
      {
        changed := false;
        var i := 0;
        ghost var before := rects;
        while i < |rects|
          invariant 0 <= i <= |rects|
          invariant !changed && rects == before && !candidate.Empty()
          invariant forall j :: 0 <= j < i ==> !Touches(rects[j], candidate)
        {
          var it := rects[i];
          if ContainsRect(it, candidate) {
            return;
          }
          if ContainsRect(candidate, it) {
            rects := RemoveAt(rects, i);
            changed := true;
            break;
          }
          if ExactlyAdjacent(candidate, it) {
            candidate := Bound(candidate, it);
            rects := RemoveAt(rects, i);
            changed := true;
            break;
          }
          i := i + 1;
        }
      }
      rects := rects + [candidate];
      EnforceRectBound();
    }

    method AddRegion(other: DamageRegion)
      requires Valid() && other.Valid() && other != this
      modifies this
      ensures Valid() && rects == AddAll(old(rects), other.rects)
    {
      var i := 0;
      while i < |other.rects|
        invariant 0 <= i <= |other.rects|
        invariant Valid() && other.rects == old(other.rects)
        invariant AddAll(rects, other.rects[i..]) == AddAll(old(rects), other.rects)
      {
        assert other.rects[i..][1..] == other.rects[i + 1..];
        Add(other.rects[i]);
        i := i + 1;
      }
    }

    // Returns a new region; this one is unchanged.
    method IntersectedWith(requested: Rect) returns (result: DamageRegion)
      requires Valid()
      ensures fresh(result) && result.Valid() && result.rects == Intersected(rects, requested)
    {
      result := new DamageRegion();
      var i := 0;
      while i < |rects|
        invariant 0 <= i <= |rects|
        invariant fresh(result) && result.Valid()
        invariant IntersectFrom(result.rects, rects[i..], requested) == Intersected(rects, requested)
      {
        assert rects[i..][1..] == rects[i + 1..];
        result.Add(Intersect(rects[i], requested));
        i := i + 1;
      }
    }

    method Subtract(delivered: DamageRegion)
      requires Valid() && delivered.Valid() && delivered != this
      modifies this
      ensures Valid() && rects == SubtractAll(old(rects), delivered.rects)
    {
      var i := 0;
      while i < |delivered.rects|
        invariant 0 <= i <= |delivered.rects|
        invariant Valid() && delivered.rects == old(delivered.rects)
        invariant SubtractAll(rects, delivered.rects[i..]) == SubtractAll(old(rects), delivered.rects)
      {
        assert delivered.rects[i..][1..] == delivered.rects[i + 1..];
        SubtractRectFrom(delivered.rects[i]);
        i := i + 1;
      }
    }

    method SubtractRectFrom(cut: Rect)
      requires Valid()
      modifies this
      ensures Valid() && rects == SubtractOne(old(rects), cut)
    {
      SubtractOneCovers(rects, cut, 0, 0);
      if cut.Empty() {
        return;
      }
      var next: seq<Rect> := [];
      var i := 0;
      while i < |rects|
        invariant 0 <= i <= |rects|
        invariant rects == old(rects)
        invariant next + Pieces(rects[i..], cut) == Pieces(rects, cut)
      {
        assert rects[i..][1..] == rects[i + 1..];
        next := next + SubtractRect(rects[i], cut);
        i := i + 1;
      }
      assert next == Pieces(rects, cut) by { assert rects[i..] == []; }
      PiecesAreExact(rects, cut, 0, 0);
      rects := next;
      EnforceRectBound();
    }

    // Past 64 rectangles the list collapses to its bounding box.
    method EnforceRectBound()
      requires AllNonEmpty(rects)
      modifies this
      ensures Valid() && rects == EnforceBound(old(rects))
    {
      EnforceBoundCovers(rects, 0, 0);
      if |rects| <= MAX_DAMAGE_RECTS {
        return;
      }
      var all := NO_RECT;
      var i := 0;
      while i < |rects|
        invariant 0 <= i <= |rects|
        invariant rects == old(rects)
        invariant BoundAll(rects[i..], all) == BoundAll(rects, NO_RECT)
      {
        assert rects[i..][1..] == rects[i + 1..];
        all := Bound(all, rects[i]);
        i := i + 1;
      }
      rects := if all.Empty() then [] else [all];
    }
  }
}
