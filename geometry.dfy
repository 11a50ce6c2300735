/**
 * Rectangles and the two geometry helpers the skin builder calls:
 * the min/max bounding-box accumulator (`skin_box_minmax_init`, `_update`,
 * `_to_rect`) and the size part of `skin_rect_rotate`.
 */
module Geometry {
  import opened Wrappers

  datatype Pos = Pos(x: int, y: int)
  datatype Size = Size(w: int, h: int)
  /** SkinRect: an origin and a size. */
  datatype Rect = Rect(pos: Pos, size: Size)

  const ZeroRect := Rect(Pos(0, 0), Size(0, 0))

  function Right(r: Rect): int { r.pos.x + r.size.w }
  function Bottom(r: Rect): int { r.pos.y + r.size.h }

  /** Every edge of `inner` lies within the edges of `outer`. */
  predicate Encloses(outer: Rect, inner: Rect)
  {
    outer.pos.x <= inner.pos.x && Right(inner) <= Right(outer) &&
    outer.pos.y <= inner.pos.y && Bottom(inner) <= Bottom(outer)
  }

  /** The accumulator: `Empty` right after `skin_box_minmax_init`, the running corners afterwards. */
  datatype Box = Empty | MinMax(x1: int, y1: int, x2: int, y2: int)

  function Min(a: int, b: int): int { if a <= b then a else b }
  function Max(a: int, b: int): int { if a >= b then a else b }

  /** `skin_box_minmax_update`: widen the box so that it also covers `r`. */
  function Update(b: Box, r: Rect): (b': Box)
    ensures b'.MinMax?
    ensures b'.x1 <= r.pos.x && Right(r) <= b'.x2 && b'.y1 <= r.pos.y && Bottom(r) <= b'.y2
    ensures b.MinMax? ==> b'.x1 <= b.x1 && b.x2 <= b'.x2 && b'.y1 <= b.y1 && b.y2 <= b'.y2
  {
    match b
    case Empty => MinMax(r.pos.x, r.pos.y, Right(r), Bottom(r))
    case MinMax(x1, y1, x2, y2) =>
      MinMax(Min(x1, r.pos.x), Min(y1, r.pos.y), Max(x2, Right(r)), Max(y2, Bottom(r)))
  }

  /** `skin_box_minmax_to_rect`: fails when nothing was merged, else the covered rectangle. */
  function ToRect(b: Box): (r: Option<Rect>)
    ensures r.None? <==> b.Empty?
    ensures r.Some? ==> r.value.pos == Pos(b.x1, b.y1) && Right(r.value) == b.x2 && Bottom(r.value) == b.y2
  {
    match b
    case Empty => None
    case MinMax(x1, y1, x2, y2) => Some(Rect(Pos(x1, y1), Size(x2 - x1, y2 - y1)))
  }

  /** The accumulator after `Update` with each of `rs` in turn. */
  function Accumulate(rs: seq<Rect>): (b: Box)
    ensures b.Empty? <==> rs == []
  {
    if rs == [] then Empty else Update(Accumulate(rs[..|rs| - 1]), rs[|rs| - 1])
  }

  function BoundingRect(rs: seq<Rect>): Option<Rect>
  {
    ToRect(Accumulate(rs))
  }

  lemma AccumulateSnoc(rs: seq<Rect>, r: Rect)
    ensures Accumulate(rs + [r]) == Update(Accumulate(rs), r)
  {
    assert (rs + [r])[..|rs|] == rs;
  }

  /** The bounding rectangle exists exactly when some rectangle was merged, and encloses each of them. */
  lemma {:induction false} BoundingRectEncloses(rs: seq<Rect>)
    ensures BoundingRect(rs).Some? <==> rs != []
    ensures forall i :: 0 <= i < |rs| ==> Encloses(BoundingRect(rs).value, rs[i])
  {
    if rs != [] {
      var front := rs[..|rs| - 1];
      BoundingRectEncloses(front);
      forall i | 0 <= i < |rs|
        ensures Encloses(BoundingRect(rs).value, rs[i])
      {
        if i < |rs| - 1 {
          assert rs[i] == front[i];
        }
      }
    }
  }

  /** Each edge of the bounding rectangle is an edge of one of the merged rectangles. */
  lemma {:induction false} BoundingRectTight(rs: seq<Rect>)
    requires rs != []
    ensures exists i :: 0 <= i < |rs| && rs[i].pos.x == BoundingRect(rs).value.pos.x
    ensures exists i :: 0 <= i < |rs| && rs[i].pos.y == BoundingRect(rs).value.pos.y
    ensures exists i :: 0 <= i < |rs| && Right(rs[i]) == Right(BoundingRect(rs).value)
    ensures exists i :: 0 <= i < |rs| && Bottom(rs[i]) == Bottom(BoundingRect(rs).value)
  {
    var n := |rs| - 1;
    var front := rs[..n];
    var b := Accumulate(rs);
    if front == [] {
      assert b == MinMax(rs[0].pos.x, rs[0].pos.y, Right(rs[0]), Bottom(rs[0]));
    } else {
      BoundingRectTight(front);
      var fb := Accumulate(front);
      var i1 :| 0 <= i1 < |front| && front[i1].pos.x == fb.x1;
      var i2 :| 0 <= i2 < |front| && front[i2].pos.y == fb.y1;
      var i3 :| 0 <= i3 < |front| && Right(front[i3]) == fb.x2;
      var i4 :| 0 <= i4 < |front| && Bottom(front[i4]) == fb.y2;
      assert rs[i1] == front[i1] && rs[i2] == front[i2] && rs[i3] == front[i3] && rs[i4] == front[i4];
      assert b.x1 == rs[i1].pos.x || b.x1 == rs[n].pos.x;
      assert b.y1 == rs[i2].pos.y || b.y1 == rs[n].pos.y;
      assert b.x2 == Right(rs[i3]) || b.x2 == Right(rs[n]);
      assert b.y2 == Bottom(rs[i4]) || b.y2 == Bottom(rs[n]);
    }
  }

  /** The bounding rectangle is the least one: any rectangle enclosing all of `rs` encloses it. */
  lemma BoundingRectLeast(rs: seq<Rect>, outer: Rect)
    requires rs != []
    requires forall i :: 0 <= i < |rs| ==> Encloses(outer, rs[i])
    ensures Encloses(outer, BoundingRect(rs).value)
  {
    BoundingRectTight(rs);
  }

  /** Shrinking one merged rectangle never grows the bounding rectangle. */
  lemma BoundingRectMonotone(rs: seq<Rect>, k: nat, smaller: Rect)
    requires k < |rs| && Encloses(rs[k], smaller)
    ensures Encloses(BoundingRect(rs).value, BoundingRect(rs[k := smaller]).value)
  {
    var shrunk := rs[k := smaller];
    BoundingRectEncloses(rs);
    BoundingRectLeast(shrunk, BoundingRect(rs).value);
  }

  /**
   * The size of a rectangle turned by `rotation` quarter turns (the part of
   * `skin_rect_rotate` the framebuffer sizing uses): odd turns swap width
   * and height, even turns keep them.
   */
  function RotateSize(s: Size, rotation: int): (r: Size)
    ensures r == s || r == Size(s.h, s.w)
  {
    if rotation % 2 == 0 then s else Size(s.h, s.w)
  }
}
