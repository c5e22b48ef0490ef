/** Rectangles (RArea of src/object.h) and the four goal posts (src/object.cpp). */
module Areas {
  import opened Plane
  import opened Numbers

  datatype Rect = Rect(left: real, right: real, top: real, bottom: real) {
    function NearestHEdge(p: PVector): PVector {
      PVector(Min(Max(p.x, left), right), if Fabs(p.y - top) < Fabs(p.y - bottom) then top else bottom)
    }

    function NearestVEdge(p: PVector): PVector {
      PVector(if Fabs(p.x - left) < Fabs(p.x - right) then left else right, Min(Max(p.y, top), bottom))
    }

    function XGap(p: PVector): real { Min(Fabs(p.x - left), Fabs(p.x - right)) }

    function YGap(p: PVector): real { Min(Fabs(p.y - top), Fabs(p.y - bottom)) }

    function NearestEdge(p: PVector): PVector {
      if XGap(p) < YGap(p) then NearestVEdge(p) else NearestHEdge(p)
    }

    predicate InArea(p: PVector) { left <= p.x <= right && top <= p.y <= bottom }

    predicate OnVEdge(q: PVector) { InArea(q) && (q.x == left || q.x == right) }

    predicate OnHEdge(q: PVector) { InArea(q) && (q.y == top || q.y == bottom) }

    /** Point e is on the boundary, and no boundary point is closer to p. */
    ghost predicate NearestOnBoundary(e: PVector, p: PVector) {
      && (OnVEdge(e) || OnHEdge(e))
      && forall q :: OnVEdge(q) || OnHEdge(q) ==> p.Minus(e).R2() <= p.Minus(q).R2()
    }

    /** Beside the rectangle (beyond exactly one pair of edges) and nearer to the
        line of the other pair: there the comparison of gaps picks the wrong edge. */
    predicate Misjudged(p: PVector) {
      || (!(left <= p.x <= right) && top <= p.y <= bottom && 0.0 < YGap(p) <= XGap(p))
      || (left <= p.x <= right && !(top <= p.y <= bottom) && 0.0 < XGap(p) < YGap(p))
    }
  }

  type RArea = a: Rect | a.left <= a.right && a.top <= a.bottom witness Rect(0.0, 0.0, 0.0, 0.0)

  lemma SmallerSquare(a: real, b: real)
    requires Fabs(a) <= Fabs(b)
    ensures a * a <= b * b
    ensures Fabs(a) < Fabs(b) ==> a * a < b * b
  {
    var p := Product(Fabs(b) - Fabs(a), Fabs(b) + Fabs(a));
    assert Fabs(a) * Fabs(a) == a * a && Fabs(b) * Fabs(b) == b * b;
  }

  lemma CloserInBoth(p: PVector, e: PVector, q: PVector)
    requires Fabs(p.x - e.x) <= Fabs(p.x - q.x) && Fabs(p.y - e.y) <= Fabs(p.y - q.y)
    ensures p.Minus(e).R2() <= p.Minus(q).R2()
  {
    SmallerSquare(p.x - e.x, p.x - q.x);
    SmallerSquare(p.y - e.y, p.y - q.y);
  }

  lemma EdgesAreNearest(area: RArea, p: PVector)
    ensures area.OnVEdge(area.NearestVEdge(p)) && area.OnHEdge(area.NearestHEdge(p))
    ensures forall q :: area.OnVEdge(q) ==> p.Minus(area.NearestVEdge(p)).R2() <= p.Minus(q).R2()
    ensures forall q :: area.OnHEdge(q) ==> p.Minus(area.NearestHEdge(p)).R2() <= p.Minus(q).R2()
  {
    forall q | area.OnVEdge(q) ensures p.Minus(area.NearestVEdge(p)).R2() <= p.Minus(q).R2() {
      CloserInBoth(p, area.NearestVEdge(p), q);
    }
    forall q | area.OnHEdge(q) ensures p.Minus(area.NearestHEdge(p)).R2() <= p.Minus(q).R2() {
      CloserInBoth(p, area.NearestHEdge(p), q);
    }
  }

  /** The distances to the two candidate edges, compared through the gaps. */
  lemma CompareEdges(area: RArea, p: PVector)
    ensures area.XGap(p) < area.YGap(p) ==>
              (p.Minus(area.NearestVEdge(p)).R2() <= p.Minus(area.NearestHEdge(p)).R2() <==> !area.Misjudged(p))
    ensures area.YGap(p) <= area.XGap(p) ==>
              (p.Minus(area.NearestHEdge(p)).R2() <= p.Minus(area.NearestVEdge(p)).R2() <==> !area.Misjudged(p))
  {
    GapFacts(area, p);
    CompareOffsets(p.Minus(area.NearestVEdge(p)), p.Minus(area.NearestHEdge(p)));
  }

  lemma GapFacts(area: RArea, p: PVector)
    ensures var v, h := p.Minus(area.NearestVEdge(p)), p.Minus(area.NearestHEdge(p));
            && Fabs(v.x) == area.XGap(p) && Fabs(h.y) == area.YGap(p)
            && (area.left <= p.x <= area.right <==> h.x == 0.0) && (h.x == 0.0 || h.x == v.x)
            && (area.top <= p.y <= area.bottom <==> v.y == 0.0) && (v.y == 0.0 || v.y == h.y)
  {}

  lemma CompareOffsets(v: PVector, h: PVector)
    requires (h.x == 0.0 || h.x == v.x) && (v.y == 0.0 || v.y == h.y)
    ensures h.x == 0.0 && v.y == 0.0 ==> (v.R2() <= h.R2() <==> Fabs(v.x) <= Fabs(h.y)) && (h.R2() <= v.R2() <==> Fabs(h.y) <= Fabs(v.x))
    ensures h.x != 0.0 && v.y != 0.0 ==> v.R2() == h.R2()
    ensures h.x != 0.0 && v.y == 0.0 ==> v.R2() <= h.R2() && (h.R2() <= v.R2() <==> h.y == 0.0)
    ensures h.x == 0.0 && v.y != 0.0 ==> h.R2() <= v.R2() && (v.R2() <= h.R2() <==> v.x == 0.0)
  {
    if h.x != 0.0 && v.y != 0.0 {
      assert v == PVector(v.x, v.y) == PVector(h.x, h.y) == h;
    } else if h.x != 0.0 {
      ExtraSide(v.x, h.y);
    } else if v.y != 0.0 {
      ExtraSide(h.y, v.x);
    } else {
      CompareSquares(v.x, h.y);
    }
  }

  lemma ExtraSide(a: real, b: real)
    ensures PVector(a, 0.0).R2() <= PVector(a, b).R2()
    ensures PVector(a, b).R2() <= PVector(a, 0.0).R2() <==> b == 0.0
    ensures PVector(0.0, a).R2() <= PVector(b, a).R2()
    ensures PVector(b, a).R2() <= PVector(0.0, a).R2() <==> b == 0.0
  {
    var s := Square(b);
  }

  lemma CompareSquares(x: real, y: real)
    ensures PVector(x, 0.0).R2() <= PVector(0.0, y).R2() <==> Fabs(x) <= Fabs(y)
    ensures PVector(0.0, y).R2() <= PVector(x, 0.0).R2() <==> Fabs(y) <= Fabs(x)
  {
    if Fabs(x) <= Fabs(y) { SmallerSquare(x, y); } else { SmallerSquare(y, x); }
    if Fabs(y) <= Fabs(x) { SmallerSquare(y, x); }
  }

  /** NearestEdge keeps its promise for every point inside the rectangle, and for
      exactly those points outside that are not misjudged. */
  lemma NearestEdgeCorrect(area: RArea, p: PVector)
    ensures area.InArea(p) ==> area.NearestOnBoundary(area.NearestEdge(p), p)
    ensures area.NearestOnBoundary(area.NearestEdge(p), p) <==> !area.Misjudged(p)
  {
    EdgesAreNearest(area, p);
    CompareEdges(area, p);
  }

  const PITCH_LENGTH := 105.0
  const PITCH_WIDTH := 68.0
  const GOAL_AREA_LENGTH := 5.5
  const GOAL_AREA_WIDTH := 18.32
  const CORNER_KICK_MARGIN := 1.0

  function Centred(center: PVector, size: PVector): Rect {
    Rect(center.x - size.x * 0.5, center.x + size.x * 0.5, center.y - size.y * 0.5, center.y + size.y * 0.5)
  }

  /** The rectangle whose nearest edge the offside referee asks for, and the condition
      under which it asks. */
  function FreeKickArea(): Rect {
    Centred(ORIGIN, PVector(PITCH_LENGTH - 2.0 * CORNER_KICK_MARGIN, PITCH_WIDTH - 2.0 * CORNER_KICK_MARGIN))
  }

  predicate OffsideAsks(p: PVector) {
    var goal := PITCH_LENGTH / 2.0 - GOAL_AREA_LENGTH / 2.0;
    && p.x <= PITCH_LENGTH / 2.0 && !Centred(PVector(goal, 0.0), PVector(GOAL_AREA_LENGTH, GOAL_AREA_WIDTH)).InArea(p)
    && p.x >= -PITCH_LENGTH / 2.0 && !Centred(PVector(-goal, 0.0), PVector(GOAL_AREA_LENGTH, GOAL_AREA_WIDTH)).InArea(p)
    && !FreeKickArea().InArea(p)
  }

  /** A misjudged offside position: near a corner, beyond the goal line of the rectangle
      by three quarters of a metre and half a metre inside its touch line. The ball is
      placed in the corner although the point of the goal line straight across is nearer. */
  lemma MisjudgedPoint()
    ensures var area, p := FreeKickArea(), PVector(52.25, 32.5);
            && OffsideAsks(p) && area.NearestEdge(p) == PVector(51.5, 33.0)
            && area.OnVEdge(PVector(51.5, 32.5)) && p.Minus(PVector(51.5, 32.5)).R2() < p.Minus(area.NearestEdge(p)).R2()
            && !area.NearestOnBoundary(area.NearestEdge(p), p)
  {
    var area: RArea, p := FreeKickArea(), PVector(52.25, 32.5);
    assert area == Rect(-51.5, 51.5, -33.0, 33.0);
    NearestEdgeCorrect(area, p);
  }

  // ----- goal posts

  const GOAL_POST_RADIUS := 0.06

  function PostX(): real { PITCH_LENGTH * 0.5 - GOAL_POST_RADIUS }

  function PostY(goalWidth: real): real { goalWidth * 0.5 + GOAL_POST_RADIUS }

  /** The post of the quadrant, grown by the size of the object. */
  function NearestPost(goalWidth: real, pos: PVector, size: real): CArea
    requires size >= 0.0
  {
    var center :=
      if pos.y > 0.0 then
        if pos.x > 0.0 then PVector(PostX(), PostY(goalWidth))
        else PVector(-PostX(), PostY(goalWidth))
      else if pos.x > 0.0 then PVector(PostX(), -PostY(goalWidth))
      else PVector(-PostX(), -PostY(goalWidth));
    Circle(center, GOAL_POST_RADIUS + size)
  }

  ghost predicate IsPost(goalWidth: real, c: PVector) {
    (c.x == PostX() || c.x == -PostX()) && (c.y == PostY(goalWidth) || c.y == -PostY(goalWidth))
  }

  ghost predicate ClosestPost(goalWidth: real, pos: PVector, c: PVector) {
    IsPost(goalWidth, c) && forall q :: IsPost(goalWidth, q) ==> pos.Minus(c).R2() <= pos.Minus(q).R2()
  }

  /** The quadrant names the closest of the four posts for every position, exactly
      when the posts are on their own sides of the axis, as for every real goal. */
  lemma NearestPostIsClosest(goalWidth: real, size: real)
    requires size >= 0.0
    ensures (forall pos :: ClosestPost(goalWidth, pos, NearestPost(goalWidth, pos, size).center)) <==> PostY(goalWidth) >= 0.0
  {
    if PostY(goalWidth) >= 0.0 {
      forall pos ensures ClosestPost(goalWidth, pos, NearestPost(goalWidth, pos, size).center) {
        forall q | IsPost(goalWidth, q)
          ensures pos.Minus(NearestPost(goalWidth, pos, size).center).R2() <= pos.Minus(q).R2()
        {
          CloserInBoth(pos, NearestPost(goalWidth, pos, size).center, q);
        }
      }
    } else {
      var pos, y := PVector(1.0, 1.0), PostY(goalWidth);
      var c, q := PVector(PostX(), y), PVector(PostX(), -y);
      assert IsPost(goalWidth, q) && NearestPost(goalWidth, pos, size).center == c;
      SmallerSquare(1.0 + y, 1.0 - y);
      assert pos.Minus(q).R2() < pos.Minus(c).R2();
      assert !ClosestPost(goalWidth, pos, c);
    }
  }
}
