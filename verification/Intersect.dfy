/** The first point at which a moving object meets a goal post
    (the anonymous-namespace function intersect of src/object.cpp). */
module Collision {
  import opened Plane
  import opened Numbers

  /** Bounding-box test, with the exchange of end points of the original. */
  function Between(p: PVector, begin: PVector, end: PVector): bool
    decreases begin.x > end.x
  {
    if begin.x > end.x then Between(p, end, begin)
    else if begin.x <= p.x && p.x <= end.x then
      if begin.y < end.y then begin.y <= p.y && p.y <= end.y
      else begin.y >= p.y && p.y >= end.y
    else false
  }

  function Determinant(begin: PVector, end: PVector): real {
    begin.x * end.y - end.x * begin.y
  }

  /** dr * dr, where dr is the length of the travel. */
  function TravelSquared(m: Maths, begin: PVector, end: PVector): real {
    m.R(end.Minus(begin)) * m.R(end.Minus(begin))
  }

  function Discriminant(m: Maths, begin: PVector, end: PVector, radius: real): real {
    radius * radius * TravelSquared(m, begin, end) - Determinant(begin, end) * Determinant(begin, end)
  }

  /** The two crossings, in the order of the original: dr2 is the squared length of
      (dx, dy), D the determinant and descrim the root of the discriminant. */
  function RootPoints(dx: real, dy: real, dr2: real, D: real, descrim: real): (PVector, PVector)
    requires dr2 != 0.0
  {
    var fabs := if dy < 0.0 then -dy else dy;
    var x1 := (D * dy + dx * descrim) / dr2;
    var x2 := (D * dy - dx * descrim) / dr2;
    var y1 := (-D * dx + fabs * descrim) / dr2;
    var y2 := (-D * dx - fabs * descrim) / dr2;
    if dy < 0.0 then (PVector(x2, y1), PVector(x1, y2))
    else (PVector(x1, y1), PVector(x2, y2))
  }

  /** The two points where the line through begin and end meets the circle of
      the given radius about the origin. */
  function Crossings(m: Maths, begin: PVector, end: PVector, radius: real): (PVector, PVector)
    requires m.Roots() && begin != end
  {
    TravelPositive(m, begin, end);
    RootPoints(end.x - begin.x, end.y - begin.y, TravelSquared(m, begin, end), Determinant(begin, end),
               m.sqrt(Discriminant(m, begin, end, radius)))
  }

  /** Which of the two crossings is the collision, if any. */
  function Select(m: Maths, begin: PVector, end: PVector, first: PVector, second: PVector): Option<PVector> {
    Choose(begin, first, second, Between(first, begin, end), Between(second, begin, end),
           m.R(begin.Minus(first)) < m.R(begin.Minus(second)))
  }

  function Choose(begin: PVector, first: PVector, second: PVector,
                  firstBetween: bool, secondBetween: bool, firstCloser: bool): Option<PVector>
  {
    if !firstBetween && !secondBetween then None
    else
      var (inter, other, otherBetween) :=
        if !firstBetween then (second, first, false)
        else if !secondBetween then (first, second, false)
        else if firstCloser then (first, second, true)
        else (second, first, true);
      // at the rim and moving away from the circle: a fake collision
      if inter == begin && !otherBetween then None else Some(inter)
  }

  function Intersect(m: Maths, begin: PVector, end: PVector, circle: CArea): Option<PVector>
    requires m.Roots()
    decreases circle.center != ORIGIN
  {
    if begin == end then None
    else if m.R(begin.Minus(end)) < m.R(begin.Minus(circle.center)) - circle.radius then None
    else if circle.center == ORIGIN then
      if Discriminant(m, begin, end, circle.radius) <= 0.0 then None
      else
        var (first, second) := Crossings(m, begin, end, circle.radius);
        Select(m, begin, end, first, second)
    else
      match Intersect(m, begin.Minus(circle.center), end.Minus(circle.center), Circle(ORIGIN, circle.radius))
      case Some(inter) => Some(inter.Plus(circle.center))
      case None => None
  }

  // ----- what the answer means

  ghost predicate OnCircle(p: PVector, circle: CArea) {
    p.Minus(circle.center).R2() == circle.radius * circle.radius
  }

  ghost predicate At(p: PVector, begin: PVector, end: PVector, t: real) {
    p == begin.Plus(end.Minus(begin).Times(t))
  }

  ghost predicate OnSegment(p: PVector, begin: PVector, end: PVector) {
    exists t :: 0.0 <= t <= 1.0 && At(p, begin, end, t)
  }

  /** The segment passes through the circle at p instead of only touching it. */
  ghost predicate Transversal(p: PVector, begin: PVector, end: PVector, circle: CArea) {
    OnCircle(p, circle) && OnSegment(p, begin, end) && p.Minus(circle.center).Dot(end.Minus(begin)) != 0.0
  }

  // ----- the line and the box

  ghost predicate OnLine(p: PVector, begin: PVector, end: PVector) {
    p.Minus(begin).Cross(end.Minus(begin)) == 0.0
  }

  lemma SegmentOnLine(p: PVector, begin: PVector, end: PVector)
    requires OnSegment(p, begin, end)
    ensures OnLine(p, begin, end)
  {
    var t :| 0.0 <= t <= 1.0 && At(p, begin, end, t);
    var d := end.Minus(begin);
    assert p.Minus(begin) == d.Times(t);
    assert d.Times(t).Cross(d) == 0.0;
  }

  lemma Proportion(a: real, d: real)
    requires d != 0.0
    requires d > 0.0 ==> 0.0 <= a <= d
    requires d < 0.0 ==> d <= a <= 0.0
    ensures 0.0 <= a / d <= 1.0
  {
    var t := a / d;
    assert t * d == a;
    assert (t - 1.0) * d == a - d;
    if t < 0.0 {
      var p := Product(-t, if d > 0.0 then d else -d);
    }
    if t > 1.0 {
      var p := Product(t - 1.0, if d > 0.0 then d else -d);
    }
  }

  lemma Inside(t: real, d: real)
    requires 0.0 <= t <= 1.0
    ensures d >= 0.0 ==> 0.0 <= t * d <= d
    ensures d <= 0.0 ==> d <= t * d <= 0.0
  {
    var p := Product(t, if d >= 0.0 then d else -d);
    var q := Product(1.0 - t, if d >= 0.0 then d else -d);
  }

  /** A multiple t of the travel (dx, dy) with 0 <= t <= 1, from its two coordinates. */
  lemma Share(ax: real, ay: real, dx: real, dy: real) returns (t: real)
    requires dx != 0.0 && ax * dy == ay * dx
    requires dx > 0.0 ==> 0.0 <= ax <= dx
    requires dx < 0.0 ==> dx <= ax <= 0.0
    ensures 0.0 <= t <= 1.0 && ax == dx * t && ay == dy * t
  {
    Proportion(ax, dx);
    t := ax / dx;
    assert dx * t == ax;
    assert (dy * t) * dx == (dx * t) * dy == ax * dy;
    Cancel(dy * t, ay, dx);
  }

  /** On the line through begin and end, the box test decides the segment; it does
      so for both directions of travel and for axis-parallel segments. */
  lemma BetweenIsSegment(p: PVector, begin: PVector, end: PVector)
    requires begin != end && OnLine(p, begin, end)
    ensures Between(p, begin, end) <==> OnSegment(p, begin, end)
  {
    if Between(p, begin, end) { BetweenOnSegment(p, begin, end); }
    if OnSegment(p, begin, end) { SegmentInBox(p, begin, end); }
  }

  lemma BetweenOnSegment(p: PVector, begin: PVector, end: PVector)
    requires begin != end && OnLine(p, begin, end) && Between(p, begin, end)
    ensures OnSegment(p, begin, end)
  {
    var dx, dy, ax, ay := end.x - begin.x, end.y - begin.y, p.x - begin.x, p.y - begin.y;
    assert ax * dy == ay * dx;
    var t;
    if dx != 0.0 {
      t := Share(ax, ay, dx, dy);
    } else {
      t := Share(ay, ax, dy, dx);
    }
    assert At(p, begin, end, t);
  }

  lemma SegmentInBox(p: PVector, begin: PVector, end: PVector)
    requires OnSegment(p, begin, end)
    ensures Between(p, begin, end)
  {
    var t :| 0.0 <= t <= 1.0 && At(p, begin, end, t);
    var dx, dy := end.x - begin.x, end.y - begin.y;
    Inside(t, dx);
    Inside(t, dy);
    var sx, sy := t * dx, t * dy;
    assert p.x == begin.x + sx && p.y == begin.y + sy;
  }

  // ----- the two roots

  /** Decomposition of a point along and across a direction d. */
  function Combined(a: real, x: real, b: real, y: real): real { a * x + b * y }

  lemma Decompose(p: PVector, d: PVector)
    ensures p.x * d.R2() == Combined(p.Cross(d), d.y, p.Dot(d), d.x)
    ensures p.y * d.R2() == Combined(p.Dot(d), d.y, -p.Cross(d), d.x)
  {}

  lemma Recompose(p: PVector, d: PVector, c: real, k: real)
    requires d != ORIGIN
    requires p.x * d.R2() == c * d.y + k * d.x
    requires p.y * d.R2() == k * d.y - c * d.x
    ensures p.Cross(d) == c && p.Dot(d) == k
  {
    var q := d.R2();
    R2NonNeg(d);
    assert p.Cross(d) * q == (p.x * q) * d.y - (p.y * q) * d.x;
    assert (c * d.y + k * d.x) * d.y - (k * d.y - c * d.x) * d.x == c * q;
    Cancel(p.Cross(d), c, q);
    assert p.Dot(d) * q == (p.x * q) * d.x + (p.y * q) * d.y;
    assert (c * d.y + k * d.x) * d.x + (k * d.y - c * d.x) * d.y == k * q;
    Cancel(p.Dot(d), k, q);
  }

  lemma SameCoordinates(p: PVector, q: PVector, d: PVector)
    requires d != ORIGIN && p.Cross(d) == q.Cross(d) && p.Dot(d) == q.Dot(d)
    ensures p == q
  {
    hide PVector.R2, PVector.Cross, PVector.Dot, Combined;
    R2NonNeg(d);
    Decompose(p, d);
    Decompose(q, d);
    var r := d.R2();
    SameQuotient(p.x, q.x, r, Combined(p.Cross(d), d.y, p.Dot(d), d.x));
    SameQuotient(p.y, q.y, r, Combined(p.Dot(d), d.y, -p.Cross(d), d.x));
    assert p == PVector(p.x, p.y) && q == PVector(q.x, q.y);
  }

  lemma SameQuotient(x: real, y: real, r: real, u: real)
    requires r > 0.0 && x * r == u && y * r == u
    ensures x == y
  {
    Cancel(x, y, r);
  }

  /** Coordinates of p across and along the direction d. */
  ghost predicate Coordinates(p: PVector, d: PVector, across: real, along: real) {
    p.Cross(d) == across && p.Dot(d) == along
  }

  lemma Quotient(a: real, q: real)
    requires q != 0.0
    ensures a / q * q == a
  {}

  /** The quotients of RootPoints, multiplied out; k is the root with the sign of dy. */
  lemma RootPointsScaled(dx: real, dy: real, q: real, c: real, root: real, k: real)
    requires q != 0.0 && k == if dy < 0.0 then -root else root
    ensures var (first, second) := RootPoints(dx, dy, q, c, root);
            && first.x * q == c * dy + k * dx && first.y * q == k * dy - c * dx
            && second.x * q == c * dy - k * dx && second.y * q == -(k * dy) - c * dx
  {
    var fabs := if dy < 0.0 then -dy else dy;
    Quotient(c * dy + dx * root, q);
    Quotient(c * dy - dx * root, q);
    Quotient(-c * dx + fabs * root, q);
    Quotient(-c * dx - fabs * root, q);
    assert fabs * root == k * dy;
  }

  lemma RootPointsCoordinates(d: PVector, q: real, c: real, root: real, k: real)
    requires d != ORIGIN && q == d.R2() != 0.0 && k == if d.y < 0.0 then -root else root
    ensures var (first, second) := RootPoints(d.x, d.y, q, c, root);
            Coordinates(first, d, c, k) && Coordinates(second, d, c, -k)
  {
    var (first, second) := RootPoints(d.x, d.y, q, c, root);
    RootPointsScaled(d.x, d.y, q, c, root, k);
    Recompose(first, d, c, k);
    Recompose(second, d, c, -k);
  }

  /** In the coordinates across and along the segment the two crossings are
      (D, +k) and (D, -k), where k is a root of the discriminant. */
  lemma CrossingsShape(m: Maths, begin: PVector, end: PVector, radius: real) returns (k: real)
    requires m.Roots() && begin != end && Discriminant(m, begin, end, radius) > 0.0
    ensures k != 0.0 && k * k == Discriminant(m, begin, end, radius)
    ensures var d := end.Minus(begin);
            var (first, second) := Crossings(m, begin, end, radius);
            Coordinates(first, d, Determinant(begin, end), k) && Coordinates(second, d, Determinant(begin, end), -k)
  {
    var d := end.Minus(begin);
    var root := RootOf(m, Discriminant(m, begin, end, radius));
    k := if d.y < 0.0 then -root else root;
    NonZero(begin, end);
    TravelPositive(m, begin, end);
    RootPointsCoordinates(d, TravelSquared(m, begin, end), Determinant(begin, end), root, k);
  }

  lemma NonZero(begin: PVector, end: PVector)
    requires begin != end
    ensures end.Minus(begin) != ORIGIN && end.Minus(begin).R2() > 0.0
  {
    var d := end.Minus(begin);
    assert d == PVector(end.x - begin.x, end.y - begin.y) && begin == PVector(begin.x, begin.y);
    R2NonNeg(d);
  }

  lemma TravelPositive(m: Maths, begin: PVector, end: PVector)
    requires m.Roots() && begin != end
    ensures TravelSquared(m, begin, end) == end.Minus(begin).R2() > 0.0
  {
    m.Root(end.Minus(begin));
    NonZero(begin, end);
  }

  lemma RootOf(m: Maths, v: real) returns (root: real)
    requires m.Roots() && v > 0.0
    ensures root == m.sqrt(v) && root != 0.0 && root * root == v == -root * -root
  {
    assert m.RootAt(v);
    root := m.sqrt(v);
  }

  lemma DiscriminantValue(m: Maths, begin: PVector, end: PVector, radius: real)
    requires m.Roots()
    ensures var d := end.Minus(begin);
            && begin.Cross(d) == Determinant(begin, end)
            && Discriminant(m, begin, end, radius) == radius * radius * d.R2() - Determinant(begin, end) * Determinant(begin, end)
  {
    var d := end.Minus(begin);
    m.Root(d);
  }

  lemma EqualSquares(t: real, k: real)
    requires t * t == k * k
    ensures t == k || t == -k
  {
    assert (t - k) * (t + k) == t * t - k * k;
    if t != k {
      assert (t - k) * (t + k) == (t - k) * 0.0;
      Cancel(t + k, 0.0, t - k);
    }
  }

  /** On the line with offset p.Cross(d), the points at squared distance r2 from the
      origin are those with coordinate k or -k along d. */
  lemma OnBoth(p: PVector, d: PVector, k: real, r2: real)
    requires d != ORIGIN && k * k == r2 * d.R2() - p.Cross(d) * p.Cross(d)
    ensures p.R2() == r2 <==> p.Dot(d) == k || p.Dot(d) == -k
  {
    var q, t := d.R2(), p.Dot(d);
    R2NonNeg(d);
    Lagrange(p, d);
    assert t * t - k * k == (p.R2() - r2) * q;
    if p.R2() == r2 {
      EqualSquares(t, k);
    }
    if t == k || t == -k {
      Cancel(p.R2() - r2, 0.0, q);
    }
  }

  lemma TwoPoints(first: PVector, second: PVector, d: PVector, D: real, k: real, r2: real, p: PVector)
    requires d != ORIGIN && k != 0.0 && k * k == r2 * d.R2() - D * D
    requires Coordinates(first, d, D, k) && Coordinates(second, d, D, -k)
    ensures first != second
    ensures (p == first || p == second) <==> p.Cross(d) == D && p.R2() == r2
  {
    if p.Cross(d) == D {
      OnBoth(p, d, k, r2);
      if p.Dot(d) == k { SameCoordinates(p, first, d); }
      if p.Dot(d) == -k { SameCoordinates(p, second, d); }
    }
  }

  /** A point of the plane lies on the line and on the circle about the origin
      exactly when it is one of the two crossings. */
  lemma CrossingsComplete(m: Maths, begin: PVector, end: PVector, radius: real, p: PVector)
    requires m.Roots() && begin != end && Discriminant(m, begin, end, radius) > 0.0
    ensures var (first, second) := Crossings(m, begin, end, radius);
            && ((p == first || p == second) <==> (OnLine(p, begin, end) && p.R2() == radius * radius))
            && first != second
            && first.Dot(end.Minus(begin)) != 0.0 && second.Dot(end.Minus(begin)) != 0.0
  {
    var d := end.Minus(begin);
    var D := Determinant(begin, end);
    var (first, second) := Crossings(m, begin, end, radius);
    var k := CrossingsShape(m, begin, end, radius);
    NonZero(begin, end);
    DiscriminantValue(m, begin, end, radius);
    LineOffset(p, begin, end);
    TwoPoints(first, second, d, D, k, radius * radius, p);
  }

  lemma LineOffset(p: PVector, begin: PVector, end: PVector)
    ensures OnLine(p, begin, end) <==> p.Cross(end.Minus(begin)) == Determinant(begin, end)
  {}

  /** With no positive discriminant the line at most touches the circle. */
  lemma NoDiscriminant(m: Maths, begin: PVector, end: PVector, radius: real, p: PVector)
    requires m.Roots() && Discriminant(m, begin, end, radius) <= 0.0
    requires OnLine(p, begin, end) && p.R2() == radius * radius
    ensures p.Dot(end.Minus(begin)) == 0.0
  {
    var d := end.Minus(begin);
    DiscriminantValue(m, begin, end, radius);
    assert p.Minus(begin).Cross(d) == p.Cross(d) - begin.Cross(d);
    Lagrange(p, d);
    var s := Square(p.Dot(d));
  }

  // ----- the early exit

  /** If the object cannot travel as far as the rim, no point of the segment is on
      the circle. */
  lemma OutOfReach(m: Maths, begin: PVector, end: PVector, circle: CArea, p: PVector)
    requires m.Roots()
    requires m.R(begin.Minus(end)) < m.R(begin.Minus(circle.center)) - circle.radius
    requires OnSegment(p, begin, end)
    ensures !OnCircle(p, circle)
  {
    if OnCircle(p, circle) {
      var u := begin.Minus(p);
      var w := p.Minus(circle.center);
      assert u.Plus(w) == begin.Minus(circle.center);
      TriangleInequality(m, u, w);
      PartOfSegment(m, p, begin, end);
      m.Root(w);
      SquareOrder(m.R(w), circle.radius);
    }
  }

  lemma PartOfSegment(m: Maths, p: PVector, begin: PVector, end: PVector)
    requires m.Roots() && OnSegment(p, begin, end)
    ensures m.R(begin.Minus(p)) <= m.R(begin.Minus(end))
  {
    var t :| 0.0 <= t <= 1.0 && At(p, begin, end, t);
    var d := begin.Minus(end);
    assert begin.Minus(p) == d.Times(t);
    m.Root(d);
    m.Root(d.Times(t));
    Shrink(d, t);
    SquareOrder(m.R(d.Times(t)), m.R(d));
  }

  lemma Shrink(d: PVector, t: real)
    requires 0.0 <= t <= 1.0
    ensures d.Times(t).R2() <= d.R2()
  {
    hide PVector.R2, PVector.Times;
    R2NonNeg(d);
    Scaled(d, t);
    Lessened(t, d.R2());
  }

  lemma Lessened(t: real, r: real)
    requires 0.0 <= t <= 1.0 && r >= 0.0
    ensures t * t * r <= r
  {
    var a := Product(1.0 - t, 1.0 + t);
    var b := Product(a, r);
    assert b == r - t * t * r;
  }

  lemma Scaled(d: PVector, t: real)
    ensures d.Times(t).R2() == t * t * d.R2()
  {}

  // ----- the theorem

  ghost predicate Nearest(p: PVector, begin: PVector, end: PVector, circle: CArea) {
    forall q :: OnCircle(q, circle) && OnSegment(q, begin, end) ==> begin.Minus(p).R2() <= begin.Minus(q).R2()
  }

  /** Everything the caller of Intersect may rely on. */
  ghost predicate HitSpec(hit: Option<PVector>, begin: PVector, end: PVector, circle: CArea) {
    && (hit.Some? <==> exists p :: Transversal(p, begin, end, circle) && p != begin)
    && (hit.Some? ==> Transversal(hit.value, begin, end, circle) && Nearest(hit.value, begin, end, circle))
  }

  lemma CentredHit(m: Maths, begin: PVector, end: PVector, radius: real)
    requires m.Roots() && begin != end && radius >= 0.0 && Discriminant(m, begin, end, radius) > 0.0
    ensures var (first, second) := Crossings(m, begin, end, radius);
            HitSpec(Select(m, begin, end, first, second), begin, end, Circle(ORIGIN, radius))
  {
    var circle: CArea := Circle(ORIGIN, radius);
    var (first, second) := Crossings(m, begin, end, radius);
    forall q
      ensures (q == first || q == second) <==> (OnLine(q, begin, end) && OnCircle(q, circle))
      ensures OnSegment(q, begin, end) && OnCircle(q, circle) ==> q == first || q == second
      ensures (q == first || q == second) && OnSegment(q, begin, end) ==> Transversal(q, begin, end, circle)
    {
      assert q.Minus(ORIGIN) == q;
      CrossingsComplete(m, begin, end, radius, q);
      if OnSegment(q, begin, end) { SegmentOnLine(q, begin, end); }
    }
    CrossingsComplete(m, begin, end, radius, first);
    SelectCorrect(m, begin, end, circle, first, second);
  }

  /** The choice between two distinct crossings that are all there are. */
  lemma SelectCorrect(m: Maths, begin: PVector, end: PVector, circle: CArea, first: PVector, second: PVector)
    requires m.Roots() && begin != end && first != second
    requires OnLine(first, begin, end) && OnLine(second, begin, end)
    requires forall q :: OnSegment(q, begin, end) && OnCircle(q, circle) ==> q == first || q == second
    requires forall q :: (q == first || q == second) && OnSegment(q, begin, end) ==> Transversal(q, begin, end, circle)
    ensures HitSpec(Select(m, begin, end, first, second), begin, end, circle)
  {
    BetweenIsSegment(first, begin, end);
    BetweenIsSegment(second, begin, end);
    m.Root(begin.Minus(first));
    m.Root(begin.Minus(second));
    var a, b := m.R(begin.Minus(first)), m.R(begin.Minus(second));
    assert a * a == begin.Minus(first).R2() && b * b == begin.Minus(second).R2();
    if a < b { Ordered(a, b); } else { Ordered(b, a); }
    ChooseCorrect(begin, end, circle, first, second, a < b);
  }

  lemma ChooseCorrect(begin: PVector, end: PVector, circle: CArea, first: PVector, second: PVector, closer: bool)
    requires first != second
    requires forall q :: OnSegment(q, begin, end) && OnCircle(q, circle) ==> q == first || q == second
    requires forall q :: (q == first || q == second) && OnSegment(q, begin, end) ==> Transversal(q, begin, end, circle)
    requires closer ==> begin.Minus(first).R2() <= begin.Minus(second).R2()
    requires !closer ==> begin.Minus(second).R2() <= begin.Minus(first).R2()
    ensures HitSpec(Choose(begin, first, second, OnSegment(first, begin, end), OnSegment(second, begin, end), closer), begin, end, circle)
  {
    var hit := Choose(begin, first, second, OnSegment(first, begin, end), OnSegment(second, begin, end), closer);
    if hit.Some? {
      var other := if hit.value == first then second else first;
      assert Transversal(if hit.value == begin then other else hit.value, begin, end, circle);
    }
  }

  lemma Ordered(a: real, b: real)
    requires 0.0 <= a <= b
    ensures a * a <= b * b
  {
    var p := Product(b - a, b + a);
  }

  lemma Shift(p: PVector, begin: PVector, end: PVector, circle: CArea)
    ensures var c := circle.center;
            && (OnSegment(p, begin, end) <==> OnSegment(p.Minus(c), begin.Minus(c), end.Minus(c)))
            && (Transversal(p, begin, end, circle) <==> Transversal(p.Minus(c), begin.Minus(c), end.Minus(c), Circle(ORIGIN, circle.radius)))
  {
    hide PVector.R2, PVector.Dot, PVector.Times, PVector.Plus;
    var c := circle.center;
    assert p.Minus(c).Minus(ORIGIN) == p.Minus(c);
    assert end.Minus(c).Minus(begin.Minus(c)) == end.Minus(begin);
    forall t ensures At(p, begin, end, t) <==> At(p.Minus(c), begin.Minus(c), end.Minus(c), t) {
      ShiftedAt(p, begin, end, c, t);
    }
  }

  lemma ShiftedAt(p: PVector, begin: PVector, end: PVector, c: PVector, t: real)
    ensures At(p, begin, end, t) <==> At(p.Minus(c), begin.Minus(c), end.Minus(c), t)
  {
    assert end.Minus(c).Minus(begin.Minus(c)) == end.Minus(begin);
    hide PVector.Times;
  }

  lemma ShiftedHit(hit: Option<PVector>, begin: PVector, end: PVector, circle: CArea)
    requires var c := circle.center; HitSpec(hit, begin.Minus(c), end.Minus(c), Circle(ORIGIN, circle.radius))
    ensures HitSpec(if hit.Some? then Some(hit.value.Plus(circle.center)) else None, begin, end, circle)
  {
    var c := circle.center;
    var b, e, o: CArea := begin.Minus(c), end.Minus(c), Circle(ORIGIN, circle.radius);
    forall p ensures Transversal(p, begin, end, circle) <==> Transversal(p.Minus(c), b, e, o) {
      Shift(p, begin, end, circle);
    }
    if p :| Transversal(p, begin, end, circle) && p != begin {
      assert p.Minus(c) != b;
      assert Transversal(p.Minus(c), b, e, o);
    }
    if hit.Some? {
      var p :| Transversal(p, b, e, o) && p != b;
      assert p.Plus(c).Minus(c) == p;
      assert Transversal(p.Plus(c), begin, end, circle);
      var h := hit.value.Plus(c);
      assert h.Minus(c) == hit.value;
      forall q | OnCircle(q, circle) && OnSegment(q, begin, end)
        ensures begin.Minus(h).R2() <= begin.Minus(q).R2()
      {
        Shift(q, begin, end, circle);
        assert q.Minus(c).Minus(ORIGIN) == q.Minus(c);
        assert b.Minus(hit.value) == begin.Minus(h) && b.Minus(q.Minus(c)) == begin.Minus(q);
      }
    }
  }

  lemma NoTravel(begin: PVector, circle: CArea)
    ensures HitSpec(None, begin, begin, circle)
  {
    forall p ensures !Transversal(p, begin, begin, circle) {
      assert begin.Minus(begin) == ORIGIN;
    }
  }

  lemma NoReach(m: Maths, begin: PVector, end: PVector, circle: CArea)
    requires m.Roots()
    requires m.R(begin.Minus(end)) < m.R(begin.Minus(circle.center)) - circle.radius
    ensures HitSpec(None, begin, end, circle)
  {
    forall p | OnSegment(p, begin, end) ensures !OnCircle(p, circle) {
      OutOfReach(m, begin, end, circle, p);
    }
  }

  lemma NoPassage(m: Maths, begin: PVector, end: PVector, radius: real)
    requires m.Roots() && radius >= 0.0 && Discriminant(m, begin, end, radius) <= 0.0
    ensures HitSpec(None, begin, end, Circle(ORIGIN, radius))
  {
    forall p | OnSegment(p, begin, end) && OnCircle(p, Circle(ORIGIN, radius))
      ensures !Transversal(p, begin, end, Circle(ORIGIN, radius))
    {
      assert p.Minus(ORIGIN) == p;
      SegmentOnLine(p, begin, end);
      NoDiscriminant(m, begin, end, radius, p);
    }
  }

  /** Intersect reports a hit exactly when the segment passes through the circle at
      some point other than its start, and then it returns the crossing nearest to
      the start; for every centre, direction and non-negative radius. */
  lemma IntersectCorrect(m: Maths, begin: PVector, end: PVector, circle: CArea)
    requires m.Roots()
    ensures HitSpec(Intersect(m, begin, end, circle), begin, end, circle)
    decreases circle.center != ORIGIN
  {
    if begin == end {
      NoTravel(begin, circle);
    } else if m.R(begin.Minus(end)) < m.R(begin.Minus(circle.center)) - circle.radius {
      NoReach(m, begin, end, circle);
    } else if circle.center == ORIGIN {
      assert circle == Circle(ORIGIN, circle.radius);
      if Discriminant(m, begin, end, circle.radius) <= 0.0 {
        NoPassage(m, begin, end, circle.radius);
      } else {
        CentredHit(m, begin, end, circle.radius);
      }
    } else {
      var c := circle.center;
      IntersectCorrect(m, begin.Minus(c), end.Minus(c), Circle(ORIGIN, circle.radius));
      ShiftedHit(Intersect(m, begin.Minus(c), end.Minus(c), Circle(ORIGIN, circle.radius)), begin, end, circle);
    }
  }
}
