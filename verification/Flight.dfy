/** One leg of flight and its bounces off the goal posts: the specification of the
    bounce loop of MPObject::_inc (src/object.cpp). */
module Flight {
  import opened Plane
  import opened Numbers
  import opened Collision
  import opened Areas

  /** What the loops of _inc read besides the object: the goal width and the size of
      the object. */
  datatype Setting = Setting(goalWidth: real, size: real) {
    function Post(pos: PVector): CArea
      requires size >= 0.0
    {
      NearestPost(goalWidth, pos, size)
    }

    function Radius(): real { GOAL_POST_RADIUS + size }

    /** The posts, grown by the object, stand more than three radii apart. */
    predicate Apart() {
      size >= 0.0 && 2.0 * PostX() > 3.0 * Radius() && 2.0 * PostY(goalWidth) > 3.0 * Radius()
    }

    /** Outside all four posts. */
    ghost predicate Clear(pos: PVector) {
      forall c :: IsPost(goalWidth, c) ==> pos.Minus(c).R2() >= Radius() * Radius()
    }

    ghost predicate StrictlyClear(pos: PVector) {
      forall c :: IsPost(goalWidth, c) ==> pos.Minus(c).R2() > Radius() * Radius()
    }
  }

  // ----- mirror image

  /** Rotate the axis onto the x axis, flip the x component, rotate back. */
  function Reflect(m: Maths, v: PVector, axis: PVector): PVector {
    var w := m.Rotate(v, -m.Th(axis));
    m.Rotate(PVector(-w.x, w.y), m.Th(axis))
  }

  lemma MirrorUnit(v: PVector, w: PVector, u: PVector, n: PVector)
    requires n.x * n.x + n.y * n.y == 1.0
    requires w == PVector(v.x * n.x + v.y * n.y, v.y * n.x - v.x * n.y)
    requires u == PVector(-w.x * n.x - w.y * n.y, -w.x * n.y + w.y * n.x)
    ensures u.Dot(n) == -v.Dot(n) && u.Cross(n) == v.Cross(n) && u.R2() == v.R2()
  {
    assert u.Dot(n) == -w.x * (n.x * n.x + n.y * n.y);
    assert u.Cross(n) == -w.y * (n.x * n.x + n.y * n.y);
    Lagrange(u, n);
    Lagrange(v, n);
    assert n.R2() == 1.0;
  }

  lemma ReflectUnit(m: Maths, v: PVector, axis: PVector, n: PVector)
    requires m.Lawful() && n == PVector(m.cos(m.Th(axis)), m.sin(m.Th(axis)))
    ensures var u := Reflect(m, v, axis);
            u.Dot(n) == -v.Dot(n) && u.Cross(n) == v.Cross(n) && u.R2() == v.R2()
  {
    m.UnitAngle(m.Th(axis));
    MirrorUnit(v, m.Rotate(v, -m.Th(axis)), Reflect(m, v, axis), n);
  }

  /** Reflect is the mirror image in the tangent: it turns the component along the
      axis round, keeps the component across, and keeps the length. */
  lemma ReflectIsMirror(m: Maths, v: PVector, axis: PVector)
    requires m.Lawful()
    ensures Reflect(m, v, axis).Dot(axis) == -v.Dot(axis)
    ensures Reflect(m, v, axis).Cross(axis) == v.Cross(axis)
    ensures Reflect(m, v, axis).R2() == v.R2()
  {
    var n, r := PVector(m.cos(m.Th(axis)), m.sin(m.Th(axis))), m.R(axis);
    ReflectUnit(m, v, axis, n);
    m.Polar(axis);
    MirrorScaled(Reflect(m, v, axis), v, n, axis, r);
  }

  lemma MirrorScaled(u: PVector, v: PVector, n: PVector, axis: PVector, r: real)
    requires u.Dot(n) == -v.Dot(n) && u.Cross(n) == v.Cross(n) && axis == PVector(r * n.x, r * n.y)
    ensures u.Dot(axis) == -v.Dot(axis) && u.Cross(axis) == v.Cross(axis)
  {
    Along(u, n, axis, r);
    Along(v, n, axis, r);
  }

  lemma Along(u: PVector, n: PVector, axis: PVector, r: real)
    requires axis == PVector(r * n.x, r * n.y)
    ensures u.Dot(axis) == r * u.Dot(n) && u.Cross(axis) == r * u.Cross(n)
  {}

  // ----- lengths

  lemma RootUnique(m: Maths, v: PVector, r: real)
    requires m.Roots() && r >= 0.0 && r * r == v.R2()
    ensures m.R(v) == r
  {
    m.Root(v);
    EqualSquares(m.R(v), r);
  }

  lemma ScaledLength(m: Maths, v: PVector, k: real)
    requires m.Roots() && k >= 0.0
    ensures m.R(v.Times(k)) == k * m.R(v)
  {
    m.Root(v);
    var r := m.R(v);
    var p := Product(k, r);
    Scaled(v, k);
    assert p * p == k * k * v.R2() by { assert p * p == k * k * (r * r); }
    RootUnique(m, v.Times(k), p);
  }

  lemma PolarLength(m: Maths, r: real, a: real)
    requires m.Lawful()
    ensures m.FromPolar(r, a).R2() == r * r
  {
    var c, s := m.cos(a), m.sin(a);
    m.UnitAngle(a);
    assert m.FromPolar(r, a).R2() == r * r * (c * c + s * s);
  }

  // ----- a bounce

  /** pos is where the object is, newPos where it will be if nothing is in the way. */
  datatype Leg = Leg(pos: PVector, newPos: PVector, vel: PVector) {
    function Rest(): PVector { newPos.Minus(pos) }
  }

  /** The loop condition: the first hit on the post nearest to the start, or else on
      the post nearest to the end, with the centre of the post hit. */
  function HitOf(m: Maths, w: Setting, leg: Leg): Option<(PVector, PVector)>
    requires m.Lawful() && w.size >= 0.0
  {
    if leg.pos == leg.newPos then None
    else
      var post, second := w.Post(leg.pos), w.Post(leg.newPos);
      match Intersect(m, leg.pos, leg.newPos, post)
      case Some(inter) => Some((inter, post.center))
      case None =>
        if post != second then
          match Intersect(m, leg.pos, leg.newPos, second)
          case Some(inter) => Some((inter, second.center))
          case None => None
        else None
  }

  /** The loop body. The small step away from the rim adds 180 to an angle in radians. */
  function Bounce(m: Maths, leg: Leg, inter: PVector, center: PVector): Leg {
    var rem := leg.newPos.Minus(inter);
    var toCircle := center.Minus(inter);
    var pos := inter.Plus(m.FromPolar(EPS, m.Th(toCircle) + 180.0));
    var rem' := Reflect(m, rem, toCircle);
    Leg(pos, pos.Plus(rem'), m.FromPolar(m.R(leg.vel), m.Th(rem')))
  }

  /** The bounce loop, cut off after fuel bounces; None when it is still bouncing. */
  function Fly(m: Maths, w: Setting, leg: Leg, fuel: nat): Option<Leg>
    requires m.Lawful() && w.size >= 0.0
    decreases fuel
  {
    match HitOf(m, w, leg)
    case None => Some(leg)
    case Some(hit) => if fuel == 0 then None else Fly(m, w, Bounce(m, leg, hit.0, hit.1), fuel - 1)
  }

  /** Speed and heading agree with the path still to go. */
  ghost predicate Heading(leg: Leg) {
    leg.vel.Cross(leg.Rest()) == 0.0 && leg.vel.Dot(leg.Rest()) >= 0.0
  }

  lemma HitIsReal(m: Maths, w: Setting, leg: Leg)
    requires m.Lawful() && w.size >= 0.0
    ensures var hit := HitOf(m, w, leg);
            hit.Some? ==>
              && IsPost(w.goalWidth, hit.value.1)
              && OnCircle(hit.value.0, Circle(hit.value.1, w.Radius()))
              && OnSegment(hit.value.0, leg.pos, leg.newPos)
  {
    var post, second := w.Post(leg.pos), w.Post(leg.newPos);
    IntersectCorrect(m, leg.pos, leg.newPos, post);
    IntersectCorrect(m, leg.pos, leg.newPos, second);
    assert post == Circle(post.center, w.Radius()) && second == Circle(second.center, w.Radius());
  }

  lemma RestOfSegment(p: PVector, begin: PVector, end: PVector)
    requires OnSegment(p, begin, end)
    ensures end.Minus(p).R2() <= end.Minus(begin).R2()
  {
    var t :| 0.0 <= t <= 1.0 && At(p, begin, end, t);
    var d := end.Minus(begin);
    var r := d.Times(1.0 - t);
    assert end.Minus(p).x == r.x && end.Minus(p).y == r.y;
    assert end.Minus(p) == PVector(r.x, r.y) == r;
    Shrink(d, 1.0 - t);
  }

  /** A bounce keeps the speed, does not lengthen the path still to go, reflects it
      in the tangent of the post at the point of impact and points the velocity
      along it. */
  lemma BounceKeeps(m: Maths, w: Setting, leg: Leg)
    requires m.Lawful() && w.size >= 0.0 && HitOf(m, w, leg).Some?
    ensures var (inter, center) := HitOf(m, w, leg).value;
            var next := Bounce(m, leg, inter, center);
            && next.vel.R2() == leg.vel.R2()
            && next.Rest().R2() <= leg.Rest().R2()
            && next.Rest().Dot(center.Minus(inter)) == -leg.newPos.Minus(inter).Dot(center.Minus(inter))
            && next.Rest().Cross(center.Minus(inter)) == leg.newPos.Minus(inter).Cross(center.Minus(inter))
            && Heading(next)
  {
    HitIsReal(m, w, leg);
    var (inter, center) := HitOf(m, w, leg).value;
    var next := Bounce(m, leg, inter, center);
    var rem := leg.newPos.Minus(inter);
    var rem' := Reflect(m, rem, center.Minus(inter));
    RestIs(next.pos, rem');
    ReflectIsMirror(m, rem, center.Minus(inter));
    RestOfSegment(inter, leg.pos, leg.newPos);
    m.Root(leg.vel);
    PolarLength(m, m.R(leg.vel), m.Th(rem'));
    PolarHeading(m, m.R(leg.vel), rem');
  }

  lemma RestIs(pos: PVector, rem: PVector)
    ensures pos.Plus(rem).Minus(pos) == rem
  {}

  lemma PolarHeading(m: Maths, r: real, v: PVector)
    requires m.Lawful() && r >= 0.0
    ensures m.FromPolar(r, m.Th(v)).Cross(v) == 0.0 && m.FromPolar(r, m.Th(v)).Dot(v) >= 0.0
  {
    m.Polar(v);
    m.Root(v);
    m.UnitAngle(m.Th(v));
    SameHeading(r, m.R(v), m.cos(m.Th(v)), m.sin(m.Th(v)));
  }

  lemma SameHeading(r: real, l: real, c: real, s: real)
    requires r >= 0.0 && l >= 0.0 && c * c + s * s == 1.0
    ensures PVector(r * c, r * s).Cross(PVector(l * c, l * s)) == 0.0 && PVector(r * c, r * s).Dot(PVector(l * c, l * s)) >= 0.0
  {
    var p := Product(r, l);
    assert PVector(r * c, r * s).Dot(PVector(l * c, l * s)) == p * (c * c + s * s);
  }

  /** Over any number of bounces the speed stays what it was, the path to go never
      grows, and the velocity points along it. */
  lemma {:induction false} FlyKeeps(m: Maths, w: Setting, leg: Leg, fuel: nat)
    requires m.Lawful() && w.size >= 0.0 && Heading(leg)
    ensures Fly(m, w, leg, fuel).Some? ==>
              var last := Fly(m, w, leg, fuel).value;
              last.vel.R2() == leg.vel.R2() && last.Rest().R2() <= leg.Rest().R2() && Heading(last)
    decreases fuel
  {
    var hit := HitOf(m, w, leg);
    if hit.Some? && fuel > 0 {
      BounceKeeps(m, w, leg);
      FlyKeeps(m, w, Bounce(m, leg, hit.value.0, hit.value.1), fuel - 1);
    }
  }

  // ----- never inside a post

  /** A quadratic that is positive at 0 and negative at 1 has a simple root between. */
  lemma FallingRoot(m: Maths, q: real, beta: real, gamma: real) returns (t: real)
    requires m.Roots() && q > 0.0 && gamma > 0.0 && q + 2.0 * beta + gamma < 0.0
    ensures 0.0 < t < 1.0 && q * t * t + 2.0 * beta * t + gamma == 0.0 && q * t + beta != 0.0
  {
    var k2 := beta * beta - q * gamma;
    var a := Product(q, -(q + 2.0 * beta + gamma));
    var b := Square(beta + q);
    assert k2 == a + b;
    var k := RootOf(m, k2);
    k := if k < 0.0 then -k else k;
    t := (-beta - k) / q;
    assert q * t == -beta - k;
    RootInside(q, beta, gamma, k);
    SignOfRoot(t, q, -beta - k);
    assert (q * t) * (q * t) + 2.0 * beta * (q * t) + q * gamma == 0.0;
    assert q * (q * t * t + 2.0 * beta * t + gamma) == 0.0;
    Cancel(q * t * t + 2.0 * beta * t + gamma, 0.0, q);
  }

  lemma RootInside(q: real, beta: real, gamma: real, k: real)
    requires q > 0.0 && gamma > 0.0 && q + 2.0 * beta + gamma < 0.0
    requires k >= 0.0 && k * k == beta * beta - q * gamma
    ensures 0.0 < -beta - k < q
  {
    var c := Product(q, gamma);
    var d := Product(q, -(q + 2.0 * beta + gamma));
    BelowRoot(k, -beta);
    AboveRoot(k, -beta - q, q, beta, gamma);
  }

  lemma BelowRoot(k: real, b: real)
    requires k >= 0.0 && b > 0.0 && k * k < b * b
    ensures k < b
  {
    if k >= b { Ordered(b, k); }
  }

  lemma AboveRoot(k: real, b: real, q: real, beta: real, gamma: real)
    requires k >= 0.0 && b == -beta - q && k * k == beta * beta - q * gamma && q * (q + 2.0 * beta + gamma) < 0.0
    ensures b < k
  {
    assert b * b - k * k == q * (q + 2.0 * beta + gamma);
    if b >= k { Ordered(k, b); }
  }

  lemma SignOfRoot(t: real, q: real, p: real)
    requires q * t == p && 0.0 < p < q
    ensures 0.0 < t < 1.0
  {
    if t <= 0.0 { var e := Product(q, -t); }
    if t >= 1.0 { var e := Product(q, t - 1.0); }
  }

  /** Squared distance to the centre along a segment. */
  lemma AlongSegment(p: PVector, begin: PVector, end: PVector, c: PVector, t: real)
    requires At(p, begin, end, t)
    ensures var b, d := begin.Minus(c), end.Minus(begin);
            && p.Minus(c).R2() == d.R2() * t * t + 2.0 * b.Dot(d) * t + b.R2()
            && p.Minus(c).Dot(d) == d.R2() * t + b.Dot(d)
  {
    var b, d := begin.Minus(c), end.Minus(begin);
    assert p.Minus(c) == PVector(b.x + d.x * t, b.y + d.y * t);
  }

  /** Both ends of a travel into the circle, as values of the quadratic. */
  lemma TravelInto(begin: PVector, end: PVector, circle: CArea)
    requires begin.Minus(circle.center).R2() >= circle.radius * circle.radius > end.Minus(circle.center).R2()
    ensures var b, d := begin.Minus(circle.center), end.Minus(begin);
            d.R2() > 0.0 && d.R2() + 2.0 * b.Dot(d) + (b.R2() - circle.radius * circle.radius) < 0.0
  {
    assert At(end, begin, end, 1.0);
    AlongSegment(end, begin, end, circle.center, 1.0);
    NonZero(begin, end);
  }

  lemma EnteredFromOutside(m: Maths, begin: PVector, end: PVector, circle: CArea) returns (p: PVector)
    requires m.Roots()
    requires begin.Minus(circle.center).R2() > circle.radius * circle.radius > end.Minus(circle.center).R2()
    ensures Transversal(p, begin, end, circle) && p != begin
  {
    hide PVector.R2, PVector.Dot, PVector.Minus;
    var c, r2 := circle.center, circle.radius * circle.radius;
    var b, d := begin.Minus(c), end.Minus(begin);
    TravelInto(begin, end, circle);
    var t := FallingRoot(m, d.R2(), b.Dot(d), b.R2() - r2);
    p := begin.Plus(d.Times(t));
    assert At(p, begin, end, t);
    AlongSegment(p, begin, end, c, t);
    Moved(begin, d, t);
  }

  lemma EnteredFromRim(p: PVector, begin: PVector, end: PVector, circle: CArea)
    requires begin.Minus(circle.center).R2() == circle.radius * circle.radius > end.Minus(circle.center).R2()
    requires Transversal(p, begin, end, circle)
    ensures p == begin
  {
    var c, d := circle.center, end.Minus(begin);
    TravelInto(begin, end, circle);
    var t :| 0.0 <= t <= 1.0 && At(p, begin, end, t);
    AlongSegment(p, begin, end, c, t);
    OnlyRoot(t, d.R2(), begin.Minus(c).Dot(d));
    assert p == begin.Plus(d.Times(0.0)) == PVector(begin.x, begin.y) == begin;
  }

  /** An object that starts on or outside the rim and would end inside the circle is
      stopped by Intersect, except when it starts exactly on the rim. */
  lemma InsideDetected(m: Maths, begin: PVector, end: PVector, circle: CArea)
    requires m.Roots()
    requires begin.Minus(circle.center).R2() >= circle.radius * circle.radius > end.Minus(circle.center).R2()
    ensures Intersect(m, begin, end, circle).Some? <==> !OnCircle(begin, circle)
  {
    if OnCircle(begin, circle) {
      forall p ensures !EntersAt(p, begin, end, circle) {
        if EntersAt(p, begin, end, circle) { EnteredFromRim(p, begin, end, circle); }
      }
    } else {
      var p := EnteredFromOutside(m, begin, end, circle);
      assert EntersAt(p, begin, end, circle);
    }
    HitIff(m, begin, end, circle);
  }

  ghost predicate EntersAt(p: PVector, begin: PVector, end: PVector, circle: CArea) {
    Transversal(p, begin, end, circle) && p != begin
  }

  lemma HitIff(m: Maths, begin: PVector, end: PVector, circle: CArea)
    requires m.Roots()
    ensures Intersect(m, begin, end, circle).Some? <==> exists p :: EntersAt(p, begin, end, circle)
  {
    IntersectCorrect(m, begin, end, circle);
    if p :| Transversal(p, begin, end, circle) && p != begin { assert EntersAt(p, begin, end, circle); }
  }

  lemma OnlyRoot(t: real, q: real, beta: real)
    requires q > 0.0 && 0.0 <= t <= 1.0 && q + 2.0 * beta < 0.0 && q * t * t + 2.0 * beta * t == 0.0
    ensures t == 0.0
  {
    if t > 0.0 {
      Inside(t, q);
      var e := Product(t, -(q * t + 2.0 * beta));
    }
  }

  lemma Moved(begin: PVector, d: PVector, t: real)
    requires t != 0.0 && d.R2() > 0.0
    ensures begin.Plus(d.Times(t)) != begin
  {
    if d.x * t == 0.0 && d.y * t == 0.0 {
      Cancel(d.x, 0.0, t);
      Cancel(d.y, 0.0, t);
    }
  }

  lemma BoundOfSquare(a: real, r: real)
    requires r >= 0.0 && a * a <= r * r
    ensures -r <= a <= r
  {
    SquareOrder(a, r);
    SquareOrder(-a, r);
  }

  lemma InBox(a: PVector, r: real)
    requires r >= 0.0 && a.R2() <= r * r
    ensures -r <= a.x <= r && -r <= a.y <= r
  {
    var sx := Square(a.x);
    var sy := Square(a.y);
    BoundOfSquare(a.x, r);
    BoundOfSquare(a.y, r);
  }

  lemma OutOfBox(a: PVector, r: real)
    requires r >= 0.0 && (a.x > r || a.x < -r || a.y > r || a.y < -r)
    ensures a.R2() > r * r
  {
    if a.R2() <= r * r { InBox(a, r); }
  }

  /** Within two radii of one post, an object is outside all the others. */
  lemma FarFromOthers(w: Setting, pos: PVector, c: PVector, c': PVector)
    requires w.Apart() && IsPost(w.goalWidth, c) && IsPost(w.goalWidth, c') && c != c'
    requires pos.Minus(c).R2() <= 4.0 * (w.Radius() * w.Radius())
    ensures pos.Minus(c').R2() > w.Radius() * w.Radius()
  {
    var r := w.Radius();
    assert (2.0 * r) * (2.0 * r) == 4.0 * (r * r);
    InBox(pos.Minus(c), 2.0 * r);
    assert c == PVector(c.x, c.y) && c' == PVector(c'.x, c'.y);
    OutOfBox(pos.Minus(c'), r);
  }

  lemma NearOnePost(w: Setting, pos: PVector, center: PVector)
    requires w.Apart() && IsPost(w.goalWidth, center)
    requires w.Radius() * w.Radius() < pos.Minus(center).R2() <= 4.0 * (w.Radius() * w.Radius())
    ensures w.StrictlyClear(pos)
  {
    forall c | IsPost(w.goalWidth, c) ensures pos.Minus(c).R2() > w.Radius() * w.Radius() {
      if c != center { FarFromOthers(w, pos, center, c); }
    }
  }

  /** The small step is taken 180 radians, not degrees, from the direction of the
      post; since the cosine of 180 is negative it still leads away from the rim. */
  lemma StepOff(m: Maths, inter: PVector, center: PVector, r: real)
    requires m.Lawful() && m.cos(180.0) < 0.0 && r > EPS
    requires center.Minus(inter).R2() == r * r
    ensures var pos := inter.Plus(m.FromPolar(EPS, m.Th(center.Minus(inter)) + 180.0));
            r * r < pos.Minus(center).R2() <= 4.0 * (r * r)
  {
    hide PVector.R2, PVector.Dot;
    var axis := center.Minus(inter);
    var offset := m.FromPolar(EPS, m.Th(axis) + 180.0);
    var pos := inter.Plus(offset);
    assert pos.Minus(center) == PVector(offset.x - axis.x, offset.y - axis.y);
    PolarLength(m, EPS, m.Th(axis) + 180.0);
    StepDot(m, axis, r, EPS);
    OffsetLength(offset, axis);
    CosineBound(m, 180.0);
    StepSize(r, EPS, m.cos(180.0));
  }

  /** A step of length e along the direction of the post, half a turn and more away. */
  lemma StepDot(m: Maths, axis: PVector, r: real, e: real)
    requires m.Lawful() && r >= 0.0 && axis.R2() == r * r
    ensures axis.Dot(m.FromPolar(e, m.Th(axis) + 180.0)) == r * e * m.cos(180.0)
  {
    hide PVector.R2, PVector.Dot, Maths.FromPolar, Maths.R;
    var a := m.Th(axis);
    m.Polar(axis);
    RootUnique(m, axis, r);
    AngleBetween(m, a, 180.0);
    PolarDot(m, r, a, e, a + 180.0, m.cos(180.0));
  }

  lemma StepCross(m: Maths, axis: PVector, r: real, e: real)
    requires m.Lawful() && r >= 0.0 && axis.R2() == r * r
    ensures axis.Cross(m.FromPolar(e, m.Th(axis) + 180.0)) == r * e * m.sin(180.0)
  {
    hide PVector.R2, PVector.Cross, Maths.FromPolar, Maths.R;
    var a := m.Th(axis);
    m.Polar(axis);
    RootUnique(m, axis, r);
    AngleAcross(m, a, 180.0);
    PolarCross(m, r, a, e, a + 180.0, m.sin(180.0));
  }

  lemma AngleAcross(m: Maths, a: real, b: real)
    requires m.Lawful()
    ensures m.cos(a) * m.sin(a + b) - m.sin(a) * m.cos(a + b) == m.sin(b)
  {
    m.UnitAngle(a);
    assert m.SumAt(a, b);
    var c, s, cb, sb := m.cos(a), m.sin(a), m.cos(b), m.sin(b);
    assert c * (s * cb + c * sb) - s * (c * cb - s * sb) == sb * (c * c + s * s);
  }

  lemma PolarCross(m: Maths, r: real, a: real, e: real, b: real, h: real)
    requires m.cos(a) * m.sin(b) - m.sin(a) * m.cos(b) == h
    ensures m.FromPolar(r, a).Cross(m.FromPolar(e, b)) == r * e * h
  {
    var c, s, c', s' := m.cos(a), m.sin(a), m.cos(b), m.sin(b);
    assert m.FromPolar(r, a).Cross(m.FromPolar(e, b)) == r * e * (c * s' - s * c');
  }

  /** Where a bounce leaves the object: EPS from the point of impact, turned by 180
      radians from the direction of the post. An object that arrives exactly at the end of
      its path is given a velocity along the x axis, wherever it came from. */
  lemma BounceStep(m: Maths, w: Setting, leg: Leg)
    requires m.Lawful() && w.size >= 0.0 && HitOf(m, w, leg).Some?
    ensures var (inter, center) := HitOf(m, w, leg).value;
            var step := Bounce(m, leg, inter, center).pos.Minus(inter);
            && step.R2() == EPS * EPS
            && center.Minus(inter).Dot(step) == w.Radius() * EPS * m.cos(180.0)
            && center.Minus(inter).Cross(step) == w.Radius() * EPS * m.sin(180.0)
            && (inter == leg.newPos ==> Bounce(m, leg, inter, center).vel == m.FromPolar(m.R(leg.vel), 0.0))
  {
    hide PVector.R2, PVector.Dot, PVector.Cross, HitOf, Maths.FromPolar;
    HitIsReal(m, w, leg);
    var (inter, center) := HitOf(m, w, leg).value;
    var step := m.FromPolar(EPS, m.Th(center.Minus(inter)) + 180.0);
    Opposite(inter, center);
    StepDot(m, center.Minus(inter), w.Radius(), EPS);
    StepCross(m, center.Minus(inter), w.Radius(), EPS);
    PolarLength(m, EPS, m.Th(center.Minus(inter)) + 180.0);
    StepBack(inter, step);
    if inter == leg.newPos { NothingLeft(m, inter, center.Minus(inter)); }
  }

  lemma NothingLeft(m: Maths, p: PVector, axis: PVector)
    ensures m.Th(Reflect(m, p.Minus(p), axis)) == 0.0
  {
    var u := m.Rotate(ORIGIN, -m.Th(axis));
    assert p.Minus(p) == ORIGIN && u.x == 0.0 && u.y == 0.0;
  }

  lemma StepBack(a: PVector, step: PVector)
    ensures a.Plus(step).Minus(a) == step
  {}

  lemma AngleBetween(m: Maths, a: real, b: real)
    requires m.Lawful()
    ensures m.cos(a) * m.cos(a + b) + m.sin(a) * m.sin(a + b) == m.cos(b)
  {
    m.UnitAngle(a);
    assert m.SumAt(a, b);
    Turned(m.cos(a), m.sin(a), m.cos(b), m.sin(b), m.cos(a + b), m.sin(a + b));
  }

  lemma PolarDot(m: Maths, r: real, a: real, e: real, b: real, h: real)
    requires m.cos(a) * m.cos(b) + m.sin(a) * m.sin(b) == h
    ensures m.FromPolar(r, a).Dot(m.FromPolar(e, b)) == r * e * h
  {
    var c, s, c', s' := m.cos(a), m.sin(a), m.cos(b), m.sin(b);
    assert m.FromPolar(r, a).Dot(m.FromPolar(e, b)) == r * e * (c * c' + s * s');
  }

  lemma CosineBound(m: Maths, a: real)
    requires m.Lawful()
    ensures -1.0 <= m.cos(a) <= 1.0
  {
    m.UnitAngle(a);
    var s := Square(m.sin(a));
    BoundOfSquare(m.cos(a), 1.0);
  }

  lemma OffsetLength(u: PVector, v: PVector)
    ensures PVector(u.x - v.x, u.y - v.y).R2() == u.R2() + v.R2() - 2.0 * v.Dot(u)
  {}

  lemma Turned(c: real, s: real, ch: real, sh: real, ct: real, st: real)
    requires c * c + s * s == 1.0 && ct == c * ch - s * sh && st == s * ch + c * sh
    ensures c * ct + s * st == ch
  {
    assert c * ct + s * st == ch * (c * c + s * s);
  }

  lemma StepSize(r: real, e: real, h: real)
    requires r > e > 0.0 && -1.0 <= h < 0.0
    ensures r * r < e * e + r * r - 2.0 * (r * e * h) <= 4.0 * (r * r)
  {
    var p := Product(r, e);
    var q := Product(p, -h);
    var q' := Product(p, 1.0 + h);
    var e2 := Square(e);
    var x := Product(r, r - e);
    var y := Product(e, r - e);
  }

  /** A bounce leaves the object strictly outside every post. */
  lemma BounceStaysClear(m: Maths, w: Setting, leg: Leg)
    requires m.Lawful() && m.cos(180.0) < 0.0 && w.Apart() && HitOf(m, w, leg).Some?
    ensures var (inter, center) := HitOf(m, w, leg).value;
            w.StrictlyClear(Bounce(m, leg, inter, center).pos)
  {
    hide PVector.R2, HitOf, Setting.StrictlyClear;
    HitIsReal(m, w, leg);
    var (inter, center) := HitOf(m, w, leg).value;
    Opposite(inter, center);
    StepOff(m, inter, center, w.Radius());
    NearOnePost(w, Bounce(m, leg, inter, center).pos, center);
  }

  lemma Opposite(a: PVector, b: PVector)
    ensures a.Minus(b).R2() == b.Minus(a).R2()
  {}

  /** The one way to end a leg inside a post: to start it exactly on the rim of that
      post. */
  predicate FromTheRim(w: Setting, leg: Leg)
    requires w.size >= 0.0
  {
    var c := w.Post(leg.newPos).center;
    leg.pos.Minus(c).R2() == w.Radius() * w.Radius() > leg.newPos.Minus(c).R2()
  }

  lemma SecondPost(m: Maths, w: Setting, leg: Leg)
    requires m.Lawful() && w.size >= 0.0
    ensures HitOf(m, w, leg).None? && leg.pos != leg.newPos ==> Intersect(m, leg.pos, leg.newPos, w.Post(leg.newPos)).None?
    ensures w.Post(leg.pos) == w.Post(leg.newPos) && Intersect(m, leg.pos, leg.newPos, w.Post(leg.newPos)).None? ==> HitOf(m, w, leg).None?
  {}

  lemma StopsShort(m: Maths, w: Setting, leg: Leg)
    requires m.Lawful() && w.Apart() && w.Clear(leg.pos) && !w.Clear(leg.newPos)
    ensures Intersect(m, leg.pos, leg.newPos, w.Post(leg.newPos)).None? <==> FromTheRim(w, leg)
    ensures leg.pos != leg.newPos
  {
    hide PVector.R2;
    EndsInside(w, leg, w.Post(leg.newPos));
    InsideDetected(m, leg.pos, leg.newPos, w.Post(leg.newPos));
  }

  lemma LastLegInside(m: Maths, w: Setting, leg: Leg)
    requires m.Lawful() && w.Apart() && w.Clear(leg.pos) && !w.Clear(leg.newPos)
    ensures HitOf(m, w, leg).None? <==> FromTheRim(w, leg)
  {
    hide PVector.R2;
    SecondPost(m, w, leg);
    StopsShort(m, w, leg);
    if FromTheRim(w, leg) { RimPost(w, leg.pos, w.Post(leg.newPos).center); }
  }

  lemma EndsInside(w: Setting, leg: Leg, post: CArea)
    requires w.Apart() && w.Clear(leg.pos) && !w.Clear(leg.newPos) && post == w.Post(leg.newPos)
    ensures leg.pos.Minus(post.center).R2() >= post.radius * post.radius > leg.newPos.Minus(post.center).R2()
    ensures leg.pos != leg.newPos
    ensures OnCircle(leg.pos, post) <==> FromTheRim(w, leg)
  {
    hide PVector.R2;
    PostsClosest(w, leg.newPos);
    assert post.radius == w.Radius();
  }

  lemma LastLeg(m: Maths, w: Setting, leg: Leg)
    requires m.Lawful() && w.Apart() && w.Clear(leg.pos)
    ensures HitOf(m, w, leg).None? ==> (w.Clear(leg.newPos) <==> !FromTheRim(w, leg))
    ensures FromTheRim(w, leg) ==> HitOf(m, w, leg).None?
  {
    hide PVector.R2, HitOf;
    PostsClosest(w, leg.newPos);
    if !w.Clear(leg.newPos) { LastLegInside(m, w, leg); }
  }

  lemma PostsClosest(w: Setting, pos: PVector)
    requires w.Apart()
    ensures ClosestPost(w.goalWidth, pos, w.Post(pos).center)
    ensures w.Clear(pos) <==> pos.Minus(w.Post(pos).center).R2() >= w.Radius() * w.Radius()
  {
    NearestPostIsClosest(w.goalWidth, w.size);
  }

  /** The post on whose rim an object stands is the one its quadrant names. */
  lemma RimPost(w: Setting, pos: PVector, c: PVector)
    requires w.Apart() && IsPost(w.goalWidth, c) && pos.Minus(c).R2() == w.Radius() * w.Radius()
    ensures w.Post(pos) == Circle(c, w.Radius())
  {
    PostsClosest(w, pos);
    var r2 := Square(w.Radius());
    if w.Post(pos).center != c { FarFromOthers(w, pos, c, w.Post(pos).center); }
  }

  lemma StrictlyOffRims(w: Setting, leg: Leg)
    requires w.size >= 0.0 && w.StrictlyClear(leg.pos)
    ensures w.Clear(leg.pos) && !FromTheRim(w, leg)
  {
    assert IsPost(w.goalWidth, w.Post(leg.newPos).center);
  }

  lemma {:induction false} StrictFlyClear(m: Maths, w: Setting, leg: Leg, fuel: nat)
    requires m.Lawful() && m.cos(180.0) < 0.0 && w.Apart() && w.StrictlyClear(leg.pos)
    ensures Fly(m, w, leg, fuel).Some? ==> w.Clear(Fly(m, w, leg, fuel).value.newPos)
    decreases fuel
  {
    hide PVector.R2, HitOf, Bounce, FromTheRim;
    var hit := HitOf(m, w, leg);
    LastLeg(m, w, leg);
    StrictlyOffRims(w, leg);
    if hit.Some? && fuel > 0 {
      BounceStaysClear(m, w, leg);
      StrictFlyClear(m, w, Bounce(m, leg, hit.value.0, hit.value.1), fuel - 1);
    }
  }

  /** However often it bounces, an object that starts outside all posts ends outside
      all posts, exactly when it does not start on the rim of the post it would end
      in. */
  lemma FlyEndsClear(m: Maths, w: Setting, leg: Leg, fuel: nat)
    requires m.Lawful() && m.cos(180.0) < 0.0 && w.Apart() && w.Clear(leg.pos)
    requires Fly(m, w, leg, fuel).Some?
    ensures w.Clear(Fly(m, w, leg, fuel).value.newPos) <==> !FromTheRim(w, leg)
  {
    hide PVector.R2, HitOf, Bounce, FromTheRim, Setting.Clear;
    LastLeg(m, w, leg);
    if HitOf(m, w, leg).Some? { BouncedClear(m, w, leg, fuel); }
  }

  lemma BouncedClear(m: Maths, w: Setting, leg: Leg, fuel: nat)
    requires m.Lawful() && m.cos(180.0) < 0.0 && w.Apart()
    requires Fly(m, w, leg, fuel).Some? && HitOf(m, w, leg).Some?
    ensures w.Clear(Fly(m, w, leg, fuel).value.newPos)
  {
    hide PVector.R2, HitOf, Bounce, Setting.StrictlyClear, Setting.Clear;
    var hit := HitOf(m, w, leg).value;
    BounceStaysClear(m, w, leg);
    StrictFlyClear(m, w, Bounce(m, leg, hit.0, hit.1), fuel - 1);
  }
}
