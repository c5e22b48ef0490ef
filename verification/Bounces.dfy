/** How often an object can bounce: the bounce loop of MPObject::_inc
    (src/object.cpp) always ends. */
module Bounces {
  import opened Plane
  import opened Collision
  import opened Areas
  import opened Numbers
  import opened Flight

  /** The least distance between an object that has just left one post and the rim of
      another post. */
  function Gap(w: Setting): real {
    Min(2.0 * PostX(), 2.0 * PostY(w.goalWidth)) - 3.0 * w.Radius()
  }

  // ----- the first hit goes inwards

  /** The nearest crossing of an object that starts outside is where it enters. */
  lemma FirstHitEnters(m: Maths, begin: PVector, end: PVector, circle: CArea)
    requires m.Roots() && begin.Minus(circle.center).R2() >= circle.radius * circle.radius
    ensures var hit := Intersect(m, begin, end, circle);
            hit.Some? ==> hit.value.Minus(circle.center).Dot(end.Minus(begin)) < 0.0
  {
    var hit := Intersect(m, begin, end, circle);
    IntersectCorrect(m, begin, end, circle);
    if hit.Some? {
      var other :| Transversal(other, begin, end, circle) && other != begin;
      NearestEnters(hit.value, other, begin, end, circle);
    }
  }

  lemma NearestEnters(p: PVector, other: PVector, begin: PVector, end: PVector, circle: CArea)
    requires begin.Minus(circle.center).R2() >= circle.radius * circle.radius
    requires Transversal(p, begin, end, circle) && Nearest(p, begin, end, circle)
    requires Transversal(other, begin, end, circle) && other != begin
    ensures p.Minus(circle.center).Dot(end.Minus(begin)) < 0.0
  {
    var c, d := circle.center, end.Minus(begin);
    var D, beta, gamma := d.R2(), begin.Minus(c).Dot(d), begin.Minus(c).R2() - circle.radius * circle.radius;
    var t := CrossingAt(p, begin, end, circle);
    var t' := CrossingAt(other, begin, end, circle);
    hide PVector.R2, PVector.Dot, PVector.Minus;
    if t' == 0.0 { AtStart(other, begin, end); }
    if D * t + beta > 0.0 {
      NonZero(begin, end);
      var t0 := EarlierRoot(D, beta, gamma, t, t');
      NearerCrossing(p, begin, end, circle, t, t0);
    }
  }

  /** A crossing with an earlier root is not the nearest. */
  lemma NearerCrossing(p: PVector, begin: PVector, end: PVector, circle: CArea, t: real, t0: real)
    requires At(p, begin, end, t) && 0.0 <= t0 < t <= 1.0 && end.Minus(begin).R2() > 0.0
    requires var c, d := circle.center, end.Minus(begin);
             d.R2() * t0 * t0 + 2.0 * begin.Minus(c).Dot(d) * t0 + (begin.Minus(c).R2() - circle.radius * circle.radius) == 0.0
    ensures !Nearest(p, begin, end, circle)
  {
    hide PVector.R2, PVector.Dot, PVector.Minus;
    var q := begin.Plus(end.Minus(begin).Times(t0));
    assert At(q, begin, end, t0);
    AlongSegment(q, begin, end, circle.center, t0);
    assert OnSegment(q, begin, end) && OnCircle(q, circle);
    TravelTo(p, begin, end, t);
    TravelTo(q, begin, end, t0);
    EarlierIsNearer(end.Minus(begin).R2(), t0, t);
  }

  /** A crossing as a root of the quadratic along the segment. */
  lemma CrossingAt(p: PVector, begin: PVector, end: PVector, circle: CArea) returns (t: real)
    requires Transversal(p, begin, end, circle)
    ensures 0.0 <= t <= 1.0 && At(p, begin, end, t) && begin != end
    ensures var c, d := circle.center, end.Minus(begin);
            var D, beta, gamma := d.R2(), begin.Minus(c).Dot(d), begin.Minus(c).R2() - circle.radius * circle.radius;
            && D * t * t + 2.0 * beta * t + gamma == 0.0
            && D * t + beta == p.Minus(c).Dot(d) != 0.0
  {
    t :| 0.0 <= t <= 1.0 && At(p, begin, end, t);
    AlongSegment(p, begin, end, circle.center, t);
  }

  lemma AtStart(p: PVector, begin: PVector, end: PVector)
    requires At(p, begin, end, 0.0)
    ensures p == begin
  {
    assert p == PVector(begin.x, begin.y);
  }

  lemma TravelTo(p: PVector, begin: PVector, end: PVector, t: real)
    requires At(p, begin, end, t)
    ensures begin.Minus(p).R2() == t * t * end.Minus(begin).R2()
    ensures p.Minus(begin).R2() == t * t * end.Minus(begin).R2()
  {
    Scaled(end.Minus(begin), t);
    var v := end.Minus(begin).Times(t);
    assert p.Minus(begin) == PVector(v.x, v.y) == v;
    Opposite(begin, p);
  }

  lemma EarlierIsNearer(D: real, t0: real, t: real)
    requires D > 0.0 && 0.0 <= t0 < t
    ensures t0 * t0 * D < t * t * D
  {
    var p := Product(t - t0, t + t0);
    var q := Product(p, D);
  }

  /** On a rising branch there is an earlier root, unless the rising root is the only
      one at or after the start. */
  lemma EarlierRoot(D: real, beta: real, gamma: real, t: real, t': real) returns (t0: real)
    requires D > 0.0 && gamma >= 0.0 && 0.0 <= t && 0.0 < t'
    requires D * t * t + 2.0 * beta * t + gamma == 0.0 && D * t + beta > 0.0
    requires D * t' * t' + 2.0 * beta * t' + gamma == 0.0
    ensures 0.0 <= t0 < t && D * t0 * t0 + 2.0 * beta * t0 + gamma == 0.0
  {
    var s := D * t + beta;
    if t == 0.0 {
      // then gamma is 0 and beta positive, and no root is positive
      var e := Product(D, t');
      var f := Product(D * t' + 2.0 * beta, t');
    }
    t0 := t - 2.0 * s / D;
    var k := s / D;
    assert k * D == s;
    assert t0 == t - 2.0 * k;
    assert D * t0 * t0 + 2.0 * beta * t0 + gamma == 4.0 * k * (D * k - D * t - beta) == 0.0;
  }

  // ----- after a bounce the post is left behind

  /** The object is near post c, outside it, and its path does not meet the post. */
  ghost predicate Departing(w: Setting, leg: Leg, c: PVector) {
    && IsPost(w.goalWidth, c)
    && leg.pos.Minus(c).R2() <= 4.0 * (w.Radius() * w.Radius())
    && w.StrictlyClear(leg.pos)
    && Misses(w, leg, c)
  }

  ghost predicate Misses(w: Setting, leg: Leg, c: PVector) {
    forall p :: OnSegment(p, leg.pos, leg.newPos) ==> p.Minus(c).R2() > w.Radius() * w.Radius()
  }

  /** The small step of a bounce leads outwards. */
  lemma StepsOutward(m: Maths, inter: PVector, center: PVector, r: real)
    requires m.Lawful() && m.cos(180.0) < 0.0 && r > 0.0
    requires center.Minus(inter).R2() == r * r
    ensures m.FromPolar(EPS, m.Th(center.Minus(inter)) + 180.0).Dot(inter.Minus(center)) > 0.0
  {
    hide PVector.R2, PVector.Dot;
    var axis := center.Minus(inter);
    StepDot(m, axis, r, EPS);
    var re := Product(r, EPS);
    var step := Product(re, -m.cos(180.0));
    Turn(m.FromPolar(EPS, m.Th(axis) + 180.0), center, inter);
    Swap(axis, m.FromPolar(EPS, m.Th(axis) + 180.0));
  }

  lemma Swap(u: PVector, v: PVector)
    ensures u.Dot(v) == v.Dot(u)
  {}

  lemma Turn(v: PVector, a: PVector, b: PVector)
    ensures v.Dot(b.Minus(a)) == -v.Dot(a.Minus(b))
  {}

  /** From a point on the rim, an outward step and an outward path lead away for good. */
  lemma LeadsAway(inter: PVector, c: PVector, step: PVector, path: PVector, t: real)
    requires step.Dot(inter.Minus(c)) > 0.0 && path.Dot(inter.Minus(c)) >= 0.0 && t >= 0.0
    ensures inter.Plus(step).Plus(path.Times(t)).Minus(c).R2() > inter.Minus(c).R2()
  {
    var a := inter.Minus(c);
    var u := step.Plus(path.Times(t));
    R2NonNeg(u);
    var p := Product(path.Dot(a), t);
    assert u.Dot(a) == step.Dot(a) + p;
    SumSquared(a, u);
    assert inter.Plus(step).Plus(path.Times(t)).Minus(c) == a.Plus(u);
  }

  lemma SumSquared(a: PVector, u: PVector)
    ensures a.Plus(u).R2() == a.R2() + u.R2() + 2.0 * u.Dot(a)
  {}

  /** A bounce sends the object away from the post it has hit: it cannot hit that post
      again before it has hit another. */
  lemma BounceDeparts(m: Maths, w: Setting, leg: Leg)
    requires m.Lawful() && m.cos(180.0) < 0.0 && w.Apart() && w.Clear(leg.pos) && HitOf(m, w, leg).Some?
    ensures var (inter, center) := HitOf(m, w, leg).value; Departing(w, Bounce(m, leg, inter, center), center)
  {
    hide PVector.R2, PVector.Dot, PVector.Cross, Bounce, HitOf, Setting.Radius, Misses;
    HitIsReal(m, w, leg);
    BounceStaysClear(m, w, leg);
    BounceMisses(m, w, leg);
    BounceNear(m, w, leg);
  }

  lemma BounceNear(m: Maths, w: Setting, leg: Leg)
    requires m.Lawful() && m.cos(180.0) < 0.0 && w.Apart() && HitOf(m, w, leg).Some?
    ensures var (inter, c) := HitOf(m, w, leg).value;
            Bounce(m, leg, inter, c).pos.Minus(c).R2() <= 4.0 * (w.Radius() * w.Radius())
  {
    hide PVector.R2, HitOf;
    HitIsReal(m, w, leg);
    var (inter, c) := HitOf(m, w, leg).value;
    Opposite(inter, c);
    StepOff(m, inter, c, w.Radius());
  }

  lemma BounceMisses(m: Maths, w: Setting, leg: Leg)
    requires m.Lawful() && m.cos(180.0) < 0.0 && w.Apart() && w.Clear(leg.pos) && HitOf(m, w, leg).Some?
    ensures var (inter, center) := HitOf(m, w, leg).value; Misses(w, Bounce(m, leg, inter, center), center)
  {
    hide PVector.R2, PVector.Dot, PVector.Cross, HitOf, Setting.Clear, Reflect;
    HitIsReal(m, w, leg);
    BounceKeeps(m, w, leg);
    var (inter, c) := HitOf(m, w, leg).value;
    var next := Bounce(m, leg, inter, c);
    var step := m.FromPolar(EPS, m.Th(c.Minus(inter)) + 180.0);
    Opposite(inter, c);
    StepsOutward(m, inter, c, w.Radius());
    HitEnters(m, w, leg);
    PathTurned(leg, inter, c, next);
    forall p | OnSegment(p, next.pos, next.newPos) ensures p.Minus(c).R2() > w.Radius() * w.Radius() {
      var t :| 0.0 <= t <= 1.0 && At(p, next.pos, next.newPos, t);
      LeadsAway(inter, c, step, next.Rest(), t);
    }
  }

  lemma HitEnters(m: Maths, w: Setting, leg: Leg)
    requires m.Lawful() && w.size >= 0.0 && w.Clear(leg.pos) && HitOf(m, w, leg).Some?
    ensures var (inter, c) := HitOf(m, w, leg).value; inter.Minus(c).Dot(leg.Rest()) < 0.0
  {
    var post, second := w.Post(leg.pos), w.Post(leg.newPos);
    FirstHitEnters(m, leg.pos, leg.newPos, post);
    FirstHitEnters(m, leg.pos, leg.newPos, second);
  }

  /** What comes in goes out. */
  lemma PathTurned(leg: Leg, inter: PVector, c: PVector, next: Leg)
    requires OnSegment(inter, leg.pos, leg.newPos) && inter.Minus(c).Dot(leg.Rest()) < 0.0
    requires next.Rest().Dot(c.Minus(inter)) == -leg.newPos.Minus(inter).Dot(c.Minus(inter))
    ensures next.Rest().Dot(inter.Minus(c)) >= 0.0
  {
    var t :| 0.0 <= t <= 1.0 && At(inter, leg.pos, leg.newPos, t);
    var p := Product(1.0 - t, -inter.Minus(c).Dot(leg.Rest()));
    Turn(next.Rest(), c, inter);
    RestDot(leg, inter, c, t);
  }

  lemma RestDot(leg: Leg, inter: PVector, c: PVector, t: real)
    requires At(inter, leg.pos, leg.newPos, t)
    ensures leg.newPos.Minus(inter).Dot(c.Minus(inter)) == (1.0 - t) * -inter.Minus(c).Dot(leg.Rest())
  {
    var rem, d, a := leg.newPos.Minus(inter), leg.Rest(), c.Minus(inter);
    assert rem.x == (1.0 - t) * d.x && rem.y == (1.0 - t) * d.y;
    assert rem.Dot(a) == (1.0 - t) * d.Dot(a);
    assert d.Dot(a) == -inter.Minus(c).Dot(d);
  }

  // ----- on to another post

  /** The next hit is on another post, and getting there uses up a gap's worth of the
      path. */
  lemma NextHitFar(m: Maths, w: Setting, leg: Leg, c: PVector)
    requires m.Lawful() && w.Apart() && Departing(w, leg, c) && HitOf(m, w, leg).Some?
    ensures var (inter, c') := HitOf(m, w, leg).value;
            c' != c && m.R(leg.newPos.Minus(inter)) <= m.R(leg.Rest()) - Gap(w) && Gap(w) > 0.0
  {
    hide PVector.R2, HitOf;
    HitIsReal(m, w, leg);
    var (inter, c') := HitOf(m, w, leg).value;
    assert inter.Minus(c').R2() == w.Radius() * w.Radius();
    assert c' != c;
    FarApart(w, leg.pos, c, inter, c');
    LongWay(m, inter.Minus(leg.pos), Gap(w));
    PathDivided(m, leg, inter);
  }

  lemma FarApart(w: Setting, pos: PVector, c: PVector, inter: PVector, c': PVector)
    requires w.Apart() && IsPost(w.goalWidth, c) && IsPost(w.goalWidth, c') && c != c'
    requires pos.Minus(c).R2() <= 4.0 * (w.Radius() * w.Radius()) && inter.Minus(c').R2() == w.Radius() * w.Radius()
    ensures inter.Minus(pos).R2() >= Gap(w) * Gap(w) && Gap(w) > 0.0
  {
    hide PVector.R2, IsPost, Gap;
    InDoubleBox(pos.Minus(c), w.Radius());
    InBox(inter.Minus(c'), w.Radius());
    Differ(c, c');
    OneSideFar(w, pos, c, inter, c');
    FarOff(inter.Minus(pos), Gap(w));
  }

  lemma InDoubleBox(a: PVector, r: real)
    requires r >= 0.0 && a.R2() <= 4.0 * (r * r)
    ensures -2.0 * r <= a.x <= 2.0 * r && -2.0 * r <= a.y <= 2.0 * r
  {
    assert (2.0 * r) * (2.0 * r) == 4.0 * (r * r);
    hide PVector.R2;
    InBox(a, 2.0 * r);
  }

  lemma Differ(a: PVector, b: PVector)
    requires a != b
    ensures a.x != b.x || a.y != b.y
  {
    assert a == PVector(a.x, a.y) && b == PVector(b.x, b.y);
  }

  lemma OneSideFar(w: Setting, pos: PVector, c: PVector, inter: PVector, c': PVector)
    requires w.Apart() && IsPost(w.goalWidth, c) && IsPost(w.goalWidth, c') && (c.x != c'.x || c.y != c'.y)
    requires var r := w.Radius();
             && -2.0 * r <= pos.Minus(c).x <= 2.0 * r && -2.0 * r <= pos.Minus(c).y <= 2.0 * r
             && -r <= inter.Minus(c').x <= r && -r <= inter.Minus(c').y <= r
    ensures var v := inter.Minus(pos); v.x >= Gap(w) || v.x <= -Gap(w) || v.y >= Gap(w) || v.y <= -Gap(w)
    ensures Gap(w) > 0.0
  {}

  lemma FarOff(v: PVector, l: real)
    requires l > 0.0 && (v.x >= l || v.x <= -l || v.y >= l || v.y <= -l)
    ensures v.R2() >= l * l
  {
    var sx := Square(v.x);
    var sy := Square(v.y);
    if v.x >= l { Ordered(l, v.x); }
    if v.x <= -l { Ordered(l, -v.x); }
    if v.y >= l { Ordered(l, v.y); }
    if v.y <= -l { Ordered(l, -v.y); }
  }

  lemma LongWay(m: Maths, v: PVector, l: real)
    requires m.Roots() && v.R2() >= l * l
    ensures m.R(v) >= l
  {
    m.Root(v);
    SquareOrder(l, m.R(v));
  }

  lemma PathDivided(m: Maths, leg: Leg, inter: PVector)
    requires m.Roots() && OnSegment(inter, leg.pos, leg.newPos)
    ensures m.R(inter.Minus(leg.pos)) + m.R(leg.newPos.Minus(inter)) == m.R(leg.Rest())
  {
    var t :| 0.0 <= t <= 1.0 && At(inter, leg.pos, leg.newPos, t);
    var d := leg.Rest();
    var there, on := d.Times(t), d.Times(1.0 - t);
    assert inter.Minus(leg.pos) == PVector(there.x, there.y) == there;
    assert leg.newPos.Minus(inter).x == on.x && leg.newPos.Minus(inter).y == on.y;
    assert leg.newPos.Minus(inter) == PVector(on.x, on.y) == on;
    hide PVector.R2;
    ScaledLength(m, d, t);
    ScaledLength(m, d, 1.0 - t);
    assert t * m.R(d) + (1.0 - t) * m.R(d) == m.R(d);
  }

  lemma BounceLength(m: Maths, w: Setting, leg: Leg)
    requires m.Lawful() && w.size >= 0.0 && HitOf(m, w, leg).Some?
    ensures var (inter, c) := HitOf(m, w, leg).value;
            m.R(Bounce(m, leg, inter, c).Rest()) == m.R(leg.newPos.Minus(inter))
  {
    var (inter, c) := HitOf(m, w, leg).value;
    var rem := leg.newPos.Minus(inter);
    ReflectIsMirror(m, rem, c.Minus(inter));
    RestIs(Bounce(m, leg, inter, c).pos, Reflect(m, rem, c.Minus(inter)));
  }

  // ----- the loop ends

  lemma {:induction false} DepartingEnds(m: Maths, w: Setting, leg: Leg, c: PVector, n: nat)
    requires m.Lawful() && m.cos(180.0) < 0.0 && w.Apart() && Departing(w, leg, c)
    requires m.R(leg.Rest()) < (n + 1) as real * Gap(w)
    ensures Fly(m, w, leg, n).Some?
    decreases n
  {
    hide PVector.R2, HitOf, Bounce, Departing, Gap;
    if HitOf(m, w, leg).Some? {
      var (inter, c') := HitOf(m, w, leg).value;
      NextHitFar(m, w, leg, c);
      m.Root(leg.newPos.Minus(inter));
      BounceLength(m, w, leg);
      DepartingClear(w, leg, c);
      BounceDeparts(m, w, leg);
      assert (n + 1) as real * Gap(w) == n as real * Gap(w) + Gap(w);
      if n > 0 { DepartingEnds(m, w, Bounce(m, leg, inter, c'), c', n - 1); }
    }
  }

  lemma DepartingClear(w: Setting, leg: Leg, c: PVector)
    requires Departing(w, leg, c)
    ensures w.Clear(leg.pos)
  {}

  /** The bounce loop ends for every start outside the posts: n + 1 bounces are enough
      for a path shorter than n + 1 gaps; a path shorter than the gap between two posts
      has one bounce at most. */
  lemma FlyEnds(m: Maths, w: Setting, leg: Leg, n: nat)
    requires m.Lawful() && m.cos(180.0) < 0.0 && w.Apart() && w.Clear(leg.pos)
    requires m.R(leg.Rest()) < (n + 1) as real * Gap(w)
    ensures Fly(m, w, leg, n + 1).Some?
  {
    hide PVector.R2, HitOf, Bounce, Departing, Gap;
    if HitOf(m, w, leg).Some? {
      var (inter, c) := HitOf(m, w, leg).value;
      HitIsReal(m, w, leg);
      PathDivided(m, leg, inter);
      m.Root(inter.Minus(leg.pos));
      BounceLength(m, w, leg);
      BounceDeparts(m, w, leg);
      DepartingEnds(m, w, Bounce(m, leg, inter, c), c, n);
    }
  }

  /** More fuel changes nothing once the loop has ended. */
  lemma {:induction false} FlyMore(m: Maths, w: Setting, leg: Leg, n: nat, k: nat)
    requires m.Lawful() && w.size >= 0.0 && Fly(m, w, leg, n).Some? && n <= k
    ensures Fly(m, w, leg, k) == Fly(m, w, leg, n)
    decreases n
  {
    hide HitOf, Bounce;
    var hit := HitOf(m, w, leg);
    if hit.Some? { FlyMore(m, w, Bounce(m, leg, hit.value.0, hit.value.1), n - 1, k - 1); }
  }

  // ----- how far

  /** The length of the way along the path, bounce after bounce, without the small steps. */
  function Travelled(m: Maths, w: Setting, leg: Leg, fuel: nat): real
    requires m.Lawful() && w.size >= 0.0
    decreases fuel
  {
    match HitOf(m, w, leg)
    case None => m.R(leg.Rest())
    case Some(hit) =>
      m.R(hit.0.Minus(leg.pos)) + if fuel == 0 then 0.0 else Travelled(m, w, Bounce(m, leg, hit.0, hit.1), fuel - 1)
  }

  /** However often it bounces, an object travels exactly as far as it would have without
      a post in its way. */
  lemma {:induction false} TravelsFully(m: Maths, w: Setting, leg: Leg, fuel: nat)
    requires m.Lawful() && w.size >= 0.0 && Fly(m, w, leg, fuel).Some?
    ensures Travelled(m, w, leg, fuel) == m.R(leg.Rest())
    decreases fuel
  {
    hide PVector.R2, Maths.R, HitOf, Bounce;
    var hit := HitOf(m, w, leg);
    if hit.Some? {
      var (inter, c) := hit.value;
      HitIsReal(m, w, leg);
      PathDivided(m, leg, inter);
      BounceLength(m, w, leg);
      TravelsFully(m, w, Bounce(m, leg, inter, c), fuel - 1);
    }
  }

  // ----- which post

  lemma NearPost(w: Setting, q: PVector, c: PVector)
    requires w.size >= 0.0 && OnCircle(q, Circle(c, w.Radius()))
    ensures c.x - w.Radius() <= q.x <= c.x + w.Radius() && c.y - w.Radius() <= q.y <= c.y + w.Radius()
  {
    InBox(q.Minus(c), w.Radius());
  }

  lemma OnPath(q: PVector, leg: Leg) returns (t: real)
    requires OnSegment(q, leg.pos, leg.newPos)
    ensures 0.0 <= t <= 1.0 && At(q, leg.pos, leg.newPos, t)
    ensures Amid(leg.pos.x, q.x, leg.newPos.x) && Amid(leg.pos.y, q.y, leg.newPos.y)
  {
    t :| 0.0 <= t <= 1.0 && At(q, leg.pos, leg.newPos, t);
    AtIs(q, leg.pos, leg.newPos, t);
    Coordinate(leg.pos.x, leg.newPos.x, t);
    Coordinate(leg.pos.y, leg.newPos.y, t);
  }

  lemma AtIs(q: PVector, a: PVector, b: PVector, t: real)
    requires At(q, a, b, t)
    ensures q.x == a.x + (b.x - a.x) * t && q.y == a.y + (b.y - a.y) * t
  {}

  predicate Amid(a: real, x: real, b: real) { a <= x <= b || b <= x <= a }

  lemma Coordinate(a: real, b: real, t: real)
    requires 0.0 <= t <= 1.0
    ensures Amid(a, a + (b - a) * t, b)
  {
    if a <= b {
      var p := Product(b - a, t);
      var q := Product(b - a, 1.0 - t);
    } else {
      var p := Product(a - b, t);
      var q := Product(a - b, 1.0 - t);
    }
  }

  /** Every post met is the one nearest to the start or the one nearest to the end, unless
      the path leads from one quadrant to the opposite one and more than half the pitch
      along. */
  lemma NoThirdPost(w: Setting, leg: Leg, c: PVector, q: PVector)
    requires w.Apart() && IsPost(w.goalWidth, c)
    requires OnCircle(q, Circle(c, w.Radius())) && OnSegment(q, leg.pos, leg.newPos)
    requires w.Radius() - PostX() < leg.Rest().x < PostX() - w.Radius()
    ensures c == w.Post(leg.pos).center || c == w.Post(leg.newPos).center
  {
    NearPost(w, q, c);
    var t := OnPath(q, leg);
    hide PVector.R2, OnCircle, OnSegment;
    assert c == PVector(c.x, c.y);
  }

  /** Of two posts the path meets the one nearest to its start first. */
  lemma StartPostFirst(w: Setting, leg: Leg, p: PVector, q: PVector)
    requires w.Apart() && w.Post(leg.pos) != w.Post(leg.newPos)
    requires OnCircle(p, w.Post(leg.pos)) && OnSegment(p, leg.pos, leg.newPos)
    requires OnCircle(q, w.Post(leg.newPos)) && OnSegment(q, leg.pos, leg.newPos)
    ensures leg.pos.Minus(p).R2() <= leg.pos.Minus(q).R2()
  {
    hide PVector.R2, OnSegment, At;
    PostIs(w, leg.pos);
    PostIs(w, leg.newPos);
    NearPost(w, p, w.Post(leg.pos).center);
    NearPost(w, q, w.Post(leg.newPos).center);
    QuadrantOrder(w, leg, p, q);
    var t := OnPath(p, leg);
    var u := OnPath(q, leg);
    InOrder(leg, p, q, t, u);
    TravelTo(p, leg.pos, leg.newPos, t);
    TravelTo(q, leg.pos, leg.newPos, u);
    R2NonNeg(leg.Rest());
    LaterIsFarther(leg.Rest().R2(), t, u);
  }

  lemma InOrder(leg: Leg, p: PVector, q: PVector, t: real, u: real)
    requires At(p, leg.pos, leg.newPos, t) && At(q, leg.pos, leg.newPos, u)
    requires (leg.pos.x <= leg.newPos.x && p.x < q.x) || (leg.pos.x >= leg.newPos.x && p.x > q.x)
          || (leg.pos.y <= leg.newPos.y && p.y < q.y) || (leg.pos.y >= leg.newPos.y && p.y > q.y)
    ensures t <= u
  {
    AtIs(p, leg.pos, leg.newPos, t);
    AtIs(q, leg.pos, leg.newPos, u);
    if u <= t {
      Earlier(leg.pos.x, leg.newPos.x, u, t);
      Earlier(leg.pos.y, leg.newPos.y, u, t);
    }
  }

  /** From one quadrant to another, the points near their posts lie in the order of the
      path in some coordinate. */
  lemma QuadrantOrder(w: Setting, leg: Leg, p: PVector, q: PVector)
    requires w.Apart() && w.Post(leg.pos) != w.Post(leg.newPos)
    requires var a, r := w.Post(leg.pos).center, w.Radius(); a.x - r <= p.x <= a.x + r && a.y - r <= p.y <= a.y + r
    requires var b, r := w.Post(leg.newPos).center, w.Radius(); b.x - r <= q.x <= b.x + r && b.y - r <= q.y <= b.y + r
    ensures (leg.pos.x <= leg.newPos.x && p.x < q.x) || (leg.pos.x >= leg.newPos.x && p.x > q.x)
         || (leg.pos.y <= leg.newPos.y && p.y < q.y) || (leg.pos.y >= leg.newPos.y && p.y > q.y)
  {}

  lemma Earlier(a: real, b: real, u: real, t: real)
    requires u <= t
    ensures a <= b ==> a + (b - a) * u <= a + (b - a) * t
    ensures a >= b ==> a + (b - a) * u >= a + (b - a) * t
  {
    if a <= b { var p := Product(b - a, t - u); }
    if a >= b { var p := Product(a - b, t - u); }
  }

  lemma LaterIsFarther(D: real, t: real, u: real)
    requires D >= 0.0 && 0.0 <= t <= u
    ensures t * t * D <= u * u * D
  {
    var p := Product(u - t, u + t);
    var q := Product(p, D);
  }

  /** A post is met at q on the way. */
  ghost predicate Meets(w: Setting, leg: Leg, c: PVector, q: PVector)
    requires w.size >= 0.0
  {
    IsPost(w.goalWidth, c) && EntersAt(q, leg.pos, leg.newPos, Circle(c, w.Radius()))
  }

  /** The loop condition looks at two posts only; for a path of no more than about half the
      pitch along it finds a hit exactly if any of the four posts is met, and then the
      first meeting of all. */
  lemma HitIsFirst(m: Maths, w: Setting, leg: Leg)
    requires m.Lawful() && w.Apart()
    requires w.Radius() - PostX() < leg.Rest().x < PostX() - w.Radius()
    ensures HitOf(m, w, leg).Some? <==> exists c, q :: Meets(w, leg, c, q)
    ensures HitOf(m, w, leg).Some? ==>
              var (inter, center) := HitOf(m, w, leg).value;
              && IsPost(w.goalWidth, center) && Transversal(inter, leg.pos, leg.newPos, Circle(center, w.Radius()))
              && forall c, q :: Meets(w, leg, c, q) ==> leg.pos.Minus(inter).R2() <= leg.pos.Minus(q).R2()
  {
    hide PVector.R2, Setting.Post, OnSegment, OnCircle, HitOf;
    var post, second := w.Post(leg.pos), w.Post(leg.newPos);
    forall c, q | Meets(w, leg, c, q)
      ensures EntersAt(q, leg.pos, leg.newPos, post) || EntersAt(q, leg.pos, leg.newPos, second)
    {
      NoThirdPost(w, leg, c, q);
      PostIs(w, leg.pos);
      PostIs(w, leg.newPos);
    }
    HitExists(m, w, leg);
    if HitOf(m, w, leg).Some? {
      HitBefore(m, w, leg);
    }
  }

  lemma PostIs(w: Setting, pos: PVector)
    requires w.size >= 0.0
    ensures IsPost(w.goalWidth, w.Post(pos).center) && w.Post(pos) == Circle(w.Post(pos).center, w.Radius())
  {}

  lemma HitExists(m: Maths, w: Setting, leg: Leg)
    requires m.Lawful() && w.size >= 0.0
    ensures (exists q :: EntersAt(q, leg.pos, leg.newPos, w.Post(leg.pos)) || EntersAt(q, leg.pos, leg.newPos, w.Post(leg.newPos)))
            ==> HitOf(m, w, leg).Some?
    ensures HitOf(m, w, leg).Some? ==> exists c, q :: Meets(w, leg, c, q)
  {
    hide PVector.R2, Setting.Post, OnSegment, OnCircle;
    var post, second := w.Post(leg.pos), w.Post(leg.newPos);
    PostIs(w, leg.pos);
    PostIs(w, leg.newPos);
    HitIff(m, leg.pos, leg.newPos, post);
    HitIff(m, leg.pos, leg.newPos, second);
    if leg.pos == leg.newPos {
      NoTravel(leg.pos, post);
      NoTravel(leg.pos, second);
    }
    if HitOf(m, w, leg).Some? {
      var circle := if Intersect(m, leg.pos, leg.newPos, post).Some? then post else second;
      var q :| EntersAt(q, leg.pos, leg.newPos, circle);
      assert Meets(w, leg, circle.center, q);
    }
  }

  lemma HitBefore(m: Maths, w: Setting, leg: Leg)
    requires m.Lawful() && w.Apart() && HitOf(m, w, leg).Some?
    ensures var (inter, center) := HitOf(m, w, leg).value;
            && IsPost(w.goalWidth, center) && Transversal(inter, leg.pos, leg.newPos, Circle(center, w.Radius()))
            && forall q :: EntersAt(q, leg.pos, leg.newPos, w.Post(leg.pos)) || EntersAt(q, leg.pos, leg.newPos, w.Post(leg.newPos))
                 ==> leg.pos.Minus(inter).R2() <= leg.pos.Minus(q).R2()
  {
    hide PVector.R2, Setting.Post, OnSegment, OnCircle;
    var post, second := w.Post(leg.pos), w.Post(leg.newPos);
    PostIs(w, leg.pos);
    PostIs(w, leg.newPos);
    HitIff(m, leg.pos, leg.newPos, post);
    IntersectCorrect(m, leg.pos, leg.newPos, post);
    IntersectCorrect(m, leg.pos, leg.newPos, second);
    var (inter, center) := HitOf(m, w, leg).value;
    forall q | EntersAt(q, leg.pos, leg.newPos, post) || EntersAt(q, leg.pos, leg.newPos, second)
      ensures leg.pos.Minus(inter).R2() <= leg.pos.Minus(q).R2()
    {
      if Intersect(m, leg.pos, leg.newPos, post).Some? && !EntersAt(q, leg.pos, leg.newPos, post) {
        StartPostFirst(w, leg, inter, q);
      }
    }
  }

  /** A path that leads past a third post, and through it: 25 to the right of the post at
      (52.44, 7.07) and below it, to 75 on the other side. No step is nearly as long. */
  lemma ThirdPostMissed(m: Maths)
    requires m.Lawful()
    ensures var w := Setting(14.02, 0.085);
            var leg := Leg(PVector(72.44, -7.93), PVector(-7.56, 52.07), PVector(-80.0, 60.0));
            && w.Apart() && leg.Rest() == leg.vel && HitOf(m, w, leg).None?
            && Meets(w, leg, PVector(52.44, 7.07), PVector(52.44 + 0.116, 7.07 - 0.087))
  {
    var w := Setting(14.02, 0.085);
    var leg := Leg(PVector(72.44, -7.93), PVector(-7.56, 52.07), PVector(-80.0, 60.0));
    ThroughTheThird(leg.pos, leg.newPos);
    TwoLookedAt(w, leg.pos, leg.newPos);
    NotEntered(leg.pos, leg.newPos);
    hide PVector.R2, OnSegment, OnCircle, Setting.Post, EntersAt;
    HitIff(m, leg.pos, leg.newPos, w.Post(leg.pos));
    HitIff(m, leg.pos, leg.newPos, w.Post(leg.newPos));
  }

  lemma TwoLookedAt(w: Setting, begin: PVector, end: PVector)
    requires w == Setting(14.02, 0.085) && begin == PVector(72.44, -7.93) && end == PVector(-7.56, 52.07)
    ensures w.Post(begin) == Circle(PVector(52.44, -7.07), 0.145) && w.Post(end) == Circle(PVector(-52.44, 7.07), 0.145)
    ensures w.Apart() && w.Radius() == 0.145
  {}

  lemma ThroughTheThird(begin: PVector, end: PVector)
    requires begin == PVector(72.44, -7.93) && end == PVector(-7.56, 52.07)
    ensures EntersAt(PVector(52.44 + 0.116, 7.07 - 0.087), begin, end, Circle(PVector(52.44, 7.07), 0.145))
    ensures end.Minus(begin) == PVector(-80.0, 60.0)
  {
    assert At(PVector(52.44 + 0.116, 7.07 - 0.087), begin, end, 0.24855);
  }

  lemma NotEntered(begin: PVector, end: PVector)
    requires begin == PVector(72.44, -7.93) && end == PVector(-7.56, 52.07)
    ensures forall p :: !EntersAt(p, begin, end, Circle(PVector(52.44, -7.07), 0.145))
    ensures forall p :: !EntersAt(p, begin, end, Circle(PVector(-52.44, 7.07), 0.145))
  {
    forall p
      ensures !EntersAt(p, begin, end, Circle(PVector(52.44, -7.07), 0.145))
      ensures !EntersAt(p, begin, end, Circle(PVector(-52.44, 7.07), 0.145))
    {
      PassesBy(p, begin, end);
    }
  }

  lemma PassesBy(p: PVector, begin: PVector, end: PVector)
    requires begin == PVector(72.44, -7.93) && end == PVector(-7.56, 52.07)
    ensures !EntersAt(p, begin, end, Circle(PVector(52.44, -7.07), 0.145))
    ensures !EntersAt(p, begin, end, Circle(PVector(-52.44, 7.07), 0.145))
  {
    if OnSegment(p, begin, end) {
      var t :| 0.0 <= t <= 1.0 && At(p, begin, end, t);
      AtIs(p, begin, end, t);
      OffTheOthers(p, t);
      hide PVector.R2;
    }
  }

  lemma OffTheOthers(p: PVector, t: real)
    requires 0.0 <= t <= 1.0 && p.x == 72.44 - 80.0 * t && p.y == -7.93 + 60.0 * t
    ensures p.Minus(PVector(52.44, -7.07)).R2() > 0.145 * 0.145
    ensures p.Minus(PVector(-52.44, 7.07)).R2() > 0.145 * 0.145
  {
    OutOfBox(p.Minus(PVector(-52.44, 7.07)), 0.145);
    if -0.145 <= p.x - 52.44 <= 0.145 { assert p.y + 7.07 > 0.145; }
    OutOfBox(p.Minus(PVector(52.44, -7.07)), 0.145);
  }
}
