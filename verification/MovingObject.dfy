/** One physics step of the ball or a player: MPObject::_inc (src/object.cpp). */
module MovingObject {
  import opened Plane
  import opened Collision
  import opened Areas
  import opened Numbers
  import opened Flight
  import opened Overlap
  import opened Bounces

  /** Scale v down to length max if it is longer. */
  function Clamp(m: Maths, v: PVector, max: real): PVector
    requires m.Roots() && max >= 0.0
  {
    var tmp := m.R(v);
    if tmp > max then v.Times(max / tmp) else v
  }

  /** The velocity before noise and wind. */
  function Accelerate(m: Maths, vel: PVector, accel: PVector, maxAccel: real, maxSpeed: real): PVector
    requires m.Roots() && maxAccel >= 0.0 && maxSpeed >= 0.0
  {
    if accel.x != 0.0 || accel.y != 0.0 then Clamp(m, vel.Plus(Clamp(m, accel, maxAccel)), maxSpeed) else vel
  }

  /** The last leg of the step, or None when one of the loops has not ended. */
  function LastLegOf(m: Maths, w: Setting, pos: PVector, vel: PVector, draws: nat -> real, fuel: nat): Option<Leg>
    requires m.Lawful() && w.size >= 0.0
  {
    match Uncover(m, w, pos, vel, draws, 0, fuel)
    case None => None
    case Some((p, v)) => Fly(m, w, Leg(p, p.Plus(v), v), fuel)
  }

  /** Both loops of the step end by themselves. */
  ghost predicate Halts(m: Maths, w: Setting, pos: PVector, vel: PVector, draws: nat -> real)
    requires m.Lawful() && w.size >= 0.0
  {
    exists fuel: nat :: LastLegOf(m, w, pos, vel, draws, fuel).Some?
  }

  /** The last leg of a step that ends: the one LastLegOf gives for any fuel that is
      enough. */
  ghost function LastLegIn(m: Maths, w: Setting, pos: PVector, vel: PVector, draws: nat -> real): Leg
    requires m.Lawful() && w.size >= 0.0 && Halts(m, w, pos, vel, draws)
  {
    var fuel: nat :| LastLegOf(m, w, pos, vel, draws, fuel).Some?;
    LastLegOf(m, w, pos, vel, draws, fuel).value
  }

  lemma LastLegMore(m: Maths, w: Setting, pos: PVector, vel: PVector, draws: nat -> real, n: nat, k: nat)
    requires m.Lawful() && w.size >= 0.0 && LastLegOf(m, w, pos, vel, draws, n).Some? && n <= k
    ensures LastLegOf(m, w, pos, vel, draws, k) == LastLegOf(m, w, pos, vel, draws, n)
  {
    hide Uncover, Fly;
    UncoverMore(m, w, pos, vel, draws, 0, n, k);
    var (p, v) := Uncover(m, w, pos, vel, draws, 0, n).value;
    FlyMore(m, w, Leg(p, p.Plus(v), v), n, k);
  }

  /** The bound on the turns of the loops has no influence on the outcome. */
  lemma FuelIrrelevant(m: Maths, w: Setting, pos: PVector, vel: PVector, draws: nat -> real, n: nat)
    requires m.Lawful() && w.size >= 0.0 && LastLegOf(m, w, pos, vel, draws, n).Some?
    ensures Halts(m, w, pos, vel, draws) && LastLegOf(m, w, pos, vel, draws, n) == Some(LastLegIn(m, w, pos, vel, draws))
  {
    hide LastLegOf;
    var k: nat :| LastLegOf(m, w, pos, vel, draws, k).Some? && LastLegIn(m, w, pos, vel, draws) == LastLegOf(m, w, pos, vel, draws, k).value;
    if n <= k { LastLegMore(m, w, pos, vel, draws, n, k); } else { LastLegMore(m, w, pos, vel, draws, k, n); }
  }

  lemma ClampLength(m: Maths, v: PVector, max: real)
    requires m.Roots() && max >= 0.0
    ensures m.R(Clamp(m, v, max)) == Min(m.R(v), max)
    ensures Clamp(m, v, max).Cross(v) == 0.0 && Clamp(m, v, max).Dot(v) >= 0.0
  {
    m.Root(v);
    if m.R(v) > max {
      Positive(max, m.R(v));
      ScaledLength(m, v, max / m.R(v));
      Quotient(max, m.R(v));
      Parallel(v, max / m.R(v));
    } else {
      Parallel(v, 1.0);
    }
  }

  lemma Parallel(v: PVector, k: real)
    requires k >= 0.0
    ensures v.Times(k).Cross(v) == 0.0 && v.Times(k).Dot(v) >= 0.0 && v.Times(1.0) == v
  {
    var a := Square(v.x);
    var b := Square(v.y);
    var p := Product(k, a);
    var q := Product(k, b);
    assert v.Times(k).Dot(v) == p + q;
  }

  /** The acceleration and speed limits hold whenever there is an acceleration. */
  lemma AccelerateBounded(m: Maths, vel: PVector, accel: PVector, maxAccel: real, maxSpeed: real)
    requires m.Roots() && maxAccel >= 0.0 && maxSpeed >= 0.0 && accel != ORIGIN
    ensures m.R(Accelerate(m, vel, accel, maxAccel, maxSpeed)) <= maxSpeed
    ensures m.R(Accelerate(m, vel, accel, maxAccel, maxSpeed)) <= m.R(vel) + maxAccel
  {
    assert accel == PVector(accel.x, accel.y);
    var a := Clamp(m, accel, maxAccel);
    ClampLength(m, accel, maxAccel);
    ClampLength(m, vel.Plus(a), maxSpeed);
    TriangleInequality(m, vel, a);
  }

  /** k is the factor that takes v down to length max, or 1 if it is no longer. */
  ghost predicate Limits(m: Maths, v: PVector, max: real, k: real) {
    k >= 0.0 && if m.R(v) <= max then k == 1.0 else k * m.R(v) == max
  }

  /** The velocity r comes from vel by adding the acceleration, both limited in length
      and kept in direction. */
  ghost predicate Launched(m: Maths, vel: PVector, accel: PVector, maxAccel: real, maxSpeed: real, r: PVector) {
    if accel == ORIGIN then r == vel
    else exists j: real, k: real ::
      && Limits(m, accel, maxAccel, j) && Limits(m, vel.Plus(accel.Times(j)), maxSpeed, k)
      && r == vel.Plus(accel.Times(j)).Times(k)
  }

  lemma ClampLimits(m: Maths, v: PVector, max: real) returns (k: real)
    requires m.Roots() && max >= 0.0
    ensures Limits(m, v, max, k) && Clamp(m, v, max) == v.Times(k)
  {
    m.Root(v);
    if m.R(v) > max {
      k := max / m.R(v);
      Positive(max, m.R(v));
      Quotient(max, m.R(v));
    } else {
      k := 1.0;
      Parallel(v, 1.0);
    }
  }

  /** Accelerating adds the acceleration. */
  lemma AcceleratesBy(m: Maths, vel: PVector, accel: PVector, maxAccel: real, maxSpeed: real)
    requires m.Roots() && maxAccel >= 0.0 && maxSpeed >= 0.0
    ensures Launched(m, vel, accel, maxAccel, maxSpeed, Accelerate(m, vel, accel, maxAccel, maxSpeed))
  {
    if accel.x == 0.0 && accel.y == 0.0 {
      assert accel == ORIGIN;
    } else {
      var j := ClampLimits(m, accel, maxAccel);
      var k := ClampLimits(m, vel.Plus(accel.Times(j)), maxSpeed);
    }
  }

  /** There is one launch velocity only, and within both limits it is the sum. */
  lemma LaunchedOnce(m: Maths, vel: PVector, accel: PVector, maxAccel: real, maxSpeed: real, r: PVector, r': PVector)
    requires m.Roots() && maxAccel >= 0.0 && maxSpeed >= 0.0
    requires Launched(m, vel, accel, maxAccel, maxSpeed, r) && Launched(m, vel, accel, maxAccel, maxSpeed, r')
    ensures r == r'
    ensures m.R(accel) <= maxAccel && m.R(vel.Plus(accel)) <= maxSpeed ==> r == vel.Plus(accel)
  {
    hide PVector.R2, PVector.Plus, Maths.R;
    Parallel(accel, 1.0);
    Parallel(vel.Plus(accel), 1.0);
    AddsNothing(vel);
    if accel != ORIGIN {
      var j, k :| Limits(m, accel, maxAccel, j) && Limits(m, vel.Plus(accel.Times(j)), maxSpeed, k)
        && r == vel.Plus(accel.Times(j)).Times(k);
      var j', k' :| Limits(m, accel, maxAccel, j') && Limits(m, vel.Plus(accel.Times(j')), maxSpeed, k')
        && r' == vel.Plus(accel.Times(j')).Times(k');
      OneLimit(m, accel, maxAccel, j, j');
      OneLimit(m, vel.Plus(accel.Times(j)), maxSpeed, k, k');
    }
  }

  lemma OneLimit(m: Maths, v: PVector, max: real, k: real, k': real)
    requires max >= 0.0 && Limits(m, v, max, k) && Limits(m, v, max, k')
    ensures k == k'
  {
    if m.R(v) > max { Cancel(k, k', m.R(v)); }
  }

  lemma AddsNothing(v: PVector)
    ensures v.Plus(ORIGIN) == v
  {
    assert v == PVector(v.x, v.y);
  }

  /** A step keeps the speed throughout, covers no more than the launch velocity on its
      last leg, and points the velocity along it. */
  lemma StepKeeps(m: Maths, w: Setting, pos: PVector, vel: PVector, draws: nat -> real)
    requires m.Lawful() && w.size >= 0.0 && Halts(m, w, pos, vel, draws)
    ensures var last := LastLegIn(m, w, pos, vel, draws);
            last.vel.R2() == vel.R2() && last.Rest().R2() <= vel.R2() && Heading(last)
  {
    hide PVector.R2;
    var fuel: nat :| LastLegOf(m, w, pos, vel, draws, fuel).Some?;
    FuelIrrelevant(m, w, pos, vel, draws, fuel);
    UncoverClears(m, w, pos, vel, draws, 0, fuel);
    var (p, v) := Uncover(m, w, pos, vel, draws, 0, fuel).value;
    StraightLeg(p, v);
    FlyKeeps(m, w, Leg(p, p.Plus(v), v), fuel);
  }

  /** With no post overlapped and none met in the way, the step goes straight on. */
  lemma FreeFlight(m: Maths, w: Setting, pos: PVector, vel: PVector, draws: nat -> real)
    requires m.Lawful() && w.size >= 0.0
    requires w.Clear(pos) && forall c, q :: !Meets(w, Leg(pos, pos.Plus(vel), vel), c, q)
    ensures Halts(m, w, pos, vel, draws) && LastLegIn(m, w, pos, vel, draws) == Leg(pos, pos.Plus(vel), vel)
  {
    var leg := Leg(pos, pos.Plus(vel), vel);
    RimReached(m, w, pos);
    PostIs(w, pos);
    HitExists(m, w, leg);
    var none: nat := 0;
    assert LastLegOf(m, w, pos, vel, draws, none) == Some(leg);
    FuelIrrelevant(m, w, pos, vel, draws, none);
  }

  /** Past the overlap loop an object travels exactly the length of its launch velocity,
      however often it bounces. */
  lemma StepTravels(m: Maths, w: Setting, pos: PVector, vel: PVector, draws: nat -> real, fuel: nat)
    requires m.Lawful() && w.size >= 0.0 && LastLegOf(m, w, pos, vel, draws, fuel).Some?
    ensures var (p, v) := Uncover(m, w, pos, vel, draws, 0, fuel).value;
            Travelled(m, w, Leg(p, p.Plus(v), v), fuel) == m.R(vel)
  {
    hide PVector.R2, Uncover, Fly, Travelled;
    UncoverClears(m, w, pos, vel, draws, 0, fuel);
    var (p, v) := Uncover(m, w, pos, vel, draws, 0, fuel).value;
    TravelsFully(m, w, Leg(p, p.Plus(v), v), fuel);
    StraightLeg(p, v);
  }

  // ----- where the step ends

  /** Growing an offset from length l arrives exactly at the rim. */
  ghost predicate ReachesRim(l: real, radius: real) {
    exists fuel: nat :: ArrivesAtRim(l, radius, fuel)
  }

  /** The length of the first offset from a distance l below EPS. */
  function ScaledBelow(l: real, r: real): real { l * r / EPS }

  /** Against an offset d of length l, the velocity is outward or slow. */
  predicate HeadsOut(vel: PVector, d: PVector, l: real, r: real) { vel.R2() * l < 2.0 * r * vel.Dot(d) }

  /** The step ends inside a post, told from what is known before the step: the
      position, the launch velocity and the angle that is drawn at the very centre of a
      post. An object that overlaps no post must start on the rim of the post it moves
      into. One that overlaps a post must be on its way out, or slow: the overlap loop
      turns its velocity round and puts it on the rim, where the way in is free. */
  ghost predicate EntersPost(m: Maths, w: Setting, pos: PVector, vel: PVector, draw: real)
    requires w.size >= 0.0
  {
    var d, r := pos.Minus(w.Post(pos).center), w.Radius();
    if m.R(d) >= r then FromTheRim(w, Leg(pos, pos.Plus(vel), vel))
    else if d == ORIGIN then HeadsOut(vel, m.FromPolar(1.0, draw), 1.0, r)
    else
      && HeadsOut(vel, d, m.R(d), r)
      && (m.R(d) >= EPS || ReachesRim(ScaledBelow(m.R(d), r), r))
  }

  lemma {:induction false} ArrivesMore(l: real, radius: real, n: nat, k: nat)
    requires ArrivesAtRim(l, radius, n) && n <= k
    ensures ArrivesAtRim(l, radius, k)
    decreases n
  {
    if l < radius { ArrivesMore(Lengthen(l), radius, n - 1, k - 1); }
  }

  lemma GrowReaches(m: Maths, v: PVector, radius: real, n: nat)
    requires m.Roots() && Grow(m, v, radius, n).Some?
    ensures m.R(Grow(m, v, radius, n).value) == radius <==> ReachesRim(m.R(v), radius)
  {
    hide Grow, ArrivesAtRim, Maths.R;
    GrowArrives(m, v, radius, n);
    if ReachesRim(m.R(v), radius) {
      var k: nat :| ArrivesAtRim(m.R(v), radius, k);
      var b: nat := if n < k then k else n;
      ArrivesMore(m.R(v), radius, k, b);
      GrowMore(m, v, radius, n, b);
      GrowArrives(m, v, radius, b);
    }
  }

  lemma PushedSquared(a: PVector, v: PVector)
    ensures a.Plus(v).R2() == a.R2() + 2.0 * v.Dot(a) + v.R2()
  {}

  /** From where the overlap loop has put an object, the way leads into a post exactly if
      it starts on the rim and the old velocity led outwards. */
  lemma PushedOntoRim(m: Maths, w: Setting, pos: PVector, vel: PVector, offset: PVector)
    requires m.Lawful() && w.Apart() && w.Radius() <= m.R(offset) <= 1.01 * w.Radius()
    ensures var (p, v) := PushedOut(m, w, pos, vel, offset);
            FromTheRim(w, Leg(p, p.Plus(v), v)) <==> m.R(offset) == w.Radius() && vel.R2() < 2.0 * vel.Dot(offset)
  {
    hide PVector.R2, PVector.Dot, PVector.Cross, Reflect, Maths.R;
    var c := w.Post(pos).center;
    var (p, v) := PushedOut(m, w, pos, vel, offset);
    FromCentre(c, offset, v);
    TurnedVelocity(m, vel, c.Minus(p), offset);
    PushedSquared(offset, v);
    m.Root(offset);
    OnRim(m, w, offset);
    BackToPost(w, p, p.Plus(v), c);
  }

  lemma FromCentre(c: PVector, offset: PVector, v: PVector)
    ensures c.Plus(offset).Minus(c) == offset && c.Plus(offset).Plus(v).Minus(c) == offset.Plus(v)
    ensures c.Minus(c.Plus(offset)) == offset.Neg()
  {}

  lemma TurnedVelocity(m: Maths, vel: PVector, axis: PVector, offset: PVector)
    requires m.Lawful() && axis == offset.Neg()
    ensures TurnBack(m, vel, axis).Dot(offset) == -vel.Dot(offset) && TurnBack(m, vel, axis).R2() == vel.R2()
  {
    hide PVector.R2, PVector.Dot, PVector.Cross, TurnBack;
    TurnBackKeeps(m, vel, axis);
    Negated(vel, offset);
    Negated(TurnBack(m, vel, axis), offset);
  }

  lemma Negated(u: PVector, v: PVector)
    ensures u.Dot(v.Neg()) == -u.Dot(v)
  {}

  /** Near a post, the post of a rim or of an inside is that post. */
  lemma BackToPost(w: Setting, p: PVector, q: PVector, c: PVector)
    requires w.Apart() && IsPost(w.goalWidth, c) && p.Minus(c).R2() <= 4.0 * (w.Radius() * w.Radius())
    ensures var c' := w.Post(q).center;
            (p.Minus(c').R2() == w.Radius() * w.Radius() > q.Minus(c').R2())
            <==> (p.Minus(c).R2() == w.Radius() * w.Radius() > q.Minus(c).R2())
  {
    hide PVector.R2, IsPost;
    var c' := w.Post(q).center;
    PostsClosest(w, q);
    if c' != c {
      FarFromOthers(w, p, c, c');
      if q.Minus(c).R2() < w.Radius() * w.Radius() { FarFromOthers(w, q, c, c'); }
    }
  }

  /** A grown offset that reaches the rim points from the centre to the old position. */
  lemma AlongOffset(m: Maths, d: PVector, offset: PVector, vel: PVector, k: real, r: real)
    requires m.Roots() && d != ORIGIN && k >= 0.0 && offset == d.Times(k) && m.R(offset) == r
    ensures vel.R2() < 2.0 * vel.Dot(offset) <==> HeadsOut(vel, d, m.R(d), r)
  {
    ScaledLength(m, d, k);
    m.Root(d);
    R2NonNeg(d);
    var l := m.R(d);
    PositiveRoot(l, d.R2());
    assert vel.Dot(offset) == k * vel.Dot(d);
    SameSide(vel.R2(), vel.Dot(d), k, l, r);
  }

  lemma PositiveRoot(l: real, q: real)
    requires l >= 0.0 && q > 0.0 && l * l == q
    ensures l > 0.0
  {
    ZeroTimes(l, l);
  }

  lemma ZeroTimes(a: real, b: real)
    ensures a == 0.0 ==> a * b == 0.0
  {}

  lemma SameSide(a: real, b: real, k: real, l: real, r: real)
    requires l > 0.0 && k * l == r
    ensures a < 2.0 * (k * b) <==> a * l < 2.0 * r * b
  {
    var x := 2.0 * (k * b) - a;
    assert 2.0 * r * b - a * l == x * l;
    if x > 0.0 { var p := Product(x, l); }
    if x <= 0.0 { var p := Product(-x, l); }
  }

  lemma OverlappingEnters(m: Maths, w: Setting, pos: PVector, vel: PVector, draw: real, n: nat)
    requires m.Lawful() && w.Apart() && m.R(pos.Minus(w.Post(pos).center)) < w.Radius()
    requires Grow(m, FirstOffset(m, pos, w.Post(pos), draw), w.Radius(), n).Some?
    ensures var offset := Grow(m, FirstOffset(m, pos, w.Post(pos), draw), w.Radius(), n).value;
            m.R(offset) == w.Radius() && vel.R2() < 2.0 * vel.Dot(offset) <==> EntersPost(m, w, pos, vel, draw)
  {
    hide PVector.R2, PVector.Dot, Maths.R, Grow, ReachesRim, Maths.FromPolar, Maths.Normalize, Setting.Radius, HeadsOut, ScaledBelow;
    var post := w.Post(pos);
    var d, r := pos.Minus(post.center), w.Radius();
    assert post.radius == r by { MPObject.RadiusOf(w, pos); }
    var first := FirstOffset(m, pos, post, draw);
    FirstLength(m, pos, post, draw);
    SamePoint(pos, post.center);
    if d == ORIGIN {
      AtRimAlready(m, first, r, n);
      UnitOffset(m, vel, r, draw);
    } else {
      assert first == m.Normalize(d, r);
      GrownRim(m, first, d, r, n);
      GrownAlong(m, d, r, vel, n);
    }
  }

  /** The grown offset of an object off the centre ends on the rim exactly if it started
      there or arrives there. */
  lemma GrownRim(m: Maths, first: PVector, d: PVector, r: real, n: nat)
    requires m.Roots() && Grow(m, first, r, n).Some?
    requires m.R(d) >= EPS ==> m.R(first) == r
    requires m.R(d) < EPS ==> m.R(first) * EPS == m.R(d) * r
    ensures m.R(Grow(m, first, r, n).value) == r <==> m.R(d) >= EPS || ReachesRim(ScaledBelow(m.R(d), r), r)
  {
    hide Maths.R, ReachesRim;
    if m.R(d) >= EPS {
      AtRimAlready(m, first, r, n);
    } else {
      GrowReaches(m, first, r, n);
      ShortOffset(m.R(first), m.R(d), r);
    }
  }

  lemma GrownAlong(m: Maths, d: PVector, r: real, vel: PVector, n: nat)
    requires m.Roots() && d != ORIGIN && r >= 0.0 && Grow(m, m.Normalize(d, r), r, n).Some?
    ensures var offset := Grow(m, m.Normalize(d, r), r, n).value;
            m.R(offset) == r ==> (vel.R2() < 2.0 * vel.Dot(offset) <==> HeadsOut(vel, d, m.R(d), r))
  {
    hide PVector.R2, PVector.Dot, Maths.R, Maths.Normalize, Grow;
    var first := m.Normalize(d, r);
    var offset := Grow(m, first, r, n).value;
    var j := NormalizeScales(m, d, r);
    var k := GrowScales(m, first, r, n);
    TimesTwice(d, j, k);
    var jk := Product(j, k);
    if m.R(offset) == r { AlongOffset(m, d, offset, vel, jk, r); }
  }

  lemma SamePoint(a: PVector, b: PVector)
    ensures a.Minus(b) == ORIGIN <==> a == b
  {
    assert a == PVector(a.x, a.y) && b == PVector(b.x, b.y);
  }

  lemma ShortOffset(l: real, d: real, r: real)
    requires l * EPS == d * r
    ensures l == ScaledBelow(d, r)
  {
    var q := d * r / EPS;
    assert q * EPS == d * r;
    Cancel(l, q, EPS);
  }

  lemma AtRimAlready(m: Maths, v: PVector, r: real, n: nat)
    requires m.R(v) == r
    ensures Grow(m, v, r, n) == Some(v)
  {}

  lemma UnitOffset(m: Maths, vel: PVector, r: real, draw: real)
    ensures vel.R2() < 2.0 * vel.Dot(m.FromPolar(r, draw)) <==> HeadsOut(vel, m.FromPolar(1.0, draw), 1.0, r)
  {
    var c, s := m.cos(draw), m.sin(draw);
    assert vel.Dot(m.FromPolar(r, draw)) == r * (vel.x * c + vel.y * s);
  }

  /** A step ends outside all the goal posts exactly when it does not enter a post in the
      sense of the position, velocity and draw it starts with. */
  lemma StepSafe(m: Maths, w: Setting, pos: PVector, vel: PVector, draws: nat -> real)
    requires m.Lawful() && m.cos(180.0) < 0.0 && w.Apart() && Halts(m, w, pos, vel, draws)
    ensures w.Clear(LastLegIn(m, w, pos, vel, draws).newPos) <==> !EntersPost(m, w, pos, vel, draws(0))
  {
    hide PVector.R2, PVector.Dot, Maths.R, Uncover, Fly, Grow, FirstOffset, EntersPost, FromTheRim, PushedOut;
    var fuel: nat :| LastLegOf(m, w, pos, vel, draws, fuel).Some?;
    FuelIrrelevant(m, w, pos, vel, draws, fuel);
    UncoverClears(m, w, pos, vel, draws, 0, fuel);
    var (p, v) := Uncover(m, w, pos, vel, draws, 0, fuel).value;
    FlyEndsClear(m, w, Leg(p, p.Plus(v), v), fuel);
    LaunchEnters(m, w, pos, vel, draws, fuel);
  }

  lemma LaunchEnters(m: Maths, w: Setting, pos: PVector, vel: PVector, draws: nat -> real, n: nat)
    requires m.Lawful() && w.Apart() && Uncover(m, w, pos, vel, draws, 0, n).Some?
    ensures var (p, v) := Uncover(m, w, pos, vel, draws, 0, n).value;
            FromTheRim(w, Leg(p, p.Plus(v), v)) <==> EntersPost(m, w, pos, vel, draws(0))
  {
    hide PVector.R2, PVector.Dot, Maths.R, Grow, FirstOffset, FromTheRim, PushedOut;
    var post := w.Post(pos);
    assert post.radius == w.Radius();
    if m.R(pos.Minus(post.center)) < post.radius {
      SingleTurn(m, w, pos, vel, draws, 0, n);
      var offset := Grow(m, FirstOffset(m, pos, post, draws(0)), w.Radius(), n).value;
      PushedOntoRim(m, w, pos, vel, offset);
      OverlappingEnters(m, w, pos, vel, draws(0), n);
    }
  }

  /** The step ends exactly for the separable positions, whatever the velocity and the
      random angles: only the growth of the overlap loop can run for ever. */
  lemma StepEnds(m: Maths, w: Setting, pos: PVector, vel: PVector, draws: nat -> real)
    requires m.Lawful() && m.cos(180.0) < 0.0 && w.Apart()
    ensures Halts(m, w, pos, vel, draws) <==> Separable(m, w, pos)
  {
    hide PVector.R2, Uncover, Fly, Separable, AtMostOneTurn;
    UncoverEndsExactly(m, w, pos, vel, draws, 0);
    HaltsUncovered(m, w, pos, vel, draws);
    hide Halts, LastLegOf;
    if Separable(m, w, pos) {
      var n: nat :| Uncover(m, w, pos, vel, draws, 0, n).Some?;
      BoundedPath(w, m, vel);
      var k := Enough(m.R(vel), Gap(w));
      LongEnough(m, w, pos, vel, draws, n, k);
    }
  }

  lemma HaltsUncovered(m: Maths, w: Setting, pos: PVector, vel: PVector, draws: nat -> real)
    requires m.Lawful() && w.size >= 0.0
    ensures Halts(m, w, pos, vel, draws) ==> exists n: nat :: Uncover(m, w, pos, vel, draws, 0, n).Some?
  {
    hide Uncover, Fly;
    if Halts(m, w, pos, vel, draws) {
      var n: nat :| LastLegOf(m, w, pos, vel, draws, n).Some?;
      assert Uncover(m, w, pos, vel, draws, 0, n).Some?;
    }
  }

  lemma BoundedPath(w: Setting, m: Maths, vel: PVector)
    requires w.Apart() && m.Roots()
    ensures Gap(w) > 0.0 && m.R(vel) >= 0.0
  {
    m.Root(vel);
  }

  lemma LongEnough(m: Maths, w: Setting, pos: PVector, vel: PVector, draws: nat -> real, n: nat, k: nat)
    requires m.Lawful() && m.cos(180.0) < 0.0 && w.Apart()
    requires Uncover(m, w, pos, vel, draws, 0, n).Some? && m.R(vel) <= k as real * Gap(w) && Gap(w) > 0.0
    ensures Halts(m, w, pos, vel, draws)
  {
    hide PVector.R2, Uncover, Fly, Gap;
    UncoverClears(m, w, pos, vel, draws, 0, n);
    var (p, v) := Uncover(m, w, pos, vel, draws, 0, n).value;
    StraightLeg(p, v);
    assert (k + 1) as real * Gap(w) == k as real * Gap(w) + Gap(w);
    FlyEnds(m, w, Leg(p, p.Plus(v), v), k);
    var b: nat := if n < k + 1 then k + 1 else n;
    FlyMore(m, w, Leg(p, p.Plus(v), v), k + 1, b);
    UncoverMore(m, w, pos, vel, draws, 0, n, b);
    assert LastLegOf(m, w, pos, vel, draws, b).Some?;
  }

  /** The step ends from the centre of a post and from anywhere not as near to it as
      10^-18: for all positions that numbers of type double can tell apart there. */
  lemma StepEndsFarEnough(m: Maths, w: Setting, pos: PVector, vel: PVector, draws: nat -> real)
    requires m.Lawful() && m.cos(180.0) < 0.0 && w.Apart()
    requires pos == w.Post(pos).center || m.R(pos.Minus(w.Post(pos).center)) >= 0.000000000000000001
    ensures Halts(m, w, pos, vel, draws)
  {
    FarEnough(m, w, pos);
    StepEnds(m, w, pos, vel, draws);
  }

  // ----- two steps that end inside a post

  /** The ball near the post at (52.44, 7.07): the offset of a position from that post. */
  lemma BallAtPost(m: Maths, pos: PVector, d: PVector, r: real)
    requires m.Lawful() && 0.0 < d.x < 1.0 && d.y == 0.0 && d.x == r
    requires pos == PVector(52.44 + d.x, 7.07)
    ensures var w := Setting(14.02, 0.085);
            && w.Apart() && w.Radius() == 0.145 && w.Post(pos).center == PVector(52.44, 7.07)
            && pos.Minus(w.Post(pos).center) == d && m.R(d) == r
  {
    assert d == PVector(r, 0.0);
    assert pos.Minus(PVector(52.44, 7.07)) == PVector(r, 0.0);
    RootUnique(m, d, r);
  }

  /** The ball, on the rim of that post and moving straight in. */
  lemma RimStart(m: Maths, draws: nat -> real)
    requires m.Lawful() && m.cos(180.0) < 0.0
    ensures var w, pos, vel := Setting(14.02, 0.085), PVector(52.44 + 0.145, 7.07), PVector(-0.1, 0.0);
            && w.Clear(pos) && Halts(m, w, pos, vel, draws)
            && !w.Clear(LastLegIn(m, w, pos, vel, draws).newPos)
  {
    var w, pos, vel := Setting(14.02, 0.085), PVector(52.44 + 0.145, 7.07), PVector(-0.1, 0.0);
    BallAtPost(m, pos, PVector(0.145, 0.0), 0.145);
    MovesIn(w, pos, vel);
    hide PVector.R2, Maths.R, FromTheRim, Halts, LastLegIn;
    StepEndsFarEnough(m, w, pos, vel, draws);
    StepSafe(m, w, pos, vel, draws);
  }

  lemma MovesIn(w: Setting, pos: PVector, vel: PVector)
    requires w == Setting(14.02, 0.085) && pos == PVector(52.44 + 0.145, 7.07) && vel == PVector(-0.1, 0.0)
    ensures FromTheRim(w, Leg(pos, pos.Plus(vel), vel)) && w.Clear(pos)
  {
    var c := PVector(52.44, 7.07);
    assert w.Post(pos).center == c && w.Post(pos.Plus(vel)).center == c;
    assert pos.Minus(c) == PVector(0.145, 0.0) && pos.Plus(vel).Minus(c) == PVector(0.045, 0.0);
    assert PVector(0.145, 0.0).R2() == 0.145 * 0.145 && PVector(0.045, 0.0).R2() == 0.045 * 0.045;
    hide PVector.R2;
    PostsClosest(w, pos);
  }

  /** The ball, overlapping the same post and moving straight out of it. */
  lemma OverlappingStart(m: Maths, draws: nat -> real)
    requires m.Lawful() && m.cos(180.0) < 0.0
    ensures var w, pos, vel := Setting(14.02, 0.085), PVector(52.44 + 0.1, 7.07), PVector(0.1, 0.0);
            Halts(m, w, pos, vel, draws) && !w.Clear(LastLegIn(m, w, pos, vel, draws).newPos)
  {
    var w, pos, vel, d := Setting(14.02, 0.085), PVector(52.44 + 0.1, 7.07), PVector(0.1, 0.0), PVector(0.1, 0.0);
    BallAtPost(m, pos, d, 0.1);
    assert vel.R2() == 0.01 && vel.Dot(d) == 0.01;
    hide PVector.R2, PVector.Dot, Maths.R, Halts, LastLegIn, NearestPost;
    assert EntersPost(m, w, pos, vel, draws(0));
    StepEndsFarEnough(m, w, pos, vel, draws);
    StepSafe(m, w, pos, vel, draws);
  }

  lemma StraightLeg(p: PVector, v: PVector)
    ensures Leg(p, p.Plus(v), v).Rest() == v && Heading(Leg(p, p.Plus(v), v))
  {
    assert p.Plus(v).Minus(p) == v;
    R2NonNeg(v);
  }

  /** A player. The ball is the same object without angles and without the mark of a
      collision, for it has empty overrides of the two calls that set them. */
  class MPObject {
    var pos: PVector
    var vel: PVector
    var accel: PVector
    var angleBody: real
    var angleNeck: real
    var angleBodyCommitted: real
    var angleNeckCommitted: real
    var postCollide: bool
    const size: real
    const decay: real

    constructor (pos: PVector, size: real, decay: real)
      ensures this.pos == pos && this.size == size && this.decay == decay
      ensures vel == accel == ORIGIN && !postCollide
      ensures angleBody == angleNeck == angleBodyCommitted == angleNeckCommitted == 0.0
    {
      this.pos, this.size, this.decay := pos, size, decay;
      vel, accel, postCollide := ORIGIN, ORIGIN, false;
      angleBody, angleNeck, angleBodyCommitted, angleNeckCommitted := 0.0, 0.0, 0.0, 0.0;
    }

    /** The first statements of the step. */
    method LimitVelocity(m: Maths, maxAccel: real, maxSpeed: real)
      requires m.Roots() && maxAccel >= 0.0 && maxSpeed >= 0.0
      modifies this`vel, this`accel
      ensures vel == Accelerate(m, old(vel), old(accel), maxAccel, maxSpeed)
      ensures Launched(m, old(vel), old(accel), maxAccel, maxSpeed, vel)
      ensures accel == Clamp(m, old(accel), maxAccel) || accel == old(accel) == ORIGIN
    {
      AcceleratesBy(m, vel, accel, maxAccel, maxSpeed);
      if accel.x != 0.0 || accel.y != 0.0 {
        var tmp := m.R(accel);
        if tmp > maxAccel { accel := accel.Times(maxAccel / tmp); }
        vel := vel.Plus(accel);
        tmp := m.R(vel);
        if tmp > maxSpeed { vel := vel.Times(maxSpeed / tmp); }
      }
    }

    method UpdateAngle()
      modifies this`angleBodyCommitted, this`angleNeckCommitted
      ensures angleBodyCommitted == angleBody && angleNeckCommitted == angleNeck
    {
      angleBodyCommitted := angleBody;
      angleNeckCommitted := angleNeck;
    }

    method CollidedWithPost()
      modifies this`postCollide
      ensures postCollide
    {
      postCollide := true;
    }

    /** Put the object on the rim of the post, or a little further out. */
    method StepOut(m: Maths, post: CArea, draw: real, ghost fuel: nat)
      requires Grow(m, FirstOffset(m, pos, post, draw), post.radius, fuel).Some?
      modifies this`pos
      ensures pos == post.center.Plus(Grow(m, FirstOffset(m, old(pos), post, draw), post.radius, fuel).value)
    {
      hide PVector.R2, Maths.R, Maths.FromPolar, Maths.Normalize;
      var diff := pos.Minus(post.center);
      if diff == ORIGIN {
        diff := m.FromPolar(post.radius, draw);
      } else {
        diff := m.Normalize(diff, post.radius);
      }
      ghost var first := diff;
      pos := post.center.Plus(diff);
      Back(post.center, diff);
      ghost var k := fuel;
      while m.R(pos.Minus(post.center)) < post.radius
        invariant pos == post.center.Plus(diff) && pos.Minus(post.center) == diff
        invariant Grow(m, diff, post.radius, k).Some?
        invariant Grow(m, diff, post.radius, k) == Grow(m, first, post.radius, fuel)
        decreases k
      {
        diff := m.Normalize(diff, m.R(diff) * 1.01);
        pos := post.center.Plus(diff);
        Back(post.center, diff);
        k := k - 1;
      }
    }

    /** The overlap loop. */
    method LeavePosts(m: Maths, w: Setting, draws: nat -> real, ghost fuel: nat)
      requires m.Lawful() && w.size >= 0.0 && Uncover(m, w, pos, vel, draws, 0, fuel).Some?
      modifies this`pos, this`vel, this`postCollide
      ensures Uncover(m, w, old(pos), old(vel), draws, 0, fuel) == Some((pos, vel))
      ensures postCollide <==> old(postCollide) || m.R(old(pos).Minus(w.Post(old(pos)).center)) < w.Radius()
    {
      hide PVector.R2, Maths.R, TurnBack, Setting.Post, Grow, FirstOffset;
      RadiusOf(w, pos);
      var post := w.Post(pos);
      ghost var overlaps := m.R(pos.Minus(post.center)) < post.radius;
      var turn := 0;
      ghost var n := fuel;
      hide Uncover;
      while m.R(pos.Minus(post.center)) < post.radius
        invariant turn >= 0 && post == w.Post(pos)
        invariant Uncover(m, w, pos, vel, draws, turn, n).Some?
        invariant Uncover(m, w, pos, vel, draws, turn, n) == Uncover(m, w, old(pos), old(vel), draws, 0, fuel)
        invariant turn == 0 ==> pos == old(pos) && postCollide == old(postCollide)
        invariant turn > 0 ==> postCollide && overlaps
        decreases n
      {
        UncoverStep(m, w, pos, vel, draws, turn, n);
        StepOut(m, post, draws(turn), n);
        TurnVelocity(m, post.center.Minus(pos));
        post := w.Post(pos);
        CollidedWithPost();
        turn := turn + 1;
        n := n - 1;
      }
      UncoverStep(m, w, pos, vel, draws, turn, n);
    }

    method TurnVelocity(m: Maths, axis: PVector)
      modifies this`vel
      ensures vel == TurnBack(m, old(vel), axis)
    {
      if vel.x != 0.0 || vel.y != 0.0 { vel := Mirrored(m, vel, axis); }
    }

    /** One turn of the overlap loop that ends in time, and its end. */
    static lemma UncoverStep(m: Maths, w: Setting, pos: PVector, vel: PVector, draws: nat -> real, turn: nat, n: nat)
      requires w.size >= 0.0 && Uncover(m, w, pos, vel, draws, turn, n).Some?
      ensures var post := w.Post(pos);
              if m.R(pos.Minus(post.center)) >= post.radius then Uncover(m, w, pos, vel, draws, turn, n) == Some((pos, vel))
              else
                var grown := Grow(m, FirstOffset(m, pos, post, draws(turn)), post.radius, n);
                && n > 0 && grown.Some?
                && var p := post.center.Plus(grown.value);
                   Uncover(m, w, pos, vel, draws, turn, n)
                   == Uncover(m, w, p, TurnBack(m, vel, post.center.Minus(p)), draws, turn + 1, n - 1)
    {}

    static lemma RadiusOf(w: Setting, pos: PVector)
      requires w.size >= 0.0
      ensures w.Post(pos).radius == w.Radius()
    {}

    /** The three statements that turn a vector round at a post. */
    static method Mirrored(m: Maths, v: PVector, axis: PVector) returns (u: PVector)
      ensures u == Reflect(m, v, axis)
    {
      u := m.Rotate(v, -m.Th(axis));
      u := PVector(-u.x, u.y);
      u := m.Rotate(u, m.Th(axis));
    }

    static lemma Back(c: PVector, d: PVector)
      ensures c.Plus(d).Minus(c) == d
    {}

    /** The bounce loop. */
    method BounceOffPosts(m: Maths, w: Setting, ghost fuel: nat) returns (newPos: PVector)
      requires m.Lawful() && w.size >= 0.0 && Fly(m, w, Leg(pos, pos.Plus(vel), vel), fuel).Some?
      modifies this`pos, this`vel, this`postCollide
      ensures Fly(m, w, Leg(old(pos), old(pos).Plus(old(vel)), old(vel)), fuel) == Some(Leg(pos, newPos, vel))
      ensures postCollide <==> old(postCollide) || HitOf(m, w, Leg(old(pos), old(pos).Plus(old(vel)), old(vel))).Some?
    {
      hide PVector.R2, Maths.R, Maths.FromPolar, HitOf, Reflect;
      newPos := pos.Plus(vel);
      ghost var first := Leg(pos, newPos, vel);
      var hit := HitOf(m, w, Leg(pos, newPos, vel));
      ghost var n := fuel;
      while hit.Some?
        invariant hit == HitOf(m, w, Leg(pos, newPos, vel)) && 0 <= n <= fuel
        invariant Fly(m, w, Leg(pos, newPos, vel), n).Some?
        invariant Fly(m, w, Leg(pos, newPos, vel), n) == Fly(m, w, first, fuel)
        invariant n == fuel ==> Leg(pos, newPos, vel) == first && postCollide == old(postCollide)
        invariant n < fuel ==> postCollide && HitOf(m, w, first).Some?
        decreases n
      {
        assert n > 0;
        var (inter, center) := hit.value;
        pos := inter;
        var rem := newPos.Minus(pos);
        var coll2circle := center.Minus(pos);
        pos := pos.Plus(m.FromPolar(EPS, m.Th(coll2circle) + 180.0));
        rem := Mirrored(m, rem, coll2circle);
        newPos := pos.Plus(rem);
        vel := m.FromPolar(m.R(vel), m.Th(rem));
        CollidedWithPost();
        hit := HitOf(m, w, Leg(pos, newPos, vel));
        n := n - 1;
      }
    }

    /** One step, for every start from which the loops of the source end. */
    method Inc(m: Maths, goalWidth: real, maxAccel: real, maxSpeed: real, noise: PVector, wind: PVector, draws: nat -> real)
      requires m.Lawful() && maxAccel >= 0.0 && maxSpeed >= 0.0 && size >= 0.0
      requires Halts(m, Setting(goalWidth, size), pos,
                     Accelerate(m, vel, accel, maxAccel, maxSpeed).Plus(noise).Plus(wind), draws)
      modifies this
      ensures var w := Setting(goalWidth, size);
              var launch := Accelerate(m, old(vel), old(accel), maxAccel, maxSpeed).Plus(noise).Plus(wind);
              var last := LastLegIn(m, w, old(pos), launch, draws);
              && Launched(m, old(vel), old(accel), maxAccel, maxSpeed, Accelerate(m, old(vel), old(accel), maxAccel, maxSpeed))
              && pos == last.newPos && vel == last.vel.Times(decay) && accel == ORIGIN
              && vel.R2() == decay * decay * launch.R2()
              && (postCollide <==>
                    || old(postCollide)
                    || m.R(old(pos).Minus(w.Post(old(pos)).center)) < w.Radius()
                    || HitOf(m, w, Leg(old(pos), old(pos).Plus(launch), launch)).Some?)
      ensures angleBody == old(angleBody) == angleBodyCommitted && angleNeck == old(angleNeck) == angleNeckCommitted
    {
      hide PVector.R2, Uncover, Fly, HitOf, Accelerate, Maths.R, Setting.Post;
      var w := Setting(goalWidth, size);
      hide Launched;
      LimitVelocity(m, maxAccel, maxSpeed);
      UpdateAngle();
      vel := vel.Plus(noise);
      vel := vel.Plus(wind);
      ghost var start, launch := pos, vel;
      ghost var fuel: nat :| LastLegOf(m, w, start, launch, draws, fuel).Some?;
      FuelIrrelevant(m, w, start, launch, draws, fuel);
      LastLegParts(m, w, start, launch, draws, fuel);
      hide LastLegOf, LastLegIn, Halts;
      RadiusOf(w, start);
      StaysPut(m, w, start, launch, draws, fuel);
      LeavePosts(m, w, draws, fuel);
      var newPos := BounceOffPosts(m, w, fuel);
      pos := newPos;
      ghost var flown := vel;
      vel := vel.Times(decay);
      accel := accel.Times(0.0);
      Scaled(flown, decay);
      StepKeeps(m, w, start, launch, draws);
    }

    static lemma LastLegParts(m: Maths, w: Setting, pos: PVector, vel: PVector, draws: nat -> real, fuel: nat)
      requires m.Lawful() && w.size >= 0.0 && LastLegOf(m, w, pos, vel, draws, fuel).Some?
      ensures Uncover(m, w, pos, vel, draws, 0, fuel).Some?
      ensures var (p, v) := Uncover(m, w, pos, vel, draws, 0, fuel).value;
              Fly(m, w, Leg(p, p.Plus(v), v), fuel) == LastLegOf(m, w, pos, vel, draws, fuel)
    {}

    static lemma StaysPut(m: Maths, w: Setting, pos: PVector, vel: PVector, draws: nat -> real, fuel: nat)
      requires w.size >= 0.0
      ensures m.R(pos.Minus(w.Post(pos).center)) >= w.Post(pos).radius ==> Uncover(m, w, pos, vel, draws, 0, fuel) == Some((pos, vel))
    {}
  }
}
