/** Moving an object out of a goal post it overlaps: the specification of the first
    loop of MPObject::_inc (src/object.cpp). */
module Overlap {
  import opened Plane
  import opened Numbers
  import opened Collision
  import opened Areas
  import opened Flight

  /** The inner loop: lengthen the offset by one per cent until it reaches the rim.
      The length it aims for is divided by at least EPS. */
  function Grow(m: Maths, diff: PVector, radius: real, fuel: nat): Option<PVector>
    decreases fuel
  {
    if m.R(diff) >= radius then Some(diff)
    else if fuel == 0 then None
    else Grow(m, m.Normalize(diff, m.R(diff) * 1.01), radius, fuel - 1)
  }

  /** The offset the inner loop starts from; draw is the random angle. */
  function FirstOffset(m: Maths, pos: PVector, post: CArea, draw: real): PVector {
    var diff := pos.Minus(post.center);
    if diff == ORIGIN then m.FromPolar(post.radius, draw) else m.Normalize(diff, post.radius)
  }

  function TurnBack(m: Maths, vel: PVector, axis: PVector): PVector {
    if vel.x != 0.0 || vel.y != 0.0 then Reflect(m, vel, axis) else vel
  }

  /** The overlap loop, cut off after fuel turns of either loop; None when it is
      still running. Turn number i uses draws(i) if it needs a random angle. */
  function Uncover(m: Maths, w: Setting, pos: PVector, vel: PVector, draws: nat -> real, turn: nat, fuel: nat): Option<(PVector, PVector)>
    requires w.size >= 0.0
    decreases fuel
  {
    var post := w.Post(pos);
    if m.R(pos.Minus(post.center)) >= post.radius then Some((pos, vel))
    else if fuel == 0 then None
    else
      match Grow(m, FirstOffset(m, pos, post, draws(turn)), post.radius, fuel)
      case None => None
      case Some(diff) =>
        var p := post.center.Plus(diff);
        Uncover(m, w, p, TurnBack(m, vel, post.center.Minus(p)), draws, turn + 1, fuel - 1)
  }

  // ----- exit

  lemma RimReached(m: Maths, w: Setting, pos: PVector)
    requires m.Roots() && w.size >= 0.0
    ensures m.R(pos.Minus(w.Post(pos).center)) >= w.Post(pos).radius
       <==> pos.Minus(w.Post(pos).center).R2() >= w.Radius() * w.Radius()
  {
    var v, r := pos.Minus(w.Post(pos).center), w.Radius();
    assert w.Post(pos).radius == r;
    m.Root(v);
    if m.R(v) >= r { Ordered(r, m.R(v)); }
    if v.R2() >= r * r { SquareOrder(r, m.R(v)); }
  }

  /** When the overlap loop ends, the object is outside all four posts, not only the
      one last looked at, and has kept its speed. */
  lemma {:induction false} UncoverClears(m: Maths, w: Setting, pos: PVector, vel: PVector, draws: nat -> real, turn: nat, fuel: nat)
    requires m.Lawful() && w.size >= 0.0
    ensures var r := Uncover(m, w, pos, vel, draws, turn, fuel);
            && (r.Some? ==> r.value.1.R2() == vel.R2())
            && (r.Some? && PostY(w.goalWidth) >= 0.0 ==> w.Clear(r.value.0))
    decreases fuel
  {
    hide PVector.R2, PVector.Dot, PVector.Cross, TurnBack, FirstOffset;
    var post := w.Post(pos);
    if m.R(pos.Minus(post.center)) >= post.radius {
      RimReached(m, w, pos);
      if PostY(w.goalWidth) >= 0.0 { NearestIsEnough(w, pos); }
    } else if fuel > 0 {
      var grown := Grow(m, FirstOffset(m, pos, post, draws(turn)), post.radius, fuel);
      if grown.Some? {
        var p := post.center.Plus(grown.value);
        TurnBackKeeps(m, vel, post.center.Minus(p));
        UncoverClears(m, w, p, TurnBack(m, vel, post.center.Minus(p)), draws, turn + 1, fuel - 1);
      }
    }
  }

  /** The overlap loop mirrors the velocity in the tangent of the post. */
  lemma TurnBackKeeps(m: Maths, vel: PVector, axis: PVector)
    requires m.Lawful()
    ensures TurnBack(m, vel, axis).R2() == vel.R2()
    ensures TurnBack(m, vel, axis).Dot(axis) == -vel.Dot(axis) && TurnBack(m, vel, axis).Cross(axis) == vel.Cross(axis)
  {
    hide PVector.R2, PVector.Dot, PVector.Cross, Reflect;
    ReflectIsMirror(m, vel, axis);
    StandsStill(vel, axis);
  }

  lemma StandsStill(u: PVector, v: PVector)
    ensures u.x == 0.0 && u.y == 0.0 ==> u.Dot(v) == 0.0 && u.Cross(v) == 0.0
  {}

  lemma NearestIsEnough(w: Setting, pos: PVector)
    requires w.size >= 0.0 && PostY(w.goalWidth) >= 0.0
    ensures w.Clear(pos) <==> pos.Minus(w.Post(pos).center).R2() >= w.Radius() * w.Radius()
  {
    NearestPostIsClosest(w.goalWidth, w.size);
    assert ClosestPost(w.goalWidth, pos, w.Post(pos).center);
  }

  // ----- termination

  /** How far out of the post the first offset reaches decides whether the growth
      of the inner loop gets anywhere. */
  lemma NormalizedLength(m: Maths, v: PVector, l: real)
    requires m.Roots() && l >= 0.0
    ensures m.R(v) >= EPS ==> m.R(m.Normalize(v, l)) == l
    ensures m.R(v) < EPS ==> m.R(m.Normalize(v, l)) * EPS == m.R(v) * l
  {
    m.Root(v);
    var r := m.R(v);
    var d := if r < EPS then EPS else r;
    Positive(l, d);
    ScaledLength(m, v, l / d);
    Quotient(l, d);
    assert (l / d * r) * d == l * r;
    if r >= EPS { Cancel(l / d * r, l, r); }
  }

  lemma Positive(l: real, d: real)
    requires l >= 0.0 && d > 0.0
    ensures l / d >= 0.0
  {
    var q := l / d;
    assert q * d == l;
    if q < 0.0 { var p := Product(-q, d); }
  }

  function Gain(least: real): real {
    if least < EPS then 0.99 * (1.01 * least - EPS) else 0.01 * EPS
  }

  /** One turn of the inner loop: at least a constant gain. */
  lemma GrowthStep(m: Maths, diff: PVector, least: real)
    requires m.Roots() && EPS < 1.01 * least && least <= m.R(diff)
    ensures m.R(m.Normalize(diff, m.R(diff) * 1.01)) >= m.R(diff) + Gain(least)
  {
    m.Root(diff);
    var r := m.R(diff);
    NormalizedLength(m, diff, r * 1.01);
    if r < EPS {
      GainBelow(r, m.R(m.Normalize(diff, r * 1.01)), least);
    }
  }

  lemma GainBelow(r: real, r': real, least: real)
    requires EPS < 1.01 * least && least <= r < EPS && r' * EPS == r * (r * 1.01)
    ensures r' >= r + 0.99 * (1.01 * least - EPS)
  {
    var p := Product(r, 1.01 * r - 1.01 * least);
    var q := Product(r - 0.99 * EPS, 1.01 * least - EPS);
  }

  lemma {:induction false} GrowEnds(m: Maths, diff: PVector, radius: real, least: real, n: nat)
    requires m.Roots() && EPS < 1.01 * least && least <= m.R(diff)
    requires m.R(diff) + n as real * Gain(least) >= radius
    ensures Grow(m, diff, radius, n).Some?
    decreases n
  {
    if m.R(diff) < radius {
      GrowthStep(m, diff, least);
      GrowEnds(m, m.Normalize(diff, m.R(diff) * 1.01), radius, least, n - 1);
    }
  }

  /** At or below EPS / 1.01 the offset does not get longer. */
  lemma {:induction false} GrowStuck(m: Maths, diff: PVector, radius: real, n: nat)
    requires m.Roots() && 1.01 * m.R(diff) <= EPS && m.R(diff) < radius
    ensures Grow(m, diff, radius, n).None?
    decreases n
  {
    if n == 0 {
    } else {
      m.Root(diff);
      var r := m.R(diff);
      NormalizedLength(m, diff, r * 1.01);
      var p := Product(r, EPS - 1.01 * r);
      NotLonger(m.R(m.Normalize(diff, r * 1.01)), r, EPS);
      GrowStuck(m, m.Normalize(diff, r * 1.01), radius, n - 1);
    }
  }

  lemma NotLonger(d: real, l: real, e: real)
    requires e > 0.0 && d * e <= l * e
    ensures d <= l
  {
    if d > l { var p := Product(d - l, e); }
  }

  /** The inner loop ends for some number of turns exactly when it starts on the rim
      or above EPS / 1.01. */
  lemma GrowEndsExactly(m: Maths, diff: PVector, radius: real)
    requires m.Roots()
    ensures (exists n: nat :: Grow(m, diff, radius, n).Some?) <==> m.R(diff) >= radius || 1.01 * m.R(diff) > EPS
  {
    m.Root(diff);
    if m.R(diff) >= radius {
      assert Grow(m, diff, radius, 0).Some?;
    } else if 1.01 * m.R(diff) > EPS {
      var least := m.R(diff);
      var n := Enough(radius, Gain(least));
      GrowEnds(m, diff, radius, least, n);
    } else {
      forall n: nat ensures Grow(m, diff, radius, n).None? { GrowStuck(m, diff, radius, n); }
    }
  }

  lemma Enough(x: real, step: real) returns (n: nat)
    requires step > 0.0
    ensures n as real * step >= x
  {
    if x <= 0.0 {
      n := 0;
    } else {
      var q := x / step;
      Positive(x, step);
      n := q.Floor + 1;
      assert q * step == x;
      var p := Product(n as real - q, step);
    }
  }

  lemma BelowFull(r: real, l: real)
    requires 0.0 <= r < EPS && l * EPS == r * (r * 1.01)
    ensures l <= 1.01 * r
  {
    var p := Product(1.01 * r, EPS - r);
    NotLonger(l, 1.01 * r, EPS);
  }

  lemma {:induction false} GrowLength(m: Maths, diff: PVector, radius: real, n: nat)
    requires m.Roots() && m.R(diff) <= 1.01 * radius
    ensures var r := Grow(m, diff, radius, n); r.Some? ==> radius <= m.R(r.value) <= 1.01 * radius
    decreases n
  {
    hide PVector.R2, Maths.R, Maths.Normalize;
    if m.R(diff) < radius && n > 0 {
      m.Root(diff);
      var r := m.R(diff);
      NormalizedLength(m, diff, r * 1.01);
      if r < EPS { BelowFull(r, m.R(m.Normalize(diff, r * 1.01))); }
      GrowLength(m, m.Normalize(diff, r * 1.01), radius, n - 1);
    }
  }

  lemma FirstLength(m: Maths, pos: PVector, post: CArea, draw: real)
    requires m.Lawful() && m.R(pos.Minus(post.center)) < post.radius
    ensures var d := m.R(FirstOffset(m, pos, post, draw));
            var r := m.R(pos.Minus(post.center));
            && 0.0 <= d <= post.radius
            && (d == post.radius <==> pos == post.center || r >= EPS)
            && (pos != post.center && r < EPS ==> d * EPS == r * post.radius)
  {
    var diff, l := pos.Minus(post.center), post.radius;
    m.Root(diff);
    m.Root(FirstOffset(m, pos, post, draw));
    if diff == ORIGIN {
      assert pos == PVector(pos.x, pos.y) && post.center == PVector(post.center.x, post.center.y);
      PolarLength(m, l, draw);
      RootUnique(m, m.FromPolar(l, draw), l);
    } else {
      NormalizedLength(m, diff, l);
      if m.R(diff) < EPS { var p := Product(EPS - m.R(diff), l); Shorter(m.R(FirstOffset(m, pos, post, draw)), l, EPS); }
    }
  }

  lemma Shorter(d: real, l: real, e: real)
    requires e > 0.0
    ensures d * e < l * e ==> d < l
  {
    if d >= l { var p := Product(d - l, e); }
  }

  /** Neither too close to the centre of the post for the growth to catch on, nor
      (at the very centre) dependent on it. */
  predicate Separable(m: Maths, w: Setting, pos: PVector)
    requires w.size >= 0.0
  {
    var post := w.Post(pos);
    pos == post.center || m.R(pos.Minus(post.center)) >= EPS
    || 1.01 * (m.R(pos.Minus(post.center)) * post.radius) > EPS * EPS
  }

  lemma FirstOffsetGrows(m: Maths, w: Setting, pos: PVector, draw: real)
    requires m.Lawful() && w.Apart() && m.R(pos.Minus(w.Post(pos).center)) < w.Post(pos).radius
    ensures var post := w.Post(pos);
            var d := m.R(FirstOffset(m, pos, post, draw));
            d >= post.radius || 1.01 * d > EPS <==> Separable(m, w, pos)
  {
    var post := w.Post(pos);
    var d := m.R(FirstOffset(m, pos, post, draw));
    FirstLength(m, pos, post, draw);
    if d != post.radius {
      Shorter(EPS, 1.01 * d, EPS);
      if 1.01 * d > EPS { var p := Product(1.01 * d - EPS, EPS); }
    }
  }

  lemma OnRim(m: Maths, w: Setting, offset: PVector)
    requires m.Roots() && w.size >= 0.0 && w.Radius() <= m.R(offset) <= 1.01 * w.Radius()
    ensures offset.R2() == w.Radius() * w.Radius() <==> m.R(offset) == w.Radius()
    ensures w.Radius() * w.Radius() <= offset.R2() <= 4.0 * (w.Radius() * w.Radius())
  {
    var r := w.Radius();
    m.Root(offset);
    Ordered(r, m.R(offset));
    Ordered(m.R(offset), 2.0 * r);
    assert (2.0 * r) * (2.0 * r) == 4.0 * (r * r);
    if offset.R2() == r * r { RootUnique(m, offset, r); }
  }

  lemma PushedOutClear(m: Maths, w: Setting, pos: PVector, diff: PVector)
    requires m.Roots() && w.Apart() && w.Radius() <= m.R(diff) <= 1.01 * w.Radius()
    ensures var p := w.Post(pos).center.Plus(diff); m.R(p.Minus(w.Post(p).center)) >= w.Post(p).radius
  {
    hide PVector.R2, Maths.R, Setting.Radius;
    var c := w.Post(pos).center;
    var p := c.Plus(diff);
    assert p.Minus(c) == PVector(diff.x, diff.y) == diff;
    OnRim(m, w, diff);
    PostsArePosts(w, pos);
    PostsArePosts(w, p);
    RimReached(m, w, p);
    if w.Post(p).center != c { FarFromOthers(w, p, c, w.Post(p).center); }
  }

  lemma PostsArePosts(w: Setting, pos: PVector)
    requires w.size >= 0.0
    ensures IsPost(w.goalWidth, w.Post(pos).center)
  {}

  /** What one turn of the overlap loop does, given the offset it has grown. */
  function PushedOut(m: Maths, w: Setting, pos: PVector, vel: PVector, offset: PVector): (PVector, PVector)
    requires w.size >= 0.0
  {
    var c := w.Post(pos).center;
    (c.Plus(offset), TurnBack(m, vel, c.Minus(c.Plus(offset))))
  }

  /** With the posts apart, an overlapping object takes exactly one turn. */
  lemma SingleTurn(m: Maths, w: Setting, pos: PVector, vel: PVector, draws: nat -> real, turn: nat, n: nat)
    requires m.Lawful() && w.Apart()
    requires m.R(pos.Minus(w.Post(pos).center)) < w.Post(pos).radius
    ensures var grown := Grow(m, FirstOffset(m, pos, w.Post(pos), draws(turn)), w.Radius(), n);
            && (Uncover(m, w, pos, vel, draws, turn, n).Some? <==> n > 0 && grown.Some?)
            && (n > 0 && grown.Some? ==>
                  && Uncover(m, w, pos, vel, draws, turn, n) == Some(PushedOut(m, w, pos, vel, grown.value))
                  && w.Radius() <= m.R(grown.value) <= 1.01 * w.Radius())
  {
    hide PVector.R2, Maths.R, TurnBack;
    var post := w.Post(pos);
    assert post.radius == w.Radius();
    var first := FirstOffset(m, pos, post, draws(turn));
    FirstLength(m, pos, post, draws(turn));
    GrowLength(m, first, post.radius, n);
    var grown := Grow(m, first, post.radius, n);
    if grown.Some? { PushedOutClear(m, w, pos, grown.value); }
  }

  /** What the overlap loop has done when it ends: nothing to an object that overlaps
      no post, and a single turn for one that does. */
  ghost predicate AtMostOneTurn(m: Maths, w: Setting, pos: PVector, vel: PVector, draw: real, n: nat, result: (PVector, PVector))
    requires w.size >= 0.0
  {
    if m.R(pos.Minus(w.Post(pos).center)) >= w.Post(pos).radius then result == (pos, vel)
    else
      var grown := Grow(m, FirstOffset(m, pos, w.Post(pos), draw), w.Radius(), n);
      grown.Some? && result == PushedOut(m, w, pos, vel, grown.value)
  }

  lemma UncoverTurns(m: Maths, w: Setting, pos: PVector, vel: PVector, draws: nat -> real, turn: nat, n: nat)
    requires m.Lawful() && w.Apart() && Uncover(m, w, pos, vel, draws, turn, n).Some?
    ensures AtMostOneTurn(m, w, pos, vel, draws(turn), n, Uncover(m, w, pos, vel, draws, turn, n).value)
    ensures Separable(m, w, pos)
  {
    hide PVector.R2, PushedOut, FirstOffset;
    var post := w.Post(pos);
    if m.R(pos.Minus(post.center)) < post.radius {
      SingleTurn(m, w, pos, vel, draws, turn, n);
      GrowEndsExactly(m, FirstOffset(m, pos, post, draws(turn)), post.radius);
      FirstOffsetGrows(m, w, pos, draws(turn));
    }
  }

  /** With the posts apart, the overlap loop ends exactly for the separable positions,
      whatever the random angles, and after one turn at most. */
  lemma UncoverEndsExactly(m: Maths, w: Setting, pos: PVector, vel: PVector, draws: nat -> real, turn: nat)
    requires m.Lawful() && w.Apart()
    ensures (exists n: nat :: Uncover(m, w, pos, vel, draws, turn, n).Some?) <==> Separable(m, w, pos)
    ensures forall n: nat :: Uncover(m, w, pos, vel, draws, turn, n).Some? ==>
              AtMostOneTurn(m, w, pos, vel, draws(turn), n, Uncover(m, w, pos, vel, draws, turn, n).value)
  {
    hide Uncover, AtMostOneTurn, Separable;
    forall n: nat | Uncover(m, w, pos, vel, draws, turn, n).Some?
      ensures AtMostOneTurn(m, w, pos, vel, draws(turn), n, Uncover(m, w, pos, vel, draws, turn, n).value) && Separable(m, w, pos)
    {
      UncoverTurns(m, w, pos, vel, draws, turn, n);
    }
    if Separable(m, w, pos) { var n := EnoughTurns(m, w, pos, vel, draws, turn); }
  }

  lemma EnoughTurns(m: Maths, w: Setting, pos: PVector, vel: PVector, draws: nat -> real, turn: nat) returns (n: nat)
    requires m.Lawful() && w.Apart() && Separable(m, w, pos)
    ensures Uncover(m, w, pos, vel, draws, turn, n).Some?
  {
    hide PVector.R2, PushedOut, FirstOffset;
    var post := w.Post(pos);
    if m.R(pos.Minus(post.center)) >= post.radius {
      n := 0;
    } else {
      var first := FirstOffset(m, pos, post, draws(turn));
      GrowEndsExactly(m, first, post.radius);
      FirstOffsetGrows(m, w, pos, draws(turn));
      n :| Grow(m, first, post.radius, n).Some?;
      GrowMore(m, first, post.radius, n, n + 1);
      n := n + 1;
      SingleTurn(m, w, pos, vel, draws, turn, n);
    }
  }

  /** A position at the centre of the nearest post, or not as near to it as 10^-18, is
      separable. */
  lemma FarEnough(m: Maths, w: Setting, pos: PVector)
    requires m.Roots() && w.Apart()
    requires pos == w.Post(pos).center || m.R(pos.Minus(w.Post(pos).center)) >= 0.000000000000000001
    ensures Separable(m, w, pos)
  {
    if pos != w.Post(pos).center {
      var r := m.R(pos.Minus(w.Post(pos).center));
      var p := Product(r - 0.000000000000000001, w.Radius());
    }
  }

  /** A position from which the loop never ends: 10^-20 beside the centre of a post.
      No two different numbers of type double are as close as that near a post. */
  lemma StuckPosition(m: Maths, vel: PVector, draws: nat -> real, n: nat)
    requires m.Lawful()
    ensures var w := Setting(14.02, 0.085);
            var pos := PVector(52.44 + 0.00000000000000000001, 7.07);
            w.Apart() && Uncover(m, w, pos, vel, draws, 0, n).None?
  {
    var w := Setting(14.02, 0.085);
    var tiny := 0.00000000000000000001;
    var pos := PVector(52.44 + tiny, 7.07);
    var c := PVector(52.44, 7.07);
    assert w.Post(pos).center == c && pos.Minus(c) == PVector(tiny, 0.0);
    RootUnique(m, PVector(tiny, 0.0), tiny);
    UncoverEndsExactly(m, w, pos, vel, draws, 0);
    assert !Separable(m, w, pos);
  }

  // ----- the bound on the turns does not matter

  lemma {:induction false} GrowMore(m: Maths, diff: PVector, radius: real, n: nat, k: nat)
    requires Grow(m, diff, radius, n).Some? && n <= k
    ensures Grow(m, diff, radius, k) == Grow(m, diff, radius, n)
    decreases n
  {
    if m.R(diff) < radius { GrowMore(m, m.Normalize(diff, m.R(diff) * 1.01), radius, n - 1, k - 1); }
  }

  /** Once both loops have ended by themselves, more fuel changes nothing. */
  lemma {:induction false} UncoverMore(m: Maths, w: Setting, pos: PVector, vel: PVector, draws: nat -> real, turn: nat, n: nat, k: nat)
    requires w.size >= 0.0 && Uncover(m, w, pos, vel, draws, turn, n).Some? && n <= k
    ensures Uncover(m, w, pos, vel, draws, turn, k) == Uncover(m, w, pos, vel, draws, turn, n)
    decreases n
  {
    hide PVector.R2, Maths.R, TurnBack, FirstOffset;
    var post := w.Post(pos);
    if m.R(pos.Minus(post.center)) < post.radius {
      var first := FirstOffset(m, pos, post, draws(turn));
      GrowMore(m, first, post.radius, n, k);
      var p := post.center.Plus(Grow(m, first, post.radius, n).value);
      UncoverMore(m, w, p, TurnBack(m, vel, post.center.Minus(p)), draws, turn + 1, n - 1, k - 1);
    }
  }

  // ----- where the grown offset ends

  /** One turn of the inner loop, as lengths. */
  function Lengthen(l: real): real { if l < EPS then l * (l * 1.01) / EPS else l * 1.01 }

  /** Growing from length l arrives at the rim exactly. */
  predicate ArrivesAtRim(l: real, radius: real, fuel: nat)
    decreases fuel
  {
    if l >= radius then l == radius else fuel > 0 && ArrivesAtRim(Lengthen(l), radius, fuel - 1)
  }

  lemma GrownLength(m: Maths, v: PVector)
    requires m.Roots()
    ensures m.R(m.Normalize(v, m.R(v) * 1.01)) == Lengthen(m.R(v))
  {
    m.Root(v);
    var r := m.R(v);
    NormalizedLength(m, v, r * 1.01);
    if r < EPS {
      var q := r * (r * 1.01) / EPS;
      assert q * EPS == r * (r * 1.01);
      Cancel(m.R(m.Normalize(v, r * 1.01)), q, EPS);
    }
  }

  lemma {:induction false} GrowArrives(m: Maths, v: PVector, radius: real, n: nat)
    requires m.Roots() && Grow(m, v, radius, n).Some?
    ensures m.R(Grow(m, v, radius, n).value) == radius <==> ArrivesAtRim(m.R(v), radius, n)
    decreases n
  {
    hide Maths.R, Maths.Normalize, Lengthen;
    if m.R(v) < radius {
      GrownLength(m, v);
      GrowArrives(m, m.Normalize(v, m.R(v) * 1.01), radius, n - 1);
    }
  }

  /** Growth keeps the direction. */
  lemma {:induction false} GrowScales(m: Maths, v: PVector, radius: real, n: nat) returns (k: real)
    requires m.Roots() && Grow(m, v, radius, n).Some?
    ensures k >= 0.0 && Grow(m, v, radius, n).value == v.Times(k)
    decreases n
  {
    if m.R(v) >= radius {
      k := 1.0;
      assert v.Times(1.0) == PVector(v.x, v.y) == v;
    } else {
      var j := NormalizeScales(m, v, m.R(v) * 1.01);
      k := GrowScales(m, m.Normalize(v, m.R(v) * 1.01), radius, n - 1);
      var p := Product(j, k);
      TimesTwice(v, j, k);
      k := p;
    }
  }

  lemma NormalizeScales(m: Maths, v: PVector, l: real) returns (k: real)
    requires m.Roots()
    ensures m.Normalize(v, l) == v.Times(k)
    ensures l >= 0.0 ==> k >= 0.0
    ensures l == m.R(v) * 1.01 ==> k >= 0.0
  {
    m.Root(v);
    var d := if m.R(v) < EPS then EPS else m.R(v);
    k := l / d;
    if l >= 0.0 { Positive(l, d); }
  }

  lemma TimesTwice(v: PVector, j: real, k: real)
    ensures v.Times(j).Times(k) == v.Times(j * k)
  {}

  /** Where the one turn of the overlap loop leaves an object: straight out from the centre
      of the post (at the very centre, in the direction drawn), on the rim or at most one
      per cent further out, and with its velocity mirrored there. */
  lemma TurnLeaves(m: Maths, w: Setting, pos: PVector, vel: PVector, draws: nat -> real, turn: nat, n: nat) returns (k: real)
    requires m.Lawful() && w.Apart() && m.R(pos.Minus(w.Post(pos).center)) < w.Radius()
    requires Uncover(m, w, pos, vel, draws, turn, n).Some?
    ensures var c, (p, v) := w.Post(pos).center, Uncover(m, w, pos, vel, draws, turn, n).value;
            var d := if pos == c then m.FromPolar(1.0, draws(turn)) else pos.Minus(c);
            && k >= 0.0 && p == c.Plus(d.Times(k)) && w.Radius() <= m.R(d.Times(k)) <= 1.01 * w.Radius()
            && v.R2() == vel.R2() && v.Dot(c.Minus(p)) == -vel.Dot(c.Minus(p)) && v.Cross(c.Minus(p)) == vel.Cross(c.Minus(p))
  {
    hide PVector.R2, PVector.Dot, PVector.Cross, Maths.R, Maths.FromPolar, Uncover, Grow, TurnBack, Setting.Radius;
    var post := w.Post(pos);
    assert post.radius == w.Radius() by { RadiusIs(w, pos); }
    SingleTurn(m, w, pos, vel, draws, turn, n);
    var first := FirstOffset(m, pos, post, draws(turn));
    var grown := Grow(m, first, w.Radius(), n).value;
    var p := post.center.Plus(grown);
    TurnBackKeeps(m, vel, post.center.Minus(p));
    var i := GrowScales(m, first, w.Radius(), n);
    var d := if pos == post.center then m.FromPolar(1.0, draws(turn)) else pos.Minus(post.center);
    var j := FirstScales(m, pos, post, draws(turn));
    TimesTwice(d, j, i);
    k := Product(j, i);
  }

  lemma RadiusIs(w: Setting, pos: PVector)
    requires w.size >= 0.0
    ensures w.Post(pos).radius == w.Radius()
  {}

  lemma FirstScales(m: Maths, pos: PVector, post: CArea, draw: real) returns (j: real)
    requires m.Roots()
    ensures j >= 0.0
    ensures FirstOffset(m, pos, post, draw) == (if pos == post.center then m.FromPolar(1.0, draw) else pos.Minus(post.center)).Times(j)
  {
    var diff := pos.Minus(post.center);
    assert pos == PVector(pos.x, pos.y) && post.center == PVector(post.center.x, post.center.y);
    if diff == ORIGIN {
      j := post.radius;
    } else {
      j := NormalizeScales(m, diff, post.radius);
    }
  }
}
