/** The pointing arm (src/arm.h). */
module PointingArm {
  import opened Plane
  import opened Numbers

  datatype Params = Params(minPointDuration: nat, maxPointDuration: nat)

  datatype State = State(dest: PVector, timer: nat, count: nat)

  function Start(p: Params): State { State(ORIGIN, p.maxPointDuration, 0) }

  predicate IsMovable(p: Params, s: State) { s.timer >= p.minPointDuration }

  predicate IsPointing(p: Params, s: State) { s.timer < p.maxPointDuration }

  /** Rotation as the vector class does it: by way of heading and magnitude. */
  function Turned(m: Maths, v: PVector, angle: real): PVector {
    m.FromPolar(1.0, m.atan2(v.y, v.x) + angle).Times(m.R(v))
  }

  datatype Event =
    | PointTo(origin: PVector, orientation: real, relDest: PVector)
    | StopPointing
    | IncAge

  function Apply(m: Maths, p: Params, s: State, e: Event): State {
    match e
    case IncAge => s.(timer := s.timer + 1)
    case PointTo(origin, orientation, relDest) =>
      if IsMovable(p, s) then State(Turned(m, relDest, orientation).Plus(origin), 0, s.count + 1) else s
    case StopPointing =>
      if IsMovable(p, s) then State(ORIGIN, p.maxPointDuration, s.count + 1) else s
  }

  function Run(m: Maths, p: Params, s: State, es: seq<Event>): State
    decreases |es|
  {
    if es == [] then s else Run(m, p, Apply(m, p, s, es[0]), es[1..])
  }

  function Ages(es: seq<Event>): nat {
    if es == [] then 0 else (if es[0].IncAge? then 1 else 0) + Ages(es[1..])
  }

  /** The arm is not movable again before its timer has been aged to the minimum,
      whatever is tried in between. */
  lemma {:induction false} MovableAfter(m: Maths, p: Params, s: State, es: seq<Event>)
    ensures IsMovable(p, Run(m, p, s, es)) ==> s.timer + Ages(es) >= p.minPointDuration
    decreases |es|
  {
    if es == [] {
    } else {
      MovableAfter(m, p, Apply(m, p, s, es[0]), es[1..]);
    }
  }

  /** Two accepted pointing commands are at least minPointDuration ageings apart, even
      with attempts to stop or to point in between; and ageing alone makes the arm
      movable again after exactly that long. */
  lemma PointsSpaced(m: Maths, p: Params, s: State, first: Event, es: seq<Event>)
    requires first.PointTo? && IsMovable(p, s)
    ensures var pointing := Apply(m, p, s, first);
            && (IsMovable(p, Run(m, p, pointing, es)) ==> Ages(es) >= p.minPointDuration)
            && (Ages(es) == |es| ==>
                  && (IsMovable(p, Run(m, p, pointing, es)) <==> |es| >= p.minPointDuration)
                  && (IsPointing(p, Run(m, p, pointing, es)) <==> |es| < p.maxPointDuration))
  {
    MovableAfter(m, p, Apply(m, p, s, first), es);
    if Ages(es) == |es| { OnlyAgeing(m, p, Apply(m, p, s, first), es); }
  }

  lemma {:induction false} AgesAtMost(es: seq<Event>)
    ensures Ages(es) <= |es|
  {
    if es == [] {
    } else {
      AgesAtMost(es[1..]);
    }
  }

  lemma {:induction false} OnlyAgeing(m: Maths, p: Params, s: State, es: seq<Event>)
    requires Ages(es) == |es|
    ensures Run(m, p, s, es) == s.(timer := s.timer + |es|)
    decreases |es|
  {
    if es == [] {
    } else {
      AgesAtMost(es[1..]);
      OnlyAgeing(m, p, Apply(m, p, s, es[0]), es[1..]);
    }
  }

  function Accepted(m: Maths, p: Params, s: State, es: seq<Event>): nat
    decreases |es|
  {
    if es == [] then 0
    else (if !es[0].IncAge? && IsMovable(p, s) then 1 else 0) + Accepted(m, p, Apply(m, p, s, es[0]), es[1..])
  }

  /** The counter counts the accepted commands, to point and to stop. */
  lemma {:induction false} CountsAccepted(m: Maths, p: Params, s: State, es: seq<Event>)
    ensures Run(m, p, s, es).count == s.count + Accepted(m, p, s, es)
    decreases |es|
  {
    if es == [] {
    } else {
      CountsAccepted(m, p, Apply(m, p, s, es[0]), es[1..]);
    }
  }

  /** An accepted stop ends the pointing for good, until another command; and the arm is
      movable again at once, unless the maximum is shorter than the minimum, and then after
      the difference. */
  lemma StopEnds(m: Maths, p: Params, s: State, es: seq<Event>)
    requires IsMovable(p, s) && Ages(es) == |es|
    ensures var later := Run(m, p, Apply(m, p, s, StopPointing), es);
            && !IsPointing(p, later) && later.dest == ORIGIN
            && (IsMovable(p, later) <==> p.maxPointDuration + |es| >= p.minPointDuration)
  {
    OnlyAgeing(m, p, Apply(m, p, s, StopPointing), es);
  }

  /** Commands to an arm that is not movable change nothing. */
  lemma RefusedWhole(m: Maths, p: Params, s: State, e: Event)
    requires !IsMovable(p, s) && !e.IncAge?
    ensures Apply(m, p, s, e) == s
  {}

  // ----- where it points

  /** The destination seen from an origin and orientation. */
  function RelDest(m: Maths, p: Params, s: State, origin: PVector, orientation: real): Option<PVector> {
    if IsPointing(p, s) then Some(Turned(m, s.dest.Minus(origin), -orientation)) else None
  }

  lemma TurnedIsRotation(m: Maths, v: PVector, angle: real)
    requires m.Lawful()
    ensures Turned(m, v, angle) == m.Rotate(v, angle)
  {
    var h, r := m.atan2(v.y, v.x), m.R(v);
    assert m.PolarAt(v) && m.SumAt(h, angle);
    var c, s, ca, sa := m.cos(h), m.sin(h), m.cos(angle), m.sin(angle);
    assert Turned(m, v, angle) == PVector((c * ca - s * sa) * r, (s * ca + c * sa) * r);
    assert (c * ca - s * sa) * r == (r * c) * ca - (r * s) * sa;
    assert (s * ca + c * sa) * r == (r * s) * ca + (r * c) * sa;
  }

  lemma TurnedBack(v: PVector, w: PVector, c: real, s: real)
    requires c * c + s * s == 1.0 && w == PVector(v.x * c - v.y * s, v.x * s + v.y * c)
    ensures PVector(w.x * c - w.y * -s, w.x * -s + w.y * c) == v
  {
    assert w.x * c - w.y * -s == v.x * (c * c + s * s);
    assert w.x * -s + w.y * c == v.y * (c * c + s * s);
    assert v == PVector(v.x, v.y);
  }

  /** Pointing and asking from the same place and orientation gives back the point
      asked for. */
  lemma PointRoundTrip(m: Maths, p: Params, s: State, origin: PVector, orientation: real, relDest: PVector)
    requires m.Lawful() && IsMovable(p, s) && p.maxPointDuration > 0
    ensures RelDest(m, p, Apply(m, p, s, PointTo(origin, orientation, relDest)), origin, orientation) == Some(relDest)
  {
    var w := Turned(m, relDest, orientation);
    assert w.Plus(origin).Minus(origin) == PVector(w.x, w.y) == w;
    TurnedIsRotation(m, relDest, orientation);
    TurnedIsRotation(m, w, -orientation);
    m.UnitAngle(orientation);
    TurnedBack(relDest, w, m.cos(orientation), m.sin(orientation));
    var pointing := Apply(m, p, s, PointTo(origin, orientation, relDest));
    assert pointing.dest.Minus(origin) == w && IsPointing(p, pointing);
    assert Turned(m, w, -orientation) == relDest;
  }

  class Arm {
    const p: Params
    var dest: PVector
    var timer: nat
    var count: nat

    function Current(): State
      reads this
    {
      State(dest, timer, count)
    }

    constructor (p: Params)
      ensures this.p == p && Current() == Start(p)
    {
      this.p := p;
      dest, timer, count := ORIGIN, p.maxPointDuration, 0;
    }

    method Age(ghost m: Maths)
      modifies this`timer
      ensures Current() == Apply(m, p, old(Current()), IncAge)
    {
      timer := timer + 1;
    }

    method Point(m: Maths, origin: PVector, orientation: real, relDest: PVector) returns (accepted: bool)
      modifies this
      ensures accepted == IsMovable(p, old(Current()))
      ensures Current() == Apply(m, p, old(Current()), PointTo(origin, orientation, relDest))
    {
      if timer < p.minPointDuration { return false; }
      dest := Turned(m, relDest, orientation);
      dest := dest.Plus(origin);
      timer := 0;
      count := count + 1;
      return true;
    }

    method Stop(ghost m: Maths) returns (accepted: bool)
      modifies this
      ensures accepted == IsMovable(p, old(Current()))
      ensures Current() == Apply(m, p, old(Current()), StopPointing)
    {
      if timer < p.minPointDuration { return false; }
      dest := ORIGIN;
      timer := p.maxPointDuration;
      count := count + 1;
      return true;
    }
  }
}
