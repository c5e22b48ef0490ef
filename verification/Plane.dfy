/** Plane vectors, and the few real functions of the C++ maths library that the
    geometry and the physics step call (src/object.h). */
module Plane {

  const EPS := 0.0000000001

  datatype PVector = PVector(x: real, y: real) {
    function Plus(v: PVector): PVector { PVector(x + v.x, y + v.y) }

    function Minus(v: PVector): PVector { PVector(x - v.x, y - v.y) }

    function Neg(): PVector { PVector(-x, -y) }

    function Times(a: real): PVector { PVector(x * a, y * a) }

    function R2(): real { x * x + y * y }

    function Dot(v: PVector): real { x * v.x + y * v.y }

    function Cross(v: PVector): real { x * v.y - y * v.x }
  }

  const ORIGIN := PVector(0.0, 0.0)

  /** A circle of non-negative radius. */
  datatype Circle = Circle(center: PVector, radius: real)

  type CArea = c: Circle | c.radius >= 0.0 witness Circle(ORIGIN, 0.0)

  /** The maths library as a value. Its functions are not computed here: Lawful
      lists the only facts about them that any proof uses, and the real square
      root, cosine, sine and two-argument arctangent satisfy all of them. */
  datatype Maths = Maths(sqrt: real -> real, cos: real -> real, sin: real -> real, atan2: (real, real) -> real) {
    ghost predicate RootAt(v: real) {
      v >= 0.0 ==> sqrt(v) >= 0.0 && sqrt(v) * sqrt(v) == v
    }

    ghost predicate UnitAt(a: real) {
      && cos(a) * cos(a) + sin(a) * sin(a) == 1.0
      && cos(-a) == cos(a) && sin(-a) == -sin(a)
    }

    ghost predicate SumAt(a: real, b: real) {
      && cos(a + b) == cos(a) * cos(b) - sin(a) * sin(b)
      && sin(a + b) == sin(a) * cos(b) + cos(a) * sin(b)
    }

    ghost predicate PolarAt(v: PVector) {
      R(v) * cos(atan2(v.y, v.x)) == v.x && R(v) * sin(atan2(v.y, v.x)) == v.y
    }

    ghost predicate Roots() { forall v :: RootAt(v) }

    ghost predicate Lawful() {
      Roots() && (forall a :: UnitAt(a)) && (forall a, b :: SumAt(a, b)) && (forall v :: PolarAt(v))
    }

    function R(v: PVector): real { sqrt(v.R2()) }

    function Th(v: PVector): real {
      if v.x == 0.0 && v.y == 0.0 then 0.0 else atan2(v.y, v.x)
    }

    function FromPolar(r: real, a: real): PVector { PVector(r * cos(a), r * sin(a)) }

    function Rotate(v: PVector, a: real): PVector {
      PVector(v.x * cos(a) - v.y * sin(a), v.x * sin(a) + v.y * cos(a))
    }

    function Normalize(v: PVector, l: real): PVector {
      v.Times(l / (if R(v) < EPS then EPS else R(v)))
    }

    lemma Root(v: PVector)
      requires Roots()
      ensures R(v) >= 0.0 && R(v) * R(v) == v.R2()
    {
      R2NonNeg(v);
      assert RootAt(v.R2());
    }

    lemma UnitAngle(a: real)
      requires Lawful()
      ensures cos(a) * cos(a) + sin(a) * sin(a) == 1.0
      ensures cos(-a) == cos(a) && sin(-a) == -sin(a)
    {
      assert UnitAt(a);
    }

    lemma Polar(v: PVector)
      requires Lawful()
      ensures v == FromPolar(R(v), Th(v))
    {
      if v.x == 0.0 && v.y == 0.0 {
        Root(v);
        ZeroSquare(R(v));
      } else {
        assert PolarAt(v);
      }
    }
  }

  // The facts about signs return the product they speak of: the solver rewrites a
  // bare a * a > 0.0 to a != 0.0, and then no longer knows it as a summand.

  lemma Product(a: real, b: real) returns (p: real)
    ensures p == a * b
    ensures a >= 0.0 && b >= 0.0 ==> p >= 0.0
    ensures a > 0.0 && b > 0.0 ==> p > 0.0
  {
    p := a * b;
  }

  lemma Square(a: real) returns (s: real)
    ensures s == a * a && s >= 0.0
    ensures a != 0.0 ==> s > 0.0
  {
    s := a * a;
    if a >= 0.0 { var p := Product(a, a); } else { var p := Product(-a, -a); }
  }

  lemma ZeroSquare(a: real)
    requires a * a <= 0.0
    ensures a == 0.0
  {
    var s := Square(a);
  }

  lemma R2NonNeg(v: PVector)
    ensures v.R2() >= 0.0
    ensures v != ORIGIN ==> v.R2() > 0.0
  {
    var s := Square(v.x);
    var t := Square(v.y);
    assert v == PVector(v.x, v.y);
  }

  lemma Cancel(a: real, b: real, q: real)
    requires q != 0.0 && a * q == b * q
    ensures a == b
  {
    assert (a - b) * q == 0.0;
  }

  /** Squares order non-negative numbers. */
  lemma SquareOrder(a: real, b: real)
    requires b >= 0.0 && a * a <= b * b
    ensures a <= b
  {
    if a > b {
      var p := Product(a, a - b);
      var q := Product(b, a - b);
    }
  }

  /** |u.v| <= |u||v|, and equality of the sum of squares. */
  lemma Lagrange(u: PVector, v: PVector)
    ensures u.Dot(v) * u.Dot(v) + u.Cross(v) * u.Cross(v) == u.R2() * v.R2()
  {}

  lemma SquaredSum(u: PVector, v: PVector)
    ensures u.Plus(v).R2() == u.R2() + 2.0 * u.Dot(v) + v.R2()
  {}

  lemma TriangleInequality(m: Maths, u: PVector, v: PVector)
    requires m.Roots()
    ensures m.R(u.Plus(v)) <= m.R(u) + m.R(v)
  {
    hide PVector.R2, PVector.Dot, PVector.Cross, PVector.Plus, Maths.R;
    m.Root(u);
    m.Root(v);
    m.Root(u.Plus(v));
    Lagrange(u, v);
    var c := Square(u.Cross(v));
    SquaredSum(u, v);
    SumBound(m.R(u), m.R(v), m.R(u.Plus(v)), u.R2(), v.R2(), u.Dot(v));
  }

  lemma SumBound(a: real, b: real, s: real, a2: real, b2: real, d: real)
    requires a >= 0.0 && b >= 0.0 && a2 == a * a && b2 == b * b
    requires s * s == a2 + 2.0 * d + b2 && d * d <= a2 * b2
    ensures s <= a + b
  {
    var p := Product(a, b);
    assert p * p == a2 * b2;
    SquareOrder(d, p);
    SquareOrder(s, a + b);
  }
}
