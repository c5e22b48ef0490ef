/** Angles in radians and in degrees, and their rounding (src/utility.h, src/leg.cpp). */
module Angles {
  import opened Plane
  import opened Numbers

  const PI := 3.14159265358979323846
  const TWO_PI := 2.0 * PI

  function Deg2Rad(a: real): real { a * (PI / 180.0) }

  function Truncate(x: real): int { if x >= 0.0 then x.Floor else -(-x).Floor }

  /** The remainder of a division that truncates, as std::fmod gives it. */
  function Fmod(a: real, b: real): real
    requires b > 0.0
  {
    a - Truncate(a / b) as real * b
  }

  function NormalizeAngle(a: real): real {
    var ang := if a > TWO_PI || -a > TWO_PI then Fmod(a, TWO_PI) else a;
    var ang1 := if ang < -PI then ang + TWO_PI else ang;
    if ang1 > PI then ang1 - TWO_PI else ang1
  }

  lemma FmodRange(a: real, b: real)
    requires b > 0.0
    ensures -b < Fmod(a, b) < b
  {
    var q := a / b;
    assert q * b == a;
    Remainder(a, b, q, Truncate(q) as real);
  }

  lemma Remainder(a: real, b: real, q: real, n: real)
    requires b > 0.0 && q * b == a && -1.0 < q - n < 1.0
    ensures -b < a - n * b < b
  {
    var x := Product(1.0 - (q - n), b);
    var y := Product(1.0 + (q - n), b);
  }

  /** Normalising turns an angle by whole turns into the range from -PI to PI, and keeps
      it if it is there already. */
  lemma NormalizeAngleCorrect(a: real) returns (turns: int)
    ensures -PI <= NormalizeAngle(a) <= PI
    ensures NormalizeAngle(a) == a - turns as real * TWO_PI
    ensures -PI <= a <= PI ==> NormalizeAngle(a) == a
  {
    turns := 0;
    var ang := a;
    if a > TWO_PI || -a > TWO_PI {
      FmodRange(a, TWO_PI);
      turns := Truncate(a / TWO_PI);
      ang := Fmod(a, TWO_PI);
    }
    if ang < -PI {
      turns := turns - 1;
    } else if ang > PI {
      turns := turns + 1;
    }
  }

  /** Rounding to the nearest integer, halves to the even one. */
  function Rint(x: real): int {
    var f := x.Floor;
    var d := x - f as real;
    if d < 0.5 then f else if d > 0.5 then f + 1 else if f % 2 == 0 then f else f + 1
  }

  lemma RintNearest(x: real)
    ensures -0.5 <= x - Rint(x) as real <= 0.5
    ensures x - Rint(x) as real == 0.5 || x - Rint(x) as real == -0.5 ==> Rint(x) % 2 == 0
  {}

  lemma RintMonotone(x: real, y: real)
    requires x <= y
    ensures Rint(x) <= Rint(y)
  {
    if x.Floor < y.Floor { assert Rint(x) <= x.Floor + 1 <= y.Floor <= Rint(y); }
  }

  datatype DashAngles = DashAngles(least: real, most: real, step: real)

  function Quantize(dir: real, step: real): real {
    if step < EPS then dir else step * Rint(dir / step) as real
  }

  function NormalizeDashAngle(a: DashAngles, d: real): real
    requires a.least <= a.most
  {
    Quantize(Bound(d, a.least, a.most), a.step)
  }

  lemma QuantizeMonotone(x: real, y: real, step: real)
    requires x <= y
    ensures Quantize(x, step) <= Quantize(y, step)
  {
    if step >= EPS {
      Over(x, y, step);
      RintMonotone(x / step, y / step);
      var p := Product(step, (Rint(y / step) - Rint(x / step)) as real);
    }
  }

  lemma Over(x: real, y: real, s: real)
    requires x <= y && s > 0.0
    ensures x / s <= y / s
  {
    var a, b := x / s, y / s;
    assert a * s == x && b * s == y;
    if a > b { var p := Product(a - b, s); }
  }

  /** A dash angle is moved to the nearest multiple of the step. */
  lemma QuantizeNearest(dir: real, step: real)
    requires step >= EPS
    ensures -step / 2.0 <= dir - Quantize(dir, step) <= step / 2.0
    ensures Quantize(dir, step) == step * Rint(dir / step) as real
  {
    var q := dir / step;
    assert q * step == dir;
    RintNearest(q);
    var x := q - Rint(q) as real;
    var a := Product(step, 0.5 - x);
    var b := Product(step, 0.5 + x);
  }

  predicate IsMultiple(r: real, step: real, n: int) { r == step * n as real }

  /** A command in the range is rounded to the nearest multiple of the step, if there is a
      step; one outside is taken for the nearest bound. */
  lemma DashAngleNearest(a: DashAngles, d: real)
    requires a.least <= a.most
    ensures var r := NormalizeDashAngle(a, d);
            && (a.least <= d <= a.most && a.step < EPS ==> r == d)
            && (a.least <= d <= a.most && a.step >= EPS ==>
                  -a.step / 2.0 <= d - r <= a.step / 2.0 && exists n :: IsMultiple(r, a.step, n))
            && (d < a.least ==> r == NormalizeDashAngle(a, a.least))
            && (d > a.most ==> r == NormalizeDashAngle(a, a.most))
  {
    if a.least <= d <= a.most && a.step >= EPS {
      QuantizeNearest(d, a.step);
      assert IsMultiple(Quantize(d, a.step), a.step, Rint(d / a.step));
    }
  }

  /** The angles come out in their range, for all commands, exactly if neither bound is
      rounded out of it. */
  lemma DashAngleInRange(a: DashAngles)
    requires a.least <= a.most
    ensures (forall d :: a.least <= NormalizeDashAngle(a, d) <= a.most)
       <==> Quantize(a.most, a.step) <= a.most && a.least <= Quantize(a.least, a.step)
  {
    assert NormalizeDashAngle(a, a.least) == Quantize(a.least, a.step);
    assert NormalizeDashAngle(a, a.most) == Quantize(a.most, a.step);
    forall d ensures Quantize(a.least, a.step) <= NormalizeDashAngle(a, d) <= Quantize(a.most, a.step) {
      var b := Bound(d, a.least, a.most);
      QuantizeMonotone(a.least, b, a.step);
      QuantizeMonotone(b, a.most, a.step);
    }
  }

  /** A step of 7 degrees takes a command of 180 degrees to 182. */
  lemma DashAngleOvershoots()
    ensures NormalizeDashAngle(DashAngles(-180.0, 180.0, 7.0), 180.0) == 182.0
  {
    assert (180.0 / 7.0).Floor == 25;
  }
}
