/** The legs of a player and the effect of their dash commands (src/leg.cpp,
    src/player.cpp). */
module Dashing {
  import opened Plane
  import opened Numbers
  import opened Angles
  import opened Stamina

  datatype Command = Idle | MoveCmd | DashCmd | TurnCmd | KickCmd | TackleCmd

  /** The share of the power that counts in a direction, given in degrees from the
      body: full ahead, sideDashRate across, backDashRate behind. */
  function DirRate(p: ServerParams, dir: real): real {
    Bound(
      if Fabs(dir) > 90.0
      then p.backDashRate - (p.backDashRate - p.sideDashRate) * (1.0 - (Fabs(dir) - 90.0) / 90.0)
      else p.sideDashRate + (1.0 - p.sideDashRate) * (1.0 - Fabs(dir) / 90.0),
      0.0, 1.0)
  }

  /** What a leg has been told: dir in degrees from the body. */
  datatype Order = Order(power: real, dir: real)

  /** The direction on the pitch in which a leg pushes. */
  function Heading(body: real, dir: real): real { NormalizeAngle(body + Deg2Rad(dir)) }

  function Drive(effort: real, power: real, rate: real, powerRate: real): real { effort * power * rate * powerRate }

  /** The acceleration one leg gives, from its share of the charge; slowness is 1
      except on the top half of the pitch. */
  function DashAccel(m: Maths, p: ServerParams, t: HeteroPlayer, effort: real, slowness: real, body: real, o: Order, share: real): PVector
    requires slowness > 0.0
  {
    var power := UsedPower(p, o.power, share);
    var magnitude := Fabs(Drive(effort, power, DirRate(p, o.dir), t.dashPowerRate)) / slowness;
    var accel := m.FromPolar(magnitude, Heading(body, o.dir));
    if power < 0.0 then accel.Neg() else accel
  }

  /** The accelerations of both legs. */
  function LegAccels(m: Maths, p: ServerParams, t: HeteroPlayer, stamina: real, effort: real, slowness: real, body: real, left: Order, right: Order): (PVector, PVector)
    requires slowness > 0.0 && stamina >= 0.0 && Acts(left.power, right.power)
  {
    var shares := Shares(Charge(stamina, t, left.power, right.power), Need(left.power), Need(right.power));
    (DashAccel(m, p, t, effort, slowness, body, left, shares.0), DashAccel(m, p, t, effort, slowness, body, right, shares.1))
  }

  function Push(vel: PVector, left: PVector, right: PVector): PVector {
    vel.Plus(right).Plus(vel.Plus(left)).Times(1.0 / 2.0).Minus(vel)
  }

  function Omega(m: Maths, t: HeteroPlayer, body: real, vel: PVector, left: PVector, right: PVector): real {
    var unit := m.FromPolar(1.0, body);
    (unit.Dot(vel.Plus(left)) - unit.Dot(vel.Plus(right))) / (t.playerSize * 2.0)
  }

  /** The body angle after a dash; noise is the factor 1 + drand(-randp, randp). */
  function TurnedBody(body: real, noise: real, omega: real): real { NormalizeAngle(body + noise * omega) }

  /** Turning adds the noisy turn to the body angle, up to whole turns, and comes out between
      -PI and PI. */
  lemma TurnedBodyIs(body: real, noise: real, omega: real) returns (turns: int)
    ensures TurnedBody(body, noise, omega) == body + noise * omega - turns as real * TWO_PI
    ensures -PI <= TurnedBody(body, noise, omega) <= PI
  {
    turns := NormalizeAngleCorrect(body + noise * omega);
  }

  /** The push is the mean of the two legs, whatever the velocity; the body turns only
      by the difference of the legs along it. */
  lemma LegsCombined(m: Maths, t: HeteroPlayer, body: real, vel: PVector, left: PVector, right: PVector)
    ensures Push(vel, left, right).Plus(Push(vel, left, right)) == left.Plus(right)
    ensures Omega(m, t, body, vel, left, right) * (t.playerSize * 2.0) == m.FromPolar(1.0, body).Dot(left.Minus(right))
  {
    var unit := m.FromPolar(1.0, body);
    var x := unit.Dot(vel.Plus(left)) - unit.Dot(vel.Plus(right));
    assert x / (t.playerSize * 2.0) * (t.playerSize * 2.0) == x;
    DotMinus(unit, vel, left, right);
  }

  lemma DotMinus(u: PVector, v: PVector, a: PVector, b: PVector)
    ensures u.Dot(v.Plus(a)) - u.Dot(v.Plus(b)) == u.Dot(a.Minus(b))
  {}

  /** A dash with both legs alike and enough stamina moves the player as one leg with
      the whole command would, and does not turn the body. */
  lemma StraightDash(m: Maths, p: ServerParams, t: HeteroPlayer, stamina: real, effort: real, slowness: real, body: real, o: Order, vel: PVector)
    requires slowness > 0.0 && stamina >= 0.0 && Normalized(p, o.power) && Acts(o.power, o.power)
    requires !Shortage(stamina, t, o.power, o.power)
    ensures var (l, r) := LegAccels(m, p, t, stamina, effort, slowness, body, o, o);
            && Push(vel, l, r) == l == r == DashAccel(m, p, t, effort, slowness, body, o, Need(o.power))
            && Omega(m, t, body, vel, l, r) == 0.0
  {
    FullShares(Need(o.power), Need(o.power));
    var (l, r) := LegAccels(m, p, t, stamina, effort, slowness, body, o, o);
    assert l == r;
    LegsCombined(m, t, body, vel, l, r);
    assert Push(vel, l, r) == PVector(l.x, l.y);
  }

  function Mix(k: real, a: real, b: real): real { k * a + (1.0 - k) * b }

  /** The rate of a direction is the polygon through full power ahead, sideDashRate
      across and backDashRate behind, the same on both sides. */
  lemma DirRateIsPolygon(p: ServerParams, a: real, b: real, k: real)
    requires 0.0 <= p.sideDashRate <= 1.0 && 0.0 <= p.backDashRate <= 1.0 && 0.0 <= k <= 1.0
    requires (0.0 <= a <= 90.0 && 0.0 <= b <= 90.0) || (90.0 <= a <= 180.0 && 90.0 <= b <= 180.0)
    ensures DirRate(p, 0.0) == 1.0 && DirRate(p, 90.0) == p.sideDashRate && DirRate(p, 180.0) == p.backDashRate
    ensures DirRate(p, -a) == DirRate(p, a)
    ensures DirRate(p, Mix(k, a, b)) == Mix(k, DirRate(p, a), DirRate(p, b))
  {
    hide DirRate, Between, Mix;
    RatePoints(p, a);
    var c := Mix(k, a, b);
    if a <= 90.0 && b <= 90.0 {
      Mixed(a, b, k, 0.0, 90.0);
      OnSide(p, a);
      OnSide(p, b);
      OnSide(p, c);
      Affine(1.0, p.sideDashRate, 0.0, a, b, k);
    } else {
      Mixed(a, b, k, 90.0, 180.0);
      OnBack(p, a);
      OnBack(p, b);
      OnBack(p, c);
      Affine(p.sideDashRate, p.backDashRate, 90.0, a, b, k);
    }
  }

  lemma RatePoints(p: ServerParams, a: real)
    requires 0.0 <= p.sideDashRate <= 1.0 && 0.0 <= p.backDashRate <= 1.0
    ensures DirRate(p, 0.0) == 1.0 && DirRate(p, 90.0) == p.sideDashRate && DirRate(p, 180.0) == p.backDashRate
    ensures DirRate(p, -a) == DirRate(p, a)
  {
    assert Fabs(-a) == Fabs(a);
  }

  function Between(from: real, to: real, start: real, a: real): real { from + (to - from) * ((a - start) / 90.0) }

  lemma Affine(from: real, to: real, start: real, a: real, b: real, k: real)
    ensures Between(from, to, start, Mix(k, a, b)) == Mix(k, Between(from, to, start, a), Between(from, to, start, b))
  {
    var x, y := (a - start) / 90.0, (b - start) / 90.0;
    assert (Mix(k, a, b) - start) / 90.0 == Mix(k, x, y);
    assert from + (to - from) * Mix(k, x, y) == Mix(k, from + (to - from) * x, from + (to - from) * y);
  }

  lemma Mixed(a: real, b: real, k: real, low: real, high: real)
    requires low <= a <= high && low <= b <= high && 0.0 <= k <= 1.0
    ensures low <= Mix(k, a, b) <= high
  {
    var p := Product(k, a - low);
    var q := Product(1.0 - k, b - low);
    var r := Product(k, high - a);
    var s := Product(1.0 - k, high - b);
  }

  lemma Range(from: real, to: real, start: real, a: real)
    requires 0.0 <= from <= 1.0 && 0.0 <= to <= 1.0 && start <= a <= start + 90.0
    ensures 0.0 <= Between(from, to, start, a) <= 1.0
  {
    var x := (a - start) / 90.0;
    Mixed(to, from, x, 0.0, 1.0);
    assert Between(from, to, start, a) == Mix(x, to, from);
  }

  lemma OnSide(p: ServerParams, a: real)
    requires 0.0 <= p.sideDashRate <= 1.0 && 0.0 <= a <= 90.0
    ensures DirRate(p, a) == Between(1.0, p.sideDashRate, 0.0, a)
  {
    Range(1.0, p.sideDashRate, 0.0, a);
    var x := a / 90.0;
    assert p.sideDashRate + (1.0 - p.sideDashRate) * (1.0 - x) == 1.0 + (p.sideDashRate - 1.0) * x;
  }

  lemma OnBack(p: ServerParams, a: real)
    requires 0.0 <= p.sideDashRate <= 1.0 && 0.0 <= p.backDashRate <= 1.0 && 90.0 <= a <= 180.0
    ensures DirRate(p, a) == Between(p.sideDashRate, p.backDashRate, 90.0, a)
  {
    Range(p.sideDashRate, p.backDashRate, 90.0, a);
    if a > 90.0 {
      var x := (a - 90.0) / 90.0;
      assert p.backDashRate - (p.backDashRate - p.sideDashRate) * (1.0 - x) == p.sideDashRate + (p.backDashRate - p.sideDashRate) * x;
    } else {
      OnSide(p, a);
    }
  }

  /** The acceleration a of a leg that acts with power q: along the direction told by the
      body and the order, forwards or backwards by the sign of q, and in proportion to q. */
  ghost predicate PushesWith(m: Maths, p: ServerParams, t: HeteroPlayer, effort: real, slowness: real, body: real, o: Order, q: real, a: PVector)
    requires slowness > 0.0
  {
    a == m.FromPolar(effort * q * DirRate(p, o.dir) * t.dashPowerRate / slowness, NormalizeAngle(body + o.dir * (PI / 180.0)))
  }

  /** A leg pushes along its heading with the power it may use. */
  lemma DashAlongHeading(m: Maths, p: ServerParams, t: HeteroPlayer, effort: real, slowness: real, body: real, o: Order, share: real)
    requires slowness > 0.0 && effort >= 0.0 && t.dashPowerRate >= 0.0
    ensures PushesWith(m, p, t, effort, slowness, body, o, UsedPower(p, o.power, share), DashAccel(m, p, t, effort, slowness, body, o, share))
  {
    hide UsedPower, DirRate, Fabs, Maths.FromPolar, NormalizeAngle, PushesWith;
    var power, rate := UsedPower(p, o.power, share), DirRate(p, o.dir);
    Signed(effort, power, rate, t.dashPowerRate, slowness);
    RateRange(p, o.dir);
    DriveIs(effort, power, rate, t.dashPowerRate);
    hide Drive;
    Opposed(m, Fabs(Drive(effort, power, rate, t.dashPowerRate)) / slowness, Heading(body, o.dir));
    PushesIs(m, p, t, effort, slowness, body, o, power, Drive(effort, power, rate, t.dashPowerRate));
  }

  lemma PushesIs(m: Maths, p: ServerParams, t: HeteroPlayer, effort: real, slowness: real, body: real, o: Order, q: real, x: real)
    requires slowness > 0.0 && x == effort * q * DirRate(p, o.dir) * t.dashPowerRate
    ensures PushesWith(m, p, t, effort, slowness, body, o, q, m.FromPolar(x / slowness, Heading(body, o.dir)))
  {
    hide DirRate, NormalizeAngle;
  }

  lemma DriveIs(effort: real, power: real, rate: real, powerRate: real)
    ensures Drive(effort, power, rate, powerRate) == effort * power * rate * powerRate
  {}

  /** Each leg pushes with its own order and its own power, for all pairs of orders. */
  lemma LegsPushOwn(m: Maths, p: ServerParams, t: HeteroPlayer, stamina: real, effort: real, slowness: real, body: real, left: Order, right: Order)
    returns (l: real, r: real)
    requires slowness > 0.0 && stamina >= 0.0 && effort >= 0.0 && t.dashPowerRate >= 0.0
    requires Normalized(p, left.power) && Normalized(p, right.power) && Acts(left.power, right.power)
    ensures var accels := LegAccels(m, p, t, stamina, effort, slowness, body, left, right);
            && OwnPowers(stamina, t, left.power, right.power, l, r)
            && PushesWith(m, p, t, effort, slowness, body, left, l, accels.0)
            && PushesWith(m, p, t, effort, slowness, body, right, r, accels.1)
  {
    hide DashAccel, PushesWith, OwnPowers, UsedPower;
    var shares := Shares(Charge(stamina, t, left.power, right.power), Need(left.power), Need(right.power));
    var powers := Powers(p, t, stamina, left.power, right.power);
    l, r := powers.0, powers.1;
    PowersAreOwn(p, t, stamina, left.power, right.power);
    DashAlongHeading(m, p, t, effort, slowness, body, left, shares.0);
    DashAlongHeading(m, p, t, effort, slowness, body, right, shares.1);
  }

  lemma RateRange(p: ServerParams, dir: real)
    ensures 0.0 <= DirRate(p, dir) <= 1.0
  {}

  lemma Opposed(m: Maths, r: real, a: real)
    ensures m.FromPolar(r, a).Neg() == m.FromPolar(-r, a)
  {}

  lemma Signed(effort: real, power: real, rate: real, powerRate: real, slowness: real)
    requires slowness > 0.0
    ensures effort >= 0.0 && rate >= 0.0 && powerRate >= 0.0 ==>
              Fabs(Drive(effort, power, rate, powerRate)) / slowness ==
              (if power < 0.0 then -(Drive(effort, power, rate, powerRate) / slowness) else Drive(effort, power, rate, powerRate) / slowness)
  {
    if effort >= 0.0 && rate >= 0.0 && powerRate >= 0.0 {
      var x := Product(effort, rate);
      var y := Product(x, powerRate);
      var z := Drive(effort, power, rate, powerRate);
      assert z == power * y;
      SignedQuotient(z, slowness);
      if power < 0.0 { var w := Product(-power, y); } else { var w := Product(power, y); }
    }
  }

  lemma SignedQuotient(z: real, d: real)
    requires d > 0.0
    ensures -z / d == -(z / d)
  {
    var q := z / d;
    assert q * d == z;
    Cancel(-z / d, -q, d);
  }

  class Leg {
    var command: Command
    var dashPower: real
    var dashDir: real

    constructor ()
      ensures command == Idle && dashPower == dashDir == 0.0
    {
      command, dashPower, dashDir := Idle, 0.0, 0.0;
    }

    method ResetCommand()
      modifies this
      ensures command == Idle && dashPower == dashDir == 0.0
    {
      command, dashPower, dashDir := Idle, 0.0, 0.0;
    }

    /** The first command of a cycle stands; later ones change nothing. */
    method Dash(p: ServerParams, power: real, dir: real)
      modifies this
      ensures old(command) != Idle ==> command == old(command) && dashPower == old(dashPower) && dashDir == old(dashDir)
      ensures old(command) == Idle ==> command == DashCmd && dashPower == Bound(power, p.minDashPower, p.maxDashPower) && dashDir == NormalizeDashAngle(p.dashAngles, dir)
    {
      if command != Idle { return; }
      dashPower := DashPower(p, power);
      dashDir := NormalizeDashAngle(p.dashAngles, dir);
      command := DashCmd;
    }

    /** move, turn and tackle: any command that takes the leg without using it. */
    method Take(c: Command)
      requires c in {MoveCmd, TurnCmd, TackleCmd}
      modifies this`command
      ensures command == if old(command) == Idle then c else old(command)
    {
      if command != Idle { return; }
      command := c;
    }
  }

  class Player {
    const p: ServerParams
    const t: HeteroPlayer
    const leftLeg: Leg
    const rightLeg: Leg
    var stamina: real
    var recovery: real
    var effort: real
    var capacity: real
    var vel: PVector
    var accel: PVector
    var angleBody: real
    var angleBodyCommitted: real
    var dashCount: nat

    constructor (p: ServerParams, t: HeteroPlayer)
      ensures this.p == p && this.t == t && leftLeg != rightLeg && fresh(leftLeg) && fresh(rightLeg)
      ensures Vital() == Vitals(p.staminaMax, 1.0, t.effortMax, p.staminaCapacity)
    {
      this.p, this.t := p, t;
      leftLeg := new Leg();
      rightLeg := new Leg();
      stamina, recovery, effort, capacity := p.staminaMax, 1.0, t.effortMax, p.staminaCapacity;
      vel, accel, angleBody, angleBodyCommitted, dashCount := ORIGIN, ORIGIN, 0.0, 0.0, 0;
    }

    function Vital(): Vitals
      reads this
    {
      Vitals(stamina, recovery, effort, capacity)
    }

    /** The effect of the commands of both legs. */
    method ApplyDashEffect(m: Maths, slowness: real, turnNoise: real)
      requires slowness > 0.0 && stamina >= 0.0
      modifies this`stamina, this`accel, this`angleBody, this`dashCount
      ensures var dashing := leftLeg.command == DashCmd || rightLeg.command == DashCmd;
              var l, r := Order(leftLeg.dashPower, leftLeg.dashDir), Order(rightLeg.dashPower, rightLeg.dashDir);
              && dashCount == old(dashCount) + (if dashing then 1 else 0)
              && Vital() == (if dashing then AfterDash(t, old(Vital()), l.power, r.power) else old(Vital()))
              && (!dashing || !Acts(l.power, r.power) ==> accel == old(accel) && angleBody == old(angleBody))
              && (dashing && Acts(l.power, r.power) ==>
                    var (al, ar) := LegAccels(m, p, t, old(stamina), effort, slowness, angleBodyCommitted, l, r);
                    && (effort >= 0.0 && t.dashPowerRate >= 0.0 && Normalized(p, l.power) && Normalized(p, r.power) ==>
                          exists ql, qr ::
                            && OwnPowers(old(stamina), t, l.power, r.power, ql, qr)
                            && PushesWith(m, p, t, effort, slowness, angleBodyCommitted, l, ql, al)
                            && PushesWith(m, p, t, effort, slowness, angleBodyCommitted, r, qr, ar))
                    && accel == old(accel).Plus(Push(vel, al, ar))
                    && angleBody == (if leftLeg.command == DashCmd
                                     then TurnedBody(angleBodyCommitted, turnNoise, Omega(m, t, angleBodyCommitted, vel, al, ar))
                                     else old(angleBody)))
    {
      hide DashAccel, Push, Omega, TurnedBody, Share, Shares, PVector.Plus, PushesWith, OwnPowers;
      if leftLeg.command != DashCmd && rightLeg.command != DashCmd { return; }
      dashCount := dashCount + 1;
      var l, r := Order(leftLeg.dashPower, leftLeg.dashDir), Order(rightLeg.dashPower, rightLeg.dashDir);
      var leftConsumed := Need(l.power);
      var rightConsumed := Need(r.power);
      var consumed := leftConsumed + rightConsumed;
      if consumed < NO_EFFECT { return; }
      if effort >= 0.0 && t.dashPowerRate >= 0.0 && Normalized(p, l.power) && Normalized(p, r.power) {
        ghost var ql, qr := LegsPushOwn(m, p, t, stamina, effort, slowness, angleBodyCommitted, l, r);
      }
      consumed := Min(consumed, stamina + t.extraStamina);
      var shares := Shares(consumed, leftConsumed, rightConsumed);
      var leftAccel := DashAccel(m, p, t, effort, slowness, angleBodyCommitted, l, shares.0);
      var rightAccel := DashAccel(m, p, t, effort, slowness, angleBodyCommitted, r, shares.1);
      accel := accel.Plus(Push(vel, leftAccel, rightAccel));
      // the source asks twice for the left leg and never for the right one
      if leftLeg.command == DashCmd && leftLeg.command == DashCmd {
        angleBody := TurnedBody(angleBodyCommitted, turnNoise, Omega(m, t, angleBodyCommitted, vel, leftAccel, rightAccel));
      }
      stamina := Max(0.0, stamina - consumed);
    }

    method UpdateRecovery()
      modifies this`recovery
      ensures recovery == Recovery(p, old(Vital()))
    {
      if stamina <= p.recoverDecThr * p.staminaMax {
        if recovery > p.recoverMin { recovery := recovery - p.recoverDec; }
        if recovery < p.recoverMin { recovery := p.recoverMin; }
      }
    }

    method UpdateEffort()
      modifies this`effort
      ensures effort == Effort(p, t, old(Vital()))
    {
      if stamina <= p.effortDecThr * p.staminaMax {
        if effort > t.effortMin { effort := effort - p.effortDec; }
        if effort < t.effortMin { effort := t.effortMin; }
      }
      if stamina >= p.effortIncThr * p.staminaMax {
        if effort < t.effortMax {
          effort := effort + p.effortInc;
          if effort > t.effortMax { effort := t.effortMax; }
        }
      }
    }

    method UpdateStamina()
      modifies this`stamina, this`recovery, this`effort, this`capacity
      ensures Vital() == Update(p, t, old(Vital()))
    {
      hide Recovery, Effort;
      UpdateRecovery();
      ghost var v := old(Vital());
      assert Effort(p, t, Vital()) == Effort(p, t, v) by { EffortOnly(p, t, v, Vital()); }
      UpdateEffort();
      var staminaInc := Min(recovery * t.staminaIncMax, p.staminaMax - stamina);
      if p.staminaCapacity >= 0.0 {
        if staminaInc > capacity { staminaInc := capacity; }
      }
      stamina := Min(stamina + staminaInc, p.staminaMax);
      if p.staminaCapacity >= 0.0 { capacity := Max(capacity - staminaInc, 0.0); }
    }

    /** The effort does not depend on the recovery. */
    static lemma EffortOnly(p: ServerParams, t: HeteroPlayer, v: Vitals, w: Vitals)
      requires v.stamina == w.stamina && v.effort == w.effort
      ensures Effort(p, t, v) == Effort(p, t, w)
    {}
  }
}
