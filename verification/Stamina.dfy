/** Dashing and the stamina of a player (src/player.cpp, src/leg.cpp). */
module Stamina {
  import opened Plane
  import opened Numbers
  import opened Angles

  datatype Params = Params(
    staminaMax: real, staminaCapacity: real,
    recoverDecThr: real, recoverDec: real, recoverMin: real,
    effortDecThr: real, effortDec: real, effortIncThr: real, effortInc: real,
    minDashPower: real, maxDashPower: real,
    sideDashRate: real, backDashRate: real, dashAngles: DashAngles)
  {
    predicate Sound() {
      && staminaMax >= 0.0 && recoverDec >= 0.0 && recoverMin >= 0.0 && effortDec >= 0.0 && effortInc >= 0.0
      && minDashPower <= 0.0 <= maxDashPower && dashAngles.least <= dashAngles.most
    }
  }

  type ServerParams = p: Params | p.Sound()
    witness Params(0.0, 0.0, 0.0, 0.0, 0.0, 0.0, 0.0, 0.0, 0.0, 0.0, 0.0, 0.0, 0.0, DashAngles(0.0, 0.0, 0.0))

  datatype TypeParams = TypeParams(
    extraStamina: real, effortMin: real, effortMax: real, staminaIncMax: real, dashPowerRate: real, playerSize: real)
  {
    predicate Sound() {
      extraStamina > 0.0 && effortMin <= effortMax && staminaIncMax >= 0.0 && playerSize > 0.0
    }
  }

  type HeteroPlayer = t: TypeParams | t.Sound() witness TypeParams(1.0, 0.0, 0.0, 0.0, 0.0, 1.0)

  datatype Vitals = Vitals(stamina: real, recovery: real, effort: real, capacity: real)

  // ----- one dash

  const NO_EFFECT := 0.00001

  function DashPower(p: ServerParams, power: real): real { Bound(power, p.minDashPower, p.maxDashPower) }

  /** Backward power costs its amount, forward power half of it. */
  function Need(power: real): real { if power < 0.0 then -power else power * 0.5 }

  function Charge(stamina: real, t: HeteroPlayer, left: real, right: real): real {
    Min(Need(left) + Need(right), stamina + t.extraStamina)
  }

  /** The charge split between the legs; the second share is computed from the
      first share, not from the first need. */
  function Shares(charge: real, needLeft: real, needRight: real): (real, real)
    requires charge > 0.0 && needLeft >= 0.0 && needRight >= 0.0 && needLeft + needRight > 0.0
  {
    var left := Share(charge, needLeft, needLeft + needRight);
    ShareNonNeg(charge, needLeft, needLeft + needRight);
    (left, Share(charge, needRight, left + needRight))
  }

  function Share(charge: real, need: real, total: real): real
    requires total != 0.0
  {
    charge * need / total
  }

  lemma ShareNonNeg(c: real, a: real, s: real)
    requires c >= 0.0 && a >= 0.0 && s > 0.0
    ensures Share(c, a, s) >= 0.0
    ensures c > 0.0 && a > 0.0 ==> Share(c, a, s) > 0.0
    ensures Share(c, a, s) * s == c * a
  {
    var x := Product(c, a);
    var q := c * a / s;
    assert q * s == x;
    if q < 0.0 { var y := Product(-q, s); }
  }

  /** The power a leg acts with, given its share of the charge. */
  function UsedPower(p: ServerParams, commanded: real, share: real): real {
    DashPower(p, if commanded < 0.0 then -share else share * 2.0)
  }

  predicate Shortage(stamina: real, t: HeteroPlayer, left: real, right: real) {
    stamina + t.extraStamina < Need(left) + Need(right)
  }

  predicate Acts(left: real, right: real) { Need(left) + Need(right) >= NO_EFFECT }

  predicate Normalized(p: ServerParams, power: real) { p.minDashPower <= power <= p.maxDashPower }

  function Powers(p: ServerParams, t: HeteroPlayer, stamina: real, left: real, right: real): (real, real)
    requires stamina >= 0.0 && Acts(left, right)
  {
    var shares := Shares(Charge(stamina, t, left, right), Need(left), Need(right));
    (UsedPower(p, left, shares.0), UsedPower(p, right, shares.1))
  }

  // ----- the split

  /** Full charge: both shares are the needs. */
  lemma FullShares(a: real, b: real)
    requires a >= 0.0 && b >= 0.0 && a + b > 0.0
    ensures Shares(a + b, a, b) == (a, b)
  {
    var (l, r) := Shares(a + b, a, b);
    WholeShare(a + b, a);
    assert l == a;
    WholeShare(a + b, b);
  }

  lemma WholeShare(s: real, a: real)
    requires s != 0.0
    ensures Share(s, a, s) == a
  {
    var q := s * a / s;
    assert q * s == s * a;
    Cancel(q, a, s);
  }

  /** Short charge: neither share exceeds its need, and both have its sign; together
      they come to more than the charge, unless one leg needs nothing. Two equal
      needs get unequal shares. */
  lemma ShortShares(c: real, a: real, b: real)
    requires 0.0 < c < a + b && a >= 0.0 && b >= 0.0
    ensures var (l, r) := Shares(c, a, b);
            && 0.0 <= l <= a && 0.0 <= r <= b
            && (l > 0.0 <==> a > 0.0) && (r > 0.0 <==> b > 0.0)
            && c <= l + r && (l + r == c <==> a == 0.0 || b == 0.0)
            && (a == b ==> l < r)
  {
    var (l, r) := Shares(c, a, b);
    ShareNonNeg(c, a, a + b);
    ShareNonNeg(c, b, l + b);
    ShareBounds(c, a, b, l, r);
  }

  lemma Compare(x: real, y: real, s: real)
    requires s > 0.0
    ensures x * s <= y * s ==> x <= y
    ensures x * s < y * s ==> x < y
  {
    if x > y { var p := Product(x - y, s); }
  }

  lemma ShareBounds(c: real, a: real, b: real, l: real, r: real)
    requires 0.0 < c < a + b && a >= 0.0 && b >= 0.0 && l >= 0.0 && r >= 0.0 && l + b > 0.0
    requires a > 0.0 ==> l > 0.0
    requires b > 0.0 ==> r > 0.0
    requires l * (a + b) == c * a && r * (l + b) == c * b
    ensures l <= a && r <= b && (l > 0.0 ==> a > 0.0) && (r > 0.0 ==> b > 0.0)
    ensures c <= l + r && (l + r == c <==> a == 0.0 || b == 0.0)
    ensures a == b ==> l < r
  {
    LeftShare(c, a, b, l);
    RightShare(c, a, b, l, r);
    EqualNeeds(c, a, b, l);
  }

  /** The second share divides by l + b instead of a + b. */
  lemma RightShare(c: real, a: real, b: real, l: real, r: real)
    requires b >= 0.0 && 0.0 <= c - l <= b && l <= a && 0.0 < a + b && 0.0 < l + b
    requires (c - l) * (a + b) == c * b && r * (l + b) == c * b
    ensures c - l <= r <= b
    ensures l < a && l < c ==> c - l < r
    ensures l == a || l == c ==> c - l == r
  {
    RightDenominator(c, b, l);
    Dilated(c - l, a + b, a - l, r, b, l + b, c * b);
  }

  lemma EqualNeeds(c: real, a: real, b: real, l: real)
    requires 0.0 < c < a + b && l * (a + b) == c * a
    ensures a == b ==> c == l + l
  {
    if a == b { Halves(c, a, b, l); }
  }

  lemma LeftShare(c: real, a: real, b: real, l: real)
    requires 0.0 < c < a + b && a >= 0.0 && b >= 0.0 && l >= 0.0 && l * (a + b) == c * a
    ensures l <= a && (l == a <==> a == 0.0)
    ensures 0.0 <= c - l <= b && (c == l <==> b == 0.0)
    ensures (c - l) * (a + b) == c * b
  {
    var s := a + b;
    var p := Product(a, s - c);
    var q := Product(c, b);
    var q' := Product(s - c, b);
    assert (a - l) * s == p && (c - l) * s == q && (b - (c - l)) * s == q';
    SignOf(a - l, s, p);
    SignOf(c - l, s, q);
    SignOf(b - (c - l), s, q');
  }

  lemma RightDenominator(c: real, b: real, l: real)
    requires b >= 0.0 && 0.0 <= c - l <= b
    ensures c * b <= b * (l + b)
  {
    var z := Product(b, b - (c - l));
  }

  lemma Halves(c: real, a: real, b: real, l: real)
    requires a == b > 0.0 && l * (a + b) == c * a
    ensures c == l + l
  {
    assert (l + l) * a == c * a;
    Cancel(l + l, c, a);
  }

  lemma SignOf(x: real, s: real, p: real)
    requires s > 0.0 && x * s == p
    ensures (x > 0.0 <==> p > 0.0) && (x == 0.0 <==> p == 0.0)
  {
    if x > 0.0 { var q := Product(x, s); }
    if x < 0.0 { var q := Product(-x, s); }
  }

  lemma Dilated(x: real, s: real, y: real, r: real, b: real, u: real, w: real)
    requires x >= 0.0 && y >= 0.0 && s > 0.0 && u == s - y > 0.0
    requires r * u == w && x * s == w && w <= b * u
    ensures x <= r <= b
    ensures y > 0.0 && x > 0.0 ==> x < r
    ensures y == 0.0 || x == 0.0 ==> x == r
  {
    var p := Product(x, y);
    assert x * s == x * u + p;
    Compare(x, r, u);
    Compare(r, b, u);
    if y == 0.0 || x == 0.0 { Cancel(x, r, u); }
  }

  /** What each leg does with a dash command of power left and right: with enough
      stamina exactly what was commanded. In a shortage both legs keep the sign and
      stay within the commanded magnitude, so that the second normalisation changes
      nothing, but together they cost more than the charge unless only one leg
      pushes, and two equal commands come out unequal. */
  lemma DashSplit(p: ServerParams, t: HeteroPlayer, stamina: real, left: real, right: real)
    requires stamina >= 0.0 && Normalized(p, left) && Normalized(p, right) && Acts(left, right)
    ensures var (l, r) := Powers(p, t, stamina, left, right);
            var charge := Charge(stamina, t, left, right);
            && 0.0 < charge <= stamina + t.extraStamina
            && (!Shortage(stamina, t, left, right) ==> (l, r) == (left, right) && charge == Need(left) + Need(right))
            && (Shortage(stamina, t, left, right) ==>
                  && charge == stamina + t.extraStamina
                  && Fabs(l) <= Fabs(left) && Fabs(r) <= Fabs(right)
                  && (l > 0.0 <==> left > 0.0) && (l < 0.0 <==> left < 0.0)
                  && (r > 0.0 <==> right > 0.0) && (r < 0.0 <==> right < 0.0)
                  && charge <= Need(l) + Need(r)
                  && (Need(l) + Need(r) == charge <==> left == 0.0 || right == 0.0)
                  && (left == right ==> Fabs(l) < Fabs(r)))
  {
    var a, b := Need(left), Need(right);
    var charge := Charge(stamina, t, left, right);
    if Shortage(stamina, t, left, right) {
      ShortShares(charge, a, b);
      var (l, r) := Shares(charge, a, b);
      WithinCommand(p, left, l);
      WithinCommand(p, right, r);
    } else {
      FullShares(a, b);
    }
  }

  lemma WithinCommand(p: ServerParams, commanded: real, share: real)
    requires Normalized(p, commanded) && 0.0 <= share <= Need(commanded)
    ensures UsedPower(p, commanded, share) == if commanded < 0.0 then -share else share * 2.0
    ensures Need(UsedPower(p, commanded, share)) == share
  {}

  /** The powers l and r with which the legs act when they are commanded left and right:
      each its own command if the stamina and the extra stamina pay for both; otherwise each
      less, with its own sign, the left one by its part of what there is, and the right one
      by its part of that over what the left one takes and the right one asks. */
  ghost predicate OwnPowers(stamina: real, t: HeteroPlayer, left: real, right: real, l: real, r: real) {
    var a, b, c := CostOf(left), CostOf(right), stamina + t.extraStamina;
    if a + b <= c then l == left && r == right
    else
      && CostOf(l) * (a + b) == c * a && CostOf(r) * (CostOf(l) + b) == c * b
      && Fabs(l) <= Fabs(left) && Fabs(r) <= Fabs(right)
      && (l > 0.0 <==> left > 0.0) && (l < 0.0 <==> left < 0.0)
      && (r > 0.0 <==> right > 0.0) && (r < 0.0 <==> right < 0.0)
  }

  lemma CostIsNeed(power: real)
    ensures CostOf(power) == Need(power)
  {}

  lemma ShareEquations(c: real, a: real, b: real)
    requires c > 0.0 && a >= 0.0 && b >= 0.0 && a + b > 0.0
    ensures var (l, r) := Shares(c, a, b); l >= 0.0 && (l + b > 0.0 ==> l * (a + b) == c * a && r * (l + b) == c * b) && l + b > 0.0
  {
    var (l, r) := Shares(c, a, b);
    ShareNonNeg(c, a, a + b);
    ShareNonNeg(c, b, l + b);
  }

  lemma PowersAreOwn(p: ServerParams, t: HeteroPlayer, stamina: real, left: real, right: real)
    requires stamina >= 0.0 && Normalized(p, left) && Normalized(p, right) && Acts(left, right)
    ensures var (l, r) := Powers(p, t, stamina, left, right); OwnPowers(stamina, t, left, right, l, r)
  {
    hide OwnPowers, UsedPower, Shares, Share, Need, CostOf;
    var a, b := Need(left), Need(right);
    CostIsNeed(left);
    CostIsNeed(right);
    NeedNonNeg(left);
    NeedNonNeg(right);
    var charge := Charge(stamina, t, left, right);
    if Shortage(stamina, t, left, right) {
      ShortShares(charge, a, b);
      ShareEquations(charge, a, b);
      var shares := Shares(charge, a, b);
      WithinCommand(p, left, shares.0);
      WithinCommand(p, right, shares.1);
      ShortPowers(stamina, t, left, right, shares.0, shares.1);
    } else {
      FullShares(a, b);
      FullCommand(p, left);
      FullCommand(p, right);
      EnoughPowers(stamina, t, left, right);
    }
  }

  lemma NeedNonNeg(power: real)
    ensures Need(power) >= 0.0
  {}

  lemma FullCommand(p: ServerParams, power: real)
    requires Normalized(p, power)
    ensures UsedPower(p, power, Need(power)) == power
  {}

  lemma EnoughPowers(stamina: real, t: HeteroPlayer, left: real, right: real)
    requires CostOf(left) + CostOf(right) <= stamina + t.extraStamina
    ensures OwnPowers(stamina, t, left, right, left, right)
  {}

  lemma ShortPowers(stamina: real, t: HeteroPlayer, left: real, right: real, x: real, y: real)
    requires var a, b, c := CostOf(left), CostOf(right), stamina + t.extraStamina;
             && c < a + b && 0.0 <= x <= a && 0.0 <= y <= b && (x > 0.0 <==> a > 0.0) && (y > 0.0 <==> b > 0.0)
             && x * (a + b) == c * a && y * (x + b) == c * b
    ensures OwnPowers(stamina, t, left, right, if left < 0.0 then -x else x * 2.0, if right < 0.0 then -y else y * 2.0)
  {
    var l, r := if left < 0.0 then -x else x * 2.0, if right < 0.0 then -y else y * 2.0;
    assert CostOf(l) == x && CostOf(r) == y;
  }

  // ----- recovery

  /** A threshold, given as a part of the maximum. */
  function Level(p: ServerParams, part: real): real { part * p.staminaMax }

  lemma LevelIs(p: ServerParams)
    ensures forall part :: Level(p, part) == part * p.staminaMax
  {}

  function Recovery(p: ServerParams, v: Vitals): real {
    if v.stamina <= Level(p, p.recoverDecThr) then
      Max(if v.recovery > p.recoverMin then v.recovery - p.recoverDec else v.recovery, p.recoverMin)
    else v.recovery
  }

  function Effort(p: ServerParams, t: HeteroPlayer, v: Vitals): real {
    var tired :=
      if v.stamina <= Level(p, p.effortDecThr) then
        Max(if v.effort > t.effortMin then v.effort - p.effortDec else v.effort, t.effortMin)
      else v.effort;
    if v.stamina >= Level(p, p.effortIncThr) && tired < t.effortMax
    then Min(tired + p.effortInc, t.effortMax)
    else tired
  }

  function Regained(p: ServerParams, t: HeteroPlayer, v: Vitals): real {
    var inc := Min(Recovery(p, v) * t.staminaIncMax, p.staminaMax - v.stamina);
    if p.staminaCapacity >= 0.0 && inc > v.capacity then v.capacity else inc
  }

  function Update(p: ServerParams, t: HeteroPlayer, v: Vitals): Vitals {
    var inc := Regained(p, t, v);
    Vitals(Min(v.stamina + inc, p.staminaMax), Recovery(p, v), Effort(p, t, v),
           if p.staminaCapacity >= 0.0 then Max(v.capacity - inc, 0.0) else v.capacity)
  }

  function AfterDash(t: HeteroPlayer, v: Vitals, left: real, right: real): Vitals {
    if !Acts(left, right) then v
    else v.(stamina := Max(0.0, v.stamina - Charge(v.stamina, t, left, right)))
  }

  // ----- the ledger

  datatype Event = Dash(left: real, right: real) | Recover

  function Apply(p: ServerParams, t: HeteroPlayer, v: Vitals, e: Event): Vitals {
    match e
    case Dash(left, right) => AfterDash(t, v, left, right)
    case Recover => Update(p, t, v)
  }

  function Run(p: ServerParams, t: HeteroPlayer, v: Vitals, es: seq<Event>): Vitals
    decreases |es|
  {
    if es == [] then v else Run(p, t, Apply(p, t, v, es[0]), es[1..])
  }

  /** What a dash takes out of the stamina: its need, as far as there is stamina. The
      extra stamina that helps to power it is in no store. */
  function Drain(stamina: real, left: real, right: real): real {
    var cost := CostOf(left) + CostOf(right);
    if cost < 0.00001 then 0.0 else if cost < stamina then cost else stamina
  }

  /** Forward power costs half its amount, backward power all of it. */
  function CostOf(power: real): real { if power < 0.0 then -power else power / 2.0 }

  /** What a dash may spend on power. */
  function Spent(t: HeteroPlayer, stamina: real, left: real, right: real): real {
    if Acts(left, right) then Charge(stamina, t, left, right) else 0.0
  }

  /** The stamina drained, the power charged, and the dashes with an effect, in a run. */
  function Drained(p: ServerParams, t: HeteroPlayer, v: Vitals, es: seq<Event>): real
    decreases |es|
  {
    if es == [] then 0.0
    else
      (if es[0].Dash? then Drain(v.stamina, es[0].left, es[0].right) else 0.0)
      + Drained(p, t, Apply(p, t, v, es[0]), es[1..])
  }

  function Charged(p: ServerParams, t: HeteroPlayer, v: Vitals, es: seq<Event>): real
    decreases |es|
  {
    if es == [] then 0.0
    else
      (if es[0].Dash? then Spent(t, v.stamina, es[0].left, es[0].right) else 0.0)
      + Charged(p, t, Apply(p, t, v, es[0]), es[1..])
  }

  function Dashes(es: seq<Event>): nat {
    if es == [] then 0 else (if es[0].Dash? && Acts(es[0].left, es[0].right) then 1 else 0) + Dashes(es[1..])
  }

  /** Without a limit on the reserve (a negative staminaCapacity), the reserve means
      nothing. */
  ghost predicate Valid(p: ServerParams, t: HeteroPlayer, v: Vitals) {
    && 0.0 <= v.stamina <= p.staminaMax && (p.staminaCapacity >= 0.0 ==> 0.0 <= v.capacity)
    && p.recoverMin <= v.recovery && t.effortMin <= v.effort <= t.effortMax
  }

  lemma RegainedRange(p: ServerParams, t: HeteroPlayer, v: Vitals)
    requires Valid(p, t, v)
    ensures 0.0 <= Regained(p, t, v) <= p.staminaMax - v.stamina
    ensures p.staminaCapacity >= 0.0 ==> Regained(p, t, v) <= v.capacity
  {
    var x := Product(Recovery(p, v), t.staminaIncMax);
  }

  /** A dash takes its drain from the stamina and nothing from the reserve; and at most
      the extra stamina comes on top. */
  lemma DashDrains(p: ServerParams, t: HeteroPlayer, v: Vitals, left: real, right: real)
    requires Valid(p, t, v)
    ensures var v' := AfterDash(t, v, left, right);
            var drain := Drain(v.stamina, left, right);
            && Valid(p, t, v') && v' == v.(stamina := v.stamina - drain)
            && 0.0 <= drain <= Spent(t, v.stamina, left, right) <= drain + (if Acts(left, right) then t.extraStamina else 0.0)
  {}

  lemma UpdateKeeps(p: ServerParams, t: HeteroPlayer, v: Vitals)
    requires Valid(p, t, v)
    ensures var v' := Update(p, t, v);
            && Valid(p, t, v') && v'.recovery <= v.recovery && v.stamina <= v'.stamina
            && (p.staminaCapacity >= 0.0 ==> v'.stamina + v'.capacity == v.stamina + v.capacity)
            && (p.staminaCapacity < 0.0 ==> v'.capacity == v.capacity)
  {
    RegainedRange(p, t, v);
  }

  /** The books balance over any run of dashes and recoveries: what is in stamina and
      in reserve, plus the drain of every dash, never changes. Recovery only falls, and
      every quantity keeps its range. */
  lemma {:induction false} Ledger(p: ServerParams, t: HeteroPlayer, v: Vitals, es: seq<Event>)
    requires Valid(p, t, v)
    ensures var v' := Run(p, t, v, es);
            && Valid(p, t, v') && v'.recovery <= v.recovery
            && Drained(p, t, v, es) >= 0.0
            && (p.staminaCapacity >= 0.0 ==>
                  v'.stamina + v'.capacity + Drained(p, t, v, es) == v.stamina + v.capacity)
    decreases |es|
  {
    if es == [] {
    } else {
      var v1 := Apply(p, t, v, es[0]);
      match es[0] {
        case Dash(left, right) => DashDrains(p, t, v, left, right);
        case Recover => UpdateKeeps(p, t, v);
      }
      hide Valid, Drain, Update, AfterDash;
      Ledger(p, t, v1, es[1..]);
    }
  }

  /** The extra stamina of n dashes. */
  function Extras(t: HeteroPlayer, n: nat): real { n as real * t.extraStamina }

  lemma ExtrasMore(t: HeteroPlayer, n: nat)
    ensures Extras(t, n + 1) == Extras(t, n) + t.extraStamina && Extras(t, 0) == 0.0
  {
    OneMore(n, t.extraStamina);
  }

  /** All the power charged in a run is paid from the drain, but for at most the extra
      stamina in every dash with an effect. */
  lemma {:induction false} ChargedBounded(p: ServerParams, t: HeteroPlayer, v: Vitals, es: seq<Event>)
    requires Valid(p, t, v)
    ensures Drained(p, t, v, es) <= Charged(p, t, v, es) <= Drained(p, t, v, es) + Extras(t, Dashes(es))
    decreases |es|
  {
    hide Extras, Drain, Spent, Need, Update, AfterDash;
    ExtrasMore(t, 0);
    if es == [] {
    } else {
      var v1 := Apply(p, t, v, es[0]);
      StaysValid(p, t, v, es[0]);
      if es[0].Dash? { DashDrains(p, t, v, es[0].left, es[0].right); }
      ExtrasMore(t, Dashes(es[1..]));
      hide Valid, Acts;
      ChargedBounded(p, t, v1, es[1..]);
    }
  }

  lemma OneMore(n: nat, x: real)
    ensures (n + 1) as real * x == n as real * x + x
  {}

  /** So with a limited reserve, a run charges at most what was in both stores at its
      start, and the extra stamina once for every dash with an effect. */
  lemma ChargesPaid(p: ServerParams, t: HeteroPlayer, v: Vitals, es: seq<Event>)
    requires Valid(p, t, v) && p.staminaCapacity >= 0.0
    ensures Charged(p, t, v, es) <= v.stamina + v.capacity + Extras(t, Dashes(es))
  {
    ChargedBounded(p, t, v, es);
    Ledger(p, t, v, es);
  }

  // ----- fatigue over runs

  /** How many updates of a run find the stamina at or below, or at or above, a level. */
  function AtOrBelow(p: ServerParams, t: HeteroPlayer, v: Vitals, es: seq<Event>, level: real): nat
    decreases |es|
  {
    if es == [] then 0
    else
      (if es[0].Recover? && v.stamina <= level then 1 else 0) + AtOrBelow(p, t, Apply(p, t, v, es[0]), es[1..], level)
  }

  function AtOrAbove(p: ServerParams, t: HeteroPlayer, v: Vitals, es: seq<Event>, level: real): nat
    decreases |es|
  {
    if es == [] then 0
    else
      (if es[0].Recover? && v.stamina >= level then 1 else 0) + AtOrAbove(p, t, Apply(p, t, v, es[0]), es[1..], level)
  }

  /** Steps of equal size down to a floor, or up to a ceiling. */
  function Lowered(x: real, n: nat, step: real, floor: real): real { Max(floor, x - n as real * step) }

  function Raised(x: real, n: nat, step: real, ceiling: real): real { Min(ceiling, x + n as real * step) }

  lemma LoweredMore(x: real, n: nat, step: real, floor: real)
    requires step >= 0.0 && x >= floor
    ensures Lowered(Lowered(x, 1, step, floor), n, step, floor) == Lowered(x, n + 1, step, floor)
    ensures Lowered(x, 0, step, floor) == x
  {
    OneMore(n, step);
    var p := Product(n as real, step);
  }

  lemma RaisedMore(x: real, n: nat, step: real, ceiling: real)
    requires step >= 0.0 && x <= ceiling
    ensures Raised(Raised(x, 1, step, ceiling), n, step, ceiling) == Raised(x, n + 1, step, ceiling)
    ensures Raised(x, 0, step, ceiling) == x
  {
    OneMore(n, step);
    var p := Product(n as real, step);
  }

  lemma StaysValid(p: ServerParams, t: HeteroPlayer, v: Vitals, e: Event)
    requires Valid(p, t, v)
    ensures Valid(p, t, Apply(p, t, v, e))
  {
    match e {
      case Dash(left, right) => DashDrains(p, t, v, left, right);
      case Recover => UpdateKeeps(p, t, v);
    }
  }

  lemma RecoveryStep(p: ServerParams, t: HeteroPlayer, v: Vitals, e: Event)
    requires Valid(p, t, v)
    ensures Apply(p, t, v, e).recovery
         == if e.Recover? && v.stamina <= Level(p, p.recoverDecThr) then Lowered(v.recovery, 1, p.recoverDec, p.recoverMin)
            else v.recovery
  {
    hide Level;
  }

  lemma {:induction false} RecoveryCountsAt(p: ServerParams, t: HeteroPlayer, v: Vitals, es: seq<Event>, level: real)
    requires level == Level(p, p.recoverDecThr)
    requires Valid(p, t, v)
    ensures Run(p, t, v, es).recovery
         == Lowered(v.recovery, AtOrBelow(p, t, v, es, level), p.recoverDec, p.recoverMin)
    decreases |es|
  {
    hide Level, Lowered;
    if es == [] {
      LoweredMore(v.recovery, 0, p.recoverDec, p.recoverMin);
    } else {
      var v1 := Apply(p, t, v, es[0]);
      StaysValid(p, t, v, es[0]);
      RecoveryStep(p, t, v, es[0]);
      RecoveryCountsAt(p, t, v1, es[1..], level);
      LoweredMore(v.recovery, AtOrBelow(p, t, v1, es[1..], level), p.recoverDec, p.recoverMin);
    }
  }

  /** Recovery after any run: one step down for every update that finds the stamina at or
      below the threshold, as far as the minimum, however the dashes fall in between. */
  lemma RecoveryCounts(p: ServerParams, t: HeteroPlayer, v: Vitals, es: seq<Event>)
    requires Valid(p, t, v)
    ensures Run(p, t, v, es).recovery
         == Lowered(v.recovery, AtOrBelow(p, t, v, es, p.recoverDecThr * p.staminaMax), p.recoverDec, p.recoverMin)
  {
    hide Run, AtOrBelow, AtOrAbove, Lowered, Raised, Valid;
    RecoveryCountsAt(p, t, v, es, p.recoverDecThr * p.staminaMax);
  }

  lemma EffortStep(p: ServerParams, t: HeteroPlayer, v: Vitals, e: Event)
    requires Valid(p, t, v)
    ensures var low, high := e.Recover? && v.stamina <= Level(p, p.effortDecThr), e.Recover? && v.stamina >= Level(p, p.effortIncThr);
            var effort := Apply(p, t, v, e).effort;
            && (low && !high ==> effort == Lowered(v.effort, 1, p.effortDec, t.effortMin))
            && (high && !low ==> effort == Raised(v.effort, 1, p.effortInc, t.effortMax))
            && (!low && !high ==> effort == v.effort)
  {
    hide Level;
  }

  lemma {:induction false} EffortFallsAt(p: ServerParams, t: HeteroPlayer, v: Vitals, es: seq<Event>, low: real, high: real)
    requires low == Level(p, p.effortDecThr) && high == Level(p, p.effortIncThr)
    requires Valid(p, t, v) && AtOrAbove(p, t, v, es, high) == 0
    ensures Run(p, t, v, es).effort
         == Lowered(v.effort, AtOrBelow(p, t, v, es, low), p.effortDec, t.effortMin)
    decreases |es|
  {
    hide Level, Lowered;
    if es == [] {
      LoweredMore(v.effort, 0, p.effortDec, t.effortMin);
    } else {
      var v1 := Apply(p, t, v, es[0]);
      StaysValid(p, t, v, es[0]);
      EffortStep(p, t, v, es[0]);
      EffortFallsAt(p, t, v1, es[1..], low, high);
      LoweredMore(v.effort, AtOrBelow(p, t, v1, es[1..], low), p.effortDec, t.effortMin);
    }
  }

  /** Effort after any run in which no update finds the stamina at or above the upper
      threshold: one step down for every update at or below the lower one. */
  lemma EffortFalls(p: ServerParams, t: HeteroPlayer, v: Vitals, es: seq<Event>)
    requires Valid(p, t, v) && AtOrAbove(p, t, v, es, p.effortIncThr * p.staminaMax) == 0
    ensures Run(p, t, v, es).effort
         == Lowered(v.effort, AtOrBelow(p, t, v, es, p.effortDecThr * p.staminaMax), p.effortDec, t.effortMin)
  {
    hide Run, AtOrBelow, AtOrAbove, Lowered, Raised, Valid;
    EffortFallsAt(p, t, v, es, p.effortDecThr * p.staminaMax, p.effortIncThr * p.staminaMax);
  }

  lemma {:induction false} EffortRisesAt(p: ServerParams, t: HeteroPlayer, v: Vitals, es: seq<Event>, low: real, high: real)
    requires low == Level(p, p.effortDecThr) && high == Level(p, p.effortIncThr)
    requires Valid(p, t, v) && AtOrBelow(p, t, v, es, low) == 0
    ensures Run(p, t, v, es).effort
         == Raised(v.effort, AtOrAbove(p, t, v, es, high), p.effortInc, t.effortMax)
    decreases |es|
  {
    hide Level, Raised;
    if es == [] {
      RaisedMore(v.effort, 0, p.effortInc, t.effortMax);
    } else {
      var v1 := Apply(p, t, v, es[0]);
      StaysValid(p, t, v, es[0]);
      EffortStep(p, t, v, es[0]);
      EffortRisesAt(p, t, v1, es[1..], low, high);
      RaisedMore(v.effort, AtOrAbove(p, t, v1, es[1..], high), p.effortInc, t.effortMax);
    }
  }

  /** And the other way round: one step up for every update at or above the upper one, if
      none is at or below the lower one. */
  lemma EffortRises(p: ServerParams, t: HeteroPlayer, v: Vitals, es: seq<Event>)
    requires Valid(p, t, v) && AtOrBelow(p, t, v, es, p.effortDecThr * p.staminaMax) == 0
    ensures Run(p, t, v, es).effort
         == Raised(v.effort, AtOrAbove(p, t, v, es, p.effortIncThr * p.staminaMax), p.effortInc, t.effortMax)
  {
    hide Run, AtOrBelow, AtOrAbove, Lowered, Raised, Valid;
    EffortRisesAt(p, t, v, es, p.effortDecThr * p.staminaMax, p.effortIncThr * p.staminaMax);
  }

  /** What an update does to the effort, by the thresholds its stamina meets. */
  datatype Swing = Swing(down: bool, up: bool)

  function SwingOf(p: ServerParams, v: Vitals, e: Event): Swing {
    Swing(e.Recover? && v.stamina <= p.effortDecThr * p.staminaMax, e.Recover? && v.stamina >= p.effortIncThr * p.staminaMax)
  }

  function Swings(p: ServerParams, t: HeteroPlayer, v: Vitals, es: seq<Event>): seq<Swing>
    decreases |es|
  {
    if es == [] then [] else [SwingOf(p, v, es[0])] + Swings(p, t, Apply(p, t, v, es[0]), es[1..])
  }

  /** A walk in steps of fixed size between two bounds. */
  function Walk(p: ServerParams, t: HeteroPlayer, x: real, swings: seq<Swing>): real
    decreases |swings|
  {
    if swings == [] then x
    else
      var y := if swings[0].down then Lowered(x, 1, p.effortDec, t.effortMin) else x;
      Walk(p, t, if swings[0].up then Raised(y, 1, p.effortInc, t.effortMax) else y, swings[1..])
  }

  lemma SwingStep(p: ServerParams, t: HeteroPlayer, v: Vitals, e: Event)
    requires Valid(p, t, v)
    ensures var swing := SwingOf(p, v, e);
            var y := if swing.down then Lowered(v.effort, 1, p.effortDec, t.effortMin) else v.effort;
            Apply(p, t, v, e).effort == if swing.up then Raised(y, 1, p.effortInc, t.effortMax) else y
  {
    LevelIs(p);
    hide Level;
  }

  /** Effort after any run whatever: a walk between its bounds, one step down for every
      update at or below the lower threshold, one up for every update at or above the
      upper one; dashes do not move it. */
  lemma {:induction false} EffortWalks(p: ServerParams, t: HeteroPlayer, v: Vitals, es: seq<Event>)
    requires Valid(p, t, v)
    ensures Run(p, t, v, es).effort == Walk(p, t, v.effort, Swings(p, t, v, es))
    decreases |es|
  {
    if es == [] {
    } else {
      StaysValid(p, t, v, es[0]);
      SwingStep(p, t, v, es[0]);
      hide SwingOf, Lowered, Raised, Valid, Apply;
      var v1 := Apply(p, t, v, es[0]);
      EffortWalks(p, t, v1, es[1..]);
      var rest := Swings(p, t, v1, es[1..]);
      assert Swings(p, t, v, es)[1..] == rest;
    }
  }

  lemma BetweenStep(p: ServerParams, t: HeteroPlayer, v: Vitals, e: Event)
    requires Valid(p, t, v)
    ensures var swing, effort := SwingOf(p, v, e), Apply(p, t, v, e).effort;
            && (if swing.down then Lowered(v.effort, 1, p.effortDec, t.effortMin) else v.effort) <= effort
            && effort <= if swing.up then Raised(v.effort, 1, p.effortInc, t.effortMax) else v.effort
  {
    LevelIs(p);
    SwingStep(p, t, v, e);
  }

  lemma LoweredOrder(x: real, y: real, n: nat, step: real, floor: real)
    requires x <= y
    ensures Lowered(x, n, step, floor) <= Lowered(y, n, step, floor)
  {}

  lemma RaisedOrder(x: real, y: real, n: nat, step: real, ceiling: real)
    requires x <= y
    ensures Raised(x, n, step, ceiling) <= Raised(y, n, step, ceiling)
  {}

  lemma SwingIs(p: ServerParams, v: Vitals, e: Event, low: real, high: real)
    requires low == Level(p, p.effortDecThr) && high == Level(p, p.effortIncThr)
    ensures SwingOf(p, v, e) == Swing(e.Recover? && v.stamina <= low, e.Recover? && v.stamina >= high)
  {
    LevelIs(p);
  }

  lemma {:induction false} EffortBetweenAt(p: ServerParams, t: HeteroPlayer, v: Vitals, es: seq<Event>, low: real, high: real)
    requires low == Level(p, p.effortDecThr) && high == Level(p, p.effortIncThr)
    requires Valid(p, t, v)
    ensures Lowered(v.effort, AtOrBelow(p, t, v, es, low), p.effortDec, t.effortMin) <= Run(p, t, v, es).effort
    ensures Run(p, t, v, es).effort <= Raised(v.effort, AtOrAbove(p, t, v, es, high), p.effortInc, t.effortMax)
    decreases |es|
  {
    hide Level, Lowered, Raised;
    if es == [] {
      LoweredMore(v.effort, 0, p.effortDec, t.effortMin);
      RaisedMore(v.effort, 0, p.effortInc, t.effortMax);
    } else {
      var v1 := Apply(p, t, v, es[0]);
      StaysValid(p, t, v, es[0]);
      BetweenStep(p, t, v, es[0]);
      SwingIs(p, v, es[0], low, high);
      hide SwingOf;
      EffortBetweenAt(p, t, v1, es[1..], low, high);
      var lows := AtOrBelow(p, t, v1, es[1..], low);
      var highs := AtOrAbove(p, t, v1, es[1..], high);
      LoweredMore(v.effort, lows, p.effortDec, t.effortMin);
      RaisedMore(v.effort, highs, p.effortInc, t.effortMax);
      var swing := SwingOf(p, v, es[0]);
      LoweredOrder(if swing.down then Lowered(v.effort, 1, p.effortDec, t.effortMin) else v.effort, v1.effort, lows, p.effortDec, t.effortMin);
      RaisedOrder(v1.effort, if swing.up then Raised(v.effort, 1, p.effortInc, t.effortMax) else v.effort, highs, p.effortInc, t.effortMax);
    }
  }

  /** So after any run effort lies between what the downward steps alone and what the
      upward steps alone would make of it. */
  lemma EffortBetween(p: ServerParams, t: HeteroPlayer, v: Vitals, es: seq<Event>)
    requires Valid(p, t, v)
    ensures Lowered(v.effort, AtOrBelow(p, t, v, es, p.effortDecThr * p.staminaMax), p.effortDec, t.effortMin) <= Run(p, t, v, es).effort
    ensures Run(p, t, v, es).effort <= Raised(v.effort, AtOrAbove(p, t, v, es, p.effortIncThr * p.staminaMax), p.effortInc, t.effortMax)
  {
    hide Run, AtOrBelow, AtOrAbove, Lowered, Raised, Valid;
    EffortBetweenAt(p, t, v, es, p.effortDecThr * p.staminaMax, p.effortIncThr * p.staminaMax);
  }

  // ----- how much an update brings back

  /** An update brings back the new recovery times staminaIncMax, exactly, unless that
      fills the stamina or empties the reserve; and never more. */
  lemma GainsAtRate(p: ServerParams, t: HeteroPlayer, v: Vitals)
    requires Valid(p, t, v)
    ensures var v' := Update(p, t, v);
            var rate := v'.recovery * t.staminaIncMax;
            && 0.0 <= v'.stamina - v.stamina <= rate
            && (v'.stamina - v.stamina == rate || v'.stamina == p.staminaMax || (p.staminaCapacity >= 0.0 && v'.capacity == 0.0))
  {
    RegainedRange(p, t, v);
    var x := Product(Recovery(p, v), t.staminaIncMax);
  }

  function Recoveries(es: seq<Event>): nat {
    if es == [] then 0 else (if es[0].Recover? then 1 else 0) + Recoveries(es[1..])
  }

  function Total(n: nat, rate: real): real { n as real * rate }

  lemma TotalMore(n: nat, rate: real, rate': real)
    requires rate' <= rate
    ensures Total(n, rate') + rate <= Total(n + 1, rate) && Total(n, rate') <= Total(n, rate) && Total(0, rate) == 0.0
  {
    var p := Product(n as real, rate - rate');
    OneMore(n, rate);
  }

  lemma GainStep(p: ServerParams, t: HeteroPlayer, v: Vitals, e: Event)
    requires Valid(p, t, v)
    ensures var v1 := Apply(p, t, v, e);
            && v1.stamina + (if e.Dash? then Drain(v.stamina, e.left, e.right) else 0.0)
               <= v.stamina + (if e.Recover? then v.recovery * t.staminaIncMax else 0.0)
            && v1.recovery * t.staminaIncMax <= v.recovery * t.staminaIncMax
  {
    hide Drain, AfterDash, Update;
    match e {
      case Dash(left, right) => DashDrains(p, t, v, left, right);
      case Recover =>
        UpdateKeeps(p, t, v);
        GainsAtRate(p, t, v);
        Slower(Update(p, t, v).recovery, v.recovery, t.staminaIncMax);
    }
  }

  /** Over any run, what is gained and what the dashes drained of it is at most the initial
      recovery times staminaIncMax for every update. */
  lemma {:induction false} GainsBounded(p: ServerParams, t: HeteroPlayer, v: Vitals, es: seq<Event>)
    requires Valid(p, t, v)
    ensures Run(p, t, v, es).stamina + Drained(p, t, v, es)
         <= v.stamina + Total(Recoveries(es), v.recovery * t.staminaIncMax)
    decreases |es|
  {
    hide Total, Drain, Update, AfterDash;
    if es == [] {
      TotalMore(0, v.recovery * t.staminaIncMax, v.recovery * t.staminaIncMax);
    } else {
      var v1 := Apply(p, t, v, es[0]);
      StaysValid(p, t, v, es[0]);
      GainStep(p, t, v, es[0]);
      hide Valid, Apply;
      TotalMore(Recoveries(es[1..]), v.recovery * t.staminaIncMax, v1.recovery * t.staminaIncMax);
      GainsBounded(p, t, v1, es[1..]);
    }
  }

  lemma Slower(a: real, b: real, c: real)
    requires a <= b && c >= 0.0
    ensures a * c <= b * c
  {
    var p := Product(b - a, c);
  }

  // ----- rest

  function Rest(n: nat): seq<Event> { seq(n, i => Recover) }

  /** The least that an update brings back as long as there is room and reserve. */
  function LeastGain(p: ServerParams, t: HeteroPlayer): real { p.recoverMin * t.staminaIncMax }

  /** Rest restores: n updates without a dash bring back at least n times the least
      recovery, until stamina is full or the reserve is used up. */
  lemma {:induction false} RestRestores(p: ServerParams, t: HeteroPlayer, v: Vitals, n: nat)
    requires Valid(p, t, v)
    ensures var v' := Run(p, t, v, Rest(n));
            && v.stamina <= v'.stamina
            && (v'.stamina == p.staminaMax || (p.staminaCapacity >= 0.0 && v'.capacity == 0.0)
                || v'.stamina >= v.stamina + n as real * LeastGain(p, t))
    decreases n
  {
    hide Update, LeastGain, Regained;
    if n == 0 {
      assert Rest(0) == [];
    } else {
      var v1 := Update(p, t, v);
      UpdateKeeps(p, t, v);
      RegainedRange(p, t, v);
      assert Rest(n)[0] == Recover && Rest(n)[1..] == Rest(n - 1);
      RestRestores(p, t, v1, n - 1);
      MinimumGain(p, t, v);
      FullStays(p, t, v1, n - 1);
      assert n as real * LeastGain(p, t) == (n - 1) as real * LeastGain(p, t) + LeastGain(p, t);
    }
  }

  lemma MinimumGain(p: ServerParams, t: HeteroPlayer, v: Vitals)
    requires Valid(p, t, v)
    ensures var v' := Update(p, t, v);
            v.stamina <= v'.stamina &&
            (v'.stamina == p.staminaMax || (p.staminaCapacity >= 0.0 && v'.capacity == 0.0)
            || v'.stamina >= v.stamina + LeastGain(p, t))
  {
    var x := Product(Recovery(p, v) - p.recoverMin, t.staminaIncMax);
    var y := Product(Recovery(p, v), t.staminaIncMax);
  }

  lemma {:induction false} FullStays(p: ServerParams, t: HeteroPlayer, v: Vitals, n: nat)
    requires Valid(p, t, v)
    ensures v.stamina == p.staminaMax ==> Run(p, t, v, Rest(n)).stamina == p.staminaMax
    ensures p.staminaCapacity >= 0.0 && v.capacity == 0.0 ==> Run(p, t, v, Rest(n)).capacity == 0.0
    decreases n
  {
    if n == 0 {
      assert Rest(0) == [];
    } else {
      UpdateKeeps(p, t, v);
      RegainedRange(p, t, v);
      assert Rest(n)[0] == Recover && Rest(n)[1..] == Rest(n - 1);
      FullStays(p, t, Update(p, t, v), n - 1);
    }
  }
}
