/**
 * Solar geometry, the Liu & Jordan hourly decomposition and the NOCT
 * thermal derating, as computed hour by hour in both the temperature view
 * and the performance view.
 *
 * The trigonometric functions and the Liu & Jordan ratio r_t are not
 * interpreted: they arrive as the fields of a `Trig` value, and only what
 * the code does around them (the clamp before arccos, the unit
 * conversions, the sunset gate, `max(0, r)`) is modelled.
 */
module Solar {

  type PosReal = x: real | x > 0.0 witness 1.0

  /**
   * `Math.PI`, `Math.sin`, `Math.tan`, `Math.acos`, and the ratio
   * `r_t = (pi/24) (cos w - cos ws) / (sin ws - ws cos ws)` for an hour angle
   * `w` in degrees and a sunset hour angle `ws` in radians.
   */
  datatype Trig = Trig(
    pi: PosReal,
    sin: real -> real,
    tan: real -> real,
    acos: real -> real,
    liuJordan: (real, real) -> real)

  /** Panel parameters: area A (m2), efficiency eta, temperature coefficient beta (1/C), NOCT (C). */
  datatype Panel = Panel(area: real, efficiency: real, tempCoeff: real, noct: real)

  /** `{delta, phiRad, deltaRad, ws, wsDeg}` and the clamped cosine of the sunset hour angle. */
  datatype SunGeometry = SunGeometry(
    delta: real, phiRad: real, deltaRad: real, clampedCosWs: real, ws: real, wsDeg: real)

  /** The irradiance and temperature of one day, with the sun's geometry on that day. */
  datatype Day = Day(ghi: real, ambientTemp: real, g: SunGeometry)

  function Abs(x: real): real { if x < 0.0 then -x else x }

  function Max0(x: real): (r: real)
    ensures r >= 0.0 && r >= x
    ensures r == 0.0 || r == x
  {
    if x > 0.0 then x else 0.0
  }

  /** `Math.max(-1, Math.min(1, x))`: the argument handed to arccos. */
  function Clamp(x: real): (c: real)
    ensures -1.0 <= c <= 1.0
    ensures -1.0 <= x <= 1.0 ==> c == x
    ensures x < -1.0 ==> c == -1.0
    ensures x > 1.0 ==> c == 1.0
  {
    if x > 1.0 then 1.0 else if x < -1.0 then -1.0 else x
  }

  /** The angle `360/365 (284 + n)` degrees, in radians. */
  function DeclinationAngle(trig: Trig, dayOfYear: int): real
  {
    (360.0 / 365.0) * ((284 + dayOfYear) as real) * (trig.pi / 180.0)
  }

  /** Cooper's declination in degrees: `23.45 sin(360/365 (284 + n))`. */
  function Declination(trig: Trig, dayOfYear: int): real
  {
    23.45 * trig.sin(DeclinationAngle(trig, dayOfYear))
  }

  /**
   * The sun's geometry for a latitude (degrees) and a day of the year: the
   * sunset hour angle is the arccos of `-tan(phi) tan(delta)` clamped into
   * [-1, 1], in radians and in degrees.
   */
  function Geometry(trig: Trig, latitude: real, dayOfYear: int): (g: SunGeometry)
    ensures g.delta == Declination(trig, dayOfYear)
    ensures g.phiRad * 180.0 == latitude * trig.pi && g.deltaRad * 180.0 == g.delta * trig.pi
    ensures g.clampedCosWs == Clamp(-trig.tan(g.phiRad) * trig.tan(g.deltaRad))
    ensures -1.0 <= g.clampedCosWs <= 1.0 && g.ws == trig.acos(g.clampedCosWs)
    ensures g.wsDeg * trig.pi == g.ws * 180.0
  {
    var delta := Declination(trig, dayOfYear);
    var phiRad := latitude * (trig.pi / 180.0);
    var deltaRad := delta * (trig.pi / 180.0);
    var cosWs := -trig.tan(phiRad) * trig.tan(deltaRad);
    var c := Clamp(cosWs);
    var ws := trig.acos(c);
    SunGeometry(delta, phiRad, deltaRad, c, ws, ws * (180.0 / trig.pi))
  }

  /** Where sin stays in [-1, 1], the declination stays within 23.45 degrees of the equator. */
  lemma DeclinationBound(trig: Trig, dayOfYear: int)
    requires -1.0 <= trig.sin(DeclinationAngle(trig, dayOfYear)) <= 1.0
    ensures -23.45 <= Declination(trig, dayOfYear) <= 23.45
  {
  }

  /** Where arccos maps [-1, 1] into [0, pi], the sunset hour angle lies in [0, 180] degrees. */
  lemma SunsetAngleRange(trig: Trig, latitude: real, dayOfYear: int)
    requires forall c :: -1.0 <= c <= 1.0 ==> 0.0 <= trig.acos(c) <= trig.pi
    ensures 0.0 <= Geometry(trig, latitude, dayOfYear).wsDeg <= 180.0
  {
    var g := Geometry(trig, latitude, dayOfYear);
    var pi: real := trig.pi;
    assert 0.0 <= g.ws <= pi;
    assert g.wsDeg * pi == g.ws * 180.0;
    ScaledAngleRange(g.ws, g.wsDeg, pi);
  }

  /** `x = w * 180 / pi` lies in [0, 180] when `w` lies in [0, pi]. */
  lemma ScaledAngleRange(w: real, x: real, pi: real)
    requires pi > 0.0 && 0.0 <= w <= pi && x * pi == w * 180.0
    ensures 0.0 <= x <= 180.0
  {
    NonNegativeFactor(x, pi);
    assert (180.0 - x) * pi == (pi - w) * 180.0;
    NonNegativeFactor(180.0 - x, pi);
  }

  lemma NonNegativeFactor(a: real, b: real)
    requires b > 0.0 && a * b >= 0.0
    ensures a >= 0.0
  {
  }

  /** At the equator (tan 0 = 0, arccos 0 = pi/2) day and night are equal: the sun sets at 90 degrees. */
  lemma EquatorSunset(trig: Trig, dayOfYear: int)
    requires trig.tan(0.0) == 0.0 && trig.acos(0.0) == trig.pi / 2.0
    ensures Geometry(trig, 0.0, dayOfYear).wsDeg == 90.0
  {
    var g := Geometry(trig, 0.0, dayOfYear);
    assert g.phiRad == 0.0;
    assert g.clampedCosWs == 0.0;
    assert g.ws * 180.0 == trig.pi * 90.0;
  }

  /** The hour angle at the middle of hour slot `t`: `15 (t + 0.5 - 12)` degrees. */
  function HourAngle(t: int): real
  {
    15.0 * (t as real + 0.5 - 12.0)
  }

  /** Every slot's hour angle is at least 7.5 degrees from solar noon; the 24 slots span [-172.5, 172.5]. */
  lemma HourAngleRange(t: int)
    ensures Abs(HourAngle(t)) >= 7.5
    ensures 0 <= t < 24 ==> Abs(HourAngle(t)) <= 172.5
  {
    if t >= 12 {
      assert HourAngle(t) >= 7.5;
    } else {
      assert HourAngle(t) <= -7.5;
    }
  }

  /** The sun is up during slot `t` when its hour angle lies within the sunset hour angle. */
  predicate IsSunlit(g: SunGeometry, t: int)
  {
    Abs(HourAngle(t)) <= g.wsDeg
  }

  /** Irradiance of slot `t` (W/m2): `ghi * 1000 * max(0, r_t)` while the sun is up, else 0. */
  function Irradiance(trig: Trig, d: Day, t: int): (it: real)
    ensures !IsSunlit(d.g, t) ==> it == 0.0
    ensures d.ghi >= 0.0 ==> it >= 0.0
    ensures d.ghi == 0.0 ==> it == 0.0
  {
    if IsSunlit(d.g, t) then d.ghi * 1000.0 * Max0(trig.liuJordan(HourAngle(t), d.g.ws)) else 0.0
  }

  /** NOCT cell temperature `Ta + It / 800 (NOCT - 20)`. */
  function CellTemp(it: real, ambientTemp: real, noct: real): (tc: real)
    ensures it == 0.0 ==> tc == ambientTemp
    ensures it >= 0.0 && noct >= 20.0 ==> tc >= ambientTemp
  {
    ambientTemp + (it / 800.0) * (noct - 20.0)
  }

  /** Derated energy of one hour (kWh): `It A eta (1 - beta (Tc - 25)) / 1000`; never floored at zero. */
  function HourEnergy(it: real, p: Panel, tc: real): (e: real)
    ensures it == 0.0 ==> e == 0.0
  {
    (it * p.area * p.efficiency * (1.0 - p.tempCoeff * (tc - 25.0))) / 1000.0
  }

  /** Past the temperature where the linear derating factor turns negative, a sunlit hour yields negative energy. */
  lemma NegativeHourEnergy(it: real, p: Panel, tc: real)
    requires it > 0.0 && p.area > 0.0 && p.efficiency > 0.0
    requires p.tempCoeff * (tc - 25.0) > 1.0
    ensures HourEnergy(it, p, tc) < 0.0
  {
    var k := it * p.area * p.efficiency;
    assert k > 0.0 by {
      assert it * p.area > 0.0;
    }
    var f := 1.0 - p.tempCoeff * (tc - 25.0);
    assert f < 0.0;
    assert k * f < 0.0 by {
      assert k * (-f) > 0.0;
    }
    assert HourEnergy(it, p, tc) == (k * f) / 1000.0;
  }

  /** Cell temperature of slot `t`. */
  function HourCellTemp(trig: Trig, p: Panel, d: Day, t: int): real
  {
    CellTemp(Irradiance(trig, d, t), d.ambientTemp, p.noct)
  }

  /** Energy of slot `t`. */
  function HourYield(trig: Trig, p: Panel, d: Day, t: int): real
  {
    HourEnergy(Irradiance(trig, d, t), p, HourCellTemp(trig, p, d, t))
  }

  /**
   * One step of an hour loop: the cell temperature and the energy computed
   * inline from the slot's irradiance are those of the slot.
   */
  lemma HourStep(trig: Trig, p: Panel, d: Day, t: int, it: real, tc: real, et: real)
    requires it == Irradiance(trig, d, t)
    requires tc == d.ambientTemp + (it / 800.0) * (p.noct - 20.0)
    requires et == (it * p.area * p.efficiency * (1.0 - p.tempCoeff * (tc - 25.0))) / 1000.0
    ensures tc == HourCellTemp(trig, p, d, t) && et == HourYield(trig, p, d, t)
  {
    assert tc == CellTemp(it, d.ambientTemp, p.noct);
    EnergyStep(it, p, tc, et);
  }

  lemma EnergyStep(it: real, p: Panel, tc: real, et: real)
    requires et == (it * p.area * p.efficiency * (1.0 - p.tempCoeff * (tc - 25.0))) / 1000.0
    ensures et == HourEnergy(it, p, tc)
  {
  }

  /** The same panel with unit area and unit efficiency. */
  function UnitPanel(p: Panel): Panel
  {
    p.(area := 1.0, efficiency := 1.0)
  }

  /** An hour's energy is proportional to A * eta: the derating does not depend on either. */
  lemma HourYieldScales(trig: Trig, p: Panel, d: Day, t: int)
    ensures HourYield(trig, p, d, t) == p.area * p.efficiency * HourYield(trig, UnitPanel(p), d, t)
  {
    var it := Irradiance(trig, d, t);
    var tc := HourCellTemp(trig, p, d, t);
    assert tc == HourCellTemp(trig, UnitPanel(p), d, t);
    var f := 1.0 - p.tempCoeff * (tc - 25.0);
    assert HourYield(trig, p, d, t) == (it * p.area * p.efficiency * f) / 1000.0;
    assert HourYield(trig, UnitPanel(p), d, t) == (it * 1.0 * 1.0 * f) / 1000.0;
    ScaleFactor(it, p.area, p.efficiency, f);
  }

  lemma ScaleFactor(it: real, a: real, e: real, f: real)
    ensures (it * a * e * f) / 1000.0 == a * e * ((it * 1.0 * 1.0 * f) / 1000.0)
  {
  }

  /** `f(0) + ... + f(n - 1)`, summed from the left. */
  function SumTo(f: int -> real, n: nat): real
  {
    if n == 0 then 0.0 else SumTo(f, n - 1) + f(n - 1)
  }

  /** `f` is `k` times `g` at every slot. */
  ghost predicate Proportional(f: int -> real, g: int -> real, k: real)
  {
    forall t :: f(t) == k * g(t)
  }

  /** A sum of terms that are all k times another's is k times that other sum. */
  lemma {:induction false} SumToScales(f: int -> real, g: int -> real, k: real, n: nat)
    requires Proportional(f, g, k)
    ensures SumTo(f, n) == k * SumTo(g, n)
  {
    if n > 0 {
      SumToScales(f, g, k, n - 1);
      assert k * SumTo(g, n - 1) + k * g(n - 1) == k * (SumTo(g, n - 1) + g(n - 1));
    }
  }

  /** The energies of the slots of a day, as a function of the slot. */
  function HourYields(trig: Trig, p: Panel, d: Day): int -> real
  {
    t => HourYield(trig, p, d, t)
  }

  /** The hour loop's total is the sum of the slots' energies. */
  lemma {:induction false} DayYieldIsSum(trig: Trig, p: Panel, d: Day, n: nat)
    ensures DayYield(trig, p, d, n) == SumTo(HourYields(trig, p, d), n)
  {
    if n > 0 {
      DayYieldIsSum(trig, p, d, n - 1);
    }
  }

  /** Every slot's energy is A * eta times the unit panel's. */
  lemma HourYieldsScale(trig: Trig, p: Panel, d: Day)
    ensures Proportional(HourYields(trig, p, d), HourYields(trig, UnitPanel(p), d), p.area * p.efficiency)
  {
    forall t {
      HourYieldScales(trig, p, d, t);
    }
  }

  /** The sum over the slots scales with A * eta. */
  lemma PanelSumScales(trig: Trig, p: Panel, d: Day, n: nat)
    ensures SumTo(HourYields(trig, p, d), n) == p.area * p.efficiency * SumTo(HourYields(trig, UnitPanel(p), d), n)
  {
    HourYieldsScale(trig, p, d);
    SumToScales(HourYields(trig, p, d), HourYields(trig, UnitPanel(p), d), p.area * p.efficiency, n);
  }

  /**
   * A day's energy is A * eta times the energy of a unit panel under the
   * same sky: more area or a better efficiency scales the whole day by the
   * same factor.
   */
  lemma DayYieldScales(trig: Trig, p: Panel, d: Day, n: nat)
    ensures DayYield(trig, p, d, n) == p.area * p.efficiency * DayYield(trig, UnitPanel(p), d, n)
  {
    DayYieldIsSum(trig, UnitPanel(p), d, n);
    DayYieldIsScaledSum(trig, p, d, n);
  }

  /** A day's energy is A * eta times the sum of the unit panel's slot energies. */
  lemma DayYieldIsScaledSum(trig: Trig, p: Panel, d: Day, n: nat)
    ensures DayYield(trig, p, d, n) == p.area * p.efficiency * SumTo(HourYields(trig, UnitPanel(p), d), n)
  {
    DayYieldIsSum(trig, p, d, n);
    PanelSumScales(trig, p, d, n);
  }

  /** A slot with the sun down yields nothing. */
  lemma DarkHourYieldsNothing(trig: Trig, p: Panel, d: Day, t: int)
    requires !IsSunlit(d.g, t)
    ensures HourYield(trig, p, d, t) == 0.0
  {
  }

  /** The energy of the first `n` slots, summed in slot order. */
  function DayYield(trig: Trig, p: Panel, d: Day, n: nat): real
  {
    if n == 0 then 0.0 else DayYield(trig, p, d, n - 1) + HourYield(trig, p, d, n - 1)
  }

  /** No irradiance, no energy, whatever the temperature. */
  lemma {:induction false} ZeroIrradianceNoYield(trig: Trig, p: Panel, d: Day, n: nat)
    requires d.ghi == 0.0
    ensures DayYield(trig, p, d, n) == 0.0
  {
    if n > 0 {
      ZeroIrradianceNoYield(trig, p, d, n - 1);
    }
  }

  /** Polar night: with a sunset hour angle below 7.5 degrees no slot is sunlit and the day yields nothing. */
  lemma {:induction false} PolarNightNoYield(trig: Trig, p: Panel, d: Day, n: nat)
    requires d.g.wsDeg < 7.5
    ensures DayYield(trig, p, d, n) == 0.0
    ensures SunlitCount(d.g, n) == 0
  {
    if n > 0 {
      PolarNightNoYield(trig, p, d, n - 1);
      HourAngleRange(n - 1);
    }
  }

  /** Midnight sun: with a sunset hour angle of at least 172.5 degrees all 24 slots are sunlit. */
  lemma {:induction false} MidnightSunAllSlotsLit(g: SunGeometry, n: nat)
    requires g.wsDeg >= 172.5 && n <= 24
    ensures SunlitCount(g, n) == n
  {
    if n > 0 {
      MidnightSunAllSlotsLit(g, n - 1);
      HourAngleRange(n - 1);
    }
  }

  // Sums over the sunlit slots only, as the performance view accumulates them.

  /** Number of sunlit slots among the first `n`. */
  function SunlitCount(g: SunGeometry, n: nat): (k: nat)
  {
    if n == 0 then 0 else SunlitCount(g, n - 1) + (if IsSunlit(g, n - 1) then 1 else 0)
  }

  lemma {:induction false} SunlitCountBound(g: SunGeometry, n: nat)
    ensures SunlitCount(g, n) <= n
  {
    if n > 0 {
      SunlitCountBound(g, n - 1);
    }
  }

  /** Energy of the sunlit slots among the first `n`. */
  function SunlitYield(trig: Trig, p: Panel, d: Day, n: nat): real
  {
    if n == 0 then 0.0
    else SunlitYield(trig, p, d, n - 1) + (if IsSunlit(d.g, n - 1) then HourYield(trig, p, d, n - 1) else 0.0)
  }

  /** Cell temperatures of the sunlit slots among the first `n`, summed. */
  function SunlitCellTemp(trig: Trig, p: Panel, d: Day, n: nat): real
  {
    if n == 0 then 0.0
    else SunlitCellTemp(trig, p, d, n - 1) + (if IsSunlit(d.g, n - 1) then HourCellTemp(trig, p, d, n - 1) else 0.0)
  }

  /** Irradiances of the sunlit slots among the first `n`, summed. */
  function SunlitIrradiance(trig: Trig, p: Panel, d: Day, n: nat): real
  {
    if n == 0 then 0.0
    else SunlitIrradiance(trig, p, d, n - 1) + (if IsSunlit(d.g, n - 1) then Irradiance(trig, d, n - 1) else 0.0)
  }

  /**
   * Skipping the dark slots changes nothing: the performance view's gated
   * sum equals the temperature view's sum over all slots.
   */
  lemma {:induction false} SunlitYieldIsDayYield(trig: Trig, p: Panel, d: Day, n: nat)
    ensures SunlitYield(trig, p, d, n) == DayYield(trig, p, d, n)
  {
    if n > 0 {
      SunlitYieldIsDayYield(trig, p, d, n - 1);
    }
  }
}
