/**
 * The performance view (IEC 61724-1): the simulated monthly series of a
 * region, the series built from imported actual production, and the
 * summary metrics over whichever series is displayed.
 */
module PerformanceAnalysis {
  import opened JsNumber
  import opened Climate
  import opened Labels
  import opened Solar

  /** `simParams`: the temperature coefficient and NOCT the simulation uses. */
  const SimTempCoeff: real := 0.0045
  const SimNoct: real := 45.0

  /** Hours in a 30-day month, as the capacity utilisation factor counts them. */
  const HoursPerMonth: real := 720.0

  /** Nominal plant capacity Pnom = A * eta (kWp). */
  function PlantCapacity(panelArea: real, efficiency: real): (pnom: real)
    ensures pnom == 0.0 <==> panelArea == 0.0 || efficiency == 0.0
    ensures panelArea > 0.0 && efficiency > 0.0 ==> pnom > 0.0
  {
    panelArea * efficiency
  }

  // ---------------------------------------------------------------------
  // IEC 61724-1 yields and performance ratio

  /** Final yield Yf = E / Pnom / 30 (kWh per kWp per day); no guard against Pnom = 0. */
  function FinalYield(eAc: Num, pnom: real): (yf: Num)
    ensures yf.Fin? <==> eAc.Fin? && pnom != 0.0
    ensures yf.Fin? ==> yf.v * pnom * DaysPerMonth == eAc.v
  {
    Div(Div(eAc, Fin(pnom)), Fin(DaysPerMonth))
  }

  /** Reference yield Yr = H / (1 kW/m2): numerically the daily irradiance itself. */
  function ReferenceYield(ghiDaily: Num): (yr: Num)
    ensures yr == ghiDaily
  {
    Div(ghiDaily, Fin(1.0))
  }

  /** PR = Yf / Yr * 100 (percent); no guard against Yr = 0. */
  function PerformanceRatio(yf: Num, yr: Num): (pr: Num)
    ensures pr.Fin? <==> yf.Fin? && yr.Fin? && yr.v != 0.0
    ensures pr.Fin? ==> pr.v * yr.v == 100.0 * yf.v
  {
    Mul(Div(yf, yr), Fin(100.0))
  }

  /**
   * One entry of the displayed series: `{month, e_ac, h_i, y_f, y_r, pr,
   * avg_tc, avg_it, ta, ghi_daily}`.  Entries built from actual data carry
   * no `avg_tc` and `avg_it`.
   */
  datatype PerfEntry = PerfEntry(
    month: string, eAc: Num, hI: Num, yF: Num, yR: Num, pr: Num,
    avgTc: Option<real>, avgIt: Option<real>, ta: real, ghiDaily: Num)

  // ---------------------------------------------------------------------
  // Simulation

  function SimPanel(panelArea: real, efficiency: real): Panel
  {
    Panel(panelArea, efficiency, SimTempCoeff, SimNoct)
  }

  /** The representative day of month `idx` of a region, at the region's own latitude. */
  function SimDay(trig: Trig, region: Region, idx: nat): Day
    requires idx < |region.months|
  {
    var m := region.months[idx];
    Day(m.ghiDaily, m.temp, Geometry(trig, region.lat, RepresentativeDay(idx)))
  }

  /** `hoursWithSun || 1` */
  function AtLeastOne(k: nat): (r: nat)
    ensures k == 0 ==> r == 1
    ensures k >= 1 ==> r == k
  {
    if k == 0 then 1 else k
  }

  /**
   * The simulated entry of month `idx`: thirty times the energy of the
   * sunlit hours of the representative day, its yields and PR (rounded to
   * two decimals), and the cell temperature and irradiance averaged over
   * the sunlit hours.
   */
  function SimEntry(trig: Trig, region: Region, idx: nat, panelArea: real, efficiency: real, lang: Lang)
    : (e: PerfEntry)
    requires idx < |region.months|
    ensures e.month == MonthLabel(lang, idx)
    ensures e.eAc == Fin(DaysPerMonth * DayYield(trig, SimPanel(panelArea, efficiency), SimDay(trig, region, idx), 24))
    ensures e.hI == Fin(DaysPerMonth * region.months[idx].ghiDaily)
    ensures e.yF.Fin? <==> PlantCapacity(panelArea, efficiency) != 0.0
    ensures e.yR == Fin(Round2(region.months[idx].ghiDaily))
    ensures e.pr.Fin? <==> PlantCapacity(panelArea, efficiency) != 0.0 && region.months[idx].ghiDaily != 0.0
    ensures var yf := FinalYield(e.eAc, PlantCapacity(panelArea, efficiency));
      && e.yF == RoundNum(yf)
      && e.pr == RoundNum(PerformanceRatio(yf, ReferenceYield(e.ghiDaily)))
    ensures var p, d := SimPanel(panelArea, efficiency), SimDay(trig, region, idx);
      var hours := AtLeastOne(SunlitCount(d.g, 24)) as real;
      && e.avgTc == Some(SunlitCellTemp(trig, p, d, 24) / hours)
      && e.avgIt == Some(SunlitIrradiance(trig, p, d, 24) / hours)
    ensures e.ta == region.months[idx].temp && e.ghiDaily == Fin(region.months[idx].ghiDaily)
  {
    var m := region.months[idx];
    var p := SimPanel(panelArea, efficiency);
    var d := SimDay(trig, region, idx);
    var pnom := PlantCapacity(panelArea, efficiency);
    var monthlyE := SunlitYield(trig, p, d, 24) * DaysPerMonth;
    var yf := FinalYield(Fin(monthlyE), pnom);
    var yr := ReferenceYield(Fin(m.ghiDaily));
    var hours := AtLeastOne(SunlitCount(d.g, 24)) as real;
    SunlitYieldIsDayYield(trig, p, d, 24);
    PerfEntry(
      MonthLabel(lang, idx), Fin(monthlyE), Fin(m.ghiDaily * DaysPerMonth),
      RoundNum(yf), RoundNum(yr), RoundNum(PerformanceRatio(yf, yr)),
      Some(SunlitCellTemp(trig, p, d, 24) / hours), Some(SunlitIrradiance(trig, p, d, 24) / hours),
      m.temp, Fin(m.ghiDaily))
  }

  /**
   * The hour loop of one simulated month: only sunlit hours add to the
   * energy, the cell-temperature and irradiance sums and the hour count.
   */
  method SimulateMonth(trig: Trig, region: Region, idx: nat, panelArea: real, efficiency: real, lang: Lang)
    returns (e: PerfEntry, hoursWithSun: nat)
    requires idx < |region.months|
    ensures e == SimEntry(trig, region, idx, panelArea, efficiency, lang)
    ensures hoursWithSun == SunlitCount(SimDay(trig, region, idx).g, 24) <= 24
  {
    var m := region.months[idx];
    var p := SimPanel(panelArea, efficiency);
    var d := SimDay(trig, region, idx);
    assert d.ghi == m.ghiDaily && d.ambientTemp == m.temp;
    assert p.area == panelArea && p.efficiency == efficiency && p.tempCoeff == SimTempCoeff && p.noct == SimNoct;
    var totalDayE, sumTc, sumIt := 0.0, 0.0, 0.0;
    hoursWithSun := 0;
    for t := 0 to 24
      invariant totalDayE == SunlitYield(trig, p, d, t)
      invariant sumTc == SunlitCellTemp(trig, p, d, t)
      invariant sumIt == SunlitIrradiance(trig, p, d, t)
      invariant hoursWithSun == SunlitCount(d.g, t)
    {
      var omega := HourAngle(t);
      if Abs(omega) <= d.g.wsDeg {
        var r := trig.liuJordan(omega, d.g.ws);
        var it := m.ghiDaily * 1000.0 * Max0(r);
        assert it == Irradiance(trig, d, t);
        var tc := m.temp + (it / 800.0) * (SimNoct - 20.0);
        var et := (it * panelArea * efficiency * (1.0 - SimTempCoeff * (tc - 25.0))) / 1000.0;
        HourStep(trig, p, d, t, it, tc, et);
        totalDayE, sumTc, sumIt, hoursWithSun := totalDayE + et, sumTc + tc, sumIt + it, hoursWithSun + 1;
      }
    }
    SunlitCountBound(d.g, 24);
    var pnom := PlantCapacity(panelArea, efficiency);
    var monthlyE := totalDayE * DaysPerMonth;
    var yf := FinalYield(Fin(monthlyE), pnom);
    var yr := ReferenceYield(Fin(m.ghiDaily));
    var hours := AtLeastOne(hoursWithSun) as real;
    e := PerfEntry(
      MonthLabel(lang, idx), Fin(monthlyE), Fin(m.ghiDaily * DaysPerMonth),
      RoundNum(yf), RoundNum(yr), RoundNum(PerformanceRatio(yf, yr)),
      Some(sumTc / hours), Some(sumIt / hours), m.temp, Fin(m.ghiDaily));
  }

  /** `regionalData[selectedRegion] || Object.values(regionalData)[0]`, the first region passed in as `first`. */
  function SimRegion(data: Records, selectedRegion: string, first: Option<Region>): (r: Option<Region>)
    requires first.None? <==> data == map[]
    ensures r.None? <==> data == map[]
    ensures selectedRegion in data ==> r == Some(data[selectedRegion])
    ensures selectedRegion !in data ==> r == first
  {
    if selectedRegion in data then Some(data[selectedRegion]) else first
  }

  /**
   * `calculateSimulation`: one entry per month of the selected region (or
   * of the first region when it is unknown); empty when there is no region.
   */
  method CalculateSimulation(
    trig: Trig, data: Records, selectedRegion: string, first: Option<Region>,
    panelArea: real, efficiency: real, lang: Lang)
    returns (series: seq<PerfEntry>)
    requires first.None? <==> data == map[]
    requires first.Some? ==> first.value in data.Values
    ensures data == map[] ==> series == []
    ensures SimRegion(data, selectedRegion, first).Some? ==>
      var region := SimRegion(data, selectedRegion, first).value;
      && |series| == |region.months|
      && forall idx :: 0 <= idx < |series| ==>
           series[idx] == SimEntry(trig, region, idx, panelArea, efficiency, lang)
  {
    var region := SimRegion(data, selectedRegion, first);
    if region.None? {
      return [];
    }
    var ms := region.value.months;
    series := [];
    for idx := 0 to |ms|
      invariant |series| == idx
      invariant forall i :: 0 <= i < idx ==> series[i] == SimEntry(trig, region.value, i, panelArea, efficiency, lang)
    {
      var e, _ := SimulateMonth(trig, region.value, idx, panelArea, efficiency, lang);
      series := series + [e];
    }
  }

  // ---------------------------------------------------------------------
  // Actual production

  /**
   * One imported row of actual production: the month label and the parsed
   * AC energy (kWh), monthly irradiation (kWh/m2) and mean ambient
   * temperature, `None` where `Number(...)` gives NaN.
   */
  datatype ActualRow = ActualRow(month: string, eAc: Option<real>, hIMonth: Option<real>, ta: Option<real>)

  /**
   * The entry of one actual row: the daily irradiance is a thirtieth of
   * the month's, Yf and PR are computed from the unrounded values, the
   * temperature defaults to 25 when missing or 0.
   */
  function ActualEntry(row: ActualRow, pnom: real): (e: PerfEntry)
    ensures e.month == row.month && e.eAc == FromCell(row.eAc) && e.hI == FromCell(row.hIMonth)
    ensures row.ta.None? || row.ta == Some(0.0) ==> e.ta == 25.0
    ensures row.ta.Some? && row.ta.value != 0.0 ==> e.ta == row.ta.value
    ensures row.hIMonth.Some? ==> e.ghiDaily == e.yR == Fin(Round2(row.hIMonth.value / DaysPerMonth))
    ensures e.yF.Fin? <==> row.eAc.Some? && pnom != 0.0
    ensures e.pr.Fin? <==> row.eAc.Some? && row.hIMonth.Some? && row.hIMonth.value != 0.0 && pnom != 0.0
    ensures e.ghiDaily == e.yR == RoundNum(Div(e.hI, Fin(DaysPerMonth)))
    ensures var yf := FinalYield(e.eAc, pnom);
      && e.yF == RoundNum(yf)
      && e.pr == RoundNum(PerformanceRatio(yf, Div(e.hI, Fin(DaysPerMonth))))
    ensures e.avgTc.None? && e.avgIt.None?
  {
    var eAc := FromCell(row.eAc);
    var hI := FromCell(row.hIMonth);
    var ta := OrElse(row.ta, 25.0);
    var ghiDaily := Div(hI, Fin(DaysPerMonth));
    var yf := FinalYield(eAc, pnom);
    var yr := ReferenceYield(ghiDaily);
    PerfEntry(row.month, eAc, hI, RoundNum(yf), RoundNum(yr), RoundNum(PerformanceRatio(yf, yr)),
      None, None, ta, RoundNum(ghiDaily))
  }

  /** The rows of an actual-production import, mapped one to one and in order. */
  function ActualEntries(rows: seq<ActualRow>, pnom: real): (es: seq<PerfEntry>)
    ensures |es| == |rows|
    ensures forall i :: 0 <= i < |rows| ==> es[i] == ActualEntry(rows[i], pnom)
  {
    seq(|rows|, i requires 0 <= i < |rows| => ActualEntry(rows[i], pnom))
  }

  /**
   * The PR sanity check: when the plant delivered exactly its nominal
   * capacity times the irradiation (Yf = Yr), the PR is 100 %.
   */
  lemma ActualPRIsHundredWhenYieldsMatch(row: ActualRow, pnom: real)
    requires row.eAc.Some? && row.hIMonth.Some?
    requires pnom != 0.0 && row.hIMonth.value != 0.0
    requires row.eAc.value == pnom * row.hIMonth.value
    ensures ActualEntry(row, pnom).pr == Fin(100.0)
  {
    var h := row.hIMonth.value;
    var yf := FinalYield(Fin(row.eAc.value), pnom);
    var yr := ReferenceYield(Div(Fin(h), Fin(DaysPerMonth)));
    assert yf.v * pnom * DaysPerMonth == pnom * h;
    assert yf.v == h / DaysPerMonth by {
      assert (yf.v * DaysPerMonth) * pnom == h * pnom;
    }
    assert yr.v == h / DaysPerMonth;
    var pr := PerformanceRatio(yf, yr);
    assert pr.v == 100.0;
    Round2OfHundredths(10000);
  }

  // ---------------------------------------------------------------------
  // Metrics

  /** `{totalE, avgPR, avgYf, avgYr, cuf, sample}` */
  datatype Metrics = Metrics(totalE: Num, avgPR: Num, avgYf: Num, avgYr: Num, cuf: Num, sample: PerfEntry)

  /** The fields the metrics aggregate. */
  datatype Field = EAc | PR | YF | YR

  function Get(e: PerfEntry, f: Field): Num
  {
    match f
    case EAc => e.eAc
    case PR => e.pr
    case YF => e.yF
    case YR => e.yR
  }

  /** One field of every entry, in series order. */
  function Column(series: seq<PerfEntry>, f: Field): (c: seq<Num>)
    ensures |c| == |series| && forall i :: 0 <= i < |series| ==> c[i] == Get(series[i], f)
  {
    seq(|series|, i requires 0 <= i < |series| => Get(series[i], f))
  }

  /** `reduce(acc + field) / length`: the plain mean over every entry. */
  function Mean(series: seq<PerfEntry>, f: Field): Num
    requires series != []
  {
    Div(Sum(Column(series, f)), Fin(|series| as real))
  }

  /**
   * The metrics of the displayed series: none for an empty series;
   * otherwise the total energy, the plain means of PR, Yf and Yr over all
   * entries, CUF = totalE / (Pnom n 30 24) * 100 and the first entry.
   */
  function ComputeMetrics(series: seq<PerfEntry>, pnom: real): (m: Option<Metrics>)
    ensures m.None? <==> series == []
    ensures m.Some? ==>
      && m.value.sample == series[0]
      && m.value.totalE == Sum(Column(series, EAc))
      && m.value.avgPR == Mean(series, PR)
      && m.value.avgYf == Mean(series, YF)
      && m.value.avgYr == Mean(series, YR)
    ensures m.Some? ==> (m.value.cuf.Fin? <==> m.value.totalE.Fin? && pnom != 0.0)
    ensures m.Some? && m.value.cuf.Fin? ==>
      m.value.cuf.v * (pnom * |series| as real * HoursPerMonth) == 100.0 * m.value.totalE.v
  {
    if series == [] then None
    else
      var n := |series| as real;
      var totalE := Sum(Column(series, EAc));
      var hours := pnom * n * DaysPerMonth * 24.0;
      assert hours == pnom * n * HoursPerMonth;
      assert hours == 0.0 <==> pnom == 0.0;
      var cuf := Mul(Div(totalE, Fin(hours)), Fin(100.0));
      assert cuf.Fin? ==> cuf.v * hours == 100.0 * totalE.v by {
        if cuf.Fin? {
          assert cuf.v == (totalE.v / hours) * 100.0;
        }
      }
      Some(Metrics(totalE, Mean(series, PR), Mean(series, YF), Mean(series, YR), cuf, series[0]))
  }

  /** No entry is left out of the PR average: it is finite exactly when every entry's PR is. */
  lemma AveragePRFiniteIff(series: seq<PerfEntry>, pnom: real)
    requires series != []
    ensures ComputeMetrics(series, pnom).value.avgPR.Fin? <==>
      forall i :: 0 <= i < |series| ==> series[i].pr.Fin?
  {
    var c := Column(series, PR);
    SumFiniteIff(c);
  }

  /** The total energy is finite exactly when every entry's energy is. */
  lemma TotalEnergyFiniteIff(series: seq<PerfEntry>, pnom: real)
    requires series != []
    ensures ComputeMetrics(series, pnom).value.totalE.Fin? <==>
      forall i :: 0 <= i < |series| ==> series[i].eAc.Fin?
  {
    SumFiniteIff(Column(series, EAc));
  }

  /** A plain mean: when every entry has the same finite PR, so does the average. */
  lemma AveragePROfEqualEntries(series: seq<PerfEntry>, pnom: real, c: real)
    requires series != []
    requires forall i :: 0 <= i < |series| ==> series[i].pr == Fin(c)
    ensures ComputeMetrics(series, pnom).value.avgPR == Fin(c)
  {
    var col := Column(series, PR);
    SumConstant(col, c);
    var n := |series| as real;
    assert Sum(col) == Fin(n * c);
    DivCancel(n, c);
  }

  lemma DivCancel(n: real, c: real)
    requires n > 0.0
    ensures n * c / n == c
  {
  }
}
