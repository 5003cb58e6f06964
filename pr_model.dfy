/**
 * The performance-ratio view: each month's energy is proportional to its
 * irradiation, E = PR * A * eta * GHI, and the year's total is shown both
 * as the running sum of the months and as the closed form over the
 * year's irradiation.
 */
module PRModel {
  import opened JsNumber
  import opened Climate
  import opened Labels

  /** `{label, energy}` of one month (the label is `name`). */
  datatype PREntry = PREntry(name: string, energy: real)

  /** `{monthlyData, totalYearly}` */
  datatype PRResults = PRResults(monthly: seq<PREntry>, totalYearly: real)

  /** A month's energy: `pr * area * eff * ghi_daily * 30`. */
  function MonthlyEnergy(pr: real, area: real, eff: real, m: MonthClimate): real
  {
    pr * area * eff * m.ghiDaily * DaysPerMonth
  }

  /** The energy of the first `n` months, summed in month order. */
  function YearEnergy(pr: real, area: real, eff: real, ms: seq<MonthClimate>, n: nat): real
    requires n <= |ms|
  {
    if n == 0 then 0.0 else YearEnergy(pr, area, eff, ms, n - 1) + MonthlyEnergy(pr, area, eff, ms[n - 1])
  }

  /** The closed form displayed beside the chart: `pr * area * eff * totalYearlyGhi`. */
  function ClosedFormYield(pr: real, area: real, eff: real, stats: YearlyStats): real
  {
    pr * area * eff * stats.totalYearly
  }

  /** Summing the months gives PR * A * eta times the irradiation of those months. */
  lemma {:induction false} YearEnergyIsProportional(pr: real, area: real, eff: real, ms: seq<MonthClimate>, n: nat)
    requires n <= |ms|
    ensures YearEnergy(pr, area, eff, ms, n) == pr * area * eff * SumMonthlyGhi(ms[..n])
  {
    if n > 0 {
      YearEnergyIsProportional(pr, area, eff, ms, n - 1);
      var k := pr * area * eff;
      var prefix, g := SumMonthlyGhi(ms[..n - 1]), ms[n - 1].ghiDaily;
      assert ms[..n][..n - 1] == ms[..n - 1];
      assert SumMonthlyGhi(ms[..n]) == prefix + g * DaysPerMonth;
      assert k * (prefix + g * DaysPerMonth) == k * prefix + k * g * DaysPerMonth;
    }
  }

  /** The closed form agrees with the month-by-month sum. */
  lemma ClosedFormAgrees(data: Records, region: string, pr: real, area: real, eff: real)
    requires region in data
    ensures YearEnergy(pr, area, eff, data[region].months, |data[region].months|)
      == ClosedFormYield(pr, area, eff, YearlyClimateStats(data, region))
  {
    var ms := data[region].months;
    YearEnergyIsProportional(pr, area, eff, ms, |ms|);
    assert ms[..|ms|] == ms;
  }

  /** With nothing negative in the inputs, no month yields negative energy. */
  lemma MonthlyEnergyNonNegative(pr: real, area: real, eff: real, m: MonthClimate)
    requires pr >= 0.0 && area >= 0.0 && eff >= 0.0 && m.ghiDaily >= 0.0
    ensures MonthlyEnergy(pr, area, eff, m) >= 0.0
  {
    assert pr * area >= 0.0;
    assert pr * area * eff >= 0.0;
    assert pr * area * eff * m.ghiDaily >= 0.0;
  }

  /** With nothing negative in the inputs, the year's total is at least any one of its months. */
  lemma {:induction false} YearEnergyDominatesMonths(
    pr: real, area: real, eff: real, ms: seq<MonthClimate>, n: nat, i: nat)
    requires pr >= 0.0 && area >= 0.0 && eff >= 0.0
    requires forall j :: 0 <= j < |ms| ==> ms[j].ghiDaily >= 0.0
    requires i < n <= |ms|
    ensures YearEnergy(pr, area, eff, ms, n) >= MonthlyEnergy(pr, area, eff, ms[i]) >= 0.0
  {
    MonthlyEnergyNonNegative(pr, area, eff, ms[i]);
    MonthlyEnergyNonNegative(pr, area, eff, ms[n - 1]);
    if i < n - 1 {
      YearEnergyDominatesMonths(pr, area, eff, ms, n - 1, i);
    } else {
      YearEnergyNonNegative(pr, area, eff, ms, n - 1);
    }
  }

  lemma {:induction false} YearEnergyNonNegative(pr: real, area: real, eff: real, ms: seq<MonthClimate>, n: nat)
    requires pr >= 0.0 && area >= 0.0 && eff >= 0.0
    requires forall j :: 0 <= j < |ms| ==> ms[j].ghiDaily >= 0.0
    requires n <= |ms|
    ensures YearEnergy(pr, area, eff, ms, n) >= 0.0
  {
    if n > 0 {
      YearEnergyNonNegative(pr, area, eff, ms, n - 1);
      MonthlyEnergyNonNegative(pr, area, eff, ms[n - 1]);
    }
  }

  /**
   * `calculateYearlyPR`: for a known region, one labelled entry per month
   * in month order, with the accumulated total; nothing for an unknown one.
   */
  method CalculateYearlyPR(data: Records, region: string, pr: real, area: real, eff: real, lang: Lang)
    returns (res: Option<PRResults>)
    ensures res.None? <==> region !in data
    ensures res.Some? ==>
      var ms := data[region].months;
      && |res.value.monthly| == |ms|
      && (forall i :: 0 <= i < |ms| ==>
            res.value.monthly[i] == PREntry(MonthLabel(lang, i), MonthlyEnergy(pr, area, eff, ms[i])))
      && res.value.totalYearly == YearEnergy(pr, area, eff, ms, |ms|)
      && res.value.totalYearly == ClosedFormYield(pr, area, eff, YearlyClimateStats(data, region))
  {
    if region !in data {
      return None;
    }
    var ms := data[region].months;
    var totalYearlyEnergy := 0.0;
    var results: seq<PREntry> := [];
    for i := 0 to |ms|
      invariant |results| == i
      invariant forall j :: 0 <= j < i ==> results[j] == PREntry(MonthLabel(lang, j), MonthlyEnergy(pr, area, eff, ms[j]))
      invariant totalYearlyEnergy == YearEnergy(pr, area, eff, ms, i)
    {
      var monthlyEnergy := pr * area * eff * ms[i].ghiDaily * DaysPerMonth;
      totalYearlyEnergy := totalYearlyEnergy + monthlyEnergy;
      results := results + [PREntry(MonthLabel(lang, i), monthlyEnergy)];
    }
    ClosedFormAgrees(data, region, pr, area, eff);
    return Some(PRResults(results, totalYearlyEnergy));
  }
}
