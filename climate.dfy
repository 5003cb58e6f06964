/**
 * Climate records shared by the three views: region name -> latitude and
 * twelve monthly {daily irradiance, ambient temperature} pairs, and the
 * yearly irradiance statistics the views derive from one region.
 */
module Climate {

  /** One month of a region: `{ghi_daily, temp}` (kWh/m2/day, degrees C). */
  datatype MonthClimate = MonthClimate(ghiDaily: real, temp: real)

  /** One region: `{lat, months}`. */
  datatype Region = Region(lat: real, months: seq<MonthClimate>)

  /** The region dictionary, keyed by region name. */
  type Records = map<string, Region>

  const MonthsPerYear: nat := 12

  /** Every month is taken to have 30 days. */
  const DaysPerMonth: real := 30.0

  /** The day of the year that stands for month `monthIdx` (0-based): the 15th of a 30-day month. */
  function RepresentativeDay(monthIdx: nat): (n: int)
    ensures monthIdx < MonthsPerYear ==> 15 <= n <= 345
    ensures (n - 15) / 30 == monthIdx && (n - 15) % 30 == 0
  {
    30 * monthIdx + 15
  }

  /** Every region holds exactly twelve months. */
  predicate WellFormed(data: Records)
  {
    forall name :: name in data ==> |data[name].months| == MonthsPerYear
  }

  /** `months.reduce((acc, m) => acc + m.ghi_daily, 0)` */
  function SumDailyGhi(ms: seq<MonthClimate>): real
  {
    if ms == [] then 0.0 else SumDailyGhi(ms[..|ms| - 1]) + ms[|ms| - 1].ghiDaily
  }

  /** `months.reduce((acc, m) => acc + (m.ghi_daily * 30), 0)` */
  function SumMonthlyGhi(ms: seq<MonthClimate>): real
  {
    if ms == [] then 0.0 else SumMonthlyGhi(ms[..|ms| - 1]) + ms[|ms| - 1].ghiDaily * DaysPerMonth
  }

  /** The yearly irradiation is thirty times the sum of the daily means. */
  lemma {:induction false} MonthlyGhiIsThirtyDaily(ms: seq<MonthClimate>)
    ensures SumMonthlyGhi(ms) == DaysPerMonth * SumDailyGhi(ms)
  {
    if ms != [] {
      MonthlyGhiIsThirtyDaily(ms[..|ms| - 1]);
    }
  }

  /** With no negative daily irradiance, no month's irradiation exceeds the year's. */
  lemma {:induction false} MonthlyGhiBelowYear(ms: seq<MonthClimate>, i: nat)
    requires forall j :: 0 <= j < |ms| ==> ms[j].ghiDaily >= 0.0
    requires i < |ms|
    ensures 0.0 <= ms[i].ghiDaily * DaysPerMonth <= SumMonthlyGhi(ms)
  {
    var init := ms[..|ms| - 1];
    if i < |ms| - 1 {
      assert init[i] == ms[i];
      MonthlyGhiBelowYear(init, i);
    }
    SumMonthlyGhiNonNegative(init);
  }

  lemma {:induction false} SumMonthlyGhiNonNegative(ms: seq<MonthClimate>)
    requires forall j :: 0 <= j < |ms| ==> ms[j].ghiDaily >= 0.0
    ensures SumMonthlyGhi(ms) >= 0.0
  {
    if ms != [] {
      SumMonthlyGhiNonNegative(ms[..|ms| - 1]);
    }
  }

  /** `{avgDaily, totalYearly}` of `yearlyClimateStats` (`totalYearlyGhi` in the PR view). */
  datatype YearlyStats = YearlyStats(avgDaily: real, totalYearly: real)

  /**
   * The yearly statistics of one region: the mean of the twelve daily
   * irradiance values and the year's irradiation in 30-day months; an
   * unknown region gives zeros.
   */
  function YearlyClimateStats(data: Records, region: string): (s: YearlyStats)
    ensures region !in data ==> s == YearlyStats(0.0, 0.0)
    ensures region in data ==>
      && s.avgDaily * 12.0 == SumDailyGhi(data[region].months)
      && s.totalYearly == 12.0 * DaysPerMonth * s.avgDaily
  {
    if region !in data then YearlyStats(0.0, 0.0)
    else
      var ms := data[region].months;
      MonthlyGhiIsThirtyDaily(ms);
      YearlyStats(SumDailyGhi(ms) / 12.0, SumMonthlyGhi(ms))
  }
}
