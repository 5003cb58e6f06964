/**
 * The temperature (Liu & Jordan + NOCT) view: merging imported climate
 * rows into the region dictionary, selecting a region and month as the
 * calculation inputs, and the hourly and monthly yield calculations.
 */
module TemperatureModel {
  import opened JsNumber
  import opened Climate
  import opened Labels
  import opened Solar

  // ---------------------------------------------------------------------
  // Spreadsheet import

  /**
   * One spreadsheet row after parsing: the first non-empty region-name
   * column ("" when there is none) and the numeric cells, `None` where
   * `Number(...)` gives NaN.
   */
  datatype ImportRow = ImportRow(
    region: string, lat: Option<real>, month: Option<real>, ghi: Option<real>, temp: Option<real>)

  const DefaultLatitude: real := 10.0
  const DefaultGhi: real := 0.0
  const DefaultTemp: real := 25.0
  const DefaultMonth: MonthClimate := MonthClimate(DefaultGhi, DefaultTemp)

  /** The twelve months of a region seen for the first time. */
  function DefaultMonths(): (ms: seq<MonthClimate>)
    ensures |ms| == MonthsPerYear
    ensures forall i :: 0 <= i < |ms| ==> ms[i] == DefaultMonth
  {
    seq(MonthsPerYear, _ => DefaultMonth)
  }

  /** The guard: a region name and a month that is a number in [1, 12]. */
  predicate Accepted(row: ImportRow)
  {
    row.region != "" && row.month.Some? && 1.0 <= row.month.value <= 12.0
  }

  /**
   * The month is also whole, so `months[month - 1]` is one of the twelve
   * slots.  A fractional month such as 2.5 passes the guard, but its write
   * lands on a non-index property of the array, which no reader sees.
   */
  predicate HitsSlot(row: ImportRow)
  {
    Accepted(row) && row.month.value.Floor as real == row.month.value
  }

  function SlotIndex(row: ImportRow): (i: nat)
    requires HitsSlot(row)
    ensures i < MonthsPerYear
  {
    row.month.value.Floor - 1
  }

  /** `{ghi_daily: ghi || 0, temp: temp || 25}`: a temperature of exactly 0 is stored as 25. */
  function Slot(row: ImportRow): (m: MonthClimate)
    ensures row.ghi.None? || row.ghi == Some(0.0) ==> m.ghiDaily == DefaultGhi
    ensures row.ghi.Some? ==> m.ghiDaily == row.ghi.value
    ensures row.temp.None? || row.temp == Some(0.0) ==> m.temp == DefaultTemp
    ensures row.temp.Some? && row.temp.value != 0.0 ==> m.temp == row.temp.value
  {
    MonthClimate(OrElse(row.ghi, DefaultGhi), OrElse(row.temp, DefaultTemp))
  }

  /** A region first seen in a row: `{lat: lat || 10.0, months: twelve defaults}`. */
  function NewRegion(row: ImportRow): Region
  {
    Region(OrElse(row.lat, DefaultLatitude), DefaultMonths())
  }

  /**
   * The effect of one row on the dictionary.  A rejected row changes
   * nothing; an accepted row creates its region if needed and overwrites
   * the one slot it names; an existing region keeps its latitude and every
   * other region is untouched.
   */
  function ApplyRow(data: Records, row: ImportRow): (r: Records)
    requires WellFormed(data)
    ensures WellFormed(r)
    ensures !Accepted(row) ==> r == data
    ensures Accepted(row) ==> r.Keys == data.Keys + {row.region}
    ensures forall name :: name in data && name != row.region ==> r[name] == data[name]
    ensures Accepted(row) && row.region in data ==> r[row.region].lat == data[row.region].lat
    ensures Accepted(row) && row.region !in data ==> r[row.region].lat == OrElse(row.lat, DefaultLatitude)
    ensures HitsSlot(row) ==> r[row.region].months[SlotIndex(row)] == Slot(row)
    ensures Accepted(row) ==>
      forall i :: 0 <= i < MonthsPerYear && !(HitsSlot(row) && i == SlotIndex(row)) ==>
        r[row.region].months[i] == (if row.region in data then data[row.region].months[i] else DefaultMonth)
  {
    if !Accepted(row) then data
    else
      var base := if row.region in data then data[row.region] else NewRegion(row);
      if HitsSlot(row) then data[row.region := base.(months := base.months[SlotIndex(row) := Slot(row)])]
      else data[row.region := base]
  }

  /** The rows applied one after the other, in row order. */
  function Merge(data: Records, rows: seq<ImportRow>): (r: Records)
    requires WellFormed(data)
    ensures WellFormed(r)
  {
    if rows == [] then data else ApplyRow(Merge(data, rows[..|rows| - 1]), rows[|rows| - 1])
  }

  /**
   * `handleFileUpload`'s merge loop: a copy of the dictionary is updated
   * row by row, creating regions on first sight and assigning month slots.
   */
  method ImportRows(data: Records, rows: seq<ImportRow>) returns (merged: Records)
    requires WellFormed(data)
    ensures merged == Merge(data, rows)
  {
    merged := data;
    for i := 0 to |rows|
      invariant WellFormed(merged)
      invariant merged == Merge(data, rows[..i])
    {
      assert rows[..i + 1][..i] == rows[..i];
      var row := rows[i];
      if Accepted(row) {
        if row.region !in merged {
          merged := merged[row.region := NewRegion(row)];
        }
        if HitsSlot(row) {
          var region := merged[row.region];
          merged := merged[row.region := region.(months := region.months[SlotIndex(row) := Slot(row)])];
        }
      }
    }
    assert rows[..|rows|] == rows;
  }

  /** The region names of the accepted rows. */
  function AcceptedRegions(rows: seq<ImportRow>): set<string>
  {
    set i | 0 <= i < |rows| && Accepted(rows[i]) :: rows[i].region
  }

  /** After the merge the dictionary holds the old regions and exactly the regions named by accepted rows. */
  lemma {:induction false} MergeKeys(data: Records, rows: seq<ImportRow>)
    requires WellFormed(data)
    ensures Merge(data, rows).Keys == data.Keys + AcceptedRegions(rows)
  {
    if rows != [] {
      var init, last := rows[..|rows| - 1], rows[|rows| - 1];
      MergeKeys(data, init);
      assert forall i :: 0 <= i < |init| ==> init[i] == rows[i];
      if Accepted(last) {
        assert AcceptedRegions(rows) == AcceptedRegions(init) + {last.region};
      } else {
        assert AcceptedRegions(rows) == AcceptedRegions(init);
      }
    }
  }

  /** A region no accepted row names comes out of the merge unchanged. */
  lemma {:induction false} MergeLeavesOtherRegions(data: Records, rows: seq<ImportRow>, name: string)
    requires WellFormed(data)
    requires name in data
    requires forall i :: 0 <= i < |rows| && Accepted(rows[i]) ==> rows[i].region != name
    ensures name in Merge(data, rows) && Merge(data, rows)[name] == data[name]
  {
    if rows != [] {
      MergeLeavesOtherRegions(data, rows[..|rows| - 1], name);
    }
  }

  /** Importing never moves a region that already existed: its latitude is kept. */
  lemma {:induction false} MergeKeepsLatitude(data: Records, rows: seq<ImportRow>, name: string)
    requires WellFormed(data)
    requires name in data
    ensures name in Merge(data, rows) && Merge(data, rows)[name].lat == data[name].lat
  {
    if rows != [] {
      MergeKeepsLatitude(data, rows[..|rows| - 1], name);
    }
  }

  /**
   * For duplicate (region, month) rows the last one wins: the slot holds
   * the values of row `k` when no later row writes the same slot.
   */
  lemma {:induction false} LastRowWins(data: Records, rows: seq<ImportRow>, k: nat)
    requires WellFormed(data)
    requires k < |rows| && HitsSlot(rows[k])
    requires forall j :: k < j < |rows| && HitsSlot(rows[j]) && rows[j].region == rows[k].region ==>
      SlotIndex(rows[j]) != SlotIndex(rows[k])
    ensures rows[k].region in Merge(data, rows)
    ensures Merge(data, rows)[rows[k].region].months[SlotIndex(rows[k])] == Slot(rows[k])
  {
    var init, last := rows[..|rows| - 1], rows[|rows| - 1];
    if k < |rows| - 1 {
      assert init[k] == rows[k];
      LastRowWins(data, init, k);
    }
  }

  // ---------------------------------------------------------------------
  // Selecting a region and a month

  /** The calculation inputs (`SolarInputs`). */
  datatype Inputs = Inputs(
    ghi: real, latitude: real, dayOfYear: int, area: real, efficiency: real,
    tempCoeff: real, noct: real, ambientTemp: real, pr: real)

  /** The selected region, the selected month index and the calculation inputs. */
  datatype Selection = Selection(region: string, monthIdx: nat, inputs: Inputs)

  /**
   * `handleRegionMonthChange`: an unknown region changes nothing; otherwise
   * the month's irradiance and temperature, the region's latitude and the
   * representative day replace those inputs, and the others are kept.
   */
  function RegionMonthChange(data: Records, s: Selection, region: string, monthIdx: nat): (s': Selection)
    requires WellFormed(data) && monthIdx < MonthsPerYear
    ensures region !in data ==> s' == s
    ensures region in data ==>
      && s'.region == region && s'.monthIdx == monthIdx
      && s'.inputs.ghi == data[region].months[monthIdx].ghiDaily
      && s'.inputs.ambientTemp == data[region].months[monthIdx].temp
      && s'.inputs.latitude == data[region].lat
      && s'.inputs.dayOfYear == RepresentativeDay(monthIdx)
      && 15 <= s'.inputs.dayOfYear <= 345 && (s'.inputs.dayOfYear - 15) / 30 == monthIdx
      && s'.inputs.(ghi := s.inputs.ghi, latitude := s.inputs.latitude,
                    ambientTemp := s.inputs.ambientTemp, dayOfYear := s.inputs.dayOfYear) == s.inputs
  {
    if region !in data then s
    else
      var m := data[region].months[monthIdx];
      Selection(region, monthIdx,
        s.inputs.(ghi := m.ghiDaily, latitude := data[region].lat,
                  ambientTemp := m.temp, dayOfYear := RepresentativeDay(monthIdx)))
  }

  // ---------------------------------------------------------------------
  // Yield calculation

  datatype Mode = Hourly | Monthly

  /** `{label, energy, It}` (the label is `name`) of one hour slot. */
  datatype HourEntry = HourEntry(name: string, energy: real, irradiance: real)

  /** `{label, energy}` of one month (the label is `name`). */
  datatype MonthEntry = MonthEntry(name: string, energy: real)

  /** `{data, totalValue, mode, liuJordanParams}`. */
  datatype Results =
    | HourlyResults(hours: seq<HourEntry>, totalValue: real, params: SunGeometry)
    | MonthlyResults(months: seq<MonthEntry>, totalValue: real, params: SunGeometry)

  function PanelOf(inputs: Inputs): Panel
  {
    Panel(inputs.area, inputs.efficiency, inputs.tempCoeff, inputs.noct)
  }

  /** The representative day of month `idx` at the given latitude. */
  function MonthDay(trig: Trig, latitude: real, m: MonthClimate, idx: nat): Day
  {
    Day(m.ghiDaily, m.temp, Geometry(trig, latitude, RepresentativeDay(idx)))
  }

  /** A month's energy: thirty times that of its representative day. */
  function MonthYield(trig: Trig, p: Panel, latitude: real, m: MonthClimate, idx: nat): real
  {
    DaysPerMonth * DayYield(trig, p, MonthDay(trig, latitude, m, idx), 24)
  }

  /** The energy of the first `n` months of `ms`. */
  function YearYield(trig: Trig, p: Panel, latitude: real, ms: seq<MonthClimate>, n: nat): real
    requires n <= |ms|
  {
    if n == 0 then 0.0 else YearYield(trig, p, latitude, ms, n - 1) + MonthYield(trig, p, latitude, ms[n - 1], n - 1)
  }

  /** `monthlyData.reduce((a, b) => a + b.energy, 0)` */
  function SumMonthEntries(es: seq<MonthEntry>): real
  {
    if es == [] then 0.0 else SumMonthEntries(es[..|es| - 1]) + es[|es| - 1].energy
  }

  /** Summing the entries of the monthly series gives the year's energy. */
  lemma {:induction false} SumMonthEntriesIsYearYield(
    trig: Trig, p: Panel, latitude: real, ms: seq<MonthClimate>, es: seq<MonthEntry>)
    requires |es| == |ms|
    requires forall i :: 0 <= i < |es| ==> es[i].energy == MonthYield(trig, p, latitude, ms[i], i)
    ensures SumMonthEntries(es) == YearYield(trig, p, latitude, ms, |ms|)
  {
    if es != [] {
      var n := |es| - 1;
      assert forall i :: 0 <= i < n ==> es[..n][i] == es[i];
      SumMonthEntriesIsYearYieldPrefix(trig, p, latitude, ms, es[..n], n);
    }
  }

  lemma {:induction false} SumMonthEntriesIsYearYieldPrefix(
    trig: Trig, p: Panel, latitude: real, ms: seq<MonthClimate>, es: seq<MonthEntry>, n: nat)
    requires n == |es| <= |ms|
    requires forall i :: 0 <= i < n ==> es[i].energy == MonthYield(trig, p, latitude, ms[i], i)
    ensures SumMonthEntries(es) == YearYield(trig, p, latitude, ms, n)
  {
    if n > 0 {
      assert forall i :: 0 <= i < n - 1 ==> es[..n - 1][i] == es[i];
      SumMonthEntriesIsYearYieldPrefix(trig, p, latitude, ms, es[..n - 1], n - 1);
    }
  }

  /** A year without irradiance yields nothing. */
  lemma {:induction false} DarkYearNoYield(trig: Trig, p: Panel, latitude: real, ms: seq<MonthClimate>, n: nat)
    requires n <= |ms|
    requires forall i :: 0 <= i < |ms| ==> ms[i].ghiDaily == 0.0
    ensures YearYield(trig, p, latitude, ms, n) == 0.0
  {
    if n > 0 {
      DarkYearNoYield(trig, p, latitude, ms, n - 1);
      ZeroIrradianceNoYield(trig, p, MonthDay(trig, latitude, ms[n - 1], n - 1), 24);
    }
  }

  /** The hourly loop: 24 slots, each labelled, with its energy and irradiance, and their total. */
  method HourlyRun(trig: Trig, p: Panel, d: Day) returns (hours: seq<HourEntry>, total: real)
    ensures |hours| == 24
    ensures forall t :: 0 <= t < 24 ==>
      hours[t] == HourEntry(HourLabel(t), HourYield(trig, p, d, t), Irradiance(trig, d, t))
    ensures total == DayYield(trig, p, d, 24)
  {
    hours, total := [], 0.0;
    for t := 0 to 24
      invariant |hours| == t
      invariant forall u :: 0 <= u < t ==>
        hours[u] == HourEntry(HourLabel(u), HourYield(trig, p, d, u), Irradiance(trig, d, u))
      invariant total == DayYield(trig, p, d, t)
    {
      var omega := HourAngle(t);
      var it := 0.0;
      if Abs(omega) <= d.g.wsDeg {
        var r := trig.liuJordan(omega, d.g.ws);
        it := d.ghi * 1000.0 * Max0(r);
      }
      assert it == Irradiance(trig, d, t);
      var tc := d.ambientTemp + (it / 800.0) * (p.noct - 20.0);
      var et := (it * p.area * p.efficiency * (1.0 - p.tempCoeff * (tc - 25.0))) / 1000.0;
      HourStep(trig, p, d, t, it, tc, et);
      total := total + et;
      hours := hours + [HourEntry(HourLabel(t), et, it)];
    }
  }

  /** The inner loop of the monthly mode: the energy of one day. */
  method DayTotal(trig: Trig, p: Panel, d: Day) returns (total: real)
    ensures total == DayYield(trig, p, d, 24)
  {
    total := 0.0;
    for t := 0 to 24
      invariant total == DayYield(trig, p, d, t)
    {
      var omega := HourAngle(t);
      var it := 0.0;
      if Abs(omega) <= d.g.wsDeg {
        var r := trig.liuJordan(omega, d.g.ws);
        it := d.ghi * 1000.0 * Max0(r);
      }
      assert it == Irradiance(trig, d, t);
      var tc := d.ambientTemp + (it / 800.0) * (p.noct - 20.0);
      var et := (it * p.area * p.efficiency * (1.0 - p.tempCoeff * (tc - 25.0))) / 1000.0;
      HourStep(trig, p, d, t, it, tc, et);
      total := total + et;
    }
  }

  /**
   * `handleCalculate`.  Hourly mode decomposes the input day into 24
   * slots.  Monthly mode runs the representative day of each month of the
   * selected region, at the latitude of the inputs (not the region's), and
   * scales it by 30; an unknown region makes the handler throw, leaving no
   * result.
   */
  method Calculate(trig: Trig, data: Records, selectedRegion: string, mode: Mode, inputs: Inputs, lang: Lang)
    returns (res: Option<Results>)
    ensures res.None? <==> mode == Monthly && selectedRegion !in data
    ensures res.Some? ==> res.value.params == Geometry(trig, inputs.latitude, inputs.dayOfYear)
    ensures mode == Hourly ==>
      var d := Day(inputs.ghi, inputs.ambientTemp, Geometry(trig, inputs.latitude, inputs.dayOfYear));
      && res.Some? && res.value.HourlyResults?
      && |res.value.hours| == 24
      && (forall t :: 0 <= t < 24 ==>
            res.value.hours[t].name == HourLabel(t)
            && res.value.hours[t].energy == HourYield(trig, PanelOf(inputs), d, t)
            && res.value.hours[t].irradiance == Irradiance(trig, d, t))
      && res.value.totalValue == DayYield(trig, PanelOf(inputs), d, 24)
    ensures mode == Monthly && selectedRegion in data ==>
      var ms := data[selectedRegion].months;
      && res.Some? && res.value.MonthlyResults?
      && |res.value.months| == |ms|
      && (forall idx :: 0 <= idx < |ms| ==>
            res.value.months[idx] ==
              MonthEntry(MonthLabel(lang, idx), MonthYield(trig, PanelOf(inputs), inputs.latitude, ms[idx], idx)))
      && res.value.totalValue == YearYield(trig, PanelOf(inputs), inputs.latitude, ms, |ms|)
  {
    var g := Geometry(trig, inputs.latitude, inputs.dayOfYear);
    var p := PanelOf(inputs);
    if mode == Hourly {
      var hours, total := HourlyRun(trig, p, Day(inputs.ghi, inputs.ambientTemp, g));
      return Some(HourlyResults(hours, total, g));
    }
    if selectedRegion !in data {
      return None;
    }
    var ms := data[selectedRegion].months;
    var entries: seq<MonthEntry> := [];
    for idx := 0 to |ms|
      invariant |entries| == idx
      invariant forall i :: 0 <= i < idx ==>
        entries[i] == MonthEntry(MonthLabel(lang, i), MonthYield(trig, p, inputs.latitude, ms[i], i))
    {
      var dayE := DayTotal(trig, p, MonthDay(trig, inputs.latitude, ms[idx], idx));
      entries := entries + [MonthEntry(MonthLabel(lang, idx), dayE * DaysPerMonth)];
    }
    SumMonthEntriesIsYearYield(trig, p, inputs.latitude, ms, entries);
    return Some(MonthlyResults(entries, SumMonthEntries(entries), g));
  }
}
