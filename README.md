# Photovoltaic System Analyzer — a Dafny model of the yield engine

The Photovoltaic System Analyzer estimates the energy of a solar plant from regional
climate records. It has three views, and this project models the computing core of each:

- **The temperature view** (`components/TemperatureModel.tsx`) does three things:
  - It merges spreadsheet rows into a dictionary of regions. Each region has a latitude and
    twelve `{ghi_daily, temp}` months.
  - It copies a chosen region and month into the calculation inputs.
  - It computes the yield with the Liu & Jordan hourly decomposition and the NOCT
    thermal derating, either for 24 hour slots of one day or for each of the region's
    twelve representative days, scaled by 30.
- **The performance view** (`components/PerformanceAnalysis.tsx`) builds a monthly series
  of IEC 61724-1 indicators: the final yield Yf, the reference yield Yr and the
  performance ratio PR. It builds the series either by simulating a region or from
  imported actual production. It then summarises the series: total energy, plain means of
  PR, Yf and Yr, and the capacity utilisation factor.
- **The PR view** (`components/PRModel.tsx`) takes each month's energy as
  `PR · A · η · GHI · 30`. It shows the year's total both as a running sum and as a
  closed form over the yearly irradiation.

## Modules

- **`JsNumber`** models JavaScript numbers.
  - A finite value is an exact real. NaN and both infinities are one `NonFinite` value,
    which absorbs every later `+`, `*` and `/`.
  - A parsed spreadsheet cell is an `Option<real>`, where `None` is NaN.
  - `x || d` on a number (`OrElse`) treats 0 and NaN as falsy.
  - `Number(x.toFixed(2))` is `Round2`: the nearest hundredth, with ties away from zero.
- **`Labels`** holds the series labels `0h`…`23h` and `T1`…`T12` / `M1`…`M12`, and proves
  they are distinct.
- **`Climate`** holds the region dictionary, the representative day `30·i + 15`, and the
  yearly statistics. The same statistics are computed again as `yearlyStats` in
  `components/PRModel.tsx:96-103`, and `Climate.YearlyClimateStats` models both.
- **`Solar`** holds the sun's geometry, the sunset gate, the hourly irradiance, cell
  temperature and energy, and the day's sum.
  - `Math.sin`, `Math.tan`, `Math.acos`, `Math.PI` and the Liu & Jordan ratio r_t are the
    fields of a `Trig` value and are not interpreted.
  - Lemmas that need a property of them (sin in [-1, 1], acos into [0, π]) take it as a
    precondition.
- **`TemperatureModel`**, **`PerformanceAnalysis`** and **`PRModel`** model the three
  views.
  - Their loops are methods, and each method is proved equal to a specification function.
  - Lemmas relate those functions: the gated sum equals the ungated sum, the closed form
    equals the running sum, the merge keeps the keys, the last row wins.

Behaviour kept exactly as the code has it:

- Import:
  - A temperature of exactly 0 is stored as 25, and a latitude of 0 as 10.0.
  - An imported month that is a number in [1, 12] but not whole creates the region. It
    writes no month slot.
  - A row for a region that already exists does not change that region's latitude.
- Calculation:
  - The monthly mode uses the latitude of the inputs, not the selected region's.
  - In monthly mode the handler fails when the selected region is unknown. No new result
    is produced (`None`), and the previous result stays on screen
    (`components/TemperatureModel.tsx:235-236`).
  - An hour's energy is not floored at zero. A hot enough cell yields negative energy
    (`Solar.NegativeHourEnergy`).
- Performance view:
  - PR, Yf and Yr are computed from unrounded values, and only the stored values are
    rounded.
  - The simulated series uses the region's own latitude.
  - The metrics average over every entry, even one whose PR is NaN or infinite. The
    average is then non-finite too (`PerformanceAnalysis.AveragePRFiniteIff`).

## Model

| member | source | states |
|---|---|---|
| JsNumber.FromCell | components/PerformanceAnalysis.tsx:164-166 | a parsed cell is finite exactly when it is present |
| JsNumber.OrElse | components/TemperatureModel.tsx:156-160 | `x \|\| d`: a missing value or 0 gives the default `d`, any other value is kept |
| JsNumber.Add | components/PerformanceAnalysis.tsx:143-146 | a sum is finite exactly when both operands are |
| JsNumber.Mul | components/PerformanceAnalysis.tsx:130 | a product is finite exactly when both operands are |
| JsNumber.Div | components/PerformanceAnalysis.tsx:121 | a quotient is finite exactly when both operands are finite and the divisor is not 0 |
| JsNumber.SumFiniteIff | components/PerformanceAnalysis.tsx:143-146 | a `reduce` sum is finite exactly when every summand is: one NaN poisons it |
| JsNumber.SumConstant | components/PerformanceAnalysis.tsx:144 | summing n copies of c gives n·c |
| JsNumber.Round2Error | components/PerformanceAnalysis.tsx:128-130 | rounding to two decimals moves a value by at most 0.005 |
| JsNumber.Round2OfHundredths | components/PerformanceAnalysis.tsx:128-130 | a value that already has two decimals is not changed by rounding |
| JsNumber.RoundNum | components/PerformanceAnalysis.tsx:128-130 | `Number(x.toFixed(2))` keeps NaN/Infinity non-finite and moves a finite value by at most 0.005 |
| Labels.NatToString | components/TemperatureModel.tsx:231 | `${n}` is a non-empty string of decimal digits |
| Labels.NatToStringInjective | components/TemperatureModel.tsx:231 | different numbers print differently |
| Labels.HourLabelsDistinct | components/TemperatureModel.tsx:231 | different hour slots get different labels |
| Labels.MonthLabelsDistinct | components/TemperatureModel.tsx:255 | in one language, different months get different labels |
| Climate.RepresentativeDay | components/TemperatureModel.tsx:199 | the day `30·i + 15` of month i lies in 15..345 and is the 15th of month i |
| Climate.MonthlyGhiIsThirtyDaily | components/TemperatureModel.tsx:174-175 | the yearly irradiation is 30 times the sum of the daily means |
| Climate.MonthlyGhiBelowYear | components/TemperatureModel.tsx:175 | with no negative irradiance, no month's irradiation exceeds the year's |
| Climate.SumMonthlyGhiNonNegative | components/TemperatureModel.tsx:175 | with no negative irradiance, the yearly irradiation is not negative |
| Climate.YearlyClimateStats | components/TemperatureModel.tsx:171-177 | an unknown region gives zeros; otherwise the daily average is the twelve months' sum / 12, and the year's irradiation is 12·30 times that average |
| Solar.Max0 | components/TemperatureModel.tsx:226 | `max(0, r)` is at least 0 and at least r, and is one of them |
| Solar.Clamp | components/TemperatureModel.tsx:212 | the argument to arccos lies in [-1, 1]; it is unchanged inside that range and is clipped to the nearer bound outside it |
| Solar.Geometry | components/TemperatureModel.tsx:208-213 | the declination is Cooper's formula, the radians are degrees · π/180, the clamped cosine is `-tan φ · tan δ` clipped to [-1, 1], the sunset angle is its arccos, and it is given in degrees as ws·180/π |
| Solar.DeclinationBound | components/TemperatureModel.tsx:208 | the declination stays within ±23.45° |
| Solar.SunsetAngleRange | components/TemperatureModel.tsx:211-213 | the sunset hour angle lies in [0°, 180°] |
| Solar.EquatorSunset | components/TemperatureModel.tsx:209-213 | at latitude 0 the sun sets at 90° on every day |
| Solar.HourAngleRange | components/TemperatureModel.tsx:222 | slot hour angles are at least 7.5° from noon and, for the 24 slots, within ±172.5° |
| Solar.Irradiance | components/TemperatureModel.tsx:223-227 | a slot with the sun down gets 0, and a non-negative GHI gives a non-negative irradiance (0 for GHI 0) |
| Solar.CellTemp | components/TemperatureModel.tsx:228 | with no irradiance the cell is at ambient temperature, and with NOCT ≥ 20 it is never cooler than ambient |
| Solar.HourEnergy | components/TemperatureModel.tsx:229 | no irradiance, no energy |
| Solar.NegativeHourEnergy | components/TemperatureModel.tsx:229 | the energy is not floored: once β(Tc − 25) > 1 a sunlit hour yields negative energy |
| Solar.HourStep | components/TemperatureModel.tsx:228-229 | the cell temperature and energy written inline in the hour loops are the slot's `HourCellTemp` and `HourYield` |
| Solar.HourYieldScales | components/TemperatureModel.tsx:228-229 | an hour's energy is A·η times that of a unit panel under the same sky: the derating does not depend on A or η |
| Solar.SumToScales | components/TemperatureModel.tsx:230 | a sum of terms that are each k times another's is k times the other sum |
| Solar.DayYieldIsSum | components/TemperatureModel.tsx:221-232 | the hour loop's running total is the sum of the slots' energies |
| Solar.HourYieldsScale | components/TemperatureModel.tsx:228-229 | at every slot, the panel's energy is A·η times the unit panel's |
| Solar.PanelSumScales | components/TemperatureModel.tsx:221-232 | the sum of a day's slot energies is A·η times the unit panel's sum |
| Solar.DayYieldIsScaledSum | components/TemperatureModel.tsx:221-232 | a day's energy is A·η times the sum of the unit panel's slot energies |
| Solar.DayYieldScales | components/TemperatureModel.tsx:221-232 | a day's energy is A·η times a unit panel's day energy under the same sky, so the yield scales linearly with area and with efficiency |
| Solar.DarkHourYieldsNothing | components/TemperatureModel.tsx:223-229 | a slot with the sun down yields nothing |
| Solar.ZeroIrradianceNoYield | components/TemperatureModel.tsx:221-232 | a day without irradiance yields nothing, whatever the temperature |
| Solar.PolarNightNoYield | components/TemperatureModel.tsx:221-232 | with a sunset angle below 7.5° no slot is sunlit and the day yields nothing |
| Solar.MidnightSunAllSlotsLit | components/PerformanceAnalysis.tsx:109-118 | with a sunset angle of at least 172.5° all 24 slots count as sunlit |
| Solar.SunlitCountBound | components/PerformanceAnalysis.tsx:116 | at most n of the first n slots are sunlit |
| Solar.SunlitYieldIsDayYield | components/PerformanceAnalysis.tsx:109-118 | the performance view's sum over sunlit slots equals the temperature view's sum over all slots |
| TemperatureModel.DefaultMonths | components/TemperatureModel.tsx:157 | a new region gets twelve months of `{ghi 0, temp 25}` |
| TemperatureModel.SlotIndex | components/TemperatureModel.tsx:160 | an accepted whole month addresses one of the twelve slots |
| TemperatureModel.Slot | components/TemperatureModel.tsx:160 | the stored month takes the row's GHI and temperature; a missing or zero value falls back to 0 and 25 |
| TemperatureModel.ApplyRow | components/TemperatureModel.tsx:153-161 | a rejected row changes nothing; an accepted row adds its region, writes exactly its slot, keeps an existing region's latitude, defaults a new one's, and leaves every other region and slot as it was |
| TemperatureModel.Merge | components/TemperatureModel.tsx:146-162 | merging keeps every region at twelve months |
| TemperatureModel.ImportRows | components/TemperatureModel.tsx:145-162 | the import loop's dictionary is the rows applied one after another, in row order |
| TemperatureModel.MergeKeys | components/TemperatureModel.tsx:153-159 | after import the dictionary holds the old regions plus exactly those named by accepted rows |
| TemperatureModel.MergeLeavesOtherRegions | components/TemperatureModel.tsx:145-162 | a region that no accepted row names is unchanged |
| TemperatureModel.MergeKeepsLatitude | components/TemperatureModel.tsx:154-159 | importing never changes an existing region's latitude |
| TemperatureModel.LastRowWins | components/TemperatureModel.tsx:160 | a slot holds the values of the last row that wrote it |
| TemperatureModel.RegionMonthChange | components/TemperatureModel.tsx:189-201 | an unknown region changes nothing; otherwise GHI, temperature and latitude come from the region and month, the day of year is exactly the month's representative day `30·i + 15`, and every other input is kept |
| TemperatureModel.SumMonthEntriesIsYearYield | components/TemperatureModel.tsx:257 | the total of the monthly series is the year's energy |
| TemperatureModel.DarkYearNoYield | components/TemperatureModel.tsx:236-256 | a year without irradiance yields nothing |
| TemperatureModel.HourlyRun | components/TemperatureModel.tsx:218-232 | 24 entries labelled `0h`..`23h`, each with its slot's energy and irradiance, plus the day's total |
| TemperatureModel.DayTotal | components/TemperatureModel.tsx:237-254 | the inner monthly loop sums the representative day's energy |
| TemperatureModel.Calculate | components/TemperatureModel.tsx:203-258 | no result exactly when monthly mode meets an unknown region; the geometry is that of the inputs; the hourly result is the day's 24 slots and their total; the monthly result is 30× each representative day at the input latitude, labelled, with the year's total |
| PerformanceAnalysis.PlantCapacity | components/PerformanceAnalysis.tsx:81 | Pnom = A·η is 0 exactly when the area or the efficiency is 0, and positive when both are |
| PerformanceAnalysis.FinalYield | components/PerformanceAnalysis.tsx:121 | Yf is finite exactly when the energy is and Pnom ≠ 0, and then Yf·Pnom·30 = E |
| PerformanceAnalysis.ReferenceYield | components/PerformanceAnalysis.tsx:122 | Yr equals the daily irradiance |
| PerformanceAnalysis.PerformanceRatio | components/PerformanceAnalysis.tsx:130 | PR is finite exactly when Yf and Yr are finite and Yr ≠ 0, and then PR·Yr = 100·Yf |
| PerformanceAnalysis.AtLeastOne | components/PerformanceAnalysis.tsx:131-132 | `hoursWithSun \|\| 1` is 1 when the count is 0 and the count otherwise |
| PerformanceAnalysis.SimEntry | components/PerformanceAnalysis.tsx:97-135 | a simulated month's energy is 30× its representative day at the region's latitude; Yf is the rounded E/Pnom/30 and PR the rounded 100·Yf/Yr of the unrounded values, finite exactly when Pnom ≠ 0 (and GHI ≠ 0 for PR); Yr is the rounded GHI; the average cell temperature and irradiance are the sums over the sunlit slots divided by `hoursWithSun \|\| 1`; label, temperature and irradiation come from the month |
| PerformanceAnalysis.SimulateMonth | components/PerformanceAnalysis.tsx:107-135 | the gated hour loop produces the month's entry, and at most 24 sunlit hours |
| PerformanceAnalysis.SimRegion | components/PerformanceAnalysis.tsx:94-95 | the selected region when it is known, else exactly the first one; none only when there are no regions |
| PerformanceAnalysis.CalculateSimulation | components/PerformanceAnalysis.tsx:93-137 | an empty series when there are no regions; otherwise one simulated entry per month of the region, in order |
| PerformanceAnalysis.ActualEntry | components/PerformanceAnalysis.tsx:164-176 | an actual row keeps its month, energy and irradiation; the temperature defaults to 25; Yr and the daily GHI are both the rounded H/30, NaN when H is missing; Yf is the rounded E/Pnom/30 and PR the rounded 100·Yf/(H/30) of the unrounded values, finite exactly when their inputs are present and the divisors are nonzero |
| PerformanceAnalysis.ActualEntries | components/PerformanceAnalysis.tsx:163-177 | one entry per row, in order |
| PerformanceAnalysis.ActualPRIsHundredWhenYieldsMatch | components/PerformanceAnalysis.tsx:167-175 | when E = Pnom·H, the PR is exactly 100 |
| PerformanceAnalysis.Column | components/PerformanceAnalysis.tsx:143-146 | one field of every entry, in series order |
| PerformanceAnalysis.ComputeMetrics | components/PerformanceAnalysis.tsx:141-150 | no metrics exactly for an empty series; otherwise the summed energy, the plain means over all entries, the first entry, and CUF·(Pnom·n·720) = 100·E, finite exactly when E is finite and Pnom ≠ 0 |
| PerformanceAnalysis.AveragePRFiniteIff | components/PerformanceAnalysis.tsx:144 | the average PR is finite exactly when every entry's PR is |
| PerformanceAnalysis.TotalEnergyFiniteIff | components/PerformanceAnalysis.tsx:143 | the total energy is finite exactly when every entry's energy is |
| PerformanceAnalysis.AveragePROfEqualEntries | components/PerformanceAnalysis.tsx:144 | entries that all have PR c average to c |
| PRModel.YearEnergyIsProportional | components/PRModel.tsx:105-115 | summing the months gives PR·A·η times those months' irradiation |
| PRModel.ClosedFormAgrees | components/PRModel.tsx:242 | the closed form PR·A·η·GHI_annual equals the month-by-month total |
| PRModel.MonthlyEnergyNonNegative | components/PRModel.tsx:110 | with non-negative inputs no month's energy is negative |
| PRModel.YearEnergyNonNegative | components/PRModel.tsx:108-113 | with non-negative inputs the year's total is not negative |
| PRModel.YearEnergyDominatesMonths | components/PRModel.tsx:108-113 | with non-negative inputs the year's total is at least each month's energy |
| PRModel.CalculateYearlyPR | components/PRModel.tsx:105-115 | no result for an unknown region; otherwise one labelled entry per month with energy PR·A·η·GHI·30, and a total equal to both the running sum and the closed form |

## Left out

- Trigonometry: `Math.sin`, `Math.tan`, `Math.acos`, `Math.cos`, `Math.PI` and the Liu & Jordan ratio are uninterpreted fields of `Solar.Trig`. Floating-point results are not modelled.
- Solar.DeclinationBound, Solar.SunsetAngleRange, Solar.EquatorSunset: each assumes, as a precondition, the range of sin or acos it needs, because trigonometry is not interpreted.
- Floating point: numbers are exact reals. NaN, +Infinity and −Infinity are one `NonFinite` value, so their sign is lost. `x / Infinity == 0` is not modelled, because the engine never divides by an infinite divisor: the only non-finite divisor that can occur is NaN, from a missing spreadsheet cell, and NaN is modelled exactly.
- JsNumber.Round2: `toFixed(2)` is modelled as exact decimal rounding (ties away from zero) on reals. The double's binary-representation errors and the exponent form used for values ≥ 1e21 are not modelled.
- The display rounding `toLocaleString(..., {maximumFractionDigits: 0})` of the PR view's closed form is not modelled. PRModel.ClosedFormYield is the unrounded value.
- Spreadsheet parsing: XLSX reading, the fallbacks between column names and `Number(...)` coercion of strings are not modelled. A row arrives already parsed, with `None` for NaN and `""` for a missing region name.
- TemperatureModel.ImportRows: a region named after an `Object.prototype` member (e.g. `constructor`) makes the source throw and abandon the whole import. Such names are not distinguished.
- TemperatureModel.ImportRows: the copy `{...regionalData}` is shallow, so writing a slot of an existing region also changes the array held by the previous state. The model works on values and does not capture this aliasing.
- Non-well-formed stored data (a region without exactly twelve months, e.g. hand-edited browser storage) is excluded by the `WellFormed` precondition.
- PerformanceAnalysis.CalculateSimulation: `Object.values(regionalData)[0]` depends on JavaScript key order. It is passed in as the parameter `first`, which must be one of the stored regions.
- The `displayData` choice between the simulated and the actual series (`PerformanceAnalysis.tsx:139`) is not modelled. It only selects which series `ComputeMetrics` receives.
- Browser storage, the 2-second polling of it, file readers, alerts, React state, charts and translations are not modelled. `App.tsx` and `types.ts` are not part of this model.
