# Airplane CO2 emission calculator, modelled in Dafny

`Plane_carbon_emissions.py` estimates how much CO2 five military aircraft
emit per hour and per mission. It stores the figures in a dictionary keyed
by aircraft name and compares each mission with a year of driving an
average car. This project models that arithmetic and that loop, and proves
what they promise.

- `failures.dfy` (module `Failures`): the two exceptions the script can
  raise, as a `Result` datatype. ZeroDivisionError comes from a zero
  divisor. DimensionalityError comes from `.to(...)` between different
  dimensions.
- `quantities.dfy` (module `Quantities`): the part of the pint units
  library the script uses.
  - A quantity is a real magnitude in some units.
  - A unit is a dimension plus a size. The dimension mass^m·length^l·time^t
    is coded as the positive rational 2^m·3^l·5^t, which is unique by prime
    factorisation. The size is the amount one unit stands for in kilograms,
    inches and hours.
  - Products and quotients multiply or divide magnitudes and units and
    convert nothing, as in pint.
  - `.to(...)` checks the dimension and writes the same physical amount in
    the target units.
  - The unit names the script uses carry pint's definitions: the metric
    ton, the avoirdupois pound, the US gallon of 231 in³, the mile, the
    Julian year of 8766 h, the month of a twelfth of a year, and the week.
- `emissions.dfy` (module `Emissions`):
  - the hourly formula `calculate_co2_per_hour`;
  - fuel loads given in pounds;
  - the yearly driving rate `CO2_TONS_YEAR_DRIVING`;
  - the three figures computed for each plane;
  - the rule that prints the comparison in years, months or weeks;
  - the five aircraft.
- `results.dfy` (module `Results`): the loop over the planes.
  - `plane_emissions` is a class whose fields are the insertion-ordered
    key list and the entries map. It is filled in place by `Put`.
  - `BuildEmissions` runs the loop and is proved against `Run`, a
    functional description of the loop.
  - Lemmas about `Run` state which keys end up in the table, in what order,
    and what each entry holds.

The comparison `co2_mission / CO2_TONS_YEAR_DRIVING` is metric tons divided
by metric tons per year. It is therefore a time in years, not a plain
ratio. That is why the branch can convert it to months and weeks. The model
follows the code here. Likewise, `co2_comparison.m` is a number of years.

In the loop, the entry is stored before the comparison is converted for
printing. A failing conversion would therefore leave the entry in the
dictionary. `Step` models that order.

The docstring of `calculate_co2_per_hour` (line 34) says it returns metric
tons per hour. The expression at line 36 actually yields kilograms per hour:
gallons per mile, times miles per hour, times kilograms per gallon. The
`.to(unit.metric_ton / unit.hour)` at lines 65-66 is what turns it into
metric tons per hour. `CalculateCo2PerHour` follows the code, and
`Co2PerHourClosedForm` states its kilogram-per-hour result.

The two records of the script (lines 39-41 and 53) are the datatypes
`PlaneCharacteristics` and `CO2Emissions`. Each has the same fields, in the
same order. The constants of lines 20-21 and 59-60 are `KgCo2PerGalJp8`,
`Jp8Density`, `KgCo2Gal` and `GallonsPerYearDriving`, each holding the
script's value and units. The aircraft list of lines 44-50 is `Planes`,
built from `B52`, `B1`, `B2`, `F15` and `F35`. `Jp8Constants`, `DrivingUnits`
and `PlaneInputs` state what these constants amount to.

## Model

| member | source | states |
|---|---|---|
| Quantities.Scale | Plane_carbon_emissions.py:36 | `2 * combat_range` keeps the units and multiplies the physical amount by the factor |
| Quantities.Mul | Plane_carbon_emissions.py:36 | a product's units are the product of the units (dimensions multiply, sizes multiply), and its amount is the product of the amounts, so no conversion happens and the magnitude is the product of the magnitudes |
| Quantities.Div | Plane_carbon_emissions.py:68 | division fails with ZeroDivisionError exactly when the divisor's magnitude is zero; otherwise the units are the quotient of the units and the amount is the quotient of the amounts |
| Quantities.ConvertTo | Plane_carbon_emissions.py:65-66 | `.to` succeeds exactly when the dimensions agree, raising DimensionalityError otherwise; it returns the target units and the same physical amount |
| Quantities.ConvertUnique | Plane_carbon_emissions.py:65-66 | any quantity in the target units with the same amount is exactly what `.to` returns |
| Quantities.ConvertToOwnUnits | Plane_carbon_emissions.py:65-66 | converting to the units a quantity already has returns it unchanged |
| Quantities.ConvertRoundTrip | Plane_carbon_emissions.py:65-66 | converting there and back gives the original quantity |
| Quantities.ConvertCompose | Plane_carbon_emissions.py:65-66 | converting through an intermediate unit equals converting directly |
| Quantities.ConvertScale | Plane_carbon_emissions.py:65-66 | `.to` is linear: converting k·q gives k times the conversion of q |
| Quantities.ConvertSign | Plane_carbon_emissions.py:65-66 | `.to` keeps a positive magnitude positive and a negative one negative |
| Quantities.MulScaleLeft | Plane_carbon_emissions.py:36 | scaling the left factor of a product scales the product |
| Quantities.MulScaleRight | Plane_carbon_emissions.py:36 | scaling the right factor of a product scales the product |
| Quantities.DivScaleLeft | Plane_carbon_emissions.py:36 | scaling the dividend scales the quotient |
| Quantities.DivScaleRight | Plane_carbon_emissions.py:36 | scaling the divisor by a nonzero k divides the quotient by k |
| Quantities.KilogramsToTonnesPerHour | Plane_carbon_emissions.py:65-66 | m kg/h converted to metric_ton/hour is m/1000 t/h |
| Quantities.KilogramsToTonnesPerYear | Plane_carbon_emissions.py:61 | m kg/yr converted to metric_ton/yr is m/1000 t/yr |
| Quantities.YearsToMonths | Plane_carbon_emissions.py:78 | m years converted to months is 12·m months |
| Quantities.YearsToWeeks | Plane_carbon_emissions.py:80 | m years converted to weeks is m·1461/28 weeks |
| Emissions.CalculateCo2PerHour | Plane_carbon_emissions.py:24-36 | fails only for a zero range, with ZeroDivisionError; the result's dimension is fuel/range × speed × mass/volume, and its amount follows the formula on the inputs' amounts whatever units they are written in |
| Emissions.FuelFromMass | Plane_carbon_emissions.py:46-49 | dividing by the JP-8 density never fails and turns a mass into a volume |
| Emissions.FuelUnits | Plane_carbon_emissions.py:21 | pounds over pounds per gallon is exactly gallons |
| Emissions.PoundsToGallons | Plane_carbon_emissions.py:46-49 | a load of p pounds is p/6.75 gallons |
| Emissions.FuelMassRoundTrip | Plane_carbon_emissions.py:46-49 | multiplying the fuel volume back by the density gives the original mass, units included |
| Emissions.Co2TonsYearDriving | Plane_carbon_emissions.py:59-61 | the driving rate is 8.9 × 489 / 1000 = 4.3521 metric tons per year; it is a nonzero mass rate, so the division at line 68 is defined |
| Emissions.Jp8Constants | Plane_carbon_emissions.py:20-21 | both JP-8 constants are a mass per volume: 9.75 kg per US gallon and 6.75 lb per US gallon |
| Emissions.PlaneInputs | Plane_carbon_emissions.py:44-50 | every aircraft record is in gallons, miles, miles per hour and hours; the B-52 carries 47975 gal and each load given in pounds is that many pounds over 6.75 gallons |
| Emissions.DrivingUnits | Plane_carbon_emissions.py:59-61 | kg/gal times gal/yr is 4352.1 kg/yr, so the `.to(metric_ton / yr)` is dimensionally valid |
| Emissions.HourlyCo2 | Plane_carbon_emissions.py:65-66 | the hourly figure exists exactly when the range is nonzero and fuel/range × speed is a volume per time; otherwise it fails with ZeroDivisionError or DimensionalityError; the result is in metric tons per hour with the formula's amount |
| Emissions.ComputeEmissions | Plane_carbon_emissions.py:65-68 | the three figures exist exactly when the hourly figure does and the driving rate is nonzero; a failing hourly figure raises its own exception (ZeroDivisionError for a zero range, DimensionalityError from the `.to`), and otherwise a failure is ZeroDivisionError from a zero driving rate; the mission figure is in metric tons per hour times the mission's units, with amount hourly × mission length; the comparison is in those units over the driving rate's units, with amount mission ÷ driving rate |
| Emissions.SelectUnit | Plane_carbon_emissions.py:75-80 | years exactly when m > 1, months exactly when 1/12 < m ≤ 1, weeks exactly when m ≤ 1/12, so exactly one branch fires and the boundaries go to the smaller unit |
| Emissions.ReportComparison | Plane_carbon_emissions.py:75-80 | the printed comparison is the same duration, unchanged for years and in months or weeks otherwise; it fails with DimensionalityError exactly when a non-year branch meets a value that is not a time |
| Emissions.HourlyUnits | Plane_carbon_emissions.py:36 | gal/mi × mi/h × kg/gal is exactly kg/h |
| Emissions.Co2PerHourClosedForm | Plane_carbon_emissions.py:36 | with gallons, miles and miles per hour, the result is fuel/(2·range)·speed·9.75 kg/h |
| Emissions.HourlyCo2ClosedForm | Plane_carbon_emissions.py:65-66 | in metric tons per hour, the same formula divided by 1000 |
| Emissions.Co2PerHourScalesWithFuel | Plane_carbon_emissions.py:36 | multiplying fuel_cap by k multiplies the result by k, and a failure stays a failure |
| Emissions.Co2PerHourScalesWithSpeed | Plane_carbon_emissions.py:36 | multiplying cruise_speed by k multiplies the result by k |
| Emissions.Co2PerHourInverseInRange | Plane_carbon_emissions.py:36 | multiplying combat_range by a nonzero k divides the result by k |
| Emissions.Co2PerHourPositive | Plane_carbon_emissions.py:36 | positive fuel, range and speed give a positive result |
| Emissions.HourlyCo2WellDimensioned | Plane_carbon_emissions.py:65-66 | volume, length and length/time inputs give a mass per time, so the conversion to metric_ton/hour succeeds for any nonzero range |
| Emissions.HourlyCo2ScalesWithFuel | Plane_carbon_emissions.py:65-66 | the hourly figure in t/h is linear in fuel_cap |
| Emissions.HourlyCo2ScalesWithSpeed | Plane_carbon_emissions.py:65-66 | the hourly figure in t/h is linear in cruise_speed |
| Emissions.HourlyCo2InverseInRange | Plane_carbon_emissions.py:65-66 | the hourly figure in t/h is inversely proportional to combat_range |
| Emissions.MissionUnits | Plane_carbon_emissions.py:67 | metric tons per hour times hours is metric tons |
| Emissions.ComparisonUnits | Plane_carbon_emissions.py:68 | metric tons over metric tons per year is years |
| Emissions.ComputeEmissionsClosedForm | Plane_carbon_emissions.py:64-68 | for gallons, miles, mph and hours and a driving rate r t/yr, the figures are t t/h, t·L metric tons and t·L/r years, where t is the hourly formula divided by 1000 |
| Emissions.ComputeEmissionsPositive | Plane_carbon_emissions.py:65-68 | positive inputs and a positive driving rate give positive hourly, mission and comparison figures whenever they are computed |
| Emissions.ComputeEmissionsDimensions | Plane_carbon_emissions.py:67-68 | a mission length in time and a driving rate in mass per time make the mission a mass and the comparison a time |
| Emissions.ReportOfYears | Plane_carbon_emissions.py:75-80 | a comparison of m years prints as m years above 1, 12·m months above 1/12, and m·1461/28 weeks otherwise |
| Emissions.B52HourlyCo2 | Plane_carbon_emissions.py:45 | the B-52 emits 47975/17600 × 509 × 9.75/1000 metric tons per hour |
| Emissions.ReportedInYears | Plane_carbon_emissions.py:75-76 | with inputs in gallons, miles, miles per hour and hours, a plane whose mission exceeds 4.3521 t is computed without error and printed in years |
| Emissions.PlanesReportedInYears | Plane_carbon_emissions.py:44-50 | every listed aircraft's comparison exceeds one year, so each is printed in years |
| Results.Insert | Plane_carbon_emissions.py:71 | `d[k] = v`: k then holds v; no other key is added, removed or changed; a new key is appended to the order and an existing one keeps its place; distinct keys stay distinct |
| Results.EmissionsTable.constructor | Plane_carbon_emissions.py:56 | the dictionary starts empty |
| Results.EmissionsTable.Put | Plane_carbon_emissions.py:71 | the in-place assignment leaves the table as `Insert` describes and keeps it valid |
| Results.Step | Plane_carbon_emissions.py:64-80 | one iteration: an earlier exception makes it a no-op; it succeeds exactly when the plane's figures and printed comparison do; only the plane's own key can change; if the plane's figures fail the table is unchanged, and if they succeed the entry is stored even when the printed comparison then fails; a failure appends no report, and success appends exactly one; the exception recorded is the one the plane's figures raise, or else the one its printed conversion raises |
| Results.Run | Plane_carbon_emissions.py:64-80 | the loop as a fold of `Step` over the planes: at most one report per plane, and exactly one per plane when no exception is raised |
| Results.RunValid | Plane_carbon_emissions.py:56-71 | the dictionary never lists a key twice, and its listed keys are its entries |
| Results.RunSucceeds | Plane_carbon_emissions.py:64-80 | the loop finishes without an exception exactly when every plane's figures and comparison can be computed |
| Results.RunAfterFailure | Plane_carbon_emissions.py:64-80 | after an exception, further planes change nothing |
| Results.RunReports | Plane_carbon_emissions.py:74-80 | without an exception, one report per plane is printed, in order, showing that plane's own comparison in its chosen units |
| Results.RunKeys | Plane_carbon_emissions.py:64-71 | without an exception, the keys are exactly the plane names |
| Results.RunKeysInFirstInsertionOrder | Plane_carbon_emissions.py:56-71 | without an exception, the keys are ordered by where each name first occurs among the planes |
| Results.InsertKeepsFirstInsertionOrder | Plane_carbon_emissions.py:71 | inserting the next name keeps the keys in first-insertion order |
| Results.RunLastWriteWins | Plane_carbon_emissions.py:64-71 | without an exception, each entry holds the figures of the last plane with that name, computed from that record and the driving rate alone |
| Results.RunKeysDistinctNames | Plane_carbon_emissions.py:64-71 | without an exception and when no name repeats, the keys are the names in the planes' order |
| Results.PlaneNames | Plane_carbon_emissions.py:44-50 | the five aircraft have distinct names, listed as B-52, B-1, B-2, F-15, F-35 |
| Results.PlanesSucceed | Plane_carbon_emissions.py:44-80 | every aircraft of the script gets its figures and its printed comparison without an exception |
| Results.ScriptTable | Plane_carbon_emissions.py:44-71 | the script raises no exception and ends with the five names as keys, in listed order |
| Results.BuildEmissions | Plane_carbon_emissions.py:56-80 | the loop, run in place on a fresh dictionary and stopping at the first exception, leaves exactly the table, reports and exception that `Run` describes for the driving rate of lines 59-61 |

## Left out

- The bar charts (`plot_co2_emissions` and its calls, lines 84-107) are matplotlib output with no behaviour to state.
- Printing is reduced to which unit is chosen and the quantity shown, as `Report`. The text pint prints is not modelled.
- Floating point is modelled as exact reals, so the thresholds 1 and 1/12 are exact. IEEE rounding near a threshold could pick the other branch in the script.
- Units: pint's registry and parser (lines 14 and 17) are replaced by the fixed unit constants. A unit is identified by its dimension and size, not by its name. The magnitudes are the ones pint computes: the contracts of `Mul` and `Div` fix the units of each product and quotient, so nothing is converted outside `.to(...)`. Only the printed unit names could differ.
- Emissions.ComputeEmissions: takes the driving rate as a parameter rather than reading the module-level constant. `BuildEmissions` passes it `Co2TonsYearDriving()`, and `Co2TonsYearDriving` fixes it to 4.3521 t/yr.
- Only ZeroDivisionError and DimensionalityError are modelled. Other Python errors, such as a record field of the wrong type, cannot arise from the listed planes.
