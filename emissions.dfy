/** The emissions arithmetic of the script: the hourly CO2 formula, the yearly
    driving rate the missions are compared with, the three figures stored per
    plane, and the rule that picks years, months or weeks for the comparison. */
module Emissions {
  import opened Failures
  import opened Quantities

  // The compound units the script writes.
  const KilogramPerGallon := UnitsDiv(Kilogram, Gallon)
  const PoundPerGallon := UnitsDiv(Pound, Gallon)
  const GallonPerYear := UnitsDiv(Gallon, Year)
  const MilePerHour := UnitsDiv(Mile, Hour)
  const KilogramPerHour := UnitsDiv(Kilogram, Hour)
  const TonPerHour := UnitsDiv(MetricTon, Hour)
  const KilogramPerYear := UnitsDiv(Kilogram, Year)
  const TonPerYear := UnitsDiv(MetricTon, Year)

  const MassRate := DimensionDiv(Mass, Time)
  const VolumeRate := DimensionDiv(Volume, Time)
  const Speed := DimensionDiv(Length, Time)

  /** CO2 produced per gallon of JP-8 jet fuel. */
  const KgCo2PerGalJp8 := Quantity(9.75, KilogramPerGallon)
  /** Density of JP-8 jet fuel. */
  const Jp8Density := Quantity(6.75, PoundPerGallon)
  /** CO2 produced per gallon of gasoline. */
  const KgCo2Gal := Quantity(8.9, KilogramPerGallon)
  /** Fuel a registered vehicle burns in a year. */
  const GallonsPerYearDriving := Quantity(489.0, GallonPerYear)

  /** The input record of one aircraft. */
  datatype PlaneCharacteristics = PlaneCharacteristics(
    name: string, fuelCap: Quantity, combatRange: Quantity,
    cruiseSpeed: Quantity, missionLength: Quantity)

  /** The three figures stored for one aircraft. */
  datatype CO2Emissions = CO2Emissions(
    co2PerHour: Quantity, co2PerMission: Quantity, co2Comparison: Quantity)

  /** `fuel_cap / (2 * combat_range) * cruise_speed * KG_CO2_PER_GAL_JP8`. A
      zero range raises ZeroDivisionError. Otherwise the dimension of the
      result is fuel per distance, times speed, times mass per volume, and the
      amount it stands for is the same formula on the amounts of the inputs,
      whatever units they are written in. */
  function CalculateCo2PerHour(fuelCap: Quantity, combatRange: Quantity, cruiseSpeed: Quantity): (r: Result<Quantity>)
    ensures r.Ok? <==> combatRange.magnitude != 0.0
    ensures r.Err? ==> r.error == ZeroDivision
    ensures r.Ok? ==>
      r.value.units.dimension ==
      DimensionMul(DimensionMul(DimensionDiv(fuelCap.units.dimension, combatRange.units.dimension),
                                cruiseSpeed.units.dimension),
                   DimensionDiv(Mass, Volume))
    ensures r.Ok? ==>
      Amount(r.value) == Amount(fuelCap) / (2.0 * Amount(combatRange)) * Amount(cruiseSpeed) * Amount(KgCo2PerGalJp8)
  {
    var fuelPerDistance :- Div(fuelCap, Scale(2.0, combatRange));
    Ok(Mul(Mul(fuelPerDistance, cruiseSpeed), KgCo2PerGalJp8))
  }

  /** Fuel loads given as a mass: `pounds * unit.lb / JP8_DENSITY`. The
      density is not zero, so the division always succeeds, and a mass
      becomes a volume. */
  function FuelFromMass(mass: Quantity): (r: Result<Quantity>)
    ensures r.Ok?
    ensures mass.units.dimension == Mass ==> r.value.units.dimension == Volume
  {
    Div(mass, Jp8Density)
  }

  /** `CO2_TONS_YEAR_DRIVING`: gasoline CO2 per gallon times gallons per year,
      converted to metric tons per year; 8.9 kg/gal * 489 gal/yr is 4.3521 t/yr,
      a nonzero mass rate. */
  function Co2TonsYearDriving(): (r: Result<Quantity>)
    ensures r == Ok(Quantity(4.3521, TonPerYear))
    ensures r.value.units.dimension == MassRate && r.value.magnitude != 0.0
  {
    DrivingUnits();
    KilogramsToTonnesPerYear(8.9 * 489.0);
    ConvertTo(Mul(KgCo2Gal, GallonsPerYearDriving), TonPerYear)
  }

  /** kg/gal times gal/yr is kg/yr. */
  lemma DrivingUnits()
    ensures Mul(KgCo2Gal, GallonsPerYearDriving) == Quantity(8.9 * 489.0, KilogramPerYear)
  {
  }

  /** The hourly figure of one plane, `.to(unit.metric_ton / unit.hour)`: it
      exists exactly when the range is not zero and fuel over range times
      speed is a volume per time, so that the result is a mass per time. */
  function HourlyCo2(fuelCap: Quantity, combatRange: Quantity, cruiseSpeed: Quantity): (r: Result<Quantity>)
    ensures r.Ok? <==>
      combatRange.magnitude != 0.0 &&
      DimensionMul(DimensionDiv(fuelCap.units.dimension, combatRange.units.dimension), cruiseSpeed.units.dimension) == VolumeRate
    ensures r.Err? ==> r.error == (if combatRange.magnitude == 0.0 then ZeroDivision else DimensionalityError)
    ensures r.Ok? ==> r.value.units == TonPerHour
    ensures r.Ok? ==> Amount(r.value) == Amount(CalculateCo2PerHour(fuelCap, combatRange, cruiseSpeed).value)
  {
    var perHour :- CalculateCo2PerHour(fuelCap, combatRange, cruiseSpeed);
    ConvertTo(perHour, TonPerHour)
  }

  /** The figures computed for one plane in the loop body, given the yearly
      driving CO2 the mission is compared with: the hourly figure in metric
      tons per hour, that figure times the mission length, and the mission
      figure over the driving rate. */
  function ComputeEmissions(p: PlaneCharacteristics, driving: Quantity): (r: Result<CO2Emissions>)
    ensures r.Ok? <==> HourlyCo2(p.fuelCap, p.combatRange, p.cruiseSpeed).Ok? && driving.magnitude != 0.0
    ensures r.Err? && HourlyCo2(p.fuelCap, p.combatRange, p.cruiseSpeed).Ok? ==> r.error == ZeroDivision
    ensures HourlyCo2(p.fuelCap, p.combatRange, p.cruiseSpeed).Err? ==>
      r == Err(HourlyCo2(p.fuelCap, p.combatRange, p.cruiseSpeed).error)
    ensures r.Ok? ==>
      r.value.co2PerHour == HourlyCo2(p.fuelCap, p.combatRange, p.cruiseSpeed).value &&
      Amount(r.value.co2PerMission) == Amount(r.value.co2PerHour) * Amount(p.missionLength) &&
      Amount(r.value.co2Comparison) == Amount(r.value.co2PerMission) / Amount(driving)
    ensures r.Ok? ==>
      r.value.co2PerMission.units == UnitsMul(TonPerHour, p.missionLength.units) &&
      r.value.co2Comparison.units == UnitsDiv(r.value.co2PerMission.units, driving.units)
  {
    var co2Hour :- HourlyCo2(p.fuelCap, p.combatRange, p.cruiseSpeed);
    var co2Mission := Mul(co2Hour, p.missionLength);
    var co2Comparison :- Div(co2Mission, driving);
    Ok(CO2Emissions(co2Hour, co2Mission, co2Comparison))
  }

  /** The unit the comparison is reported in. */
  datatype ComparisonUnit = Years | Months | Weeks

  /** Years above 1, months above 1/12, weeks otherwise. The comparisons are
      strict, so exactly one unit fits each magnitude and the boundaries 1 and
      1/12 fall to the smaller unit. */
  function SelectUnit(m: real): (u: ComparisonUnit)
    ensures u == Years <==> 1.0 < m
    ensures u == Months <==> 1.0 / 12.0 < m <= 1.0
    ensures u == Weeks <==> m <= 1.0 / 12.0
  {
    if m > 1.0 then Years
    else if m > 1.0 / 12.0 then Months
    else Weeks
  }

  /** The units a comparison is reported in: its own for years. */
  function UnitOfReport(u: ComparisonUnit, own: Units): Units {
    match u
    case Years => own
    case Months => Month
    case Weeks => Week
  }

  /** The comparison as it is reported: unchanged when above 1, otherwise
      converted to months or weeks. The conversion fails when the comparison
      is not a duration; when it succeeds it is the same duration in other units. */
  function ReportComparison(c: Quantity): (r: Result<Quantity>)
    ensures r.Ok? <==> SelectUnit(c.magnitude) == Years || c.units.dimension == Time
    ensures r.Err? ==> r.error == DimensionalityError
    ensures r.Ok? ==> r.value.units == UnitOfReport(SelectUnit(c.magnitude), c.units)
    ensures r.Ok? ==> Amount(r.value) == Amount(c)
  {
    match SelectUnit(c.magnitude)
    case Years => Ok(c)
    case Months => ConvertTo(c, Month)
    case Weeks => ConvertTo(c, Week)
  }

  /** The five aircraft of the script. The fuel of all but the B-52 is given in pounds. */
  const B52 := PlaneCharacteristics("B-52", Quantity(47975.0, Gallon), Quantity(8800.0, Mile),
                                    Quantity(509.0, MilePerHour), Quantity(34.0, Hour))
  const B1 := PlaneCharacteristics("B-1", FuelFromMass(Quantity(265274.0, Pound)).value, Quantity(3444.0, Mile),
                                   Quantity(647.0, MilePerHour), Quantity(12.0, Hour))
  const B2 := PlaneCharacteristics("B-2", FuelFromMass(Quantity(167000.0, Pound)).value, Quantity(6900.0, Mile),
                                   Quantity(560.0, MilePerHour), Quantity(31.0, Hour))
  const F15 := PlaneCharacteristics("F-15", FuelFromMass(Quantity(13455.0, Pound)).value, Quantity(1221.0, Mile),
                                    Quantity(570.0, MilePerHour), Quantity(2.0, Hour))
  const F35 := PlaneCharacteristics("F-35", FuelFromMass(Quantity(18250.0, Pound)).value, Quantity(770.0, Mile),
                                    Quantity(647.0, MilePerHour), Quantity(2.0, Hour))
  const Planes: seq<PlaneCharacteristics> := [B52, B1, B2, F15, F35]

  // The hourly formula.

  /** Gallons per mile times miles per hour times kilograms per gallon. */
  lemma HourlyUnits()
    ensures UnitsMul(UnitsMul(UnitsDiv(Gallon, Mile), MilePerHour), KilogramPerGallon) == KilogramPerHour
  {
  }

  /** With the fuel in gallons, the range in miles and the speed in miles per
      hour, gallons and miles cancel and the result is in kilograms per hour. */
  lemma Co2PerHourClosedForm(fuel: real, range: real, speed: real)
    requires range != 0.0
    ensures CalculateCo2PerHour(Quantity(fuel, Gallon), Quantity(range, Mile), Quantity(speed, MilePerHour))
         == Ok(Quantity(fuel / (2.0 * range) * speed * 9.75, KilogramPerHour))
  {
    HourlyUnits();
    var perDistance := Div(Quantity(fuel, Gallon), Scale(2.0, Quantity(range, Mile))).value;
    assert perDistance == Quantity(fuel / (2.0 * range), UnitsDiv(Gallon, Mile));
    assert Mul(Mul(perDistance, Quantity(speed, MilePerHour)), KgCo2PerGalJp8)
        == Quantity(fuel / (2.0 * range) * speed * 9.75, KilogramPerHour);
  }

  /** The same figure after `.to(metric_ton / hour)`. */
  lemma HourlyCo2ClosedForm(fuel: real, range: real, speed: real)
    requires range != 0.0
    ensures HourlyCo2(Quantity(fuel, Gallon), Quantity(range, Mile), Quantity(speed, MilePerHour))
         == Ok(Quantity(fuel / (2.0 * range) * speed * 9.75 / 1000.0, TonPerHour))
  {
    Co2PerHourClosedForm(fuel, range, speed);
    KilogramsToTonnesPerHour(fuel / (2.0 * range) * speed * 9.75);
  }

  /** Multiplying the fuel capacity by `k` multiplies the result by `k`. */
  lemma Co2PerHourScalesWithFuel(k: real, fuelCap: Quantity, combatRange: Quantity, cruiseSpeed: Quantity)
    ensures CalculateCo2PerHour(Scale(k, fuelCap), combatRange, cruiseSpeed)
         == ScaleResult(k, CalculateCo2PerHour(fuelCap, combatRange, cruiseSpeed))
  {
    if combatRange.magnitude != 0.0 {
      var doubled := Scale(2.0, combatRange);
      DivScaleLeft(k, fuelCap, doubled);
      var perDistance := Div(fuelCap, doubled).value;
      MulScaleLeft(k, perDistance, cruiseSpeed);
      MulScaleLeft(k, Mul(perDistance, cruiseSpeed), KgCo2PerGalJp8);
    }
  }

  /** Multiplying the cruise speed by `k` multiplies the result by `k`. */
  lemma Co2PerHourScalesWithSpeed(k: real, fuelCap: Quantity, combatRange: Quantity, cruiseSpeed: Quantity)
    ensures CalculateCo2PerHour(fuelCap, combatRange, Scale(k, cruiseSpeed))
         == ScaleResult(k, CalculateCo2PerHour(fuelCap, combatRange, cruiseSpeed))
  {
    if combatRange.magnitude != 0.0 {
      var perDistance := Div(fuelCap, Scale(2.0, combatRange)).value;
      MulScaleRight(k, perDistance, cruiseSpeed);
      MulScaleLeft(k, Mul(perDistance, cruiseSpeed), KgCo2PerGalJp8);
    }
  }

  /** Multiplying the combat range by a nonzero `k` divides the result by `k`. */
  lemma Co2PerHourInverseInRange(k: real, fuelCap: Quantity, combatRange: Quantity, cruiseSpeed: Quantity)
    requires k != 0.0
    ensures CalculateCo2PerHour(fuelCap, Scale(k, combatRange), cruiseSpeed)
         == ScaleResult(1.0 / k, CalculateCo2PerHour(fuelCap, combatRange, cruiseSpeed))
  {
    if combatRange.magnitude != 0.0 {
      var doubled := Scale(2.0, combatRange);
      assert Scale(2.0, Scale(k, combatRange)) == Scale(k, doubled);
      DivScaleRight(k, fuelCap, doubled);
      var perDistance := Div(fuelCap, doubled).value;
      MulScaleLeft(1.0 / k, perDistance, cruiseSpeed);
      MulScaleLeft(1.0 / k, Mul(perDistance, cruiseSpeed), KgCo2PerGalJp8);
    }
  }

  /** Positive fuel, range and speed give a positive hourly figure. */
  lemma Co2PerHourPositive(fuelCap: Quantity, combatRange: Quantity, cruiseSpeed: Quantity)
    requires fuelCap.magnitude > 0.0 && combatRange.magnitude > 0.0 && cruiseSpeed.magnitude > 0.0
    ensures CalculateCo2PerHour(fuelCap, combatRange, cruiseSpeed).value.magnitude > 0.0
  {
    var perDistance := fuelCap.magnitude / (2.0 * combatRange.magnitude);
    SignOfQuotient(2.0 * combatRange.magnitude, fuelCap.magnitude);
    SignOfProduct(perDistance, cruiseSpeed.magnitude);
    SignOfProduct(perDistance * cruiseSpeed.magnitude, 9.75);
  }

  /** Fuel as a volume, range as a length and speed as a length per time
      make the formula a mass per time, so `.to(metric_ton / hour)` succeeds
      whenever the range is not zero. */
  lemma HourlyCo2WellDimensioned(fuelCap: Quantity, combatRange: Quantity, cruiseSpeed: Quantity)
    requires fuelCap.units.dimension == Volume && combatRange.units.dimension == Length
    requires cruiseSpeed.units.dimension == Speed && combatRange.magnitude != 0.0
    ensures CalculateCo2PerHour(fuelCap, combatRange, cruiseSpeed).value.units.dimension == MassRate
    ensures HourlyCo2(fuelCap, combatRange, cruiseSpeed).Ok?
  {
    assert DimensionMul(DimensionDiv(Volume, Length), Speed) == VolumeRate;
  }

  // The hourly figure in metric tons per hour keeps the same proportions.

  lemma HourlyCo2ScalesWithFuel(k: real, fuelCap: Quantity, combatRange: Quantity, cruiseSpeed: Quantity)
    ensures HourlyCo2(Scale(k, fuelCap), combatRange, cruiseSpeed)
         == ScaleResult(k, HourlyCo2(fuelCap, combatRange, cruiseSpeed))
  {
    Co2PerHourScalesWithFuel(k, fuelCap, combatRange, cruiseSpeed);
    var perHour := CalculateCo2PerHour(fuelCap, combatRange, cruiseSpeed);
    if perHour.Ok? && perHour.value.units.dimension == TonPerHour.dimension {
      ConvertScale(k, perHour.value, TonPerHour);
    }
  }

  lemma HourlyCo2ScalesWithSpeed(k: real, fuelCap: Quantity, combatRange: Quantity, cruiseSpeed: Quantity)
    ensures HourlyCo2(fuelCap, combatRange, Scale(k, cruiseSpeed))
         == ScaleResult(k, HourlyCo2(fuelCap, combatRange, cruiseSpeed))
  {
    Co2PerHourScalesWithSpeed(k, fuelCap, combatRange, cruiseSpeed);
    var perHour := CalculateCo2PerHour(fuelCap, combatRange, cruiseSpeed);
    if perHour.Ok? && perHour.value.units.dimension == TonPerHour.dimension {
      ConvertScale(k, perHour.value, TonPerHour);
    }
  }

  lemma HourlyCo2InverseInRange(k: real, fuelCap: Quantity, combatRange: Quantity, cruiseSpeed: Quantity)
    requires k != 0.0
    ensures HourlyCo2(fuelCap, Scale(k, combatRange), cruiseSpeed)
         == ScaleResult(1.0 / k, HourlyCo2(fuelCap, combatRange, cruiseSpeed))
  {
    Co2PerHourInverseInRange(k, fuelCap, combatRange, cruiseSpeed);
    var perHour := CalculateCo2PerHour(fuelCap, combatRange, cruiseSpeed);
    if perHour.Ok? && perHour.value.units.dimension == TonPerHour.dimension {
      ConvertScale(1.0 / k, perHour.value, TonPerHour);
    }
  }

  // Fuel given as a mass.

  /** Pounds over pounds per gallon is gallons. */
  lemma FuelUnits()
    ensures UnitsDiv(Pound, PoundPerGallon) == Gallon
  {
  }

  /** A load of `p` pounds is `p / 6.75` gallons. */
  lemma PoundsToGallons(p: real)
    ensures FuelFromMass(Quantity(p, Pound)) == Ok(Quantity(p / 6.75, Gallon))
  {
    FuelUnits();
  }

  /** The two JP-8 constants: 9.75 kg of CO2 per gallon and 6.75 lb per
      gallon, both a mass per volume. */
  lemma Jp8Constants()
    ensures KgCo2PerGalJp8.units.dimension == Jp8Density.units.dimension == DimensionDiv(Mass, Volume)
    ensures Amount(KgCo2PerGalJp8) == 9.75 / 231.0
    ensures Amount(Jp8Density) == 6.75 * 0.45359237 / 231.0
  {
  }

  /** Every aircraft's record is in gallons, miles, miles per hour and hours;
      the loads given in pounds become that many pounds over 6.75 gallons. */
  lemma PlaneInputs()
    ensures forall p | p in Planes ::
      p.fuelCap.units == Gallon && p.combatRange.units == Mile &&
      p.cruiseSpeed.units == MilePerHour && p.missionLength.units == Hour
    ensures B52.fuelCap.magnitude == 47975.0
    ensures B1.fuelCap.magnitude == 265274.0 / 6.75
    ensures B2.fuelCap.magnitude == 167000.0 / 6.75
    ensures F15.fuelCap.magnitude == 13455.0 / 6.75
    ensures F35.fuelCap.magnitude == 18250.0 / 6.75
  {
    PoundsToGallons(265274.0);
    PoundsToGallons(167000.0);
    PoundsToGallons(13455.0);
    PoundsToGallons(18250.0);
  }

  /** Multiplying the volume back by the density gives the mass it came from. */
  lemma FuelMassRoundTrip(mass: Quantity)
    ensures Mul(FuelFromMass(mass).value, Jp8Density) == mass
  {
    var u := mass.units;
    DivThenMul(u.size, PoundPerGallon.size);
    DivThenMul(u.dimension, PoundPerGallon.dimension);
    DivThenMul(mass.magnitude, 6.75);
  }

  // The figures of one plane.

  /** Metric tons per hour times hours is metric tons. */
  lemma MissionUnits()
    ensures UnitsMul(TonPerHour, Hour) == MetricTon
  {
  }

  /** Metric tons over metric tons per year is years. */
  lemma ComparisonUnits()
    ensures UnitsDiv(MetricTon, TonPerYear) == Year
  {
  }

  /** With the inputs in gallons, miles, miles per hour and hours and a
      driving rate of `rate` metric tons per year (4.3521 in the script), the
      figures are `t` metric tons per hour, `t` times the mission length in
      metric tons, and that over `rate` in years, `t` being the hourly formula
      over 1000. */
  lemma ComputeEmissionsClosedForm(name: string, fuel: real, range: real, speed: real, length: real, rate: real)
    requires range != 0.0 && rate != 0.0
    ensures var r := ComputeEmissions(PlaneCharacteristics(name, Quantity(fuel, Gallon), Quantity(range, Mile),
                                                           Quantity(speed, MilePerHour), Quantity(length, Hour)),
                                      Quantity(rate, TonPerYear));
      r.Ok? &&
      r.value.co2PerHour == Quantity(HourlyTons(fuel, range, speed), TonPerHour) &&
      r.value.co2PerMission == Quantity(HourlyTons(fuel, range, speed) * length, MetricTon) &&
      r.value.co2Comparison == Quantity(HourlyTons(fuel, range, speed) * length / rate, Year)
  {
    var t := HourlyTons(fuel, range, speed);
    HourlyCo2ClosedForm(fuel, range, speed);
    MissionUnits();
    ComparisonUnits();
    assert Mul(Quantity(t, TonPerHour), Quantity(length, Hour)) == Quantity(t * length, MetricTon);
    assert Div(Quantity(t * length, MetricTon), Quantity(rate, TonPerYear)) == Ok(Quantity(t * length / rate, Year));
  }

  /** The hourly formula on plain numbers, divided by 1000 for metric tons. */
  function HourlyTons(fuel: real, range: real, speed: real): real
    requires range != 0.0
  {
    fuel / (2.0 * range) * speed * 9.75 / 1000.0
  }

  /** Positive fuel, range, speed, mission length and driving rate give
      positive figures, and the mission figure is the hourly figure times
      the mission length. */
  lemma ComputeEmissionsPositive(p: PlaneCharacteristics, driving: Quantity)
    requires p.fuelCap.magnitude > 0.0 && p.combatRange.magnitude > 0.0 && p.cruiseSpeed.magnitude > 0.0
    requires p.missionLength.magnitude > 0.0 && driving.magnitude > 0.0
    ensures var r := ComputeEmissions(p, driving);
      r.Ok? ==>
        r.value.co2PerHour.magnitude > 0.0 && r.value.co2PerMission.magnitude > 0.0 &&
        r.value.co2Comparison.magnitude > 0.0
  {
    var r := ComputeEmissions(p, driving);
    if r.Ok? {
      var perHour := CalculateCo2PerHour(p.fuelCap, p.combatRange, p.cruiseSpeed).value;
      Co2PerHourPositive(p.fuelCap, p.combatRange, p.cruiseSpeed);
      ConvertSign(perHour, TonPerHour);
      var hourly := r.value.co2PerHour.magnitude;
      SignOfProduct(hourly, p.missionLength.magnitude);
      SignOfQuotient(driving.magnitude, hourly * p.missionLength.magnitude);
    }
  }

  /** With a mission length in time and a driving rate in mass per time, the
      mission figure is a mass and the comparison a time. */
  lemma ComputeEmissionsDimensions(p: PlaneCharacteristics, driving: Quantity)
    requires p.missionLength.units.dimension == Time && driving.units.dimension == MassRate
    ensures var r := ComputeEmissions(p, driving);
      r.Ok? ==> r.value.co2PerMission.units.dimension == Mass && r.value.co2Comparison.units.dimension == Time
  {
  }

  // Reporting the comparison.

  /** A comparison in years is printed as it is above 1, as `12 m` months
      above 1/12, and as `m * 1461 / 28` weeks otherwise. */
  lemma ReportOfYears(m: real)
    ensures ReportComparison(Quantity(m, Year)) ==
      if m > 1.0 then Ok(Quantity(m, Year))
      else if m > 1.0 / 12.0 then Ok(Quantity(12.0 * m, Month))
      else Ok(Quantity(m * 1461.0 / 28.0, Week))
  {
    YearsToMonths(m);
    YearsToWeeks(m);
  }

  // The aircraft of the script.

  /** The B-52's figure is 47975 / 17600 * 509 * 9.75 / 1000 metric tons per hour. */
  lemma B52HourlyCo2()
    ensures HourlyCo2(B52.fuelCap, B52.combatRange, B52.cruiseSpeed)
         == Ok(Quantity(47975.0 / 17600.0 * 509.0 * 9.75 / 1000.0, TonPerHour))
  {
    HourlyCo2ClosedForm(47975.0, 8800.0, 509.0);
  }

  /** A plane whose mission outweighs a year of driving is reported in years. */
  lemma ReportedInYears(name: string, fuel: real, range: real, speed: real, length: real)
    requires range != 0.0 && HourlyTons(fuel, range, speed) * length > 4.3521
    ensures var r := ComputeEmissions(PlaneCharacteristics(name, Quantity(fuel, Gallon), Quantity(range, Mile),
                                                           Quantity(speed, MilePerHour), Quantity(length, Hour)),
                                      Co2TonsYearDriving().value);
      r.Ok? && SelectUnit(r.value.co2Comparison.magnitude) == Years
  {
    ComputeEmissionsClosedForm(name, fuel, range, speed, length, 4.3521);
  }

  /** Every aircraft of the script emits more per mission than a car does in
      a year, so every comparison is printed in years. */
  lemma PlanesReportedInYears()
    ensures forall p | p in Planes ::
      var r := ComputeEmissions(p, Co2TonsYearDriving().value);
      r.Ok? && SelectUnit(r.value.co2Comparison.magnitude) == Years
  {
    ReportedInYears("B-52", 47975.0, 8800.0, 509.0, 34.0);
    PoundsToGallons(265274.0);
    ReportedInYears("B-1", 265274.0 / 6.75, 3444.0, 647.0, 12.0);
    PoundsToGallons(167000.0);
    ReportedInYears("B-2", 167000.0 / 6.75, 6900.0, 560.0, 31.0);
    PoundsToGallons(13455.0);
    ReportedInYears("F-15", 13455.0 / 6.75, 1221.0, 570.0, 2.0);
    PoundsToGallons(18250.0);
    ReportedInYears("F-35", 18250.0 / 6.75, 770.0, 647.0, 2.0);
  }
}
