/** A model of the part of the pint units library the script relies on. A
    quantity is a magnitude written in some units; a unit is the physical
    dimension it measures together with its size, the amount one of it stands
    for in kilograms, inches and hours. Products and quotients combine
    magnitudes and units without converting anything, and `.to(...)` checks
    that the dimension is unchanged and rewrites the same physical amount in
    the requested units. */
module Quantities {
  import opened Failures

  /** A positive real: the size of a unit, or the code of a dimension. */
  type Size = x: real | x > 0.0 witness 1.0

  /** A physical dimension mass^m length^l time^t, coded as the positive
      rational 2^m * 3^l * 5^t. Prime factorisation is unique, so two codes
      are equal exactly when the exponents are, and multiplying or dividing
      dimensions adds or subtracts exponents. As in pint, a gallon is a
      length cubed. */
  type Dimension = Size

  const Mass: Dimension := 2.0
  const Length: Dimension := 3.0
  const Time: Dimension := 5.0
  const Volume: Dimension := 27.0

  function DimensionMul(a: Dimension, b: Dimension): Dimension {
    SignOfProduct(a, b);
    a * b
  }

  function DimensionDiv(a: Dimension, b: Dimension): Dimension {
    SignOfQuotient(b, a);
    a / b
  }

  /** A unit, or a product or quotient of units: what it measures and how
      much one of it is. Unit expressions that agree on both behave the same
      in every computation the script makes, so `mi / mi` is dimensionless
      and `gal / mi * mi / hr` is `gal / hr`, as pint simplifies them. */
  datatype Units = Units(dimension: Dimension, size: Size)

  /** The unit names the script uses, with the sizes pint gives them: the
      metric ton of 1000 kg, the avoirdupois pound of 0.45359237 kg, the US
      liquid gallon of 231 cubic inches, the international mile of 63360
      inches, the Julian year of 8766 hours, a month of one twelfth of a year
      and the week of 168 hours. `h`, `hr` and `hour` are one unit. */
  const Kilogram := Units(Mass, 1.0)
  const MetricTon := Units(Mass, 1000.0)
  const Pound := Units(Mass, 0.45359237)
  const Gallon := Units(Volume, 231.0)
  const Mile := Units(Length, 63360.0)
  const Hour := Units(Time, 1.0)
  const Year := Units(Time, 8766.0)
  const Month := Units(Time, 730.5)
  const Week := Units(Time, 168.0)

  /** Units of a product: dimensions multiply and so do sizes. */
  function UnitsMul(a: Units, b: Units): Units {
    SignOfProduct(a.size, b.size);
    Units(DimensionMul(a.dimension, b.dimension), a.size * b.size)
  }

  /** Units of a quotient: dimensions divide and so do sizes. */
  function UnitsDiv(a: Units, b: Units): Units {
    SignOfQuotient(b.size, a.size);
    Units(DimensionDiv(a.dimension, b.dimension), a.size / b.size)
  }

  datatype Quantity = Quantity(magnitude: real, units: Units)

  /** The physical amount `q` stands for, in the kilogram, inch and hour
      powers of its dimension. */
  function Amount(q: Quantity): real {
    q.magnitude * q.units.size
  }

  /** `k * q` for a plain number `k`. */
  function Scale(k: real, q: Quantity): (r: Quantity)
    ensures r.units == q.units
    ensures Amount(r) == k * Amount(q)
  {
    MulAssociates(k, q.magnitude, q.units.size);
    Quantity(k * q.magnitude, q.units)
  }

  /** `k` times the quantity a computation produced; an exception passes through. */
  function ScaleResult(k: real, r: Result<Quantity>): Result<Quantity> {
    match r
    case Ok(q) => Ok(Scale(k, q))
    case Err(e) => Err(e)
  }

  /** `a * b`: magnitudes multiply and units multiply; nothing is converted,
      so the amount of the product is the product of the amounts. */
  function Mul(a: Quantity, b: Quantity): (r: Quantity)
    ensures r.units == UnitsMul(a.units, b.units)
    ensures r.units.dimension == DimensionMul(a.units.dimension, b.units.dimension)
    ensures Amount(r) == Amount(a) * Amount(b)
  {
    ProductOfProducts(a.magnitude, b.magnitude, a.units.size, b.units.size);
    Quantity(a.magnitude * b.magnitude, UnitsMul(a.units, b.units))
  }

  /** `a / b`, which raises ZeroDivisionError on a zero divisor; otherwise the
      amount of the quotient is the quotient of the amounts. */
  function Div(a: Quantity, b: Quantity): (r: Result<Quantity>)
    ensures r.Ok? <==> b.magnitude != 0.0
    ensures r.Err? ==> r.error == ZeroDivision
    ensures r.Ok? ==> r.value.units == UnitsDiv(a.units, b.units)
    ensures r.Ok? ==> r.value.units.dimension == DimensionDiv(a.units.dimension, b.units.dimension)
    ensures r.Ok? ==> Amount(r.value) == Amount(a) / Amount(b)
  {
    if b.magnitude == 0.0 then Err(ZeroDivision)
    else
      QuotientOfProducts(a.magnitude, b.magnitude, a.units.size, b.units.size);
      Ok(Quantity(a.magnitude / b.magnitude, UnitsDiv(a.units, b.units)))
  }

  /** `q.to(target)`: a DimensionalityError when the dimensions differ,
      otherwise the same physical amount written in `target`. */
  function ConvertTo(q: Quantity, target: Units): (r: Result<Quantity>)
    ensures r.Ok? <==> q.units.dimension == target.dimension
    ensures r.Err? ==> r.error == DimensionalityError
    ensures r.Ok? ==> r.value.units == target && Amount(r.value) == Amount(q)
  {
    if q.units.dimension != target.dimension then Err(DimensionalityError)
    else
      DivThenMul(Amount(q), target.size);
      Ok(Quantity(Amount(q) / target.size, target))
  }

  // Real arithmetic the proofs below are built from.

  lemma SignOfProduct(f: real, y: real)
    requires f > 0.0
    ensures y > 0.0 ==> f * y > 0.0
    ensures y < 0.0 ==> f * y < 0.0
  {
  }

  lemma SignOfQuotient(f: real, y: real)
    requires f > 0.0
    ensures y > 0.0 ==> y / f > 0.0
    ensures y < 0.0 ==> y / f < 0.0
  {
  }

  lemma MulAssociates(a: real, b: real, c: real)
    ensures (a * b) * c == a * (b * c)
  {
  }

  lemma ProductOfProducts(x: real, y: real, s: real, t: real)
    ensures (x * y) * (s * t) == (x * s) * (y * t)
  {
  }

  lemma QuotientOfProducts(x: real, y: real, s: real, t: real)
    requires y != 0.0 && t != 0.0
    ensures (x / y) * (s / t) == (x * s) / (y * t)
  {
  }

  lemma DivThenMul(x: real, s: real)
    requires s != 0.0
    ensures (x / s) * s == x
  {
  }

  lemma MulThenDiv(x: real, s: real)
    requires s != 0.0
    ensures (x * s) / s == x
  {
  }

  // What `.to(...)` does.

  /** The conversion is the only quantity in the target units with the same
      amount: any such quantity is what `.to(...)` returns. */
  lemma ConvertUnique(q: Quantity, target: Units, x: real)
    requires q.units.dimension == target.dimension
    requires Amount(Quantity(x, target)) == Amount(q)
    ensures ConvertTo(q, target) == Ok(Quantity(x, target))
  {
    assert Amount(q) == x * target.size;
    MulThenDiv(x, target.size);
    assert ConvertTo(q, target).value.magnitude == x;
  }

  /** Converting to the units a quantity already has changes nothing. */
  lemma ConvertToOwnUnits(q: Quantity)
    ensures ConvertTo(q, q.units) == Ok(q)
  {
    ConvertUnique(q, q.units, q.magnitude);
  }

  /** Converting and converting back gives the original quantity. */
  lemma ConvertRoundTrip(q: Quantity, target: Units)
    requires q.units.dimension == target.dimension
    ensures ConvertTo(ConvertTo(q, target).value, q.units) == Ok(q)
  {
    ConvertUnique(ConvertTo(q, target).value, q.units, q.magnitude);
  }

  /** Converting through an intermediate unit is the same as converting directly. */
  lemma ConvertCompose(q: Quantity, via: Units, target: Units)
    requires q.units.dimension == via.dimension == target.dimension
    ensures ConvertTo(ConvertTo(q, via).value, target) == ConvertTo(q, target)
  {
    var direct := ConvertTo(q, target).value;
    ConvertUnique(ConvertTo(q, via).value, target, direct.magnitude);
  }

  /** `.to(...)` is linear: converting `k * q` gives `k` times the conversion of `q`. */
  lemma ConvertScale(k: real, q: Quantity, target: Units)
    requires q.units.dimension == target.dimension
    ensures ConvertTo(Scale(k, q), target) == Ok(Scale(k, ConvertTo(q, target).value))
  {
    var converted := ConvertTo(q, target).value;
    ConvertUnique(Scale(k, q), target, Scale(k, converted).magnitude);
  }

  /** `.to(...)` keeps the sign of the magnitude. */
  lemma ConvertSign(q: Quantity, target: Units)
    requires q.units.dimension == target.dimension
    ensures q.magnitude > 0.0 ==> ConvertTo(q, target).value.magnitude > 0.0
    ensures q.magnitude < 0.0 ==> ConvertTo(q, target).value.magnitude < 0.0
  {
    SignOfProduct(q.units.size, q.magnitude);
    SignOfQuotient(target.size, Amount(q));
  }

  // Products and quotients are linear in each operand.

  lemma MulScaleLeft(k: real, a: Quantity, b: Quantity)
    ensures Mul(Scale(k, a), b) == Scale(k, Mul(a, b))
  {
    MulAssociates(k, a.magnitude, b.magnitude);
  }

  lemma MulScaleRight(k: real, a: Quantity, b: Quantity)
    ensures Mul(a, Scale(k, b)) == Scale(k, Mul(a, b))
  {
    MulCommutes(a.magnitude, k, b.magnitude);
  }

  lemma MulCommutes(a: real, k: real, b: real)
    ensures a * (k * b) == k * (a * b)
  {
  }

  lemma DivScaleLeft(k: real, a: Quantity, b: Quantity)
    requires b.magnitude != 0.0
    ensures Div(Scale(k, a), b) == Ok(Scale(k, Div(a, b).value))
  {
    DivOfScaled(k, a.magnitude, b.magnitude);
    assert Div(Scale(k, a), b).value == Scale(k, Div(a, b).value);
  }

  lemma DivOfScaled(k: real, x: real, y: real)
    requires y != 0.0
    ensures (k * x) / y == k * (x / y)
  {
  }

  /** Dividing by `k * b` divides the quotient by `k`. */
  lemma DivScaleRight(k: real, a: Quantity, b: Quantity)
    requires k != 0.0 && b.magnitude != 0.0
    ensures Div(a, Scale(k, b)) == Ok(Scale(1.0 / k, Div(a, b).value))
  {
    DivByScaled(k, a.magnitude, b.magnitude);
    assert Div(a, Scale(k, b)).value == Scale(1.0 / k, Div(a, b).value);
  }

  lemma DivByScaled(k: real, x: real, y: real)
    requires k != 0.0 && y != 0.0
    ensures x / (k * y) == (1.0 / k) * (x / y)
  {
  }

  // The fixed factors the script's `.to(...)` calls come down to.

  lemma KilogramsToTonnesPerHour(m: real)
    ensures ConvertTo(Quantity(m, UnitsDiv(Kilogram, Hour)), UnitsDiv(MetricTon, Hour))
         == Ok(Quantity(m / 1000.0, UnitsDiv(MetricTon, Hour)))
  {
    ConvertUnique(Quantity(m, UnitsDiv(Kilogram, Hour)), UnitsDiv(MetricTon, Hour), m / 1000.0);
  }

  lemma KilogramsToTonnesPerYear(m: real)
    ensures ConvertTo(Quantity(m, UnitsDiv(Kilogram, Year)), UnitsDiv(MetricTon, Year))
         == Ok(Quantity(m / 1000.0, UnitsDiv(MetricTon, Year)))
  {
    ConvertUnique(Quantity(m, UnitsDiv(Kilogram, Year)), UnitsDiv(MetricTon, Year), m / 1000.0);
  }

  lemma YearsToMonths(m: real)
    ensures ConvertTo(Quantity(m, Year), Month) == Ok(Quantity(12.0 * m, Month))
  {
    ConvertUnique(Quantity(m, Year), Month, 12.0 * m);
  }

  lemma YearsToWeeks(m: real)
    ensures ConvertTo(Quantity(m, Year), Week) == Ok(Quantity(m * 1461.0 / 28.0, Week))
  {
    ConvertUnique(Quantity(m, Year), Week, m * 1461.0 / 28.0);
  }
}
