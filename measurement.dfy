/** Measurement: an immutable physical length stored canonically in millimetres
    (src/app/core/units/Measurement.ts). Pixel conversions take the dots-per-inch value as a
    parameter instead of reading the process-wide DPI provider. */
module Measurements {
  import opened Wrappers
  import RealFacts

  /** 1 inch = 25.4 mm exactly. */
  const MM_PER_INCH: real := 25.4

  /** Tolerance of `equals`: 1e-9 mm. */
  const EQUALS_EPSILON: real := 0.000000001

  /** The units a value can be given in or converted to. */
  datatype Unit = MM | CM | IN | PX

  datatype Measurement = Measurement(valueMm: real)

  function Abs(x: real): (r: real)
    ensures r >= 0.0 && (r == x || r == -x)
  {
    if x < 0.0 then -x else x
  }

  /** The lower-case name `toUnit` accepts for each unit. */
  function UnitName(u: Unit): string
  {
    match u
    case MM => "mm"
    case CM => "cm"
    case IN => "in"
    case PX => "px"
  }

  /** Unit names accepted by the constructor and by `as`: the enum spellings (MM, INCH, PX)
      and the string literals (mm, cm, in, px). Anything else is unsupported. */
  function UnitFromName(name: string): (u: Option<Unit>)
    ensures u.Some? ==> name == UnitName(u.value) || name == "MM" || name == "INCH" || name == "PX"
  {
    if name == "MM" || name == "mm" then Some(MM)
    else if name == "cm" then Some(CM)
    else if name == "INCH" || name == "in" then Some(IN)
    else if name == "PX" || name == "px" then Some(PX)
    else None
  }

  /** Every unit is recognised under its own lower-case name. */
  lemma UnitNameRoundTrip(u: Unit)
    ensures UnitFromName(UnitName(u)) == Some(u)
  {
  }

  /** Millimetres for a pixel count at `dpi`: (px / dpi) * 25.4. */
  function PxToMm(px: real, dpi: real): (mm: real)
    requires dpi > 0.0
    ensures mm * dpi == px * MM_PER_INCH
  {
    (px / dpi) * MM_PER_INCH
  }

  /** Pixels for a length in millimetres at `dpi`: mm * dpi / 25.4. */
  function MmToPx(mm: real, dpi: real): (px: real)
    requires dpi > 0.0
    ensures px * MM_PER_INCH == mm * dpi
  {
    (mm * dpi) / MM_PER_INCH
  }

  /** Converting pixels to millimetres and back is the identity, and so is the reverse. */
  lemma PxMmRoundTrip(px: real, mm: real, dpi: real)
    requires dpi > 0.0
    ensures MmToPx(PxToMm(px, dpi), dpi) == px
    ensures PxToMm(MmToPx(mm, dpi), dpi) == mm
  {
  }

  /** Millimetres and pixels are in the same order at any positive DPI. */
  lemma PixelsPreserveOrder(a: real, b: real, dpi: real)
    requires dpi > 0.0
    ensures a < b <==> MmToPx(a, dpi) < MmToPx(b, dpi)
  {
    var pa, pb := MmToPx(a, dpi), MmToPx(b, dpi);
    assert (pb - pa) * MM_PER_INCH == (b - a) * dpi;
    RealFacts.ProductSign(b - a, dpi);
    RealFacts.ProductSign(pb - pa, MM_PER_INCH);
  }

  /** Converting to pixels distributes over a sum of lengths. */
  lemma PixelsAdd(a: real, b: real, dpi: real)
    requires dpi > 0.0
    ensures MmToPx(a + b, dpi) == MmToPx(a, dpi) + MmToPx(b, dpi)
  {
    assert (a + b) * dpi == a * dpi + b * dpi;
  }

  /** The constructor: the value in `unitName` is converted to millimetres; an unsupported unit
      is rejected. Reading the result back in the same unit gives the value that went in. */
  function New(value: real, unitName: string, dpi: real): (r: Result<Measurement>)
    requires dpi > 0.0
    ensures r.Ok? <==> UnitFromName(unitName).Some?
    ensures r.Ok? ==> ToUnit(r.value, UnitFromName(unitName).value, dpi) == value
    ensures r.Ok? && UnitFromName(unitName) == Some(CM) ==> r.value.valueMm == value * 10.0
    ensures r.Ok? && UnitFromName(unitName) == Some(IN) ==> r.value.valueMm == value * MM_PER_INCH
  {
    match UnitFromName(unitName)
    case Some(MM) => Ok(Measurement(value))
    case Some(CM) => Ok(Measurement(value * 10.0))
    case Some(IN) => Ok(Measurement(value * MM_PER_INCH))
    case Some(PX) => Ok(Measurement(PxToMm(value, dpi)))
    case None => Err("Unsupported unit: " + unitName)
  }

  /** `fromPx`: a pixel count at `dpi` as a Measurement. */
  function FromPx(px: real, dpi: real): (m: Measurement)
    requires dpi > 0.0
    ensures ToUnit(m, PX, dpi) == px
  {
    Measurement(PxToMm(px, dpi))
  }

  /** `fromMm`: a millimetre value as a Measurement. */
  function FromMm(mm: real): (m: Measurement)
    ensures ToUnit(m, MM, 1.0) == mm
  {
    Measurement(mm)
  }

  /** `toUnit`: the stored millimetres expressed in `u`. */
  function ToUnit(m: Measurement, u: Unit, dpi: real): real
    requires dpi > 0.0
  {
    match u
    case MM => m.valueMm
    case CM => m.valueMm / 10.0
    case IN => m.valueMm / MM_PER_INCH
    case PX => MmToPx(m.valueMm, dpi)
  }

  /** `toPixels`: the stored millimetres in pixels at `dpi`. */
  function ToPixels(m: Measurement, dpi: real): (px: real)
    requires dpi > 0.0
    ensures px == ToUnit(m, PX, dpi)
    ensures FromPx(px, dpi) == m
  {
    MmToPx(m.valueMm, dpi)
  }

  /** `as`: like `toUnit` but taking a unit name; an unknown name is rejected. */
  function As(m: Measurement, unitName: string, dpi: real): (r: Result<real>)
    requires dpi > 0.0
    ensures r.Ok? <==> UnitFromName(unitName).Some?
    ensures r.Ok? ==> New(r.value, unitName, dpi) == Ok(m)
  {
    match UnitFromName(unitName)
    case Some(PX) => Ok(ToPixels(m, dpi))
    case Some(u) => Ok(ToUnit(m, u, dpi))
    case None => Err("Unknown unit: " + unitName)
  }

  /** A pixel value turned into a Measurement reads back unchanged in pixels, and the
      constructor with unit 'px' agrees with `fromPx` at the same DPI. */
  lemma FromPxRoundTrip(px: real, dpi: real)
    requires dpi > 0.0
    ensures ToUnit(FromPx(px, dpi), PX, dpi) == px
    ensures New(px, "px", dpi) == Ok(FromPx(px, dpi))
  {
  }

  /** 25.4 mm, 2.54 cm and 1 in are 96 px at 96 DPI; 1 in is 192 px at 192 DPI. */
  lemma PixelExamples()
    ensures ToPixels(New(25.4, "mm", 96.0).value, 96.0) == 96.0
    ensures ToPixels(New(2.54, "cm", 96.0).value, 96.0) == 96.0
    ensures ToPixels(New(1.0, "in", 96.0).value, 96.0) == 96.0
    ensures ToPixels(New(1.0, "in", 192.0).value, 192.0) == 192.0
  {
  }

  function Add(a: Measurement, b: Measurement): (r: Measurement)
    ensures r.valueMm - b.valueMm == a.valueMm
  {
    Measurement(a.valueMm + b.valueMm)
  }

  function Subtract(a: Measurement, b: Measurement): (r: Measurement)
    ensures r.valueMm + b.valueMm == a.valueMm
  {
    Measurement(a.valueMm - b.valueMm)
  }

  /** Multiplication scales the length in every unit by the same factor. */
  function Multiply(a: Measurement, factor: real): (r: Measurement)
    ensures forall u: Unit, dpi: real {:trigger ToUnit(r, u, dpi)} :: dpi > 0.0 ==> ToUnit(r, u, dpi) == ToUnit(a, u, dpi) * factor
  {
    Measurement(a.valueMm * factor)
  }

  /** Division by zero fails; otherwise multiplying the quotient by the factor gives the
      dividend back. */
  function Divide(a: Measurement, factor: real): (r: Result<Measurement>)
    ensures r.Err? <==> factor == 0.0
    ensures r.Ok? ==> Multiply(r.value, factor) == a
  {
    if factor == 0.0 then Err("Cannot divide by zero") else Ok(Measurement(a.valueMm / factor))
  }

  /** Adding then subtracting the same measurement gives the original value back. */
  lemma AddSubtractInverse(a: Measurement, b: Measurement)
    ensures Subtract(Add(a, b), b) == a
    ensures Equals(Subtract(Add(a, b), b), a)
  {
  }

  /** `equals`: the two lengths differ by less than 1e-9 mm. */
  predicate Equals(a: Measurement, b: Measurement)
  {
    Abs(a.valueMm - b.valueMm) < EQUALS_EPSILON
  }

  /** `equals` is reflexive and symmetric (it is not transitive: it is a tolerance test). */
  lemma EqualsReflexiveSymmetric(a: Measurement, b: Measurement)
    ensures Equals(a, a)
    ensures Equals(a, b) <==> Equals(b, a)
  {
  }

  /** `equals` is not transitive: three values 0.6e-9 mm apart. */
  lemma EqualsNotTransitive()
    ensures Equals(Measurement(0.0), Measurement(0.0000000006))
    ensures Equals(Measurement(0.0000000006), Measurement(0.0000000012))
    ensures !Equals(Measurement(0.0), Measurement(0.0000000012))
  {
  }

  /** `compareTo` (and its alias `compare`): the signed difference a - b. */
  function CompareTo(a: Measurement, b: Measurement): (d: real)
    ensures d < 0.0 <==> a.valueMm < b.valueMm
    ensures d == 0.0 <==> a == b
    ensures d > 0.0 <==> a.valueMm > b.valueMm
  {
    a.valueMm - b.valueMm
  }

  function Compare(a: Measurement, b: Measurement): (d: real)
    ensures d == CompareTo(a, b)
  {
    CompareTo(a, b)
  }

  /** `compareTo` is antisymmetric. */
  lemma CompareToAntisymmetric(a: Measurement, b: Measurement)
    ensures CompareTo(a, b) == -CompareTo(b, a)
  {
  }

  /** The zero length `new Measurement(0)` the shape constructors compare against. */
  const Zero: Measurement := Measurement(0.0)
}
