/** Angle: an immutable angle stored in radians (src/app/core/units/Angle.ts). */
module Angles {

  /** The double value of pi, written as a decimal. */
  const PI: real := 3.141592653589793

  /** Tolerance of `equals`: 1e-9 rad. */
  const EQUALS_EPSILON: real := 0.000000001

  /** The constructor's unit argument; anything but 'deg' is taken as radians. */
  datatype AngleUnit = Rad | Deg

  datatype Angle = Angle(radians: real)

  /** The constructor: degrees are converted to radians, radians are stored as given. */
  function New(value: real, unit: AngleUnit): (a: Angle)
    ensures unit == Deg ==> ToDegrees(a) == value
    ensures unit == Rad ==> ToRadians(a) == value
  {
    match unit
    case Deg => Angle(value * PI / 180.0)
    case Rad => Angle(value)
  }

  function ToRadians(a: Angle): real
  {
    a.radians
  }

  function ToDegrees(a: Angle): real
  {
    a.radians * 180.0 / PI
  }

  /** Degrees and radians agree: an angle built from degrees reads back the same in degrees,
      and 180 degrees is pi radians. */
  lemma DegreesRoundTrip(deg: real)
    ensures ToDegrees(New(deg, Deg)) == deg
    ensures ToRadians(New(180.0, Deg)) == PI
  {
  }

  function Add(a: Angle, b: Angle): (r: Angle)
    ensures r.radians - b.radians == a.radians
  {
    Angle(a.radians + b.radians)
  }

  function Subtract(a: Angle, b: Angle): (r: Angle)
    ensures r.radians + b.radians == a.radians
  {
    Angle(a.radians - b.radians)
  }

  /** Multiplying scales the angle in degrees as well as in radians. */
  function Multiply(a: Angle, factor: real): (r: Angle)
    ensures ToDegrees(r) == ToDegrees(a) * factor
  {
    Angle(a.radians * factor)
  }

  /** `equals`: the radian values differ by less than 1e-9. */
  predicate Equals(a: Angle, b: Angle)
  {
    -EQUALS_EPSILON < a.radians - b.radians < EQUALS_EPSILON
  }

  /** 90 degrees plus 90 degrees equals 180 degrees, and subtraction undoes addition. */
  lemma ArithmeticExamples(a: Angle, b: Angle)
    ensures Equals(Add(New(90.0, Deg), New(90.0, Deg)), New(180.0, Deg))
    ensures Subtract(Add(a, b), b) == a
    ensures Equals(a, b) <==> Equals(b, a)
  {
  }
}
