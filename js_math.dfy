/** `Math.min` and `Math.max` of two numbers, as the canvas code uses them to order the corners
    of a rectangle. */
module JsMath {

  function Min(a: real, b: real): (m: real)
    ensures m <= a && m <= b && (m == a || m == b)
  {
    if a < b then a else b
  }

  function Max(a: real, b: real): (m: real)
    ensures m >= a && m >= b && (m == a || m == b)
  {
    if a > b then a else b
  }
}
