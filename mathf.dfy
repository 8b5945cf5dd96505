/** The few pieces of Unity's Mathf that the wheel and the car rely on, over `real`. */
module Mathf {

  /** Degrees per radian (Unity's `Mathf.Rad2Deg`, the single-precision value of 180/pi). */
  const Rad2Deg: real := 57.29578

  function Abs(x: real): (r: real)
    ensures r >= 0.0 && (r == x || r == -x)
  {
    if x < 0.0 then -x else x
  }

  /** `r` lies on the closed segment between `a` and `b`, whichever way round they are. */
  predicate Between(r: real, a: real, b: real) {
    (a <= b ==> a <= r <= b) && (b <= a ==> b <= r <= a)
  }

  /** `Mathf.Clamp`: a value below `min` becomes `min`, otherwise a value above `max` becomes `max`.
      With `min > max`, as in Unity, a value below `min` gives `min` and any other value gives `max`. */
  function Clamp(value: real, min: real, max: real): (r: real)
    ensures min <= max ==> min <= r <= max
    ensures min <= value <= max ==> r == value
    ensures r == value || r == min || r == max
    ensures value < min ==> r == min
    ensures min <= value && value > max ==> r == max
  {
    if value < min then min
    else if value > max then max
    else value
  }

  /** `Mathf.Clamp01`: the interpolation parameter squeezed into [0, 1]. */
  function Clamp01(t: real): (r: real)
    ensures 0.0 <= r <= 1.0
    ensures r == 1.0 <==> t >= 1.0
    ensures r == 0.0 <==> t <= 0.0
  {
    if t < 0.0 then 0.0
    else if t > 1.0 then 1.0
    else t
  }

  /** Signs of a product of two reals. */
  lemma ProductSigns(x: real, y: real)
    ensures x > 0.0 && y > 0.0 ==> x * y > 0.0
    ensures x >= 0.0 && y >= 0.0 ==> x * y >= 0.0
    ensures x <= 0.0 && y >= 0.0 ==> x * y <= 0.0
    ensures x < 0.0 && y > 0.0 ==> x * y < 0.0
    ensures x * y == 0.0 <==> x == 0.0 || y == 0.0
  {
  }

  lemma ScaledStepBetween(a: real, b: real, c: real)
    requires 0.0 <= c <= 1.0
    ensures Between(a + (b - a) * c, a, b)
  {
    var d := b - a;
    ProductSigns(d, c);
    ProductSigns(d, 1.0 - c);
    ProductSigns(-d, c);
    ProductSigns(-d, 1.0 - c);
    assert d - d * c == d * (1.0 - c);
  }

  lemma ScaledStepEnds(a: real, b: real, c: real)
    ensures a + (b - a) * c == b <==> (c == 1.0 || a == b)
    ensures a + (b - a) * c == a <==> (c == 0.0 || a == b)
  {
    var d := b - a;
    ProductSigns(d, c);
    ProductSigns(d, c - 1.0);
    assert d * c - d == d * (c - 1.0);
  }

  /** `Mathf.Lerp`: the point a fraction `Clamp01(t)` of the way from `a` to `b`. It never leaves the
      segment between `a` and `b`, and it lands exactly on `b` precisely when `t` reaches 1 (or `a`
      already was `b`). */
  function Lerp(a: real, b: real, t: real): (r: real)
    ensures Between(r, a, b)
    ensures r == b <==> (t >= 1.0 || a == b)
    ensures r == a <==> (t <= 0.0 || a == b)
  {
    var c := Clamp01(t);
    ScaledStepBetween(a, b, c);
    ScaledStepEnds(a, b, c);
    a + (b - a) * c
  }
}
