/** Ackermann steering as the car computes it: one steering input becomes two front-wheel target
    angles, each the arctangent of wheel base over a turning radius (in degrees) times the input.
    The wheel on the outside of the turn is given the larger radius, `turnRadius + rearTrack / 2`,
    the wheel on the inside the smaller one, `turnRadius - rearTrack / 2`. A positive input turns
    right, so the left wheel is then the outer one. The arctangent is a parameter `atan`: nothing
    about it is assumed except where a lemma says so. */
module Steering {
  import opened Mathf

  /** The car's dimensions: axle separation, distance between the wheels of an axle, and the
      radius of the tightest turning circle. */
  datatype Geometry = Geometry(wheelBase: real, rearTrack: real, turnRadius: real)

  /** The two target angles in degrees, left then right front wheel. */
  datatype SteerAngles = SteerAngles(left: real, right: real)

  function OuterRadius(g: Geometry): real { g.turnRadius + g.rearTrack / 2.0 }

  function InnerRadius(g: Geometry): real { g.turnRadius - g.rearTrack / 2.0 }

  /** Both radii can be divided by. */
  predicate Divisible(g: Geometry) { OuterRadius(g) != 0.0 && InnerRadius(g) != 0.0 }

  /** The full-lock angle in degrees for a wheel turning about `radius`. */
  function Coefficient(atan: real -> real, wheelBase: real, radius: real): real
    requires radius != 0.0
  {
    Rad2Deg * atan(wheelBase / radius)
  }

  /** The radius the left wheel is steered with: the outer one when turning right (and when going
      straight, where it does not matter), the inner one when turning left. */
  function LeftRadius(g: Geometry, s: real): real { if s >= 0.0 then OuterRadius(g) else InnerRadius(g) }

  function RightRadius(g: Geometry, s: real): real { if s >= 0.0 then InnerRadius(g) else OuterRadius(g) }

  /** The angles written to the two front wheels for steering input `s`; a division happens only
      when `s` is non-zero. No input gives exactly no angle; otherwise each wheel gets the full-lock
      angle of the radius it has for that turn direction, times the input. */
  function Ackermann(atan: real -> real, g: Geometry, s: real): (r: SteerAngles)
    requires s != 0.0 ==> Divisible(g)
    ensures s == 0.0 ==> r == SteerAngles(0.0, 0.0)
    ensures s != 0.0 ==> r.left == Coefficient(atan, g.wheelBase, LeftRadius(g, s)) * s
    ensures s != 0.0 ==> r.right == Coefficient(atan, g.wheelBase, RightRadius(g, s)) * s
  {
    if s > 0.0 then
      SteerAngles(Coefficient(atan, g.wheelBase, OuterRadius(g)) * s, Coefficient(atan, g.wheelBase, InnerRadius(g)) * s)
    else if s < 0.0 then
      SteerAngles(Coefficient(atan, g.wheelBase, InnerRadius(g)) * s, Coefficient(atan, g.wheelBase, OuterRadius(g)) * s)
    else
      SteerAngles(0.0, 0.0)
  }

  /** No steering input, no angle on either wheel, exactly. */
  lemma AckermannStraight(atan: real -> real, g: Geometry)
    ensures Ackermann(atan, g, 0.0) == SteerAngles(0.0, 0.0)
  {
  }

  /** Turning right, the left wheel gets the arctangent over `turnRadius + rearTrack / 2` and the
      right wheel the one over `turnRadius - rearTrack / 2`, each in degrees times the input. */
  lemma AckermannRightTurn(atan: real -> real, g: Geometry, s: real)
    requires s > 0.0 && Divisible(g)
    ensures Ackermann(atan, g, s).left == Rad2Deg * atan(g.wheelBase / (g.turnRadius + g.rearTrack / 2.0)) * s
    ensures Ackermann(atan, g, s).right == Rad2Deg * atan(g.wheelBase / (g.turnRadius - g.rearTrack / 2.0)) * s
  {
  }

  /** Steering the other way swaps the two wheels' angles and negates them. */
  lemma AckermannMirror(atan: real -> real, g: Geometry, s: real)
    requires s != 0.0 ==> Divisible(g)
    ensures Ackermann(atan, g, -s) == SteerAngles(-Ackermann(atan, g, s).right, -Ackermann(atan, g, s).left)
  {
  }

  /** Each wheel's angle is its own full-lock angle, chosen by the direction of the turn, times
      the input, for every input. For a non-zero input this is the contract of `Ackermann`; what
      this lemma adds is the zero input, where both radii can be divided by, so that
      `AckermannBounded` can treat all inputs alike. */
  lemma AckermannLinear(atan: real -> real, g: Geometry, s: real)
    requires Divisible(g)
    ensures Ackermann(atan, g, s).left == Coefficient(atan, g.wheelBase, LeftRadius(g, s)) * s
    ensures Ackermann(atan, g, s).right == Coefficient(atan, g.wheelBase, RightRadius(g, s)) * s
  {
  }

  /** So for inputs in [-1, 1] no wheel goes past its full-lock angle, and a wheel's angle is zero
      only when the input or its full-lock angle is. */
  lemma AckermannBounded(atan: real -> real, g: Geometry, s: real)
    requires Divisible(g)
    ensures -1.0 <= s <= 1.0 ==>
              Abs(Ackermann(atan, g, s).left) <= Abs(Coefficient(atan, g.wheelBase, LeftRadius(g, s))) &&
              Abs(Ackermann(atan, g, s).right) <= Abs(Coefficient(atan, g.wheelBase, RightRadius(g, s)))
    ensures Ackermann(atan, g, s).left == 0.0 <==> s == 0.0 || Coefficient(atan, g.wheelBase, LeftRadius(g, s)) == 0.0
    ensures Ackermann(atan, g, s).right == 0.0 <==> s == 0.0 || Coefficient(atan, g.wheelBase, RightRadius(g, s)) == 0.0
  {
    var r := Ackermann(atan, g, s);
    var cl := Coefficient(atan, g.wheelBase, LeftRadius(g, s));
    var cr := Coefficient(atan, g.wheelBase, RightRadius(g, s));
    AckermannLinear(atan, g, s);
    assert r.left == cl * s && r.right == cr * s;
    ScaledWithin(cl, s);
    ScaledWithin(cr, s);
  }

  lemma AbsProduct(c: real, s: real)
    ensures Abs(c * s) == Abs(c) * Abs(s)
  {
  }

  lemma ScaledWithin(c: real, s: real)
    ensures -1.0 <= s <= 1.0 ==> Abs(c * s) <= Abs(c)
    ensures c * s == 0.0 <==> c == 0.0 || s == 0.0
  {
    AbsProduct(c, s);
    ProductSigns(c, s);
    ProductSigns(Abs(c), 1.0 - Abs(s));
    assert Abs(c) - Abs(c) * Abs(s) == Abs(c) * (1.0 - Abs(s));
  }

  ghost predicate StrictlyIncreasing(f: real -> real) {
    forall x: real, y: real :: x < y ==> f(x) < f(y)
  }

  /** Dividing a positive length by the larger of two positive radii gives the smaller quotient. */
  lemma QuotientOrder(wheelBase: real, small: real, large: real)
    requires wheelBase > 0.0 && 0.0 < small < large
    ensures 0.0 < wheelBase / large < wheelBase / small
  {
    var a, b := wheelBase / large, wheelBase / small;
    assert a * large == wheelBase && b * small == wheelBase;
    ProductSigns(wheelBase, large);
    assert a > 0.0 && b > 0.0;
    ProductSigns(b, large - small);
    assert b * large > wheelBase;
    ProductSigns(b - a, large);
  }

  /** Scaling two ordered positive coefficients by the same non-zero input keeps the order of the
      magnitudes. */
  lemma ScaledOrder(co: real, ci: real, s: real)
    requires 0.0 < co < ci && s != 0.0
    ensures Abs(co * s) < Abs(ci * s)
  {
    AbsProduct(co, s);
    AbsProduct(ci, s);
    ProductSigns(ci - co, Abs(s));
  }

  /** The Ackermann intent: with a real car (positive wheel base and track, a turning circle wider
      than half the track) and an increasing arctangent through the origin, the wheel on the outside
      of the turn is always steered less sharply than the one on the inside. */
  lemma AckermannOuterShallower(atan: real -> real, g: Geometry, s: real)
    requires StrictlyIncreasing(atan) && atan(0.0) == 0.0
    requires g.wheelBase > 0.0 && g.rearTrack > 0.0 && g.turnRadius > g.rearTrack / 2.0
    requires s != 0.0
    ensures Divisible(g)
    ensures s > 0.0 ==> Abs(Ackermann(atan, g, s).left) < Abs(Ackermann(atan, g, s).right)
    ensures s < 0.0 ==> Abs(Ackermann(atan, g, s).right) < Abs(Ackermann(atan, g, s).left)
  {
    // The outer radius is the larger, so its quotient is the smaller positive one, and so is its
    // arctangent and its full-lock angle.
    QuotientOrder(g.wheelBase, InnerRadius(g), OuterRadius(g));
    var a := g.wheelBase / OuterRadius(g);
    var b := g.wheelBase / InnerRadius(g);
    assert 0.0 < atan(a) < atan(b);
    var co := Coefficient(atan, g.wheelBase, OuterRadius(g));
    var ci := Coefficient(atan, g.wheelBase, InnerRadius(g));
    ScaledOrder(co, ci, s);
    if s > 0.0 {
      assert Ackermann(atan, g, s) == SteerAngles(co * s, ci * s);
    } else {
      assert Ackermann(atan, g, s) == SteerAngles(ci * s, co * s);
    }
  }
}
