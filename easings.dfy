/** The easing curves of the animation module and the choice among them.
    Curves map normalised progress to eased progress. Floating-point square
    root is not modelled: the two circular curves take it as a parameter
    `sqrt`, and properties that need a true root say so with `IsSqrtAt`. */
module Easings {

  datatype Easing = EaseInCirc | EaseInOutCirc | EaseOutBack | EaseOutBounce

  /** `Default for Easing`: a tween built with default fields eases out with
      the overshooting "back" curve. */
  function DefaultEasing(): (e: Easing)
    ensures e == EaseOutBack
  {
    EaseOutBack
  }

  /** `sqrt` returns the non-negative root of `y`. */
  ghost predicate IsSqrtAt(sqrt: real -> real, y: real) {
    0.0 <= sqrt(y) && sqrt(y) * sqrt(y) == y
  }

  /** A curve anchored at both ends, so that interpolation with it starts at
      the start value and finishes at the end value. */
  ghost predicate FixesEndpoints(f: real -> real) {
    f(0.0) == 0.0 && f(1.0) == 1.0
  }

  // ease_out_back

  const C1: real := 1.70518
  const C3: real := C1 + 1.0

  function EaseOutBackCurve(x: real): (y: real)
    ensures x == 0.0 ==> y == 0.0
    ensures x == 1.0 ==> y == 1.0
  {
    var u := x - 1.0;
    1.0 + C3 * (u * u * u) + C1 * (u * u)
  }

  // ease_out_bounce

  const N1: real := 7.5625
  const D1: real := 2.75

  function EaseOutBounceCurve(x: real): (y: real)
    ensures x == 0.0 ==> y == 0.0
    ensures x == 1.0 ==> y == 1.0
  {
    if x < 1.0 / D1 then
      N1 * x * x
    else if x < 2.0 / D1 then
      var u := x - 1.5 / D1;
      N1 * u * u + 0.75
    else if x < 2.5 / D1 then
      var u := x - 2.25 / D1;
      N1 * u * u + 0.9375
    else
      var u := x - 2.625 / D1;
      N1 * u * u + 0.984375
  }

  /** A value within `b` of zero has a square of at most `b` squared. */
  lemma SquareWithin(w: real, b: real)
    requires -b <= w <= b
    ensures w * w <= b * b
  {
    assert b * b - w * w == (b - w) * (b + w);
    assert 0.0 <= (b - w) * (b + w);
  }

  /** On [0, 1] the bounce never leaves [0, 1]: each parabola peaks at the
      height where the next segment starts. */
  lemma EaseOutBounceInUnit(x: real)
    requires 0.0 <= x <= 1.0
    ensures 0.0 <= EaseOutBounceCurve(x) <= 1.0
  {
    // N1 is D1 squared, so every segment is (D1 * u)^2 plus a height.
    var u, h, b;
    if x < 1.0 / D1 {
      u, h, b := x, 0.0, 1.0;
    } else if x < 2.0 / D1 {
      u, h, b := x - 1.5 / D1, 0.75, 0.5;
    } else if x < 2.5 / D1 {
      u, h, b := x - 2.25 / D1, 0.9375, 0.25;
    } else {
      u, h, b := x - 2.625 / D1, 0.984375, 0.125;
    }
    assert EaseOutBounceCurve(x) == N1 * u * u + h;
    var w := D1 * u;
    assert N1 * u * u == w * w;
    SquareWithin(w, b);
    assert 0.0 <= w * w;
  }

  // ease_in_circ and ease_in_out_circ

  function EaseInCircCurve(sqrt: real -> real, x: real): (y: real)
    ensures x == 0.0 && sqrt(1.0) == 1.0 ==> y == 0.0
    ensures x == 1.0 && sqrt(0.0) == 0.0 ==> y == 1.0
  {
    1.0 - sqrt(1.0 - x * x)
  }

  /** ease_in_out_circ exactly as the animation module writes it: the upper
      half takes the root of the square instead of the root of one minus
      the square. */
  function EaseInOutCircAsWritten(sqrt: real -> real, x: real): (y: real)
    ensures x == 0.0 && sqrt(1.0) == 1.0 ==> y == 0.0
    ensures x == 0.5 && sqrt(1.0) == 1.0 ==> y == 0.5
    ensures x == 1.0 && sqrt(0.0) == 0.0 ==> y == 1.0
  {
    if x < 0.5 then
      (1.0 - sqrt(1.0 - (2.0 * x) * (2.0 * x))) / 2.0
    else
      var u := -2.0 * x + 2.0;
      ((1.0 - sqrt(u * u)) + 1.0) / 2.0
  }

  /** A true root of the square `y` of a non-negative `v` is `v`. */
  lemma SqrtOfSquare(sqrt: real -> real, v: real, y: real)
    requires 0.0 <= v && y == v * v && IsSqrtAt(sqrt, y)
    ensures sqrt(y) == v
  {
    var r := sqrt(y);
    assert (r - v) * (r + v) == 0.0;
    if r + v == 0.0 {
      assert r == 0.0 && v == 0.0;
    } else {
      ZeroFactor(r - v, r + v);
    }
  }

  lemma ZeroFactor(a: real, b: real)
    requires a * b == 0.0 && b != 0.0
    ensures a == 0.0
  {
  }

  /** As written, the upper half of the in-out curve is the identity. */
  lemma EaseInOutCircAsWrittenUpperHalfLinear(sqrt: real -> real, x: real)
    requires 0.5 <= x <= 1.0
    requires IsSqrtAt(sqrt, (-2.0 * x + 2.0) * (-2.0 * x + 2.0))
    ensures EaseInOutCircAsWritten(sqrt, x) == x
  {
    SqrtOfSquare(sqrt, -2.0 * x + 2.0, (-2.0 * x + 2.0) * (-2.0 * x + 2.0));
  }

  /** As written, the curve is not point-symmetric about (0.5, 0.5), which
      an in-out curve is by construction: at 0.25 and 0.75 the two halves
      disagree. */
  lemma EaseInOutCircAsWrittenNotSymmetric(sqrt: real -> real)
    requires IsSqrtAt(sqrt, 0.25) && IsSqrtAt(sqrt, 0.75)
    ensures EaseInOutCircAsWritten(sqrt, 0.75) != 1.0 - EaseInOutCircAsWritten(sqrt, 0.25)
  {
    assert sqrt(0.25) == 0.5 by { SqrtOfSquare(sqrt, 0.5, 0.25); }
    assert EaseInOutCircAsWritten(sqrt, 0.75) == 0.75;
    assert sqrt(0.75) != 0.5;
  }

  /** The in-out circular curve with the upper half the lower half mirrored:
      `(sqrt(1 - (2 - 2x)^2) + 1) / 2`. */
  function EaseInOutCircCurve(sqrt: real -> real, x: real): (y: real)
    ensures x == 0.0 && sqrt(1.0) == 1.0 ==> y == 0.0
    ensures x == 1.0 && sqrt(1.0) == 1.0 ==> y == 1.0
    ensures x == 0.5 && sqrt(0.0) == 0.0 ==> y == 0.5
  {
    if x < 0.5 then
      (1.0 - sqrt(1.0 - (2.0 * x) * (2.0 * x))) / 2.0
    else
      var u := -2.0 * x + 2.0;
      (sqrt(1.0 - u * u) + 1.0) / 2.0
  }

  /** The corrected curve is point-symmetric about (0.5, 0.5), whatever the
      square root returns. */
  lemma EaseInOutCircSymmetric(sqrt: real -> real, x: real)
    requires x < 0.5
    ensures EaseInOutCircCurve(sqrt, 1.0 - x) == 1.0 - EaseInOutCircCurve(sqrt, x)
  {
    var u := -2.0 * (1.0 - x) + 2.0;
    assert u == 2.0 * x;
    assert 1.0 - u * u == 1.0 - (2.0 * x) * (2.0 * x);
  }

  /** `get_ease_fn`: the curve a variant selects. Every curve is anchored at
      both ends, the circular ones when the root is exact at 0 and 1. */
  function EaseFn(e: Easing, sqrt: real -> real): (f: real -> real)
    ensures (e == EaseOutBack || e == EaseOutBounce) ==> FixesEndpoints(f)
    ensures sqrt(0.0) == 0.0 && sqrt(1.0) == 1.0 ==> FixesEndpoints(f)
  {
    match e
    case EaseInCirc => x => EaseInCircCurve(sqrt, x)
    case EaseInOutCirc => x => EaseInOutCircAsWritten(sqrt, x)
    case EaseOutBack => x => EaseOutBackCurve(x)
    case EaseOutBounce => x => EaseOutBounceCurve(x)
  }

  /** Each variant selects a curve of its own: with a true root at 0, 1 and
      0.75, any two variants disagree at progress 0.5. */
  lemma EaseFnDistinct(a: Easing, b: Easing, sqrt: real -> real)
    requires a != b
    requires sqrt(0.0) == 0.0 && sqrt(1.0) == 1.0 && IsSqrtAt(sqrt, 0.75)
    ensures EaseFn(a, sqrt)(0.5) != EaseFn(b, sqrt)(0.5)
  {
    var r := sqrt(0.75);
    assert r != 0.5 && r != 0.234375;
    assert EaseFn(EaseInCirc, sqrt)(0.5) == 1.0 - r;
    assert EaseFn(EaseInOutCirc, sqrt)(0.5) == 0.5;
    assert EaseFn(EaseOutBack, sqrt)(0.5) == 1.0881475;
    assert EaseFn(EaseOutBounce, sqrt)(0.5) == 0.765625;
  }
}
