/** Option, and the small real-number helpers that every component of the source re-declares for itself. */
module Prelude {

  datatype Option<+T> = None | Some(value: T)

  function Or<T>(o: Option<T>, default: T): T
  {
    if o.Some? then o.value else default
  }

  function Abs(x: real): (r: real)
  {
    if x < 0.0 then -x else x
  }

  function Min(x: real, y: real): real
  {
    if y < x then y else x
  }

  function Max(x: real, y: real): real
  {
    if y > x then y else x
  }

  /** The source's `_clamp`. With the bounds crossed the answer is still one of the two bounds. */
  function Clamp(x: real, lo: real, hi: real): (r: real)
    ensures lo <= hi ==> lo <= r <= hi
    ensures lo <= x <= hi ==> r == x
    ensures r == x || r == lo || r == hi
  {
    if x < lo then lo else if x > hi then hi else x
  }

  /** Clamping to a symmetric band bounds the magnitude, whatever the sign of the configured limit. */
  lemma ClampSymmetric(x: real, limit: real)
    ensures Abs(Clamp(x, -limit, limit)) <= Abs(limit)
  {
  }

  /** Python 3's round(): to the nearest integer, ties to the even one. */
  function Round(x: real): (r: int)
    ensures -0.5 <= r as real - x <= 0.5
    ensures x == x.Floor as real ==> r == x.Floor
    ensures x - x.Floor as real == 0.5 ==> r % 2 == 0
  {
    var f := x.Floor;
    var frac := x - f as real;
    if frac < 0.5 then f else if frac > 0.5 then f + 1 else if f % 2 == 0 then f else f + 1
  }

  lemma RoundMonotone(x: real, y: real)
    requires x <= y
    ensures Round(x) <= Round(y)
  {
    if x.Floor != y.Floor {
      assert x.Floor < y.Floor;
    }
  }

  /** A step length as the controllers read it: anything absent or not positive becomes 20 ms. */
  function StepLength(dt: real): (r: real)
    ensures r > 0.0
  {
    if dt > 0.0 then dt else 0.02
  }

  // ---------------------------------------------------------------- products of reals

  /** A product with a name, so that a proof can leave it unopened. */
  function Product(x: real, y: real): real
  {
    x * y
  }

  lemma ProductMono(k: real, a: real, b: real)
    requires k >= 0.0 && a <= b
    ensures Product(k, a) <= Product(k, b)
  {
  }

  lemma ProductOne(x: real)
    ensures Product(x, 1.0) == x
  {
  }

  lemma MulMono(k: real, a: real, b: real)
    requires k >= 0.0 && a <= b
    ensures k * a <= k * b
  {
  }

  lemma MulOrder(a: real, b: real, t: real)
    requires 0.0 <= a <= b && t >= 0.0
    ensures 0.0 <= a * t <= b * t
  {
  }

  lemma MulSplit(k: real, a: real, b: real)
    ensures k * (a + b) == k * a + k * b
  {
  }

  lemma Inverse(k: real)
    requires k > 0.0
    ensures 1.0 / k > 0.0 && (1.0 / k) * k == 1.0
  {
  }

  lemma QuotientMonotone(p: real, q: real, d: real)
    requires p <= q && d > 0.0
    ensures p / d <= q / d
  {
    Inverse(d);
    MulMono(1.0 / d, p, q);
    assert p / d == 1.0 / d * p && q / d == 1.0 / d * q;
  }
}
