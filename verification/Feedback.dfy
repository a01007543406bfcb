/** Laws of the feedback sum that the depth, attitude and station-keep controllers have in common: a sign times
    proportional, integral and derivative parts, limited to a symmetric band. */
module Feedback {
  import opened Prelude
  import Windup

  predicate SameSide(x: real, y: real)
  {
    (x > 0.0 && y > 0.0) || (x < 0.0 && y < 0.0)
  }

  /** `u` answers the error `y`: it has the sign of sign * y, and its size is |sign| * kp * |y| inside the limit. */
  ghost predicate Answers(u: real, sign: real, kp: real, y: real, limit: real)
  {
    && Abs(u) == Min(limit, Product(Product(Abs(sign), kp), Abs(y)))
    && (SameSide(sign, y) ==> u >= 0.0)
    && (SameSide(sign, -y) ==> u <= 0.0)
    && (kp > 0.0 && limit > 0.0 ==> (u == 0.0 <==> sign == 0.0 || y == 0.0))
  }

  lemma ProportionalAnswers(sign: real, kp: real, y: real, limit: real)
    requires kp >= 0.0 && limit >= 0.0
    ensures Answers(Clamp(Product(sign, Product(kp, y)), -limit, limit), sign, kp, y, limit)
  {
    hide Product;
    Windup.AbsProduct(sign, Product(kp, y));
    Windup.AbsProduct(kp, y);
    Associates(Abs(sign), kp, Abs(y));
    ProductSign(kp, y);
    ProductSign(sign, Product(kp, y));
  }

  lemma Associates(x: real, y: real, z: real)
    ensures Product(x, Product(y, z)) == Product(Product(x, y), z)
  {
  }

  lemma ProductSign(x: real, y: real)
    ensures Product(x, y) == 0.0 <==> x == 0.0 || y == 0.0
    ensures Product(x, y) > 0.0 <==> SameSide(x, y)
  {
    if x > 0.0 && y > 0.0 {
    } else if x < 0.0 && y < 0.0 {
      assert x * y == -x * -y;
    } else if x > 0.0 && y < 0.0 {
      assert x * y == -(x * -y);
    } else if x < 0.0 && y > 0.0 {
      assert x * y == -(-x * y);
    }
  }

  /** The feedback sum before its limit. */
  function Sum(sign: real, kp: real, ki: real, kd: real, y: real, i: real, d: real): real
  {
    sign * (kp * y + ki * i + kd * d)
  }

  /** None of the three parts pulls the sum the wrong way. */
  lemma SumMono(sign: real, kp: real, ki: real, kd: real, y1: real, y2: real, i1: real, i2: real, d1: real, d2: real, limit: real)
    requires sign >= 0.0 && kp >= 0.0 && ki >= 0.0 && kd >= 0.0 && limit >= 0.0
    requires y1 <= y2 && i1 <= i2 && d1 <= d2
    ensures Clamp(Sum(sign, kp, ki, kd, y1, i1, d1), -limit, limit) <= Clamp(Sum(sign, kp, ki, kd, y2, i2, d2), -limit, limit)
  {
    hide Sum, Product;
    SumIs(sign, kp, ki, kd, y1, i1, d1);
    SumIs(sign, kp, ki, kd, y2, i2, d2);
    ProductMono(kp, y1, y2);
    ProductMono(ki, i1, i2);
    ProductMono(kd, d1, d2);
    ProductMono(sign, Product(kp, y1) + Product(ki, i1) + Product(kd, d1), Product(kp, y2) + Product(ki, i2) + Product(kd, d2));
  }

  lemma SumIs(sign: real, kp: real, ki: real, kd: real, y: real, i: real, d: real)
    ensures Sum(sign, kp, ki, kd, y, i, d) == Product(sign, Product(kp, y) + Product(ki, i) + Product(kd, d))
  {
  }
}
