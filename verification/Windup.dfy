/** The anti-windup clamp shared by the depth, attitude and station-keep controllers. */
module Windup {
  import opened Prelude

  /** Largest integral whose contribution is the configured limit. */
  function Band(limit: real, ki: real): real
    requires ki != 0.0
  {
    limit / Abs(ki)
  }

  function Next(limit: real, ki: real, i: real, err: real, dt: real): real
    requires ki != 0.0
  {
    Clamp(i + err * dt, -Band(limit, ki), Band(limit, ki))
  }

  /** Without integral gain the integral never leaves 0; with it, it stays in the band. */
  predicate Bounded(limit: real, ki: real, i: real)
  {
    if ki == 0.0 then i == 0.0 else Abs(i) <= Abs(Band(limit, ki))
  }

  lemma NextBounded(limit: real, ki: real, i: real, err: real, dt: real)
    requires ki != 0.0
    ensures Bounded(limit, ki, Next(limit, ki, i, err, dt))
  {
    ClampSymmetric(i + err * dt, Band(limit, ki));
  }

  /** From inside the band the integral goes the way of the error, by error times time, as far as the band. */
  lemma NextGathers(limit: real, ki: real, i: real, err: real, dt: real)
    requires ki != 0.0 && limit >= 0.0 && dt >= 0.0 && Bounded(limit, ki, i)
    ensures var band := limit / Abs(ki);
            && (err >= 0.0 ==> Next(limit, ki, i, err, dt) == Min(band, i + err * dt))
            && (err <= 0.0 ==> Next(limit, ki, i, err, dt) == Max(-band, i + err * dt))
  {
    hide Band;
    BandNotNegative(limit, ki);
    StepSign(err, dt);
  }

  lemma BandNotNegative(limit: real, ki: real)
    requires ki != 0.0 && limit >= 0.0
    ensures Band(limit, ki) >= 0.0 && Band(limit, ki) == limit / Abs(ki)
  {
    QuotientMonotone(0.0, limit, Abs(ki));
  }

  lemma StepSign(err: real, dt: real)
    requires dt >= 0.0
    ensures err >= 0.0 ==> err * dt >= 0.0
    ensures err <= 0.0 ==> err * dt <= 0.0
  {
    MulOrder(0.0, Abs(err), dt);
    if err < 0.0 {
      assert err * dt == -(-err * dt);
    }
  }

  lemma BandHolds(limit: real, ki: real, i: real)
    requires ki != 0.0 && limit >= 0.0 && Bounded(limit, ki, i)
    ensures -(limit / Abs(ki)) <= i <= limit / Abs(ki)
  {
    NextGathers(limit, ki, i, 0.0, 0.0);
    hide Bounded;
  }

  lemma DecayBounded(limit: real, ki: real, i: real)
    requires Bounded(limit, ki, i)
    ensures Bounded(limit, ki, i * 0.98)
  {
  }

  lemma ZeroBounded(limit: real, ki: real)
    ensures Bounded(limit, ki, 0.0)
  {
  }

  /** A bounded integral contributes at most the configured limit. */
  lemma Contribution(limit: real, ki: real, i: real)
    requires Bounded(limit, ki, i)
    ensures Abs(Product(ki, i)) <= Abs(limit)
  {
    if ki != 0.0 {
      var gain, band := Abs(ki), Band(limit, ki);
      BandTimesGain(limit, gain);
      AbsProduct(ki, i);
      AbsProduct(gain, band);
      hide Product;
      ProductMono(gain, Abs(i), Abs(band));
    } else {
      assert Product(0.0, i) == 0.0;
    }
  }

  lemma BandTimesGain(limit: real, gain: real)
    requires gain > 0.0
    ensures Product(gain, limit / gain) == limit
  {
  }

  lemma AbsProduct(x: real, y: real)
    ensures Abs(Product(x, y)) == Product(Abs(x), Abs(y))
  {
    if x < 0.0 && y < 0.0 {
      assert x * y == -x * -y;
    }
  }
}
