/**
 * The exponential distribution with rate lambda (src/distribution/exponential.rs).
 * A value holds only the rate; the three constructors take it directly or
 * invert a desired mean or standard deviation.
 */
module Exponential {
  import opened Wrappers
  import opened Transcendental

  datatype ExponentialDistribution = ExponentialDistribution(rate: real) {

    /** `ExponentialDistribution::new`: the rate as given, unchecked. */
    static function New(rate: real): (d: ExponentialDistribution)
      ensures rate != 0.0 ==> d == FromMean(1.0 / rate)
      ensures d.Pdf(0.0) == rate
    {
      ExponentialDistribution(rate)
    }

    /** `ExponentialDistribution::from_mean`: the distribution whose mean is `mean`. */
    static function FromMean(mean: real): (d: ExponentialDistribution)
      requires mean != 0.0
      ensures d.rate != 0.0 && d.Mean() == mean
    {
      ExponentialDistribution(1.0 / mean)
    }

    /** `ExponentialDistribution::from_stdev`: the distribution whose standard
        deviation is `stdev`. */
    static function FromStdev(stdev: real): (d: ExponentialDistribution)
      requires stdev != 0.0
      ensures d.rate != 0.0 && d.Stdev() == stdev
    {
      ExponentialDistribution(1.0 / stdev)
    }

    /** `cdf`: 1 - e^(-rate x) from 0 on, 0 before; for a positive rate a
        probability that starts at 0 and stays below 1. */
    ghost function Cdf(x: real): (p: real)
      ensures x <= 0.0 ==> p == 0.0
      ensures rate > 0.0 ==> 0.0 <= p < 1.0
    {
      if x >= 0.0 then
        ExpLaws();
        ExpBounds(-rate * x);
        1.0 - Exp(-rate * x)
      else 0.0
    }

    /** `pdf`: rate e^(-rate x) from 0 on, 0 before; for a positive rate a density
        that is never negative and never above its value rate at 0. */
    ghost function Pdf(x: real): (p: real)
      ensures x < 0.0 ==> p == 0.0
      ensures x == 0.0 ==> p == rate
      ensures rate > 0.0 ==> 0.0 <= p <= rate
    {
      if x >= 0.0 then
        ExpLaws();
        ExpBounds(-rate * x);
        assert rate > 0.0 ==> rate * (1.0 - Exp(-rate * x)) >= 0.0;
        rate * Exp(-rate * x)
      else 0.0
    }

    /** `mean`: 1/rate. */
    function Mean(): (m: real)
      requires rate != 0.0
      ensures m != 0.0 && m * rate == 1.0
      ensures rate > 0.0 ==> m > 0.0
    {
      1.0 / rate
    }

    /** `median`: ln 2 times the mean, and the point where the cdf reaches one half. */
    ghost function Median(): (m: real)
      requires rate != 0.0
      ensures m == Ln2 * Mean()
      ensures rate > 0.0 ==> 0.0 < m < Mean() && Cdf(m) == 0.5
    {
      Ln2Bounds();
      ExpLaws();
      Ln2 / rate
    }

    /** `stdev`: equal to the mean, a property of the exponential family. */
    function Stdev(): (s: real)
      requires rate != 0.0
      ensures s == Mean()
    {
      Mean()
    }

    /** `Graphable::f`: always present, and always the density. */
    ghost function F(x: real): (r: Option<real>)
      ensures r.Some? && r.value == Pdf(x)
    {
      Some(Pdf(x))
    }
  }

  /** `from_mean` and `from_stdev` build the same rate for the same input. */
  lemma FromMeanIsFromStdev(m: real)
    requires m != 0.0
    ensures ExponentialDistribution.FromMean(m) == ExponentialDistribution.FromStdev(m)
  {
  }

  /** Every distribution with a nonzero rate is the one `from_mean` builds from its mean. */
  lemma FromMeanOfMean(d: ExponentialDistribution)
    requires d.rate != 0.0
    ensures ExponentialDistribution.FromMean(d.Mean()) == d
  {
  }

  /** Multiplying by a non-negative number keeps the order. */
  lemma ProductMonotone(k: real, u: real, v: real)
    requires 0.0 <= k && u <= v
    ensures k * u <= k * v
  {
    assert k * v - k * u == k * (v - u);
  }

  /** For a positive rate the cdf never decreases. */
  lemma CdfMonotone(d: ExponentialDistribution, x: real, y: real)
    requires d.rate > 0.0 && x <= y
    ensures d.Cdf(x) <= d.Cdf(y)
  {
    if 0.0 <= x {
      ProductMonotone(d.rate, x, y);
      ExpMonotone(-d.rate * y, -d.rate * x);
    }
  }

  /** For a positive rate the density never increases on [0, infinity). */
  lemma PdfNonIncreasing(d: ExponentialDistribution, x: real, y: real)
    requires d.rate > 0.0 && 0.0 <= x <= y
    ensures d.Pdf(y) <= d.Pdf(x)
  {
    var u, v := -d.rate * y, -d.rate * x;
    ProductMonotone(d.rate, x, y);
    assert u <= v;
    ExpMonotone(u, v);
    ProductMonotone(d.rate, Exp(u), Exp(v));
    assert d.Pdf(y) == d.rate * Exp(u);
    assert d.Pdf(x) == d.rate * Exp(v);
  }

  /** From 0 on, the density is rate times the probability of surviving past x:
      the constant hazard rate that characterises the family. */
  lemma ConstantHazard(d: ExponentialDistribution, x: real)
    requires x >= 0.0
    ensures d.Pdf(x) == d.rate * (1.0 - d.Cdf(x))
  {
  }

  /** `ExponentialDistribution::from_mean(10)`, as the source's test builds it. */
  lemma TestExpo()
    ensures var d := ExponentialDistribution.FromMean(10.0);
      && d.Mean() == 10.0
      && d.Median() == Ln2 * 10.0
      && d.Stdev() == 10.0
      && d.Pdf(0.0) == 0.1
      && d.Pdf(-1.0) == 0.0
  {
  }
}
