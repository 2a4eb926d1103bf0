/**
 * The continuous uniform distribution on [a, b] (src/distribution/uniform.rs).
 * A value is built once by `New` and never changes; every operation is a
 * closed form over the two bounds.
 */
module Uniform {
  import opened Wrappers
  import opened Transcendental

  datatype UniformDistribution = UniformDistribution(a: real, b: real) {

    /** `UniformDistribution::new`: the source asserts `a <= b` and panics
        otherwise; here the failure is `None`. */
    static function New(a: real, b: real): (r: Option<UniformDistribution>)
      ensures r.Some? <==> a <= b
      ensures r.Some? ==> r.value.a == a && r.value.b == b && r.value.Valid()
    {
      if a <= b then Some(UniformDistribution(a, b)) else None
    }

    /** The invariant `New` establishes. */
    predicate Valid() {
      a <= b
    }

    /** The divisions by `b - a` in `cdf`, `pdf` and `f` are finite at `x`:
        only the zero-width distribution evaluated at its one point divides by zero. */
    predicate DefinedAt(x: real) {
      a <= x <= b ==> a < b
    }

    /** `cdf`: the linear ramp on [a, b], and 0 on both sides of it. */
    function Cdf(x: real): (p: real)
      requires Valid() && DefinedAt(x)
      ensures 0.0 <= p <= 1.0
      ensures x < a || b < x ==> p == 0.0
      ensures x == a ==> p == 0.0
      ensures a < b && x == b ==> p == 1.0
    {
      if x < a then 0.0
      else if a <= x && x <= b then
        QuotientMonotone(0.0, x - a, b - a);
        QuotientMonotone(x - a, b - a, b - a);
        (x - a) / (b - a)
      else 0.0
    }

    /** `pdf`: the constant density 1/(b - a) on [a, b], 0 elsewhere. */
    function Pdf(x: real): (p: real)
      requires Valid() && DefinedAt(x)
      ensures p >= 0.0
      ensures a <= x <= b ==> p * (b - a) == 1.0
      ensures x < a || b < x ==> p == 0.0
    {
      if a <= x && x <= b then 1.0 / (b - a) else 0.0
    }

    /** `mean`: the midpoint of the support. */
    function Mean(): (m: real)
      ensures m - a == b - m
      ensures Valid() ==> a <= m <= b
    {
      (b + a) / 2.0
    }

    /** `median`: the mean, and the point where the cdf reaches one half. */
    function Median(): (m: real)
      ensures m == Mean()
      ensures a < b ==> Cdf(m) == 0.5
    {
      assert a < b ==> (Mean() - a) / (b - a) == 0.5 by {
        if a < b {
          assert Mean() - a == 0.5 * (b - a);
        }
      }
      Mean()
    }

    /** `stdev`: (b - a)/sqrt(12), which to eleven digits of sqrt(12) is a value between
        (b - a)/3.46410161514 and (b - a)/3.46410161513. */
    ghost function Stdev(): (s: real)
      ensures s * Sqrt12 == b - a
      ensures Valid() ==> 0.0 <= s
      ensures Valid() ==> (b - a) / 3.46410161514 <= s <= (b - a) / 3.46410161513
    {
      Sqrt12Bounds();
      (b - a) / Sqrt12
    }

    /** `Graphable::f`: always present, and always the density. */
    function F(x: real): (r: Option<real>)
      requires Valid() && DefinedAt(x)
      ensures r == Some(Pdf(x))
    {
      if a <= x && x <= b then Some(1.0 / (b - a)) else Some(0.0)
    }

    /** The cdf the source evidently intends: 1 rather than 0 beyond `b`. */
    function IntendedCdf(x: real): (p: real)
      requires Valid() && DefinedAt(x)
      ensures 0.0 <= p <= 1.0
      ensures x <= b ==> p == Cdf(x)
      ensures b < x ==> p == 1.0
    {
      if x < a then 0.0
      else if x <= b then Cdf(x)
      else 1.0
    }
  }

  /** Dividing by a positive number keeps the order. */
  lemma QuotientMonotone(x: real, y: real, w: real)
    requires 0.0 < w && x <= y
    ensures x / w <= y / w
  {
  }

  /** On [a, b] the cdf never decreases. */
  lemma CdfMonotoneOnSupport(d: UniformDistribution, x: real, y: real)
    requires d.a < d.b && d.a <= x <= y <= d.b
    ensures d.Cdf(x) <= d.Cdf(y)
  {
    QuotientMonotone(x - d.a, y - d.a, d.b - d.a);
  }

  /** On [a, b] the cdf is the area under the density from a to x. */
  lemma CdfIsAreaUnderPdf(d: UniformDistribution, x: real)
    requires d.a < d.b && d.a <= x <= d.b
    ensures d.Cdf(x) == (x - d.a) * d.Pdf(x)
  {
  }

  /** The cdf as written is not monotone: it is 1 at `b` and falls back to 0 just after. */
  lemma CdfDropsAfterSupport(d: UniformDistribution, x: real)
    requires d.a < d.b < x
    ensures d.Cdf(d.b) == 1.0 && d.Cdf(x) == 0.0
  {
  }

  /** The intended cdf never decreases anywhere. */
  lemma IntendedCdfMonotone(d: UniformDistribution, x: real, y: real)
    requires d.a < d.b && x <= y
    ensures d.IntendedCdf(x) <= d.IntendedCdf(y)
  {
    if d.a <= x <= y <= d.b {
      CdfMonotoneOnSupport(d, x, y);
    }
  }

  /** Uniform(0, 10), as the source's first test builds it. */
  lemma TestUniformDist()
    ensures UniformDistribution.New(0.0, 10.0).Some?
    ensures var d := UniformDistribution.New(0.0, 10.0).value;
      && d.Mean() == 5.0
      && d.Median() == 5.0
      && 2.886751346 - 0.000000001 < d.Stdev() < 2.886751346 + 0.000000001
      && d.Pdf(5.0) == 1.0 / 10.0
  {
  }

  /** Uniform(-5, -1), as the source's second test builds it. */
  lemma TestUniformDistWithNegative()
    ensures UniformDistribution.New(-5.0, -1.0).Some?
    ensures var d := UniformDistribution.New(-5.0, -1.0).value;
      && d.Mean() == -3.0
      && d.Median() == -3.0
      && 1.154700538 - 0.000000001 < d.Stdev() < 1.154700538 + 0.000000001
      && d.Pdf(-3.0) == 1.0 / 4.0
  {
  }

  /** Uniform(-5, 5), as the source's third test builds it. */
  lemma TestUniformDistWithNegAndPos()
    ensures UniformDistribution.New(-5.0, 5.0).Some?
    ensures var d := UniformDistribution.New(-5.0, 5.0).value;
      && d.Mean() == 0.0
      && d.Median() == 0.0
      && 2.886751346 - 0.000000001 < d.Stdev() < 2.886751346 + 0.000000001
      && d.Pdf(0.0) == 1.0 / 10.0
  {
  }
}
