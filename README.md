# statslib-rs distributions in Dafny

A model of two of the closed-form probability distributions of statslib-rs, the
uniform distribution on `[a, b]` and the exponential distribution with rate `λ`
(the source's field `lambda`, called `rate` in the model), over Dafny's exact
`real` in place of `f64`. Each distribution is an immutable
value (a `datatype`) with the operations of the library's `Distribution` trait
(`Cdf`, `Pdf`, `Mean`, `Median`, `Stdev`), the `Graphable` operation `F`, and
the constructors of its `impl` block as static functions.

- `wrappers.dfy`, module `Wrappers`: the `Option` that `Graphable::f` returns and
  that the uniform constructor uses for its failure.
- `transcendental.dfy`, module `Transcendental`: `Sqrt12`, `Ln2` and `Exp`, the
  values of `12f64.sqrt()`, `2f64.ln()` and `f64::exp`. Dafny has no square
  root, logarithm or exponential, so each is an opaque ghost constant chosen
  with `:|`. `Sqrt12` and `Ln2` are known only to lie in an interval of width
  1e-11 that holds both the exact value and the nearest double. `Exp` is known
  only to satisfy e^0 = 1, e^x > 0, x <= y implies e^x <= e^y, and
  e^(-ln 2) = 1/2.
- `uniform.dfy`, module `Uniform`: `UniformDistribution(a, b)`.
- `exponential.dfy`, module `Exponential`: `ExponentialDistribution(rate)`.

The uniform constructor panics when `a > b`; the model's `New` returns `None`
there instead. The uniform cdf is 0, not 1, for `x > b`: the model reproduces
the code as written (see "## Findings") and proves, beside it, the properties
of the cdf the code evidently intends.

Where an `f64` operation would produce an infinity or NaN, the model's
`requires` excludes that input instead: a zero-width uniform distribution
evaluated at its one point (`DefinedAt`), and a zero rate, mean or standard
deviation in the exponential distribution.

## Model

| member | source | states |
|---|---|---|
| `Uniform.UniformDistribution.New` | src/distribution/uniform.rs:11-14 | construction succeeds exactly when `a <= b`, and then holds the given bounds and satisfies `Valid` |
| `Uniform.UniformDistribution.Cdf` | src/distribution/uniform.rs:18-26 | the cdf is a probability in `[0, 1]`; it is 0 below `a`, at `a`, and above `b` (the reproduced quirk); it is 1 at `b` when `a < b` |
| `Uniform.UniformDistribution.Pdf` | src/distribution/uniform.rs:28-34 | the density is never negative; on `[a, b]` it times the width `b - a` is 1; outside `[a, b]` it is 0 |
| `Uniform.UniformDistribution.Mean` | src/distribution/uniform.rs:36-38 | the mean is equidistant from `a` and `b` and lies in `[a, b]` |
| `Uniform.UniformDistribution.Median` | src/distribution/uniform.rs:40-42 | the median equals the mean, and the cdf at the median is 1/2 when `a < b` |
| `Uniform.UniformDistribution.Stdev` | src/distribution/uniform.rs:44-46 | the stdev times `√12` is the width `b - a`; it is non-negative and within 1e-11 relative precision of `(b - a)/√12` |
| `Uniform.UniformDistribution.F` | src/distribution/uniform.rs:49-56 | `f(x)` is always present and equals `Some(pdf(x))`, although its body repeats the branch rather than calling `pdf` |
| `Uniform.UniformDistribution.IntendedCdf` | src/distribution/uniform.rs:18-26 | the corrected cdf is in `[0, 1]`, agrees with `Cdf` up to `b`, and is 1 beyond `b` |
| `Uniform.CdfMonotoneOnSupport` | src/distribution/uniform.rs:21-22 | on `[a, b]` the cdf never decreases |
| `Uniform.CdfIsAreaUnderPdf` | src/distribution/uniform.rs:18-34 | on `[a, b]` the cdf is `(x - a)` times the density, the area under the density from `a` to `x` |
| `Uniform.CdfDropsAfterSupport` | src/distribution/uniform.rs:18-26 | for `a < b` the cdf is 1 at `b` and 0 at every point above `b`, so it is not monotone |
| `Uniform.IntendedCdfMonotone` | src/distribution/uniform.rs:18-26 | the corrected cdf never decreases on the whole real line |
| `Uniform.TestUniformDist` | src/distribution/uniform.rs:66-72 | Uniform(0, 10): mean 5, median 5, stdev within 1e-9 of 2.886751346, pdf(5) = 1/10 |
| `Uniform.TestUniformDistWithNegative` | src/distribution/uniform.rs:74-80 | Uniform(-5, -1): mean -3, median -3, stdev within 1e-9 of 1.154700538, pdf(-3) = 1/4 |
| `Uniform.TestUniformDistWithNegAndPos` | src/distribution/uniform.rs:82-88 | Uniform(-5, 5): mean 0, median 0, stdev within 1e-9 of 2.886751346, pdf(0) = 1/10 |
| `Exponential.ExponentialDistribution.New` | src/distribution/exponential.rs:10-12 | a nonzero rate builds the same value as `from_mean` of its inverse; the density at 0 is the rate |
| `Exponential.ExponentialDistribution.FromMean` | src/distribution/exponential.rs:13-17 | round trip: the distribution built from a nonzero mean `m` has mean `m` |
| `Exponential.ExponentialDistribution.FromStdev` | src/distribution/exponential.rs:18-22 | round trip: the distribution built from a nonzero stdev `s` has stdev `s` |
| `Exponential.ExponentialDistribution.Cdf` | src/distribution/exponential.rs:26-32 | the cdf is 0 for every `x <= 0`; for a positive rate it is in `[0, 1)` |
| `Exponential.ExponentialDistribution.Pdf` | src/distribution/exponential.rs:34-40 | the density is 0 for `x < 0` and the rate at 0; for a positive rate it lies in `[0, λ]` |
| `Exponential.ExponentialDistribution.Mean` | src/distribution/exponential.rs:42-44 | the mean is the inverse of the rate: nonzero, times `λ` gives 1, positive for a positive rate |
| `Exponential.ExponentialDistribution.Median` | src/distribution/exponential.rs:46-48 | the median is `ln 2` times the mean; for a positive rate it lies strictly between 0 and the mean and the cdf there is 1/2 |
| `Exponential.ExponentialDistribution.Stdev` | src/distribution/exponential.rs:50-52 | the stdev equals the mean |
| `Exponential.ExponentialDistribution.F` | src/distribution/exponential.rs:55-57 | `f(x)` is always present and is the density |
| `Exponential.FromMeanIsFromStdev` | src/distribution/exponential.rs:13-22 | `from_mean(m)` and `from_stdev(m)` build the same rate for every nonzero `m` |
| `Exponential.FromMeanOfMean` | src/distribution/exponential.rs:13-17 | round trip the other way: every distribution with a nonzero rate is `from_mean` of its own mean |
| `Exponential.CdfMonotone` | src/distribution/exponential.rs:26-32 | for a positive rate the cdf never decreases |
| `Exponential.PdfNonIncreasing` | src/distribution/exponential.rs:34-40 | for a positive rate the density never increases on `[0, ∞)` |
| `Exponential.ConstantHazard` | src/distribution/exponential.rs:26-40 | for `x >= 0` the density is `λ` times `1 - cdf(x)` |
| `Exponential.TestExpo` | src/distribution/exponential.rs:66-75 | `from_mean(10)`: mean 10, median `ln 2 · 10`, stdev 10, pdf(0) = 0.1, pdf(-1) = 0 |

## Findings

| source | as written | input that shows it | evidently intended | confidence | as-written member | corrected member |
|---|---|---|---|---|---|---|
| src/distribution/uniform.rs:23-24 | `cdf` returns 0 for `x > b` | Uniform(0, 10): `cdf(10) = 1` but `cdf(11) = 0` | `cdf(x) = 1` for `x > b`, so that the cdf never decreases | high; not executed | `Uniform.CdfDropsAfterSupport` | `Uniform.IntendedCdfMonotone` |

`Uniform.UniformDistribution.Cdf` stays as written because the model describes
the library's behaviour; `Uniform.UniformDistribution.IntendedCdf` is the
corrected definition, proved monotone and equal to `Cdf` up to `b`.

## Left out

- src/distribution/normal.rs: its cdf calls libm's `erf` and its pdf is `exp`, `π` and `powi` arithmetic; without those nothing beyond three field reads remains.
- The `Distribution` and `Graphable` traits (src/distribution/mod.rs:5-11 and the `graph` module, which is not part of this model) are not Dafny traits: each distribution is its own datatype with members of the same names.
- `f64` rounding, infinities and NaN: the model computes over exact reals, and inputs that would divide by zero are excluded by `requires`.
- `Exponential.ExponentialDistribution.New`: a rate of 0 or below is accepted, as in the source; only the operations that divide by it require it to be nonzero.
- `Uniform.UniformDistribution.Stdev`: states `σ · √12 = b - a` with `√12` pinned to an interval of width 1e-11, so `12 σ² = (b - a)²` holds only to that precision, not exactly.
- `Exponential.ExponentialDistribution.Cdf` and `Exponential.ExponentialDistribution.Pdf`: `e^x` is known only through the four facts above, so values such as `pdf(1) ≈ 0.090483742` for `from_mean(10)` (src/distribution/exponential.rs:73) cannot be stated.
- The `assert_close!` macro (src/distribution/mod.rs:30-39): exact reals make its tolerance unnecessary except for the stdev test values, which the test lemmas bound to the same 1e-9.
