/**
 * The three transcendental primitives the distributions call: `12f64.sqrt()`,
 * `2f64.ln()` and `f64::exp`. Dafny's `real` has none of them, so each is an
 * opaque value, chosen with `:|` among the values that have the properties the
 * model relies on and known to the verifier through those properties only.
 */
module Transcendental {

  /** An interval of width 1e-11 around sqrt(12) that also holds the double nearest to it. */
  ghost predicate NearSqrt12(r: real) {
    3.46410161513 < r < 3.46410161514
  }

  /** An interval of width 1e-11 around ln 2 that also holds the double nearest to it. */
  ghost predicate NearLn2(r: real) {
    0.69314718055 < r < 0.69314718056
  }

  /** sqrt(12), as `12f64.sqrt()` computes it. */
  ghost const Sqrt12: real :=
    assert NearSqrt12(3.464101615135);
    var r :| NearSqrt12(r); r

  /** ln 2, as `2f64.ln()` computes it. */
  ghost const Ln2: real :=
    assert NearLn2(0.693147180555);
    var r :| NearLn2(r); r

  /** What the model knows of e^x: e^0 = 1, it is positive, it never decreases,
      and e^(-ln 2) = 1/2, which is what makes ln 2 the logarithm of 2. */
  ghost predicate ExpLike(e: real -> real) {
    && e(0.0) == 1.0
    && (forall x :: e(x) > 0.0)
    && (forall x, y :: x <= y ==> e(x) <= e(y))
    && 2.0 * e(-Ln2) == 1.0
  }

  /** e^x, as `f64::exp` computes it. */
  ghost const Exp: real -> real :=
    assert Ln2 > 0.0;
    assert ExpLike(x => if x < 0.0 then 0.5 else 1.0);
    var e :| ExpLike(e); e

  lemma Sqrt12Bounds()
    ensures NearSqrt12(Sqrt12) && Sqrt12 > 0.0
  {
  }

  lemma Ln2Bounds()
    ensures NearLn2(Ln2) && Ln2 > 0.0
  {
  }

  lemma ExpLaws()
    ensures ExpLike(Exp)
  {
  }

  lemma ExpMonotone(x: real, y: real)
    requires x <= y
    ensures Exp(x) <= Exp(y)
  {
    ExpLaws();
  }

  /** e^x is positive, and at most 1 for x <= 0. */
  lemma ExpBounds(x: real)
    ensures 0.0 < Exp(x)
    ensures x <= 0.0 ==> Exp(x) <= 1.0
  {
    ExpLaws();
    if x <= 0.0 {
      assert Exp(x) <= Exp(0.0);
    }
  }
}
