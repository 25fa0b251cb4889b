/** The matrix-variate inverse-Wishart distribution with degrees of freedom ν
    (`freedom`) and scale matrix Ψ (`scale`): parameter validation, the parameter
    store with its cached Cholesky factor, the closed-form moments, and the argument
    guards of the density and of sampling.

    The process-wide switch `Control.CheckDistributionParameters` is the explicit
    `checking` argument of every operation that reads it. */
module Distributions {
  import opened Matrices

  /** The two `ArgumentOutOfRangeException`s the distribution raises, named after
      their messages. */
  datatype DistributionError =
    | InvalidDistributionParameters
    | ArgumentMatrixDimensions

  /** The result of an operation that returns nothing or throws. */
  datatype Outcome = Pass | Fail(error: DistributionError)

  /** The result of an operation that returns a value or throws. */
  datatype Result<T> = Success(value: T) | Failure(error: DistributionError)

  /** `System.Random`: a stateful generator of which only the identity matters here. */
  class Random {
    constructor () {}
  }

  /** A Cholesky factorisation, `Cholesky<double>.Create(m)`, standing for the factor
      of the matrix it was created from; its numbers are not modelled. */
  datatype Cholesky = Cholesky(factored: Matrix)

  function Chol(s: Matrix): Cholesky
  {
    Cholesky(s)
  }

  /** What `IsValidParameterSet` accepts: a square scale matrix with a strictly positive
      diagonal and positive degrees of freedom. Symmetry and positive-definiteness are
      not checked. */
  predicate ValidParameterSet(df: real, s: Matrix)
  {
    && s.rows == s.cols
    && (forall i :: 0 <= i < s.rows ==> s.At(i, i) > 0.0)
    && df > 0.0
  }

  /** The common denominator of the variance entries, (ν-p)(ν-p-1)²(ν-p-3). */
  function VarianceDenominator(df: real, p: nat): real
  {
    (df - p as real) * (df - p as real - 1.0) * (df - p as real - 1.0) * (df - p as real - 3.0)
  }

  /** Entry (i, j) of the covariance of an inverse-Wishart matrix with degrees of
      freedom `df` and square scale `s` of dimension p (Mardia, Kent and Bibby, 1979):
      ((ν-p+1) Ψij² + (ν-p-1) Ψii Ψjj) / ((ν-p)(ν-p-1)²(ν-p-3)). */
  function VarianceEntry(df: real, s: Matrix, i: nat, j: nat): real
    requires s.rows == s.cols && i < s.rows && j < s.rows
    requires VarianceDenominator(df, s.rows) != 0.0
  {
    var p := s.rows as real;
    ((df - p + 1.0) * s.At(i, j) * s.At(i, j) + (df - p - 1.0) * s.At(i, i) * s.At(j, j))
      / VarianceDenominator(df, s.rows)
  }

  class InverseWishart {
    var random: Random
    var freedom: real
    var scale: Matrix
    /** The cached factorisation of `scale`, recomputed whenever the parameters are set. */
    var chol: Cholesky

    /** The cache is the factorisation of the current scale matrix. */
    ghost predicate Valid()
      reads this
    {
      chol == Chol(scale)
    }

    /** An instance before `SetParameters` has run: the generator is stored and the
        parameter fields hold their defaults (zero, and an empty matrix for the null
        reference). */
    constructor Blank(rnd: Random)
      ensures Valid() && random == rnd
    {
      var empty := Zeros(0, 0);
      random := rnd;
      freedom := 0.0;
      scale := empty;
      chol := Chol(empty);
    }

    /** The constructor `InverseWishart(degreeOfFreedom, scale)`: a new default generator,
        then `SetParameters`, whose failure is the constructor's. */
    static method Create(checking: bool, df: real, s: Matrix) returns (r: Result<InverseWishart>)
      ensures r.Failure? <==> checking && !ValidParameterSet(df, s)
      ensures r.Failure? ==> r.error == InvalidDistributionParameters
      ensures r.Success? ==> fresh(r.value) && fresh(r.value.random) && r.value.Valid()
      ensures r.Success? ==> r.value.freedom == df && r.value.scale == s
    {
      var rnd := new Random();
      var d := new InverseWishart.Blank(rnd);
      var outcome := d.SetParameters(checking, df, s);
      if outcome.Fail? {
        return Failure(outcome.error);
      }
      return Success(d);
    }

    /** The constructor `InverseWishart(degreeOfFreedom, scale, randomSource)`: the given
        generator, or a new one in place of null, then `SetParameters`. */
    static method CreateWithRandom(checking: bool, df: real, s: Matrix, randomSource: Random?)
      returns (r: Result<InverseWishart>)
      ensures r.Failure? <==> checking && !ValidParameterSet(df, s)
      ensures r.Failure? ==> r.error == InvalidDistributionParameters
      ensures r.Success? ==> fresh(r.value) && r.value.Valid()
      ensures r.Success? ==> r.value.freedom == df && r.value.scale == s
      ensures r.Success? && randomSource != null ==> r.value.random == randomSource
      ensures r.Success? && randomSource == null ==> fresh(r.value.random)
    {
      var rnd: Random;
      if randomSource != null {
        rnd := randomSource;
      } else {
        rnd := new Random();
      }
      var d := new InverseWishart.Blank(rnd);
      var outcome := d.SetParameters(checking, df, s);
      if outcome.Fail? {
        return Failure(outcome.error);
      }
      return Success(d);
    }

    /** Accepts exactly a square scale matrix with a strictly positive diagonal and
        positive degrees of freedom; a non-square matrix is rejected before any of
        its diagonal entries is read. */
    static method IsValidParameterSet(df: real, s: Matrix) returns (valid: bool)
      ensures s.rows != s.cols ==> !valid
      ensures valid <==> s.rows == s.cols && df > 0.0 && forall i :: 0 <= i < s.rows ==> s.At(i, i) > 0.0
      ensures valid == ValidParameterSet(df, s)
    {
      if s.rows != s.cols {
        return false;
      }
      for i := 0 to s.rows
        invariant forall k :: 0 <= k < i ==> s.At(k, k) > 0.0
      {
        if s.At(i, i) <= 0.0 {
          return false;
        }
      }
      return df > 0.0;
    }

    /** Validate, then commit: when checking is on and the pair is invalid, nothing
        changes; otherwise both parameters and the cached factor are replaced together.
        The generator is never touched. */
    method SetParameters(checking: bool, df: real, s: Matrix) returns (outcome: Outcome)
      requires Valid()
      modifies this`freedom, this`scale, this`chol
      ensures Valid()
      ensures outcome.Pass? <==> !checking || ValidParameterSet(df, s)
      ensures outcome.Fail? ==> outcome.error == InvalidDistributionParameters
      ensures outcome.Fail? ==> freedom == old(freedom) && scale == old(scale) && chol == old(chol)
      ensures outcome.Pass? ==> freedom == df && scale == s && chol == Chol(s)
    {
      if checking {
        var valid := IsValidParameterSet(df, s);
        if !valid {
          return Fail(InvalidDistributionParameters);
        }
      }
      freedom := df;
      scale := s;
      chol := Chol(scale);
      return Pass;
    }

    /** The `DegreeOfFreedom` setter: re-validates the new value together with the
        current scale, which stays as it is. */
    method SetDegreeOfFreedom(checking: bool, value: real) returns (outcome: Outcome)
      requires Valid()
      modifies this`freedom, this`scale, this`chol
      ensures Valid() && scale == old(scale)
      ensures outcome.Pass? <==> !checking || ValidParameterSet(value, old(scale))
      ensures outcome.Pass? ==> freedom == value
      ensures outcome.Fail? ==> outcome.error == InvalidDistributionParameters
      ensures outcome.Fail? ==> freedom == old(freedom) && chol == old(chol)
    {
      outcome := SetParameters(checking, value, scale);
    }

    /** The `Scale` setter: re-validates the new matrix together with the current
        degrees of freedom, which stay as they are. */
    method SetScale(checking: bool, value: Matrix) returns (outcome: Outcome)
      requires Valid()
      modifies this`freedom, this`scale, this`chol
      ensures Valid() && freedom == old(freedom)
      ensures outcome.Pass? <==> !checking || ValidParameterSet(old(freedom), value)
      ensures outcome.Pass? ==> scale == value && chol == Chol(value)
      ensures outcome.Fail? ==> outcome.error == InvalidDistributionParameters
      ensures outcome.Fail? ==> scale == old(scale) && chol == old(chol)
    {
      outcome := SetParameters(checking, freedom, value);
    }

    /** The `RandomSource` setter: a null generator is replaced by a new one, so the
        stored generator is never null; the parameters are untouched. */
    method SetRandomSource(value: Random?)
      modifies this`random
      ensures value != null ==> random == value
      ensures value == null ==> fresh(random)
    {
      if value != null {
        random := value;
      } else {
        random := new Random();
      }
    }

    /** The mean Ψ/(ν-p-1), p the number of rows of Ψ. */
    function Mean(): (m: Matrix)
      reads this
      requires freedom - scale.rows as real - 1.0 != 0.0
      ensures m.rows == scale.rows && m.cols == scale.cols
      ensures forall i, j :: 0 <= i < m.rows && 0 <= j < m.cols ==>
        m.At(i, j) == scale.At(i, j) / (freedom - scale.rows as real - 1.0)
    {
      scale.Scaled(1.0 / (freedom - scale.rows as real - 1.0))
    }

    /** The mode Ψ/(ν+p+1); for positive degrees of freedom the divisor is positive,
        so every entry keeps the sign of the scale entry. */
    function Mode(): (m: Matrix)
      reads this
      requires freedom + scale.rows as real + 1.0 != 0.0
      ensures m.rows == scale.rows && m.cols == scale.cols
      ensures forall i, j :: 0 <= i < m.rows && 0 <= j < m.cols ==>
        m.At(i, j) == scale.At(i, j) / (freedom + scale.rows as real + 1.0)
      ensures freedom > 0.0 ==> forall i, j :: 0 <= i < m.rows && 0 <= j < m.cols ==>
        (m.At(i, j) > 0.0 <==> scale.At(i, j) > 0.0) && (m.At(i, j) == 0.0 <==> scale.At(i, j) == 0.0)
    {
      var c := freedom + scale.rows as real + 1.0;
      if freedom > 0.0 then
        QuotientSign(c);
        scale.Scaled(1.0 / c)
      else
        scale.Scaled(1.0 / c)
    }

    /** The variance: a new p-by-p matrix filled entry by entry with the
        Mardia-Kent-Bibby formula. */
    method Variance() returns (res: Matrix)
      requires scale.rows == scale.cols
      requires VarianceDenominator(freedom, scale.rows) != 0.0
      ensures res.rows == scale.rows && res.cols == scale.cols
      ensures forall i, j :: 0 <= i < res.rows && 0 <= j < res.cols ==>
        res.At(i, j) == VarianceEntry(freedom, scale, i, j)
    {
      var df, s := freedom, scale;
      res := Zeros(s.rows, s.cols);
      for i := 0 to res.rows
        invariant res.rows == s.rows && res.cols == s.cols
        invariant forall k, l :: 0 <= k < i && 0 <= l < res.cols ==> res.At(k, l) == VarianceEntry(df, s, k, l)
      {
        for j := 0 to res.cols
          invariant res.rows == s.rows && res.cols == s.cols
          invariant forall k, l :: 0 <= k < i && 0 <= l < res.cols ==> res.At(k, l) == VarianceEntry(df, s, k, l)
          invariant forall l :: 0 <= l < j ==> res.At(i, l) == VarianceEntry(df, s, i, l)
        {
          res := res.Updated(i, j, VarianceEntry(df, s, i, j));
        }
      }
    }

    /** The density at `x`: a matrix whose shape is not p-by-p, p the number of rows of
        the scale matrix, is rejected; otherwise the value is what the numerical
        evaluation `evaluate` gives for the stored parameters, the cached factor and `x`. */
    function Density(x: Matrix, evaluate: (real, Matrix, Cholesky, Matrix) -> real): (r: Result<real>)
      reads this
      requires Valid()
      ensures r.Failure? <==> x.rows != scale.rows || x.cols != scale.rows
      ensures r.Failure? ==> r.error == ArgumentMatrixDimensions
      ensures r.Success? ==> r.value == evaluate(freedom, scale, Chol(scale), x)
    {
      if x.rows != scale.rows || x.cols != scale.rows then
        Failure(ArgumentMatrixDimensions)
      else
        Success(evaluate(freedom, scale, chol, x))
    }

    /** The static `Sample(rnd, degreeOfFreedom, scale)`: when checking is on an invalid
        pair is rejected before anything is drawn; otherwise the result is `draw`, the
        inverse of a Wishart draw from `rnd` with the inverted scale. */
    static method SampleFrom(checking: bool, rnd: Random, df: real, s: Matrix, draw: (Random, real, Matrix) -> Matrix)
      returns (r: Result<Matrix>)
      ensures r.Failure? <==> checking && !ValidParameterSet(df, s)
      ensures r.Failure? ==> r.error == InvalidDistributionParameters
      ensures r.Success? ==> r.value == draw(rnd, df, s)
    {
      if checking {
        var valid := IsValidParameterSet(df, s);
        if !valid {
          return Failure(InvalidDistributionParameters);
        }
      }
      return Success(draw(rnd, df, s));
    }

    /** The instance `Sample()`: the static form on the stored generator and parameters,
        so the pair is validated again under the current setting of `checking`. */
    method Sample(checking: bool, draw: (Random, real, Matrix) -> Matrix) returns (r: Result<Matrix>)
      ensures r.Failure? <==> checking && !ValidParameterSet(freedom, scale)
      ensures r.Failure? ==> r.error == InvalidDistributionParameters
      ensures r.Success? ==> r.value == draw(random, freedom, scale)
    {
      r := SampleFrom(checking, random, freedom, scale, draw);
    }
  }

  /** The variance formula is symmetric in (i, j) when the scale matrix is. */
  lemma VarianceEntrySymmetric(df: real, s: Matrix, i: nat, j: nat)
    requires s.IsSymmetric() && i < s.rows && j < s.rows
    requires VarianceDenominator(df, s.rows) != 0.0
    ensures VarianceEntry(df, s, i, j) == VarianceEntry(df, s, j, i)
  {
  }

  /** A matrix holding the variance formula at every entry is symmetric when the scale
      matrix is. */
  lemma VarianceSymmetric(df: real, s: Matrix, v: Matrix)
    requires s.IsSymmetric() && VarianceDenominator(df, s.rows) != 0.0
    requires v.rows == s.rows && v.cols == s.rows
    requires forall i, j :: 0 <= i < v.rows && 0 <= j < v.cols ==> v.At(i, j) == VarianceEntry(df, s, i, j)
    ensures v.IsSymmetric()
  {
    forall i, j | 0 <= i < v.rows && 0 <= j < v.rows
      ensures v.At(i, j) == v.At(j, i)
    {
      VarianceEntrySymmetric(df, s, i, j);
    }
  }

  /** On the diagonal the variance reduces to the textbook 2 Ψii² / ((ν-p-1)²(ν-p-3)):
      the factor ν-p cancels. */
  lemma VarianceDiagonal(df: real, s: Matrix, i: nat)
    requires s.rows == s.cols && i < s.rows
    requires VarianceDenominator(df, s.rows) != 0.0
    ensures VarianceEntry(df, s, i, i)
      == 2.0 * s.At(i, i) * s.At(i, i) / ((df - s.rows as real - 1.0) * (df - s.rows as real - 1.0) * (df - s.rows as real - 3.0))
  {
  }

  /** With ν > p + 3 and a valid scale matrix, the denominator is positive and every
      variance entry is strictly positive. */
  lemma VariancePositive(df: real, s: Matrix, i: nat, j: nat)
    requires ValidParameterSet(df, s) && i < s.rows && j < s.rows
    requires df > s.rows as real + 3.0
    ensures VarianceDenominator(df, s.rows) > 0.0 && VarianceEntry(df, s, i, j) > 0.0
  {
  }

  /** When the mean is finite and positive (ν > p + 1), the mode lies strictly between
      zero and the mean on every positive entry of the scale matrix. */
  lemma ModeBelowMean(d: InverseWishart, i: nat, j: nat)
    requires d.freedom > d.scale.rows as real + 1.0
    requires i < d.scale.rows && j < d.scale.cols && d.scale.At(i, j) > 0.0
    ensures 0.0 < d.Mode().At(i, j) < d.Mean().At(i, j)
  {
    var p := d.scale.rows as real;
    var x := d.scale.At(i, j);
    var lo, hi := d.freedom - p - 1.0, d.freedom + p + 1.0;
    assert 0.0 < lo < hi;
    QuotientDecreasing(x, lo, hi);
  }

  /** Below the threshold (ν < p + 1) the divisor of the mean is negative, not zero: the
      mean is finite, and every positive scale entry gives a negative mean entry. */
  lemma MeanNegativeBelowThreshold(d: InverseWishart, i: nat, j: nat)
    requires d.freedom < d.scale.rows as real + 1.0
    requires i < d.scale.rows && j < d.scale.cols && d.scale.At(i, j) > 0.0
    ensures d.Mean().At(i, j) < 0.0
  {
    var x, q := d.scale.At(i, j), d.freedom - d.scale.rows as real - 1.0;
    assert q < 0.0;
    assert x / q * q == x;
  }

  /** Dividing by a positive number keeps the sign of every dividend. */
  lemma QuotientSign(d: real)
    requires d > 0.0
    ensures forall x: real {:trigger x / d} :: (x / d > 0.0 <==> x > 0.0) && (x / d == 0.0 <==> x == 0.0)
  {
    forall x: real {:trigger x / d}
      ensures (x / d > 0.0 <==> x > 0.0) && (x / d == 0.0 <==> x == 0.0)
    {
      assert x / d * d == x;
    }
  }

  /** A positive number divided by a larger positive divisor gives a smaller quotient. */
  lemma QuotientDecreasing(x: real, lo: real, hi: real)
    requires x > 0.0 && 0.0 < lo < hi
    ensures 0.0 < x / hi < x / lo
  {
  }

  /** The mean for ν = 10 and the 3-by-3 identity is the identity scaled by 1/6. */
  lemma MeanOfIdentity(d: InverseWishart)
    requires d.freedom == 10.0 && d.scale == Identity(3)
    ensures d.Mean() == Identity(3).Scaled(1.0 / 6.0)
  {
  }

  /** The mode for ν = 10 and the 3-by-3 identity is the identity scaled by 1/14. */
  lemma ModeOfIdentity(d: InverseWishart)
    requires d.freedom == 10.0 && d.scale == Identity(3)
    ensures d.Mode() == Identity(3).Scaled(1.0 / 14.0)
  {
  }
}
