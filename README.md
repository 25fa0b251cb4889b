# Inverse-Wishart distribution: parameters and moments

A Dafny model of the matrix-variate inverse-Wishart distribution of Math.NET Numerics
(`InverseWishart`), parameterised by the degrees of freedom ν and the scale matrix Ψ.
The model covers:

- the parameter validator `IsValidParameterSet` (square scale matrix, strictly positive
  diagonal, ν > 0; symmetry and positive-definiteness are not checked);
- the parameter store: `SetParameters` validates and then commits ν, Ψ and the cached
  Cholesky factor together; the two constructors and the `DegreeOfFreedom` and `Scale`
  setters route through it; the constructors and the `RandomSource` setter replace a
  null generator with a new one, so the stored generator is never null;
- the moments: `Mean` and `Mode` (Ψ scaled by one reciprocal) and `Variance` (a p-by-p
  matrix filled entry by entry in a nested loop);
- the argument guards of `Density` (x must be p-by-p) and of the static `Sample` (an
  invalid pair is rejected when checking is on).

Files:

- `Matrices.dfy` (module `Matrices`): dense real matrices as values (rows of entries),
  with element access, multiplication by a scalar, a zero matrix and an element update.
  This is the slice of the linear-algebra library the distribution calls.
- `InverseWishart.dfy` (module `Distributions`): the error kinds, the `InverseWishart`
  class and the lemmas about the moments.

Modelling choices:

- The process-wide switch `Control.CheckDistributionParameters` is an explicit
  `checking: bool` argument of every operation that reads it.
- A thrown `ArgumentOutOfRangeException` is a `Fail`/`Failure` value carrying
  `InvalidDistributionParameters` or `ArgumentMatrixDimensions`.
- A C# constructor that throws is a static factory (`Create`, `CreateWithRandom`)
  returning a `Result`. As in the source, each one stores the generator, then calls
  `SetParameters`, whose failure becomes the factory's failure.
- The Cholesky factor is the abstract value `Chol(Ψ)`, and the class invariant `Valid()`
  says the cache equals `Chol(scale)`.
- The numerical density and the Wishart draw are functions passed in by the caller
  (`evaluate`, `draw`).
- Degrees of freedom and matrix entries are `real`; the moments carry explicit
  nonzero-divisor preconditions.
- For ν < p + 1 the divisor ν - p - 1 at src/Numerics/Distributions/InverseWishart.cs:168
  is a finite negative number, so the mean is finite and has the opposite sign of Ψ
  (`MeanNegativeBelowThreshold`). It is non-finite only at ν = p + 1.

## Model

| member | source | states |
|---|---|---|
| `Distributions.InverseWishart.IsValidParameterSet` | src/Numerics/Distributions/InverseWishart.cs:99-115 | false for a non-square matrix; true exactly when the matrix is square, every diagonal entry is > 0 and ν > 0, so one non-positive diagonal entry makes it false |
| `Distributions.InverseWishart.SetParameters` | src/Numerics/Distributions/InverseWishart.cs:123-133 | succeeds iff checking is off or the pair is valid; on failure ν, Ψ and the cache are unchanged; on success ν and Ψ are the new values and the cache is `Chol(Ψ)`; the generator is outside its frame |
| `Distributions.InverseWishart.Create` | src/Numerics/Distributions/InverseWishart.cs:66-70 | fails with the invalid-parameters error iff checking is on and the pair is invalid; otherwise a new valid instance with the given ν and Ψ and a new generator |
| `Distributions.InverseWishart.CreateWithRandom` | src/Numerics/Distributions/InverseWishart.cs:78-82 | as `Create`, but the stored generator is the given one, or a new one when null is given |
| `Distributions.InverseWishart.SetDegreeOfFreedom` | src/Numerics/Distributions/InverseWishart.cs:138-142 | re-validates the new ν with the current Ψ; Ψ never changes; ν changes exactly on success; a failure carries the invalid-parameters error |
| `Distributions.InverseWishart.SetScale` | src/Numerics/Distributions/InverseWishart.cs:147-151 | re-validates the new Ψ with the current ν; ν never changes; Ψ and the cache change exactly on success; a failure carries the invalid-parameters error |
| `Distributions.InverseWishart.SetRandomSource` | src/Numerics/Distributions/InverseWishart.cs:156-160 | stores the given generator, or a new one in place of null; parameters are outside its frame |
| `Distributions.InverseWishart.Mean` | src/Numerics/Distributions/InverseWishart.cs:166-169 | same shape as Ψ, entry (i, j) equal to Ψij / (ν - p - 1) |
| `Distributions.InverseWishart.Mode` | src/Numerics/Distributions/InverseWishart.cs:176-179 | same shape as Ψ, entry (i, j) equal to Ψij / (ν + p + 1); for ν > 0 each entry has the sign of Ψij (the divisor is positive) |
| `Distributions.InverseWishart.Variance` | src/Numerics/Distributions/InverseWishart.cs:186-203 | a p-by-p matrix whose entry (i, j) is ((ν-p+1) Ψij² + (ν-p-1) Ψii Ψjj) / ((ν-p)(ν-p-1)²(ν-p-3)) |
| `Distributions.InverseWishart.Density` | src/Numerics/Distributions/InverseWishart.cs:211-218 | fails with the dimension error iff x is not p-by-p (p the row count of Ψ); otherwise the numerical evaluation of the stored ν and Ψ, the factor `Chol(Ψ)` and x |
| `Distributions.InverseWishart.SampleFrom` | src/Numerics/Distributions/InverseWishart.cs:256-265 | fails iff checking is on and the pair is invalid, before anything is drawn; otherwise the draw for the given generator, ν and Ψ |
| `Distributions.InverseWishart.Sample` | src/Numerics/Distributions/InverseWishart.cs:243-246 | the static form on the stored generator, ν and Ψ, re-validated under the current checking setting; fails with the invalid-parameters error iff checking is on and the stored pair is invalid |
| `Distributions.VarianceEntrySymmetric` | src/Numerics/Distributions/InverseWishart.cs:195-197 | for a symmetric Ψ the variance formula gives the same value at (i, j) and (j, i) |
| `Distributions.VarianceSymmetric` | src/Numerics/Distributions/InverseWishart.cs:190-201 | a matrix holding the variance formula at every entry, as `Variance` returns, is symmetric when Ψ is |
| `Distributions.VarianceDiagonal` | src/Numerics/Distributions/InverseWishart.cs:195-197 | on the diagonal the formula reduces to 2 Ψii² / ((ν-p-1)²(ν-p-3)) |
| `Distributions.VariancePositive` | src/Numerics/Distributions/InverseWishart.cs:195-197 | for a valid pair with ν > p + 3 the denominator and every variance entry are strictly positive |
| `Distributions.ModeBelowMean` | src/Numerics/Distributions/InverseWishart.cs:166-179 | for ν > p + 1, on every positive entry of Ψ the mode lies strictly between 0 and the mean |
| `Distributions.MeanNegativeBelowThreshold` | src/Numerics/Distributions/InverseWishart.cs:168 | for ν < p + 1 the mean is finite and negative on every positive entry of Ψ |
| `Distributions.MeanOfIdentity` | src/Numerics/Distributions/InverseWishart.cs:166-169 | ν = 10 and the 3-by-3 identity give the identity scaled by 1/6 |
| `Distributions.ModeOfIdentity` | src/Numerics/Distributions/InverseWishart.cs:176-179 | ν = 10 and the 3-by-3 identity give the identity scaled by 1/14 |

## Left out

- The numerical body of `Density` (Cholesky factorisation of x, determinant, `Solve`, `Trace`, `Math.Pow`, `Math.Exp`, the multivariate gamma function through `SpecialFunctions.Gamma`). It is floating-point work in libraries that are not part of this model. It is the caller-supplied `evaluate`.
- `Wishart.Sample`, `Matrix.Inverse` and the generator's state in `Sample`. These are random draws and calls into code that is not part of this model. The draw is the caller-supplied `draw`, and the advance of the generator is not modelled.
- The Cholesky factorisation itself (`Cholesky<double>.Create`) is the abstract value `Chol(Ψ)`. Its failure is not modelled. It fails on a matrix that is not positive-definite, or on a non-square matrix when checking is off. In the source, `SetParameters` assigns `_freedom` and `_scale` before `Cholesky<double>.Create` runs, so such a failure leaves the new parameters beside a stale cached factor. In the model, `SetParameters` always commits once validation passes.
- Aliasing: the source stores a reference to the caller's scale matrix, so a later change to that matrix by the caller changes Ψ without refreshing the cache. Matrices are values here.
- IEEE-754 behaviour: infinities and NaN at the divisor zeros and the rounding of every product and quotient. The moments are over `real`.
- Distributions.InverseWishart.Mean: requires ν - p - 1 ≠ 0, because at ν = p + 1 the source returns a matrix of infinities and NaN, which `real` cannot represent.
- Distributions.InverseWishart.Mode: requires ν + p + 1 ≠ 0, for the same reason (only reachable with checking off).
- Distributions.InverseWishart.Variance: requires (ν-p)(ν-p-1)²(ν-p-3) ≠ 0, for the same reason. It also requires a square Ψ. With checking off and a non-square Ψ, the source reads diagonal entries through the unchecked `At` outside the matrix, and that is not modelled.
- The getters of `DegreeOfFreedom`, `Scale` and `RandomSource` are reads of the fields `freedom`, `scale` and `random`.
- Distributions.InverseWishart.Density: succeeds for every p-by-p x, while the source's `Cholesky<double>.Create(x)` (line 220) throws on an x that is not positive-definite; that failure belongs to the factorisation, which is not modelled.
- Distributions.InverseWishart.Density: requires the class invariant `Valid()`, which every instance keeps, so the cached factor it passes on is stated as `Chol(Ψ)`.
- Distributions.InverseWishart.Sample: `draw` is a pure function of the generator, ν and Ψ, so two successive samples from the same generator and parameters are equal in the model; in the source the generator advances between draws.
- `ToString`, which only formats a string.
- src/UnitTests/DistributionTests/Continuous/LogNormalTests.cs tests a log-normal distribution that is not part of this model.
