# Re-expansion coefficient bookkeeping of pb_solvers, in Dafny

This project models the index and symmetry bookkeeping of the Poisson–Boltzmann
solver's re-expansion coefficients (class `ReExpCoeffs_IJ` of `ReExpCalc.h`)
and the two small matrix helpers of `util.h`: scalar multiplication of a
matrix from either side and the inner product `lotan_inner_prod`.

- `cmplx.dfy`, module `Cmplx`: `cmplx` (`std::complex<double>`) as a pair of
  mathematical reals, so conjugation and the symmetries built on it are exact.
- `reexp_calc.dfy`, module `ReExpCalc`: the cell maps of the rotation table
  `R_[n](m, s)`, the translation table `S_[n](l, n+m)` and the
  spherical-harmonic table `Ytp`. Class `ReExpCoeffs` holds these tables as
  Dafny `array2`s (the model of `MyMatrix`). Its getters are functions, which
  cannot change state, matching `const` in the source. Its setters are methods
  that modify one table and state what else stays unchanged.
  `ReExpCoeffs.GetR`, `GetS` and `GetY` model `get_rval`, `get_sval` and
  `get_yval`. Their properties are the lemmas `GetRConjSymmetric`,
  `GetRStored`, `GetSStored` and `GetYConjSymmetric`, and the round trips
  stated by the setters `SetR`, `SetRMirrored` and `SetS`.
- `util.dfy`, module `Util`: both `operator*` templates as methods filling a
  fresh `array2` with nested loops. Each is proved to fill entry (i, j) with
  the scalar times mat(i, j). `lotan_inner_prod` (`LotanInnerProd`) and the
  corrected equation-29 sum (`Eq29InnerProd`) are methods with accumulating
  loops. Both are proved against the specification function `Dot`
  (Σ u·conj(v)) over the entries their loops visit.

Neither multiplication has a `modifies` clause, so neither changes its input
matrix. The source takes that matrix by value.

## Model

| member | source | states |
|---|---|---|
| ReExpCalc.RReadSlot | pb_solvers_code/pb_solvers_code/ReExpCalc.h:125-129 | for 0 <= n, \|m\| <= n, \|s\| <= n, get_rval reads R_[n] at a row in [0, n] and a column in [0, 2n], and conjugates exactly when m < 0 |
| ReExpCalc.RWriteSlot | pb_solvers_code/pb_solvers_code/ReExpCalc.h:134-138 | set_rval writes R_[n] at a row in [0, n] and a column in [0, 2n], and stores the conjugate exactly when m < 0 |
| ReExpCalc.SSlot | pb_solvers_code/pb_solvers_code/ReExpCalc.h:131 | the translation cell is never conjugated, and for \|m\| <= n its column n+m lies in [0, 2n] |
| ReExpCalc.YSlot | pb_solvers_code/pb_solvers_code/ReExpCalc.h:118-122 | get_yval reads row n at a non-negative column, and conjugates exactly when s < 0 |
| ReExpCalc.RLayoutBijective | pb_solvers_code/pb_solvers_code/ReExpCalc.h:74-80 | every cell (i, j) of an (n+1)×(2n+1) table belongs to exactly one index pair with m >= 0, namely (i, j-n) |
| ReExpCalc.RReadMirrored | pb_solvers_code/pb_solvers_code/ReExpCalc.h:127-128 | for 0 < m, the read of (n, -m, -s) uses the same cell as the read of (n, m, s), conjugated |
| ReExpCalc.RWriteMatchesReadIff | pb_solvers_code/pb_solvers_code/ReExpCalc.h:125-138 | set_rval and get_rval address the same cell (and conjugation) if and only if m >= 0 or s == 0 |
| ReExpCalc.RWriteIsMirrorRead | pb_solvers_code/pb_solvers_code/ReExpCalc.h:127-136 | for m < 0, set_rval(n, m, s) writes the cell that get_rval(n, -m, s) reads |
| ReExpCalc.YReadMirrored | pb_solvers_code/pb_solvers_code/ReExpCalc.h:118-122 | for s > 0, reading Y(n, -s) uses the cell of Y(n, s), conjugated |
| ReExpCalc.ReExpCoeffs.constructor | pb_solvers_code/pb_solvers_code/ReExpCalc.h:74-86 | allocates R_[n] as (n+1)×(2n+1) and S_[n] with 2n+1 columns, all fresh and distinct |
| ReExpCalc.ReExpCoeffs.SetR | pb_solvers_code/pb_solvers_code/ReExpCalc.h:134-138 | writes conj(val) if m < 0, else val, into R_[n](\|m\|, s+n) and changes no other cell of any table. Afterwards: m >= 0 gives get_rval(n, m, s) == val; m < 0 gives get_rval(n, -m, s) == conj(val); get_rval(n, m, s) == val when s == 0; for s != 0 the read is unchanged |
| ReExpCalc.ReExpCoeffs.SetRMirrored | pb_solvers_code/pb_solvers_code/ReExpCalc.h:125-129 | the corrected setter: writes the cell get_rval reads, so get_rval(n, m, s) == val and, for m ≠ 0, get_rval(n, -m, -s) == conj(val); nothing else changes |
| ReExpCalc.ReExpCoeffs.SetS | pb_solvers_code/pb_solvers_code/ReExpCalc.h:140 | writes val at S_[n](l, n+m), after which get_sval(n, l, m) == val; every other cell of every table is unchanged |
| ReExpCalc.GetRStored | pb_solvers_code/pb_solvers_code/ReExpCalc.h:128 | for m >= 0, get_rval(n, m, s) is exactly R_[n](m, s+n). This only unfolds the layout; the round trip through set_rval is stated by ReExpCoeffs.SetR |
| ReExpCalc.GetRConjSymmetric | pb_solvers_code/pb_solvers_code/ReExpCalc.h:127-128 | for 0 < m <= n, get_rval(n, -m, -s) == conj(get_rval(n, m, s)) |
| ReExpCalc.GetYConjSymmetric | pb_solvers_code/pb_solvers_code/ReExpCalc.h:118-122 | get_yval(n, s) == Ytp(n, s) for s >= 0, and get_yval(n, -s) == conj(get_yval(n, s)) for s > 0 |
| ReExpCalc.GetSStored | pb_solvers_code/pb_solvers_code/ReExpCalc.h:131 | get_sval(n, l, m) is exactly S_[n](l, n+m). This only unfolds the layout; the round trip through set_sval is stated by ReExpCoeffs.SetS |
| ReExpCalc.SetThenGetDisagree | pb_solvers_code/pb_solvers_code/ReExpCalc.h:127-136 | set_rval(1, -1, 1, 1) followed by get_rval(1, -1, 1) returns 0, not the 1 just written |
| Cmplx.ConjAdd | pb_solvers_code/pb_solvers_code/util.h:218 | conjugation distributes over the sum that ip += accumulates |
| Cmplx.ConjMulConj | pb_solvers_code/pb_solvers_code/util.h:218 | conj(a·conj(b)) == b·conj(a), one term of the inner product with its arguments swapped |
| Cmplx.MulCommutes | pb_solvers_code/pb_solvers_code/util.h:30 | the complex product commutes |
| Cmplx.NormSquared | pb_solvers_code/pb_solvers_code/util.h:218 | z·conj(z) is the real number re² + im², which is never negative |
| Util.ScaleRight | pb_solvers_code/pb_solvers_code/util.h:21-34 | `mat * rhs` is a fresh matrix with mat's row and column counts and entry (i, j) equal to rhs * mat(i, j) |
| Util.ScaleLeft | pb_solvers_code/pb_solvers_code/util.h:40-53 | `lhs * mat` is a fresh matrix with mat's row and column counts and entry (i, j) equal to lhs * mat(i, j) |
| Util.ScaleSidesAgree | pb_solvers_code/pb_solvers_code/util.h:30-49 | for complex matrices, `mat * c` and `c * mat` agree entry by entry, and each entry equals mat(i, j)·c |
| Util.DotSnoc | pb_solvers_code/pb_solvers_code/util.h:218 | appending one pair adds one term u·conj(v), so the sum can be accumulated term by term as `ip +=` does |
| Util.DotAppend | pb_solvers_code/pb_solvers_code/util.h:214-220 | the sum over a concatenation is the sum of the two sums |
| Util.DotHermitian | pb_solvers_code/pb_solvers_code/util.h:218 | Dot(vs, us) == conj(Dot(us, vs)) |
| Util.DotSelfNonNegative | pb_solvers_code/pb_solvers_code/util.h:218 | Dot(us, us) has zero imaginary part and non-negative real part |
| Util.ReadColumn | pb_solvers_code/pb_solvers_code/util.h:216-218 | the column m+p read with m = -n lies in [1, p], so p rows and p+1 columns suffice |
| Util.Diagonal | pb_solvers_code/pb_solvers_code/util.h:214-219 | the visited entries U(n, p-n), one per degree n in [0, p); none when p <= 0 |
| Util.LotanInnerProd | pb_solvers_code/pb_solvers_code/util.h:210-222 | lotan_inner_prod(U, V, p) is the sum over n in [0, p) of U(n, p-n)·conj(V(n, p-n)); it is 0 when p <= 0; for U == V it is real and non-negative |
| Util.LotanInnerProdHermitian | pb_solvers_code/pb_solvers_code/util.h:210-222 | swapping U and V conjugates the result of lotan_inner_prod |
| Util.Row | pb_solvers_code/pb_solvers_code/util.h:206-208 | row n of the equation-29 sum has the 2n+1 entries U(n, m+p), -n <= m <= n |
| Util.Packed | pb_solvers_code/pb_solvers_code/util.h:206-208 | the rows 0..k-1 of the equation-29 sum, with the entry count 1 + 3 + … + (2k-1) |
| Util.AccumulateRow | pb_solvers_code/pb_solvers_code/util.h:216-219 | the inner loop with bound m <= n adds the row's whole sum to the accumulator |
| Util.Eq29InnerProd | pb_solvers_code/pb_solvers_code/util.h:206-222 | the corrected inner product: the sum over all (n, m) with 0 <= n < p and \|m\| <= n of U(n, m+p)·conj(V(n, m+p)); 0 when p <= 0; real and non-negative for U == V |
| Util.Eq29InnerProdHermitian | pb_solvers_code/pb_solvers_code/util.h:206-208 | swapping U and V conjugates the equation-29 inner product |
| Util.InnerProdDiverges | pb_solvers_code/pb_solvers_code/util.h:206-218 | for p = 2 and U = V holding 1 at degree 1, order 0 and 0 in the other cells read, lotan_inner_prod gives 0 while equation 29 gives 1 |

## Left out

- `Point` (util.h:61-199): coordinate conversion is floating-point trigonometry.
- The coefficient computations `calc_r`, `calc_s`, `calc_a`, `calc_b`, `calc_alpha`, `calc_beta`, `calc_nu`, `calc_mu` and the constructor body: ReExpCalc.cpp is not part of this model. The tables hold whatever the setters write. Their values are not modelled.
- ReExpCalc.ReExpCoeffs.constructor: the source does not show how large `S_[n]` is. The model sizes it p×(2n+1), which is enough for get_sval/set_sval with \|m\| <= n and l < p. The constructor zero-fills the tables but does not state that in its contract.
- The comment at ReExpCalc.h:83-85 describes S_ as `S[m](n, l)`. That layout survives only in the commented-out accessor at line 130. The model follows the live code, `S_[n](l, n+m)` (lines 131 and 140).
- The commented-out `ReExpCoeffsConstants` class and the fields `kappa_`, `lambda_`, `v_` and `_besselCalc_`: they only feed the coefficient computations.
- `MyMatrix` is modelled as `array2`. Its bounds checks become preconditions: an out-of-range access is excluded by `requires` rather than modelled as a failure value, because the source of `MyMatrix` is not part of this model.
- Floating point: `cmplx` is exact over the reals. Rounding, and therefore the order of summation in `lotan_inner_prod`, is not modelled.
- C `int` overflow of index arithmetic such as `m + p` and `s + n` is not modelled. Indices are unbounded integers.
- Util.ScaleRight, Util.ScaleLeft: the element type's `*` is a parameter `mul`. The model carries no assumption about it; commutativity is proved only for `Complex`, in Util.ScaleSidesAgree.
- ASolver.h, the tests and main.cpp: declarations, value-table checks of Bessel functions and driver code.

## Findings

| source | as written | input that shows it | evidently intended | confidence | as-written member | corrected member |
|---|---|---|---|---|---|---|
| pb_solvers_code/pb_solvers_code/ReExpCalc.h:136 | for m < 0, set_rval stores conj(val) at R_[n](-m, s+n), but get_rval reads R_[n](-m, -s+n) | n = 1: set_rval(1, 1, -1, 0), then set_rval(1, -1, 1, 1); get_rval(1, -1, 1) returns 0 | the write uses column -s+n, so that get_rval(n, m, s) returns what set_rval(n, m, s, val) stored | medium; not executed | ReExpCalc.SetThenGetDisagree | ReExpCalc.ReExpCoeffs.SetRMirrored |
| pb_solvers_code/pb_solvers_code/util.h:216 | the inner loop `for (m = -n; m <= -n; m++)` adds only the term m = -n of each degree | p = 2, U = V with U(1, 2) = 1 and U(0, 2) = U(1, 1) = U(1, 3) = 0: the result is 0 | the sum of equation 29 over -n <= m <= n (loop bound m <= n), which is 1 on that input | medium; not executed | Util.InnerProdDiverges | Util.Eq29InnerProd |
