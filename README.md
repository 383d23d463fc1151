# Banded linear algebra of the `mn` numerical-methods crates

This project models the banded linear-algebra kernel shared by the Rust
crates NUM3, NUM4 and NUM5 of the `mn` repository, and proves properties of it.

- **Band matrix.** `BandMatrix<E, L, U>` stores an n×n matrix with L
  diagonals below the main one and U above it in a flat array of
  (L + U + 1)·n slots, read and written with 1-based `(i, j)` indices.
- **LU decomposition.** The matrix is overwritten in place by the banded
  Doolittle LU decomposition.
- **Solve and determinant.** The resulting `LuMatrices` solve a linear system
  by forward and backward substitution and give the determinant.
- **Iterative methods.** The matrix also runs the Jacobi and Gauss–Seidel
  iterations, alone or in a loop bounded by `max_iters` with a tolerance test.
- **Sherman–Morrison.** The NUM4 crate solves (A′ + u·vᵀ)x = b with
  u = v = (1, …, 1) by the Sherman–Morrison formula over one LU factorisation.
- **Problem generators.** The three crates build their test matrices and
  right-hand sides by in-band writes.
- **Superscript.** NUM5's driver formats exponents as superscript digits.

Elements are Dafny `real`. The code is generic over `num_traits::Num`, and
its doc comments already assume the exact-arithmetic identities x + 0 = x and
x·0 = 0. A panic of the source becomes a precondition: an index 0 or above n,
a write outside the band, mismatched dimensions, and the `unwrap` of an empty
reduction. A zero divisor becomes a precondition as well; with `f64` it would
give inf or NaN.

Layout (one module per file):

- `Arith`, `Sums`, `Wrappers`: integer division facts, the finite sum
  `Sum(lo, hi, f)`, and `Option`.
  - `Sum(lo, hi, f)` is f(lo) + … + f(hi), and 0 for an empty range: the sums of the source, which add up a range of terms and fall back to zero.
- `BandStorage`: the offset arithmetic of `idx`, and the storage as a value
  (`Band`).
- `Doolittle`:
  - the textbook Doolittle recurrences, with unclipped sums;
  - the storage that the in-place elimination leaves (`Decomposed`);
  - the stage invariant of the elimination loops;
  - the round trip L·U = A.
- `Substitution`: the forward and backward equations and their per-step
  lemmas; `Solves` shows that the two substitutions together solve a·x = b.
- `Relaxation`: the Jacobi and Gauss–Seidel steps, their fixed points, and the
  bounded convergence loop, all as functions.
- `Vectors`: the 1-based `Vector` class, with its in-place `Div` and `Sub`.
- `Matrix`: the `BandMatrix` and `LuMatrices` classes, with the imperative
  methods proved against the functions above.
- `Fill`: the diagonal-filling loop that every generator is made of.
- `Num4`, `Num5`, `Num3`: the crate-specific solve and generators.
- `Superscript`: `superscript(n)`.

## Model

| member | source | states |
|---|---|---|
| BandStorage.Idx | NUM5/src/matrix.rs:34-75 | For 1 ≤ i, j ≤ n, the cell (i, j) is out of band exactly when j − i > U or i − j > L; otherwise it is in band. An index 0 or above n is out of range, which is the panic of the four range assertions. |
| BandStorage.IdxOffset | NUM5/src/matrix.rs:68-74 | The offset of an in-band cell lies in [(L+U+1)(i−1), (L+U+1)(i−1)+L+U], so it is inside the (L+U+1)·n array. |
| BandStorage.IdxInjective | NUM5/src/matrix.rs:68-74 | Two in-band cells with the same offset are the same cell. |
| BandStorage.IdxCellOf | NUM5/src/matrix.rs:68-74 | Every slot of the array that belongs to an in-band cell is the offset of that cell, so `CellOf` inverts `idx` on the band. |
| BandStorage.AtOutOfBand | NUM5/src/matrix.rs:402-412 | Reading a cell outside the band, or out of range in the total value model, gives the shared zero. |
| BandStorage.UpdateAt | NUM5/src/matrix.rs:414-422 | After a write to an in-band cell, that cell reads the new value and every other cell reads its old value. |
| BandStorage.Band.At | NUM5/src/matrix.rs:402-412 | The read of `Index` on the storage value: any cell that is not an in-band cell of the n×n matrix reads 0; an in-band cell reads its slot (`UpdateAt` and `Zeros` state what the slots hold). |
| BandStorage.Band.Update | NUM5/src/matrix.rs:414-422 | The write of `IndexMut` on the storage value, for an in-band cell only: the result keeps the size, n, L and U. `UpdateAt` proves that only that cell changes. |
| BandStorage.Zeros | NUM5/src/matrix.rs:78-86 | The storage of `new(n)` has (L+U+1)·n slots, and every cell of it reads zero. |
| Matrix.BandMatrix.constructor | NUM5/src/matrix.rs:78-86 | `new(n)` allocates fresh storage that holds the all-zero matrix. |
| Matrix.BandMatrix.Get | NUM5/src/matrix.rs:402-412 | A read demands 1 ≤ i, j ≤ n (otherwise `idx` panics). It gives the stored value of the cell, and 0 outside the band. |
| Matrix.BandMatrix.Set | NUM5/src/matrix.rs:414-422 | A write demands an in-band cell (otherwise it panics). The new matrix is the old one updated at that one cell. |
| Matrix.BandMatrix.LuDecompose | NUM5/src/matrix.rs:194-223 | Given nonzero pivots, the storage afterwards is `Decomposed` of the old matrix, and the returned `LuMatrices` wraps it. Every write is proved to be in band, so the out-of-band panic is never reached. The n ≤ 1 early return leaves the storage unchanged. |
| Matrix.BandMatrix.UpperRow | NUM5/src/matrix.rs:203-209 | The loop over m computes row k of U from the band-clipped sum. It advances the stage invariant to the end of the row. |
| Matrix.BandMatrix.LowerColumn | NUM5/src/matrix.rs:212-219 | The loop over i computes column k of L: a band-clipped sum divided by the pivot. It advances the stage invariant to the end of the column. |
| Doolittle.StagedDone | NUM5/src/matrix.rs:194-223 | When all n stages are done, the storage is exactly `Decomposed` of the input. |
| Doolittle.SmallUnchanged | NUM5/src/matrix.rs:195-197 | For n ≤ 1 the decomposition leaves the matrix unchanged. |
| Doolittle.ClippedAway | NUM5/src/matrix.rs:189-223 | For a band-shaped matrix, the terms that the band-clipped sums drop add up to zero. |
| Doolittle.ClippedDot | NUM5/src/matrix.rs:189-223 | The band-clipped Doolittle sum equals the unclipped sum from 1 to k − 1. |
| Doolittle.RefUZero | NUM5/src/matrix.rs:189-223 | The Doolittle factor u(k, m) is 0 more than U diagonals above the main one. |
| Doolittle.RefLZero | NUM5/src/matrix.rs:189-223 | The Doolittle factor l(i, k) is 0 more than L diagonals below the main one. |
| Doolittle.LuRoundTrip | NUM5/src/matrix.rs:189-245 | Given nonzero pivots, Σⱼ l(i, j)·u(j, m) over the decomposed storage is the original a(i, m), for every 1 ≤ i, m ≤ n. |
| Doolittle.TwoByTwoDecomposed | NUM5/src/matrix.rs:442-457 | [[4, 3], [6, 3]] with L = U = 1 has nonzero pivots and decomposes into 4, 3, 1.5 and −1.5. |
| Doolittle.DiagIsPivots | NUM5/src/matrix.rs:249-257 | The product of the first k diagonal slots of the decomposed storage is the product of the first k Doolittle pivots u(j, j). |
| Matrix.DecomposeExample | NUM5/src/matrix.rs:442-457 | The unit test written out through `new`, four writes, `lu_decompose`, the index reads and `det`: the results are 4, 3, 1.5 and −1.5, and the determinant is −6. |
| Matrix.LuMatrices.Get | NUM5/src/matrix.rs:424-430 | Reading `LuMatrices` gives the Doolittle factor cell of the source matrix inside the band, and 0 outside it. |
| Matrix.LuMatrices.L | NUM5/src/matrix.rs:228-236 | l(i, i) = 1 and l(i, j) = 0 for i < j; neither reads the storage. For 1 ≤ i, j ≤ n the value is the Doolittle factor L of the source. |
| Matrix.LuMatrices.U | NUM5/src/matrix.rs:239-245 | u(i, j) = 0 for i > j. For 1 ≤ i, j ≤ n the value is the Doolittle factor U of the source. |
| Matrix.LuMatrices.Det | NUM5/src/matrix.rs:249-257 | The loop's product of the n diagonal entries equals the product of the pivots of the source. It is 1 when n = 0. |
| Matrix.LuMatrices.Solve | NUM5/src/matrix.rs:259-293 | `b.n()` must equal n (the `assert_eq!`), and the diagonal of U must be nonzero. The result is fresh, has length n, and solves source·x = b. |
| Substitution.ForwardStep | NUM5/src/matrix.rs:272-278 | One forward step keeps every equation already solved and solves equation m. |
| Substitution.ForwardSolves | NUM5/src/matrix.rs:272-278 | A solved forward equation m means Σ_{i≤m} l(m, i)·y(i) = b(m), with the unit diagonal of L. |
| Substitution.BackwardStep | NUM5/src/matrix.rs:283-290 | One backward step, with a nonzero pivot, keeps the equations below m solved and solves equation m. |
| Substitution.BackwardSolves | NUM5/src/matrix.rs:283-290 | A solved backward equation m means Σ_{i≥m} u(m, i)·x(i) = y(m). |
| Substitution.Solves | NUM5/src/matrix.rs:259-293 | If y solves every forward equation and x every backward one for the decomposed storage, then row i of the source times x is b(i). |
| Relaxation.JacobiStep | NUM5/src/matrix.rs:169-187 | The step has length n, and entry i is (b(i) − Σ_{j≠i} a(i, j)·x(j)) / a(i, i). It depends only on b and the old x. |
| Relaxation.JacobiFixedPoint | NUM5/src/matrix.rs:169-187 | x is a fixed point of the Jacobi step exactly when a·x = b (both directions). |
| Relaxation.GaussSeidelStep | NUM5/src/matrix.rs:145-166 | The Gauss–Seidel sweep has length n. Its partners: `GaussSeidelPrefixSolved` shows entry i is computed from the new entries before i and the old x after i, `GaussSeidelUnique` that no other vector is, and `GaussSeidelFixedPoint` that a fixed point is exactly a solution of a·x = b. |
| Relaxation.GaussSeidelUnique | NUM5/src/matrix.rs:145-166 | A vector whose entries 1..m each equal their update, computed from its own entries before the entry and from x after it, starts with the first m entries of the sweep. So the sweep is the only such vector. |
| Relaxation.GaussSeidelFixedPoint | NUM5/src/matrix.rs:145-166 | x is a fixed point of the Gauss–Seidel step exactly when a·x = b (both directions). |
| Relaxation.SingleEquation | NUM5/src/matrix.rs:145-187 | For n = 1 both steps give [b(1) / a(1, 1)], whatever x is. |
| Relaxation.Run | NUM5/src/matrix.rs:91-140 | The shared loop of `jacobi` and `gauss_seidel` as a reference function: a `Some` result needs at least one step and has length n. `RunNone`, `RunFirst` and `RunAtSolution` state its outcomes, and the two methods are proved equal to it. |
| Relaxation.RunNone | NUM5/src/matrix.rs:91-140 | If none of the first `max_iters` steps meets the tolerance, the loop returns `None`. This includes `max_iters` = 0. |
| Relaxation.RunFirst | NUM5/src/matrix.rs:91-140 | If step k + 1 is the first within the limit whose distance from its predecessor is below ε, the loop returns `Some` of that iterate. |
| Relaxation.RunAtSolution | NUM5/src/matrix.rs:91-140 | Started at a solution of a·x = b, with ε > 0 and at least one step allowed, either loop returns `Some(x)`. |
| Matrix.BandMatrix.JacobiIteration | NUM5/src/matrix.rs:169-187 | The dimensions must agree (the assertions). The result is a fresh vector with fresh storage, so it never aliases x, and its contents are `JacobiStep`. |
| Matrix.BandMatrix.GaussSeidelIteration | NUM5/src/matrix.rs:145-166 | The dimensions must agree. The result is a fresh vector with fresh storage, so it never aliases x, and its contents are `GaussSeidelStep`. |
| Matrix.BandMatrix.Jacobi | NUM5/src/matrix.rs:117-140 | The bounded loop returns `None` or `Some`, exactly as the reference `Run` with the Jacobi step does for `max_iters` steps. A `Some` result is a fresh vector. |
| Matrix.BandMatrix.GaussSeidel | NUM5/src/matrix.rs:91-114 | The bounded loop returns `None` or `Some`, exactly as the reference `Run` with the Gauss–Seidel step does for `max_iters` steps. A `Some` result is a fresh vector. |
| Vectors.Vector.Zeros | NUM4/src/vector.rs:30-32 | `new(n)` has n elements, all zero. |
| Vectors.Vector.FromSeq | NUM4/src/vector.rs:36-40 | `from_iter` keeps the order and the count of the items. |
| Vectors.Vector.Elements | NUM4/src/vector.rs:99-115 | Iteration yields the storage in order. Its length is `n()`. |
| Vectors.Vector.Get | NUM4/src/vector.rs:75-86 | `v[k]` demands 1 ≤ k ≤ n (0 and k > n panic) and gives storage element k − 1. |
| Vectors.Vector.Set | NUM4/src/vector.rs:88-97 | A write through `index_mut(k)` changes only position k. The length stays the same. |
| Vectors.Total | NUM4/src/lib.rs:28-31 | The sum of the elements, which needs n ≥ 1 (the `unwrap`); a one-element vector sums to its element. `ScaledTotal` and `DifferenceTotal` give the sums of the derived vectors. |
| Vectors.Vector.DivideBy | NUM4/src/vector.rs:117-127 | `v / r` divides every element by r and keeps the length. |
| Vectors.Divided | NUM4/src/vector.rs:117-127 | Elementwise division keeps the length; `DividedInverse` proves each quotient times r is the original element. |
| Vectors.DividedInverse | NUM4/src/vector.rs:117-127 | Each element of the quotient, multiplied by r, gives back the original element. |
| Vectors.Vector.Subtract | NUM4/src/vector.rs:129-139 | `a - b` keeps a's length. It subtracts b's elements at the first min(a.n, b.n) positions. |
| Vectors.Difference | NUM4/src/vector.rs:129-139 | The zip-limited subtraction keeps the first operand's length; `DifferenceInverse` proves adding b back restores a on the common positions and that a is unchanged beyond them. |
| Vectors.DifferenceInverse | NUM4/src/vector.rs:129-139 | Adding b back restores a on the common positions. Beyond b's length, a is unchanged. Elements of b beyond a's length play no part. |
| Vectors.SameEntries | NUM3/src/vector.rs:61-72 | Two vectors of equal length are equal exactly when every 1-based read agrees. |
| Num4.ShermanMorrison | NUM4/src/lib.rs:11-35 | Let y solve A′y = b and z solve A′z = 1, with 1 + Σz ≠ 0. Then y − z·(Σy)/(1 + Σz) solves (A′ + 1·1ᵀ)x = b. |
| Num4.Corrected | NUM4/src/lib.rs:33-34 | The corrected vector y − z·(Σy)/(1 + Σz) has the length of y; `ShermanMorrison` proves it solves (A′ + 1·1ᵀ)x = b. |
| Num4.Correct | NUM4/src/lib.rs:28-34 | The last line of `solve`, written out. It scales z by Σy into a fresh vector, divides that by 1 + Σz, and subtracts it from y in place. The result is `Corrected(y, z)`. |
| Num4.Solve | NUM4/src/lib.rs:12-35 | The heights must agree and n ≥ 1 (the `unwrap` of the sums). The result has length n and is y − z·(Σy)/(1 + Σz) for the two LU solutions. It solves (A′ + 1·1ᵀ)x = b. |
| Num4.GenMatrix | NUM4/src/lib.rs:38-50 | For n ≥ 1 it returns a fresh band matrix with L = 0 and U = 1. Its entries are 11 on the diagonal, 7 just above it and 0 elsewhere. |
| Num4.GenU | NUM4/src/lib.rs:53-55 | n ones. |
| Num4.GenB | NUM4/src/lib.rs:58-60 | n fives. |
| Num4.DenseIsRankOneUpdate | NUM4/src/lib.rs:38-76 | Every 0-based entry of the dense A is the matching 1-based entry of A′ plus u(r)·v(c) = 1. So A = A′ + u·vᵀ. |
| Fill.FillDiagonal | NUM5/src/lib.rs:8-32 | One `for i in 1..=count` loop of in-band writes. The cells (i + dr, i + dc) take f(i), and every other cell keeps its value. |
| Num5.GenMatrix | NUM5/src/lib.rs:8-32 | For n ≥ 2 it returns fresh storage with L = U = 2. It holds 3 on the diagonal, 1 at distance 1, 0.15 at distance 2 and 0 elsewhere, and it is symmetric. |
| Num5.Symmetric | NUM5/src/lib.rs:19-29 | A stored matrix that reads as the NUM5 pattern is symmetric in every cell. |
| Num5.GenB | NUM5/src/lib.rs:35-37 | b = (1, 2, …, n). |
| Num3.GenMatrix | NUM3/src/lib.rs:9-29 | For n ≥ 2 it returns fresh storage with L = 1 and U = 2. It holds 1.2 on the diagonal, 0.2 at (i + 1, i), 0.1/i at (i, i + 1), 0.15/i² at (i, i + 2) and 0 elsewhere. |
| Num3.GenVector | NUM3/src/lib.rs:32-34 | (1, 2, …, n). |
| Superscript.Decimal | NUM5/src/main.rs:10 | The decimal spelling has one character per digit of n. `UnwrapSucceeds` proves each character converts back to that digit. |
| Superscript.ToDigit | NUM5/src/main.rs:12 | The base-10 digit conversion yields a value exactly for '0' to '9', and that value spells back to the same character. |
| Superscript.Superscript | NUM5/src/main.rs:7-15 | One output character per decimal digit of n. `SuperscriptDigits` and `SuperscriptAt` prove character k is `DIGITS` of the k-th digit, `SuperscriptZero` gives "⁰" and `SuperscriptInjective` that distinct n give distinct strings. |
| Superscript.UnwrapSucceeds | NUM5/src/main.rs:10-12 | Every character of `n.to_string()` is a decimal digit, so `to_digit(10).unwrap()` never fails. It yields the corresponding digit of n. |
| Superscript.SuperscriptDigits | NUM5/src/main.rs:7-15 | There is one output character per decimal digit of n. The k-th is `DIGITS[d]`, where d is the k-th digit. |
| Superscript.DigitCount | NUM5/src/main.rs:10 | With L digits, n < 10^L, and 10^(L−1) ≤ n for n ≥ 1, so L is the decimal length of n. |
| Superscript.DigitAt | NUM5/src/main.rs:10 | The k-th digit of n, from the left, is ⌊n / 10^(L−1−k)⌋ mod 10. |
| Superscript.SuperscriptAt | NUM5/src/main.rs:7-15 | The length of `superscript(n)` is the decimal length of n. Character k is `DIGITS[⌊n / 10^(L−1−k)⌋ mod 10]`. |
| Superscript.SuperscriptZero | NUM5/src/main.rs:7-15 | `superscript(0)` is "⁰". |
| Superscript.DigitsRoundTrip | NUM5/src/main.rs:10 | Reading the decimal digits back as a number gives n. |
| Superscript.SuperscriptInjective | NUM5/src/main.rs:7-15 | Distinct numbers have distinct superscripts. |

## Left out

- Formatting: the `Debug` and `Display` implementations of the matrices and vectors print floats with a width and a precision.
- Floating point: rounding, and the inf or NaN of a zero divisor, are not modelled (elements are `real`). The divisors are therefore preconditions:
  - the Doolittle pivots;
  - the diagonal of U in `solve`;
  - the diagonal of the matrix in the Jacobi and Gauss–Seidel steps;
  - r in `v / r`;
  - 1 + Σz in NUM4's `solve`.
- Matrix.BandMatrix.Jacobi: the test that the Euclidean norm of x − next is below ε is stated as the squared distance being below ε², with ε > 0. Over the reals this is the same test. NUM5/src/vector.rs is not part of this model.
- Matrix.BandMatrix.GaussSeidel: the same squared-distance form of the norm test.
- NUM3/src/matrix.rs and NUM4/src/matrix.rs are not part of this model. The NUM5 `BandMatrix` stands for all three matrix modules, and its unclipped reference recurrences stand for NUM3's `lu_decompose_slow`.
- One `Vector` class stands for the two `vector.rs` files. The NUM3 file has the same `n`, `new`, `from_iter` and 1-based indexing as NUM4's, without `Div` and `Sub`.
- Rust ownership (a vector moved into `-` or `/`, and the matrix consumed by `lu_decompose`) is modelled by fresh arrays and by requiring distinct arrays. Aliasing that the borrow checker rules out is excluded the same way.
- The `IndexMut` of `LuMatrices` (NUM5/src/matrix.rs:432-436) is not modelled. Nothing in the core writes through it.
- The underflow of `n - 1` and `n - 2` in `usize`, a panic in debug builds, is modelled as the requirement n ≥ 1 or n ≥ 2 of the generators.
- nalgebra: `LU::new`, `determinant` and the nalgebra generators are foreign library calls. Only the dense matrix of `gen_matrix_nalgebra` is modelled, as a sequence of rows, for the rank-one identity.
- The drivers and plotting (`main` functions, `plotters` output, `rand` starting points, `pico_args`), the criterion benchmarks and the Python scripts are I/O or outside the Rust kernel.
