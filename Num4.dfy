/** The NUM4 crate: solving (A′ + u·vᵀ)x = b with u = v = (1, …, 1) by the
    Sherman–Morrison formula over one banded LU factorisation of A′, and the
    problem it is run on (A′ with 11 on the diagonal and 7 above it, b all
    fives, and the dense A = A′ + u·vᵀ it is checked against). */
module Num4 {
  import opened Sums
  import opened BandStorage
  import opened Doolittle
  import opened Vectors
  import opened Substitution
  import opened Matrix
  import opened Fill

  /** n copies of c. */
  function Repeat(c: real, n: nat): (r: seq<real>)
    ensures |r| == n && forall k :: 1 <= k <= n ==> VAt(r, k) == c
  {
    seq(n, _ => c)
  }

  /** x solves (A′ + u·vᵀ)x = b for u = v = (1, …, 1): row i of A′ times x,
      plus vᵀx = Σx, is b(i). */
  ghost predicate RankOneSolution(a: Band, x: seq<real>, b: seq<real>)
  {
    forall i :: 1 <= i <= a.n ==> Sum(1, a.n, RowTerm(a, i, x)) + Sum(1, |x|, Entry(x)) == VAt(b, i)
  }

  // ---------------------------------------------------------------------
  // The Sherman–Morrison identity

  /** Every element of z multiplied by c. */
  function Scaled(z: seq<real>, c: real): (w: seq<real>)
    ensures |w| == |z|
  {
    seq(|z|, k requires 0 <= k < |z| => z[k] * c)
  }

  /** The vector `solve` returns: z scaled by vy, divided by 1 + vz, and
      subtracted from y, with vy = Σy and vz = Σz. */
  function Corrected(y: seq<real>, z: seq<real>): (x: seq<real>)
    requires |y| >= 1 && |z| >= 1 && 1.0 + Total(z) != 0.0
    ensures |x| == |y|
  {
    Difference(y, Divided(Scaled(z, Total(y)), 1.0 + Total(z)))
  }

  /** The division can be taken into the scalar: (z·vy) / d = z·(vy / d). */
  lemma {:induction false} DividedScaled(z: seq<real>, vy: real, d: real)
    requires d != 0.0
    ensures Divided(Scaled(z, vy), d) == Scaled(z, vy / d)
  {
    forall k | 0 <= k < |z|
      ensures Divided(Scaled(z, vy), d)[k] == Scaled(z, vy / d)[k]
    {
      assert z[k] * vy / d == z[k] * (vy / d);
    }
  }

  lemma {:induction false} Rescale(p: real, zk: real, wk: real, c: real)
    requires wk == zk * c
    ensures p * wk == c * (p * zk)
  {
  }

  lemma {:induction false} Distribute(p: real, yk: real, wk: real, xk: real)
    requires xk == yk - wk
    ensures p * xk == p * yk - p * wk
  {
  }

  /** Term by term, row i of a times c·z is c times row i of a times z. */
  lemma {:induction false} ScaledTerms(a: Band, i: int, z: seq<real>, c: real)
    ensures forall k :: 1 <= k <= a.n ==> RowTerm(a, i, Scaled(z, c))(k) == c * RowTerm(a, i, z)(k)
  {
    forall k | 1 <= k <= a.n
      ensures RowTerm(a, i, Scaled(z, c))(k) == c * RowTerm(a, i, z)(k)
    {
      ScaledTerm(a, i, k, z, c);
    }
  }

  lemma {:induction false} ScaledTerm(a: Band, i: int, k: int, z: seq<real>, c: real)
    ensures RowTerm(a, i, Scaled(z, c))(k) == c * RowTerm(a, i, z)(k)
  {
    assert VAt(Scaled(z, c), k) == VAt(z, k) * c;
    Rescale(a.At(i, k), VAt(z, k), VAt(Scaled(z, c), k), c);
  }

  /** Row i of a times c·z is c times row i of a times z. */
  lemma {:induction false} ScaledRow(a: Band, i: int, z: seq<real>, c: real)
    ensures Sum(1, a.n, RowTerm(a, i, Scaled(z, c))) == c * Sum(1, a.n, RowTerm(a, i, z))
  {
    ScaledTerms(a, i, z, c);
    SumScale(1, a.n, RowTerm(a, i, z), RowTerm(a, i, Scaled(z, c)), c);
  }

  /** Row i of a times y − w is (row i times y) − (row i times w). */
  lemma {:induction false} DifferenceRow(a: Band, i: int, y: seq<real>, w: seq<real>)
    requires |y| == |w|
    ensures Sum(1, a.n, RowTerm(a, i, Difference(y, w))) == Sum(1, a.n, RowTerm(a, i, y)) - Sum(1, a.n, RowTerm(a, i, w))
  {
    forall k | 1 <= k <= a.n
      ensures RowTerm(a, i, Difference(y, w))(k) == RowTerm(a, i, y)(k) - RowTerm(a, i, w)(k)
    {
      assert VAt(Difference(y, w), k) == VAt(y, k) - VAt(w, k);
      Distribute(a.At(i, k), VAt(y, k), VAt(w, k), VAt(Difference(y, w), k));
    }
    SumDiff(1, a.n, RowTerm(a, i, y), RowTerm(a, i, w), RowTerm(a, i, Difference(y, w)));
  }

  /** Σ(c·z) = c·Σz. */
  lemma {:induction false} ScaledTotal(z: seq<real>, c: real)
    ensures Sum(1, |z|, Entry(Scaled(z, c))) == c * Sum(1, |z|, Entry(z))
  {
    forall k | 1 <= k <= |z|
      ensures Entry(Scaled(z, c))(k) == c * Entry(z)(k)
    {
    }
    SumScale(1, |z|, Entry(z), Entry(Scaled(z, c)), c);
  }

  /** Σ(y − w) = Σy − Σw. */
  lemma {:induction false} DifferenceTotal(y: seq<real>, w: seq<real>)
    requires |y| == |w|
    ensures Sum(1, |y|, Entry(Difference(y, w))) == Sum(1, |y|, Entry(y)) - Sum(1, |y|, Entry(w))
  {
    forall k | 1 <= k <= |y|
      ensures Entry(Difference(y, w))(k) == Entry(y)(k) - Entry(w)(k)
    {
    }
    SumDiff(1, |y|, Entry(y), Entry(w), Entry(Difference(y, w)));
  }

  /** (b − c) + (vy − c·vz) = b when c = vy / (1 + vz). */
  lemma {:induction false} Cancel(bi: real, vy: real, vz: real, c: real)
    requires 1.0 + vz != 0.0 && c == vy / (1.0 + vz)
    ensures (bi - c * 1.0) + (vy - c * vz) == bi
  {
    assert c * (1.0 + vz) == vy;
  }

  /** With A′y = b and A′z = u, x = y − z·(Σy)/(1 + Σz) solves
      (A′ + u·vᵀ)x = b whenever 1 + Σz ≠ 0. */
  lemma {:induction false} ShermanMorrison(a: Band, b: seq<real>, y: seq<real>, z: seq<real>)
    requires |y| == a.n && |z| == a.n && a.n >= 1
    requires Solution(a, y, b) && Solution(a, z, Repeat(1.0, a.n))
    requires 1.0 + Total(z) != 0.0
    ensures RankOneSolution(a, Corrected(y, z), b)
  {
    var n, vy, vz := a.n, Total(y), Total(z);
    var c := vy / (1.0 + vz);
    var w := Scaled(z, c);
    var x := Difference(y, w);
    DividedScaled(z, vy, 1.0 + vz);
    assert x == Corrected(y, z);
    DifferenceTotal(y, w);
    ScaledTotal(z, c);
    assert Sum(1, |x|, Entry(x)) == vy - c * vz;
    forall i | 1 <= i <= n
      ensures Sum(1, n, RowTerm(a, i, x)) + Sum(1, |x|, Entry(x)) == VAt(b, i)
    {
      DifferenceRow(a, i, y, w);
      ScaledRow(a, i, z, c);
      assert Sum(1, n, RowTerm(a, i, z)) == 1.0;
      Cancel(VAt(b, i), vy, vz, c);
    }
  }

  /** The last step of `solve`: a fresh vector of z scaled by vy is divided
      by 1 + vz in place and subtracted from y in place, with vy = Σy and
      vz = Σz (n ≥ 1 for the two sums to exist, 1 + vz ≠ 0 for the
      division). `y` is consumed: the result is its storage. */
  method Correct(y: Vector, z: Vector) returns (x: Vector)
    requires y.N() == z.N() >= 1 && y.elements != z.elements
    requires 1.0 + Total(z.Elements()) != 0.0
    modifies y.elements
    ensures x.elements == y.elements
    ensures x.Elements() == Corrected(old(y.Elements()), z.Elements())
  {
    var ys, zs := y.Elements(), z.Elements();
    var vy := Total(ys);
    var vz := Total(zs);
    var w := new Vector.FromSeq(Scaled(zs, vy));
    w.DivideBy(1.0 + vz);
    y.Subtract(w);
    x := y;
  }

  /** `solve(a_prime, b)`: the heights must agree (`assert_eq!`), n ≥ 1 so
      that the two sums Σy and Σz exist, A′ must admit the
      decomposition and have a nonzero diagonal in U, and 1 + Σz must be
      nonzero for every z with A′z = u (A′ + u·vᵀ is nonsingular). A′ is
      consumed by the decomposition. The result is y − z·(Σy)/(1 + Σz) for
      the solutions y of A′y = b and z of A′z = u, so it solves
      (A′ + u·vᵀ)x = b. */
  method Solve(aPrime: BandMatrix, b: Vector) returns (x: Vector)
    requires aPrime.Valid() && b.N() == aPrime.n && aPrime.n >= 1
    requires b.elements != aPrime.elements
    requires PivotsNonzero(EntriesOf(aPrime.Value()), aPrime.n, aPrime.below)
    requires DiagonalNonzero(Decomposed(aPrime.Value()))
    requires forall z :: (|z| == aPrime.n && Solution(aPrime.Value(), z, Repeat(1.0, aPrime.n)))
                           ==> 1.0 + Sum(1, |z|, Entry(z)) != 0.0
    modifies aPrime.elements
    ensures fresh(x.elements) && x.N() == aPrime.n
    ensures exists y, z :: |y| == |z| == aPrime.n && 1.0 + Total(z) != 0.0
              && Solution(old(aPrime.Value()), y, b.Elements())
              && Solution(old(aPrime.Value()), z, Repeat(1.0, aPrime.n))
              && x.Elements() == Corrected(y, z)
    ensures RankOneSolution(old(aPrime.Value()), x.Elements(), b.Elements())
  {
    ghost var a := aPrime.Value();
    var lu := aPrime.LuDecompose();
    var y := lu.Solve(b);
    var ones := new Vector.FromSeq(Repeat(1.0, b.N()));
    var z := lu.Solve(ones);
    ghost var ys, zs := y.Elements(), z.Elements();
    assert 1.0 + Total(zs) != 0.0;
    x := Correct(y, z);
    ShermanMorrison(a, b.Elements(), ys, zs);
  }

  // ---------------------------------------------------------------------
  // The problem

  /** Entry (i, j) of A′: 12 − 1 on the diagonal, 8 − 1 just above it. */
  function PrimeEntry(i: int, j: int): real
  {
    if i == j then 12.0 - 1.0 else if j == i + 1 then 8.0 - 1.0 else 0.0
  }

  /** `gen_matrix(n)`: A′ with no band below and one above; `n - 1` needs
      n ≥ 1. Every write is in the band. */
  method GenMatrix(n: nat) returns (res: BandMatrix)
    requires n >= 1
    ensures fresh(res) && fresh(res.elements) && res.Valid()
    ensures res.n == n && res.below == 0 && res.above == 1
    ensures forall i, j :: 1 <= i <= n && 1 <= j <= n ==> res.Value().At(i, j) == PrimeEntry(i, j)
  {
    res := new BandMatrix(n, 0, 1);
    FillDiagonal(res, 0, 0, n, _ => 12.0 - 1.0);
    FillDiagonal(res, 0, 1, n - 1, _ => 8.0 - 1.0);
  }

  /** `gen_u(n)`: u = (1, …, 1). */
  function GenU(n: nat): (u: seq<real>)
    ensures |u| == n && forall k :: 1 <= k <= n ==> VAt(u, k) == 1.0
  {
    Repeat(1.0, n)
  }

  /** `gen_b(n)`: b = (5, …, 5). */
  function GenB(n: nat): (b: seq<real>)
    ensures |b| == n && forall k :: 1 <= k <= n ==> VAt(b, k) == 5.0
  {
    Repeat(5.0, n)
  }

  /** The dense A of `gen_matrix_nalgebra`, 0-based rows of n entries: all
      ones, then 12 on the diagonal and 8 just above it. */
  function DenseMatrix(n: nat): (m: seq<seq<real>>)
    ensures |m| == n && forall r :: 0 <= r < n ==> |m[r]| == n
  {
    seq(n, r => seq(n, c => if c == r then 12.0 else if c == r + 1 then 8.0 else 1.0))
  }

  /** A = A′ + u·vᵀ: each dense entry is the matching 1-based entry of A′
      plus 1. */
  lemma {:induction false} DenseIsRankOneUpdate(n: nat, r: nat, c: nat)
    requires r < n && c < n
    ensures DenseMatrix(n)[r][c] == PrimeEntry(r + 1, c + 1) + VAt(GenU(n), r + 1) * VAt(GenU(n), c + 1)
  {
  }
}
