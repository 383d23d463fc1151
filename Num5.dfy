/** The problem of the NUM5 crate: the symmetric pentadiagonal matrix with 3
    on the diagonal, 1 next to it and 0.15 two away from it, and the vector
    b = (1, 2, …, n) that the iterative methods are run on. */
module Num5 {
  import opened BandStorage
  import opened Vectors
  import opened Matrix
  import opened Fill

  /** Entry (i, j) of the NUM5 matrix, by distance from the diagonal. */
  function ProblemEntry(i: int, j: int): real
  {
    if i == j then 3.0
    else if i - j == 1 || j - i == 1 then 1.0
    else if i - j == 2 || j - i == 2 then 0.15
    else 0.0
  }

  /** `gen_matrix(n)`: five loops of in-band writes (L = U = 2) into a zero
      matrix; `n - 2` needs n ≥ 2. The result is the matrix of
      `ProblemEntry`, and so symmetric. */
  method GenMatrix(n: nat) returns (res: BandMatrix)
    requires n >= 2
    ensures fresh(res) && fresh(res.elements) && res.Valid()
    ensures res.n == n && res.below == 2 && res.above == 2
    ensures forall i, j :: 1 <= i <= n && 1 <= j <= n ==> res.Value().At(i, j) == ProblemEntry(i, j)
    ensures forall i, j :: res.Value().At(i, j) == res.Value().At(j, i)
  {
    res := new BandMatrix(n, 2, 2);
    FillDiagonal(res, 0, 0, n, _ => 3.0);
    FillDiagonal(res, 0, 1, n - 1, _ => 1.0);
    FillDiagonal(res, 0, 2, n - 2, _ => 0.15);
    FillDiagonal(res, 1, 0, n - 1, _ => 1.0);
    FillDiagonal(res, 2, 0, n - 2, _ => 0.15);
    Symmetric(res.Value());
  }

  /** A stored matrix that reads as `ProblemEntry` is symmetric, out of range
      and out of band included. */
  lemma {:induction false} Symmetric(s: Band)
    requires forall i, j :: 1 <= i <= s.n && 1 <= j <= s.n ==> s.At(i, j) == ProblemEntry(i, j)
    ensures forall i, j :: s.At(i, j) == s.At(j, i)
  {
    forall i, j
      ensures s.At(i, j) == s.At(j, i)
    {
      if !(1 <= i <= s.n && 1 <= j <= s.n) {
        AtOutOfBand(s, i, j);
        AtOutOfBand(s, j, i);
      }
    }
  }

  /** `gen_b(n)`: b = (1, 2, …, n). */
  function GenB(n: nat): (b: seq<real>)
    ensures |b| == n && forall k :: 1 <= k <= n ==> VAt(b, k) == k as real
  {
    Counting(n)
  }
}
