/** The problem of the NUM3 crate: the band matrix (L = 1, U = 2) with 1.2 on
    the diagonal, 0.2 below it, 0.1/i and 0.15/i² in row i above it, and the
    vector (1, 2, …, n). */
module Num3 {
  import opened BandStorage
  import opened Vectors
  import opened Matrix
  import opened Fill

  /** Entry (i, j) of the NUM3 matrix. */
  function ProblemEntry(i: int, j: int): real
  {
    if i == j then 1.2
    else if i == j + 1 then 0.2
    else if j == i + 1 && i >= 1 then 0.1 / (i as real)
    else if j == i + 2 && i >= 1 then 0.15 / ((i * i) as real)
    else 0.0
  }

  /** `gen_matrix(n)`: four loops of in-band writes into a zero matrix;
      `n - 2` needs n ≥ 2. */
  method GenMatrix(n: nat) returns (res: BandMatrix)
    requires n >= 2
    ensures fresh(res) && fresh(res.elements) && res.Valid()
    ensures res.n == n && res.below == 1 && res.above == 2
    ensures forall i, j :: 1 <= i <= n && 1 <= j <= n ==> res.Value().At(i, j) == ProblemEntry(i, j)
  {
    res := new BandMatrix(n, 1, 2);
    ghost var s0 := res.Value();
    FillDiagonal(res, 1, 0, n - 1, _ => 0.2);
    ghost var s1 := res.Value();
    FillDiagonal(res, 0, 0, n, _ => 1.2);
    ghost var s2 := res.Value();
    FillDiagonal(res, 0, 1, n - 1, i requires i >= 1 => 0.1 / (i as real));
    ghost var s3 := res.Value();
    FillDiagonal(res, 0, 2, n - 2, i requires i >= 1 => 0.15 / ((i * i) as real));
    Layers(n, s0, s1, s2, s3, res.Value());
  }

  /** The four diagonals written one after the other over zeros give the
      NUM3 matrix. */
  lemma {:induction false} Layers(n: nat, s0: Band, s1: Band, s2: Band, s3: Band, s4: Band)
    requires n >= 2
    requires forall r, c :: s0.At(r, c) == 0.0
    requires forall r, c :: s1.At(r, c) == if OnDiagonal(r, c, 1, 0, n - 1) then 0.2 else s0.At(r, c)
    requires forall r, c :: s2.At(r, c) == if OnDiagonal(r, c, 0, 0, n) then 1.2 else s1.At(r, c)
    requires forall r, c :: s3.At(r, c) == if OnDiagonal(r, c, 0, 1, n - 1) then 0.1 / (r as real) else s2.At(r, c)
    requires forall r, c :: s4.At(r, c) == if OnDiagonal(r, c, 0, 2, n - 2) then 0.15 / ((r * r) as real) else s3.At(r, c)
    ensures forall i, j :: 1 <= i <= n && 1 <= j <= n ==> s4.At(i, j) == ProblemEntry(i, j)
  {
    forall i, j | 1 <= i <= n && 1 <= j <= n
      ensures s4.At(i, j) == ProblemEntry(i, j)
    {
      assert s1.At(i, j) == if OnDiagonal(i, j, 1, 0, n - 1) then 0.2 else 0.0;
      assert s2.At(i, j) == if OnDiagonal(i, j, 0, 0, n) then 1.2 else s1.At(i, j);
      assert s3.At(i, j) == if OnDiagonal(i, j, 0, 1, n - 1) then 0.1 / (i as real) else s2.At(i, j);
    }
  }

  /** `gen_vector(n)`: (1, 2, …, n). */
  function GenVector(n: nat): (v: seq<real>)
    ensures |v| == n && forall k :: 1 <= k <= n ==> VAt(v, k) == k as real
  {
    Counting(n)
  }
}
