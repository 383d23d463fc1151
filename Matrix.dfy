/** `BandMatrix<E, L, U>` and `LuMatrices<E, L, U>` as objects.

    A `BandMatrix` owns its packed storage `elements`; `Value()` reads it as a
    `Band` value, so each method is specified by what it does to that value.
    `LuDecompose` overwrites the storage in place with the banded Doolittle
    factors and wraps the same object in an `LuMatrices`, whose accessors read
    l and u and whose `Solve` runs the forward and backward loops. The two
    iteration methods fill a fresh vector entry by entry and the two drivers
    repeat them until the tolerance is met or the step budget is spent. */
module Matrix {
  import opened Sums
  import opened BandStorage
  import opened Doolittle
  import opened Vectors
  import opened Substitution
  import opened Relaxation
  import opened Wrappers

  class BandMatrix {
    /** The order n and the band widths L and U (const generics). */
    const n: nat
    const below: nat
    const above: nat
    /** The boxed slice of (L + U + 1)·n slots. */
    const elements: array<real>

    ghost predicate Valid()
      reads this
    {
      elements.Length == Width(below, above) * n
    }

    /** The storage as a value. */
    function Value(): (s: Band)
      reads this, elements
      ensures s.n == n && s.below == below && s.above == above
    {
      Band(n, below, above, elements[..])
    }

    /** `BandMatrix::new(n)`: (L + U + 1)·n zero slots. */
    constructor (n: nat, below: nat, above: nat)
      ensures Valid() && Value() == Zeros(n, below, above)
      ensures fresh(elements)
    {
      this.n, this.below, this.above := n, below, above;
      elements := new real[Width(below, above) * n](_ => 0.0);
    }

    /** `self[(i, j)]`: an index 0 or above n fails one of the assertions of
        `idx`, so 1 ≤ i, j ≤ n is demanded; a cell outside the band reads the
        shared zero. */
    function Get(i: nat, j: nat): (r: real)
      reads this, elements
      requires Valid() && 1 <= i <= n && 1 <= j <= n
      ensures r == Value().At(i, j)
      ensures !InBandCell(n, below, above, i, j) ==> r == 0.0
    {
      match Idx(n, below, above, i, j)
      case InBand(p) => IdxOffset(n, below, above, i, j); elements[p]
      case _ => 0.0
    }

    /** `self[(i, j)] = v` through `index_mut`: the panics of `idx` and of a
        write outside the band are excluded, and slot `idx(i, j)` is written. */
    method Set(i: nat, j: nat, v: real)
      requires Valid() && Idx(n, below, above, i, j).InBand?
      modifies elements
      ensures Value() == old(Value()).Update(i, j, v)
    {
      IdxOffset(n, below, above, i, j);
      elements[Idx(n, below, above, i, j).offset] := v;
    }

    /** `lu_decompose`: the storage is overwritten with the banded Doolittle
        factors (u on and above the diagonal, l below it) and wrapped as
        `LuMatrices`. The matrix must admit the decomposition: the pivots it
        divides by are nonzero. */
    method LuDecompose() returns (lu: LuMatrices)
      requires Valid() && PivotsNonzero(EntriesOf(Value()), n, below)
      modifies elements
      ensures Value() == Decomposed(old(Value()))
      ensures lu.factors == this && lu.source == old(Value()) && lu.Valid()
    {
      ghost var a := Value();
      ghost var A := EntriesOf(a);
      if n <= 1 {
        SmallUnchanged(a);
        lu := new LuMatrices(this, a);
        return;
      }
      EntriesOfBandShaped(a);
      StagedStart(a);
      for k := 1 to n + 1
        invariant Staged(A, a, Value(), k, k, k + 1)
      {
        UpperRow(A, a, k);
        LowerColumn(A, a, k);
        AdvanceK(A, a, Value(), k);
      }
      StagedDone(a, Value());
      lu := new LuMatrices(this, a);
    }

    /** The loop over m = k..min(k + U, n) of `lu_decompose`: row k of u,
        from the already computed rows of u and columns of l. */
    method UpperRow(ghost A: Entries, ghost a: Band, k: nat)
      requires Valid() && a.Wf() && BandShaped(A, below, above)
      requires a.n == n && a.below == below && a.above == above
      requires 1 <= k <= n && Staged(A, a, Value(), k, k, k + 1)
      modifies elements
      ensures Staged(A, a, Value(), k, Min(k + above, n) + 1, k + 1)
    {
      for m := k to Min(k + above, n) + 1
        invariant Staged(A, a, Value(), k, m, k + 1)
      {
        var s := Value();
        var v := Get(k, m) - Sum(ClipFrom(k, m, below, above), k - 1, ProdTerm(s, k, m));
        StepU(A, a, s, k, m, v);
        Set(k, m, v);
      }
    }

    /** The loop over i = k + 1..min(k + L, n) of `lu_decompose`: column k
        of l, divided by the pivot u(k, k) just computed. */
    method LowerColumn(ghost A: Entries, ghost a: Band, k: nat)
      requires Valid() && a.Wf() && BandShaped(A, below, above)
      requires a.n == n && a.below == below && a.above == above
      requires 1 <= k <= n && PivotsNonzero(A, n, below)
      requires Staged(A, a, Value(), k, Min(k + above, n) + 1, k + 1)
      modifies elements
      ensures Staged(A, a, Value(), k, Min(k + above, n) + 1, Min(k + below, n) + 1)
    {
      for i := k + 1 to Min(k + below, n) + 1
        invariant Staged(A, a, Value(), k, Min(k + above, n) + 1, i)
      {
        var s := Value();
        var num := Get(i, k) - Sum(ClipFrom(i, k, below, above), k - 1, ProdTerm(s, i, k));
        StepL(A, a, s, k, i, num, num / s.At(k, k));
        var v := num / Get(k, k);
        Set(i, k, v);
      }
    }

    /** `jacobi_iteration`: the dimensions must agree (`assert_eq!`) and the
        diagonal must be nonzero to divide by. */
    method JacobiIteration(x: Vector, b: Vector) returns (next: Vector)
      requires Valid() && x.N() == n && b.N() == n && DiagonalNonzero(Value())
      ensures fresh(next) && fresh(next.elements)
      ensures next.Elements() == JacobiStep(Value(), x.Elements(), b.Elements())
    {
      next := new Vector.Zeros(n);
      for i := 1 to n + 1
        invariant next.N() == n
        invariant forall k :: 1 <= k < i ==> VAt(next.Elements(), k) == JacobiEntry(Value(), x.Elements(), b.Elements(), k)
      {
        next.Set(i, (b.Get(i) - OffDiagonal(Value(), i, x.Elements())) / Get(i, i));
      }
      SameEntries(next.Elements(), JacobiStep(Value(), x.Elements(), b.Elements()));
    }

    /** `gauss_seidel_iteration`: as `JacobiIteration`, but the entries before
        i come from the vector being filled. */
    method GaussSeidelIteration(x: Vector, b: Vector) returns (next: Vector)
      requires Valid() && x.N() == n && b.N() == n && DiagonalNonzero(Value())
      ensures fresh(next) && fresh(next.elements)
      ensures next.Elements() == GaussSeidelStep(Value(), x.Elements(), b.Elements())
    {
      next := new Vector.Zeros(n);
      for i := 1 to n + 1
        invariant next.N() == n
        invariant forall k :: 1 <= k < i ==> GaussSeidelSolved(Value(), x.Elements(), b.Elements(), next.Elements(), k)
      {
        var v := (b.Get(i) - Sum(1, i - 1, RowTerm(Value(), i, next.Elements()))
                           - Sum(i + 1, n, RowTerm(Value(), i, x.Elements()))) / Get(i, i);
        ghost var before := next.Elements();
        next.Set(i, v);
        GaussSeidelUpdate(Value(), x.Elements(), b.Elements(), before, i, v, next.Elements());
      }
      GaussSeidelUnique(Value(), x.Elements(), b.Elements(), next.Elements(), n);
      assert next.Elements()[..n] == next.Elements();
    }

    /** `jacobi`: up to `maxIters` Jacobi steps from x, returning the first
        iterate within ε of its predecessor, or `None`. */
    method Jacobi(x: Vector, b: Vector, epsilon: real, maxIters: nat) returns (r: Option<Vector>)
      requires Valid() && x.N() == n && b.N() == n && (maxIters == 0 || DiagonalNonzero(Value()))
      ensures (if r.Some? then Some(r.value.Elements()) else None)
              == Run(Scheme.Jacobi, Value(), x.Elements(), b.Elements(), epsilon, maxIters)
      ensures r.Some? ==> fresh(r.value) && fresh(r.value.elements)
    {
      var current := x;
      for step := 0 to maxIters
        invariant current.N() == n
        invariant Run(Scheme.Jacobi, Value(), x.Elements(), b.Elements(), epsilon, maxIters)
                  == Run(Scheme.Jacobi, Value(), current.Elements(), b.Elements(), epsilon, maxIters - step)
      {
        var next := JacobiIteration(current, b);
        if Converged(current.Elements(), next.Elements(), epsilon) {
          return Some(next);
        }
        RunStep(Scheme.Jacobi, Value(), current.Elements(), b.Elements(), epsilon, maxIters - step);
        current := next;
      }
      return None;
    }

    /** `gauss_seidel`: as `Jacobi`, with Gauss–Seidel steps. */
    method GaussSeidel(x: Vector, b: Vector, epsilon: real, maxIters: nat) returns (r: Option<Vector>)
      requires Valid() && x.N() == n && b.N() == n && (maxIters == 0 || DiagonalNonzero(Value()))
      ensures (if r.Some? then Some(r.value.Elements()) else None)
              == Run(Scheme.GaussSeidel, Value(), x.Elements(), b.Elements(), epsilon, maxIters)
      ensures r.Some? ==> fresh(r.value) && fresh(r.value.elements)
    {
      var current := x;
      for step := 0 to maxIters
        invariant current.N() == n
        invariant Run(Scheme.GaussSeidel, Value(), x.Elements(), b.Elements(), epsilon, maxIters)
                  == Run(Scheme.GaussSeidel, Value(), current.Elements(), b.Elements(), epsilon, maxIters - step)
      {
        var next := GaussSeidelIteration(current, b);
        if Converged(current.Elements(), next.Elements(), epsilon) {
          return Some(next);
        }
        RunStep(Scheme.GaussSeidel, Value(), current.Elements(), b.Elements(), epsilon, maxIters - step);
        current := next;
      }
      return None;
    }
  }

  /** `LuMatrices(factors, one)`: the decomposed matrix, with the unit
      diagonal of L implied. `source` is the matrix before the decomposition. */
  class LuMatrices {
    const factors: BandMatrix
    ghost const source: Band

    ghost predicate Valid()
      reads this, factors, factors.elements
    {
      && factors.Valid() && source.Wf()
      && PivotsNonzero(EntriesOf(source), source.n, source.below)
      && factors.Value() == Decomposed(source)
    }

    constructor (factors: BandMatrix, ghost source: Band)
      requires factors.Valid() && source.Wf()
      requires PivotsNonzero(EntriesOf(source), source.n, source.below)
      requires factors.Value() == Decomposed(source)
      ensures this.factors == factors && this.source == source && Valid()
    {
      this.factors, this.source := factors, source;
    }

    /** `self[(i, j)]` of `LuMatrices`: the storage read through the matrix
        it wraps, so u(i, j) on and above the diagonal, l(i, j) below it and 0
        outside the band. */
    function Get(i: nat, j: nat): (r: real)
      reads this, factors, factors.elements
      requires Valid() && 1 <= i <= factors.n && 1 <= j <= factors.n
      ensures r == if InBandCell(source.n, source.below, source.above, i, j)
                   then FactorCell(EntriesOf(source), i, j) else 0.0
    {
      if InBandCell(factors.n, factors.below, factors.above, i, j) then
        DecomposedAt(source, i, j); factors.Get(i, j)
      else factors.Get(i, j)
    }

    /** `l(i, j)`: 1 on the diagonal and 0 above it without touching the
        storage; below the diagonal the storage is read, which panics for an
        index outside 1..n. The value is the Doolittle factor L of the source. */
    function L(i: nat, j: nat): (r: real)
      reads this, factors, factors.elements
      requires Valid() && (i <= j || (1 <= i <= factors.n && 1 <= j <= factors.n))
      ensures i == j ==> r == 1.0
      ensures i < j ==> r == 0.0
      ensures 1 <= i <= factors.n && 1 <= j <= factors.n ==> r == RefLower(EntriesOf(source), i, j)
    {
      if i == j then 1.0
      else if i < j then 0.0
      else LowerDecomposed(source, i, j); factors.Get(i, j)
    }

    /** `u(i, j)`: 0 below the diagonal without touching the storage, else the
        storage. The value is the Doolittle factor U of the source. */
    function U(i: nat, j: nat): (r: real)
      reads this, factors, factors.elements
      requires Valid() && (i > j || (1 <= i <= factors.n && 1 <= j <= factors.n))
      ensures i > j ==> r == 0.0
      ensures 1 <= i <= factors.n && 1 <= j <= factors.n ==> r == RefUpper(EntriesOf(source), i, j)
    {
      if i > j then 0.0
      else UpperDecomposed(source, i, j); factors.Get(i, j)
    }

    /** `det`: the product of the diagonal of the storage, which is the
        product of the pivots u(k, k) of the source (1 for n = 0). */
    method Det() returns (d: real)
      requires Valid()
      ensures d == DiagProduct(Decomposed(source), source.n)
      ensures d == PivotProduct(EntriesOf(source), source.n)
      ensures source.n == 0 ==> d == 1.0
    {
      ghost var s := factors.Value();
      d := 1.0;
      for i := 1 to factors.n + 1
        invariant d == DiagProduct(s, i - 1)
      {
        var p := factors.Get(i, i);
        DiagStepValue(s, i, d, p);
        d := d * p;
      }
      DiagIsPivots(source, source.n);
    }

    /** `solve(b)`: forward substitution into y, then backward substitution
        into x. The heights must agree (`assert_eq!`), and the diagonal of U
        must be nonzero to divide by. The result solves source·x = b. */
    method Solve(b: Vector) returns (x: Vector)
      requires Valid() && b.N() == factors.n && DiagonalNonzero(factors.Value())
      ensures fresh(x) && fresh(x.elements) && x.N() == factors.n
      ensures Solution(source, x.Elements(), b.Elements())
    {
      var s := factors.Value();
      var n := factors.n;
      var y := new Vector.Zeros(n);
      x := new Vector.Zeros(n);
      for m := 1 to n + 1
        invariant y.N() == n
        invariant forall k :: 1 <= k < m ==> ForwardSolved(s, b.Elements(), y.Elements(), k)
      {
        var v := b.Get(m) - Sum(ForwardFrom(s, m), m - 1, LowerTerm(s, m, y.Elements()));
        ghost var before := y.Elements();
        y.Set(m, v);
        ForwardStep(s, b.Elements(), before, m, v, y.Elements());
      }
      ghost var ys := y.Elements();
      assert forall k :: 1 <= k <= n ==> ForwardSolved(Decomposed(source), b.Elements(), ys, k);
      var m := n;
      while m >= 1
        invariant 0 <= m <= n && x.N() == n && y.Elements() == ys
        invariant forall k :: m < k <= n ==> BackSolved(s, ys, x.Elements(), k)
        decreases m
      {
        ghost var before := x.Elements();
        assert Upper(s, m, m) == s.At(m, m) != 0.0;
        var num := y.Get(m) - Sum(m + 1, BackwardTo(s, m), UpperTerm(s, m, x.Elements()));
        assert num == VAt(ys, m) - Sum(m + 1, BackwardTo(s, m), UpperTerm(s, m, before));
        var v := num / Upper(s, m, m);
        assert v == Quotient(num, Upper(s, m, m));
        x.Set(m, v);
        BackwardStep(s, ys, before, m, v, x.Elements());
        m := m - 1;
      }
      assert forall k :: 1 <= k <= n ==> BackSolved(Decomposed(source), ys, x.Elements(), k);
      forall i | 1 <= i <= n
        ensures Sum(1, n, RowTerm(source, i, x.Elements())) == VAt(b.Elements(), i)
      {
        Solves(source, b.Elements(), ys, x.Elements(), i);
      }
    }
  }

  /** The unit test of `lu_decompose`: [[4, 3], [6, 3]] with one band on
      each side decomposes into u(1, 1) = 4, u(1, 2) = 3, l(2, 1) = 1.5 and
      u(2, 2) = −1.5, so its determinant is −6. */
  method DecomposeExample() returns (u11: real, u12: real, l21: real, u22: real, det: real)
    ensures u11 == 4.0 && u12 == 3.0 && l21 == 1.5 && u22 == -1.5 && det == -6.0
  {
    var a := new BandMatrix(2, 1, 1);
    ghost var s0 := a.Value();
    a.Set(1, 1, 4.0);
    UpdateAtAll(s0, 1, 1, 4.0);
    ghost var s1 := a.Value();
    a.Set(1, 2, 3.0);
    UpdateAtAll(s1, 1, 2, 3.0);
    ghost var s2 := a.Value();
    a.Set(2, 1, 6.0);
    UpdateAtAll(s2, 2, 1, 6.0);
    ghost var s3 := a.Value();
    a.Set(2, 2, 3.0);
    UpdateAtAll(s3, 2, 2, 3.0);
    TwoByTwoDecomposed(a.Value());
    var lu := a.LuDecompose();
    u11, u12, l21, u22 := lu.Get(1, 1), lu.Get(1, 2), lu.Get(2, 1), lu.Get(2, 2);
    det := lu.Det();
    assert DiagProduct(Decomposed(lu.source), 1) == 4.0;
  }
}
