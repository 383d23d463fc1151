/** The two stationary iterations of `BandMatrix`, as values.

    `JacobiStep` is one call of `jacobi_iteration`: entry i of the new vector is
    (b(i) − Σ_{j≠i} a(i, j)·x(j)) / a(i, i), from the old x only.
    `GaussSeidelStep` is one call of `gauss_seidel_iteration`: entry i is
    (b(i) − Σ_{j<i} a(i, j)·next(j) − Σ_{j>i} a(i, j)·x(j)) / a(i, i), so the
    entries already computed in this sweep are used at once. `Run` is the
    driver loop of `jacobi` and `gauss_seidel`: at most `iters` steps, stopping
    with the newest vector as soon as it lies within ε of the one before it.

    The lemmas: a vector is a fixed point of either step exactly when it solves
    a·x = b; `Run` yields `None` exactly when no step before the limit meets
    the tolerance, and otherwise the vector of the first step that does; and a
    start at the solution converges in one step. */
module Relaxation {
  import opened Sums
  import opened BandStorage
  import opened Vectors
  import opened Substitution
  import opened Wrappers

  /** Σ_{j≠i} a(i, j)·x(j): the filtered sum of `jacobi_iteration`, which
      skips j = i, as the parts before and after the diagonal. */
  function OffDiagonal(a: Band, i: int, x: seq<real>): real
  {
    Sum(1, i - 1, RowTerm(a, i, x)) + Sum(i + 1, a.n, RowTerm(a, i, x))
  }

  /** (v − s) / d is x exactly when the total s + d·x is v. */
  lemma {:induction false} QuotientFixed(v: real, s: real, d: real, x: real, total: real)
    requires d != 0.0 && total == s + d * x
    ensures (v - s) / d == x <==> total == v
  {
    if (v - s) / d == x {
      assert d * ((v - s) / d) == v - s;
    }
  }

  /** For a sum whose term i is d·x: dividing v minus the other terms by d
      gives x exactly when the whole sum is v. Written for any term function
      so that both update rules can use it. */
  lemma {:induction false} QuotientOfSplit(f: int -> real, n: int, i: int, v: real, d: real, x: real)
    requires 1 <= i <= n && d != 0.0 && f(i) == d * x
    ensures (v - (Sum(1, i - 1, f) + Sum(i + 1, n, f))) / d == x <==> Sum(1, n, f) == v
    ensures (v - Sum(1, i - 1, f) - Sum(i + 1, n, f)) / d == x <==> Sum(1, n, f) == v
  {
    SumAroundTerm(1, i, n, f, d * x);
    QuotientFixed(v, Sum(1, i - 1, f) + Sum(i + 1, n, f), d, x, Sum(1, n, f));
  }

  // ---------------------------------------------------------------------
  // Jacobi

  /** Entry i of one Jacobi step. */
  function JacobiEntry(a: Band, x: seq<real>, b: seq<real>, i: int): real
    requires a.At(i, i) != 0.0
  {
    (VAt(b, i) - OffDiagonal(a, i, x)) / a.At(i, i)
  }

  /** One Jacobi step: the vector `jacobi_iteration(x, b)` returns. */
  function JacobiStep(a: Band, x: seq<real>, b: seq<real>): (r: seq<real>)
    requires DiagonalNonzero(a)
    ensures |r| == a.n
    ensures forall i :: 1 <= i <= a.n ==> VAt(r, i) == JacobiEntry(a, x, b, i)
  {
    seq(a.n, k requires 0 <= k < a.n && DiagonalNonzero(a) => JacobiEntry(a, x, b, k + 1))
  }

  /** Entry i is a fixed point of the Jacobi update exactly when row i of
      a·x = b holds. */
  lemma {:induction false} JacobiRow(a: Band, x: seq<real>, b: seq<real>, i: int)
    requires 1 <= i <= a.n && a.At(i, i) != 0.0
    ensures JacobiEntry(a, x, b, i) == VAt(x, i) <==> Sum(1, a.n, RowTerm(a, i, x)) == VAt(b, i)
  {
    QuotientOfSplit(RowTerm(a, i, x), a.n, i, VAt(b, i), a.At(i, i), VAt(x, i));
  }

  /** x is a fixed point of the Jacobi step exactly when it solves a·x = b. */
  lemma {:induction false} JacobiFixedPoint(a: Band, x: seq<real>, b: seq<real>)
    requires DiagonalNonzero(a) && |x| == a.n
    ensures JacobiStep(a, x, b) == x <==> Solution(a, x, b)
  {
    forall i | 1 <= i <= a.n
      ensures JacobiEntry(a, x, b, i) == VAt(x, i) <==> Sum(1, a.n, RowTerm(a, i, x)) == VAt(b, i)
    {
      JacobiRow(a, x, b, i);
    }
    SameEntries(JacobiStep(a, x, b), x);
  }

  // ---------------------------------------------------------------------
  // Gauss–Seidel

  /** Entry i of one Gauss–Seidel step, given the new entries `next` before
      i and the old entries x after it. */
  function GaussSeidelEntry(a: Band, x: seq<real>, b: seq<real>, next: seq<real>, i: int): real
    requires a.At(i, i) != 0.0
  {
    (VAt(b, i) - Sum(1, i - 1, RowTerm(a, i, next)) - Sum(i + 1, a.n, RowTerm(a, i, x))) / a.At(i, i)
  }

  /** The first m entries of one Gauss–Seidel sweep. */
  function GaussSeidelPrefix(a: Band, x: seq<real>, b: seq<real>, m: nat): (r: seq<real>)
    requires DiagonalNonzero(a) && m <= a.n
    ensures |r| == m
  {
    if m == 0 then []
    else
      var p := GaussSeidelPrefix(a, x, b, m - 1);
      p + [GaussSeidelEntry(a, x, b, p, m)]
  }

  /** One Gauss–Seidel step: the vector `gauss_seidel_iteration(x, b)` returns. */
  function GaussSeidelStep(a: Band, x: seq<real>, b: seq<real>): (r: seq<real>)
    requires DiagonalNonzero(a)
    ensures |r| == a.n
  {
    GaussSeidelPrefix(a, x, b, a.n)
  }

  /** Entry i of `next` is the Gauss–Seidel update computed from `next` itself. */
  predicate GaussSeidelSolved(a: Band, x: seq<real>, b: seq<real>, next: seq<real>, i: int)
  {
    a.At(i, i) != 0.0 && VAt(next, i) == GaussSeidelEntry(a, x, b, next, i)
  }

  /** Row i of a·u reads only the entries of u up to h when summed up to h. */
  lemma {:induction false} RowTermsUpTo(a: Band, i: int, u: seq<real>, v: seq<real>, h: int)
    requires forall j :: 1 <= j <= h ==> VAt(u, j) == VAt(v, j)
    ensures Sum(1, h, RowTerm(a, i, u)) == Sum(1, h, RowTerm(a, i, v))
  {
    forall j | 1 <= j <= h
      ensures RowTerm(a, i, u)(j) == RowTerm(a, i, v)(j)
    {
      assert VAt(u, j) == VAt(v, j);
    }
    SumExt(1, h, RowTerm(a, i, u), RowTerm(a, i, v));
  }

  /** Whether entry i satisfies its update depends only on entries 1..i. */
  lemma {:induction false} GaussSeidelFrame(a: Band, x: seq<real>, b: seq<real>, u: seq<real>, v: seq<real>, i: int)
    requires forall j :: 1 <= j <= i ==> VAt(u, j) == VAt(v, j)
    ensures GaussSeidelSolved(a, x, b, u, i) <==> GaussSeidelSolved(a, x, b, v, i)
  {
    RowTermsUpTo(a, i, u, v, i - 1);
  }

  /** Storing the update at entry m keeps the entries before m solved and
      solves entry m. */
  lemma {:induction false} GaussSeidelUpdate(a: Band, x: seq<real>, b: seq<real>, next: seq<real>, m: int, v: real, next': seq<real>)
    requires 1 <= m <= |next| && a.At(m, m) != 0.0
    requires forall k :: 1 <= k < m ==> GaussSeidelSolved(a, x, b, next, k)
    requires v == GaussSeidelEntry(a, x, b, next, m) && next' == next[m - 1 := v]
    ensures forall k :: 1 <= k <= m ==> GaussSeidelSolved(a, x, b, next', k)
  {
    forall k | 1 <= k <= m
      ensures GaussSeidelSolved(a, x, b, next', k)
    {
      if k < m {
        GaussSeidelFrame(a, x, b, next, next', k);
      } else {
        RowTermsUpTo(a, m, next, next', m - 1);
      }
    }
  }

  /** A vector whose entries 1..m all satisfy their update starts with the
      first m entries of the sweep: the update determines each entry from the
      ones before it. */
  lemma {:induction false} GaussSeidelUnique(a: Band, x: seq<real>, b: seq<real>, u: seq<real>, m: nat)
    requires DiagonalNonzero(a) && m <= a.n && m <= |u|
    requires forall k :: 1 <= k <= m ==> GaussSeidelSolved(a, x, b, u, k)
    ensures u[..m] == GaussSeidelPrefix(a, x, b, m)
  {
    if m > 0 {
      GaussSeidelUnique(a, x, b, u, m - 1);
      var p := GaussSeidelPrefix(a, x, b, m - 1);
      RowTermsUpTo(a, m, u, p, m - 1);
      assert GaussSeidelSolved(a, x, b, u, m);
      assert VAt(u, m) == GaussSeidelEntry(a, x, b, p, m);
      assert u[..m] == u[..m - 1] + [u[m - 1]];
    }
  }

  /** The sweep's own entries satisfy their updates. */
  lemma {:induction false} GaussSeidelPrefixSolved(a: Band, x: seq<real>, b: seq<real>, m: nat)
    requires DiagonalNonzero(a) && m <= a.n
    ensures forall k :: 1 <= k <= m ==> GaussSeidelSolved(a, x, b, GaussSeidelPrefix(a, x, b, m), k)
  {
    if m > 0 {
      var p, q := GaussSeidelPrefix(a, x, b, m - 1), GaussSeidelPrefix(a, x, b, m);
      GaussSeidelPrefixSolved(a, x, b, m - 1);
      forall k | 1 <= k <= m
        ensures GaussSeidelSolved(a, x, b, q, k)
      {
        if k < m {
          GaussSeidelFrame(a, x, b, p, q, k);
        } else {
          RowTermsUpTo(a, m, p, q, m - 1);
        }
      }
    }
  }

  /** Entry i is a fixed point of the Gauss–Seidel update, computed from x
      itself, exactly when row i of a·x = b holds. */
  lemma {:induction false} GaussSeidelRow(a: Band, x: seq<real>, b: seq<real>, i: int)
    requires 1 <= i <= a.n && a.At(i, i) != 0.0
    ensures GaussSeidelSolved(a, x, b, x, i) <==> Sum(1, a.n, RowTerm(a, i, x)) == VAt(b, i)
  {
    QuotientOfSplit(RowTerm(a, i, x), a.n, i, VAt(b, i), a.At(i, i), VAt(x, i));
  }

  /** x is a fixed point of the Gauss–Seidel step exactly when it solves
      a·x = b. */
  lemma {:induction false} GaussSeidelFixedPoint(a: Band, x: seq<real>, b: seq<real>)
    requires DiagonalNonzero(a) && |x| == a.n
    ensures GaussSeidelStep(a, x, b) == x <==> Solution(a, x, b)
  {
    forall i | 1 <= i <= a.n
      ensures GaussSeidelSolved(a, x, b, x, i) <==> Sum(1, a.n, RowTerm(a, i, x)) == VAt(b, i)
    {
      GaussSeidelRow(a, x, b, i);
    }
    if Solution(a, x, b) {
      GaussSeidelUnique(a, x, b, x, a.n);
      assert x[..a.n] == x;
    }
    if GaussSeidelStep(a, x, b) == x {
      GaussSeidelPrefixSolved(a, x, b, a.n);
    }
  }

  /** For a 1×1 system both steps give b(1) / a(1, 1), whatever x is. */
  lemma {:induction false} SingleEquation(a: Band, x: seq<real>, b: seq<real>)
    requires a.n == 1 && DiagonalNonzero(a)
    ensures JacobiStep(a, x, b) == [VAt(b, 1) / a.At(1, 1)]
    ensures GaussSeidelStep(a, x, b) == [VAt(b, 1) / a.At(1, 1)]
  {
    assert GaussSeidelPrefix(a, x, b, 0) == [];
  }

  // ---------------------------------------------------------------------
  // The driver loop

  datatype Scheme = Jacobi | GaussSeidel

  /** One step of the chosen scheme. */
  function Step(scheme: Scheme, a: Band, x: seq<real>, b: seq<real>): (r: seq<real>)
    requires DiagonalNonzero(a)
    ensures |r| == a.n
  {
    match scheme
    case Jacobi => JacobiStep(a, x, b)
    case GaussSeidel => GaussSeidelStep(a, x, b)
  }

  /** A fixed point of either step is exactly a solution of a·x = b. */
  lemma {:induction false} StepFixedPoint(scheme: Scheme, a: Band, x: seq<real>, b: seq<real>)
    requires DiagonalNonzero(a) && |x| == a.n
    ensures Step(scheme, a, x, b) == x <==> Solution(a, x, b)
  {
    match scheme
    case Jacobi => JacobiFixedPoint(a, x, b);
    case GaussSeidel => GaussSeidelFixedPoint(a, x, b);
  }

  /** The term (x(k) − y(k))² of ‖x − y‖². */
  function DiffSquare(x: seq<real>, y: seq<real>): int -> real
  {
    k => (VAt(x, k) - VAt(y, k)) * (VAt(x, k) - VAt(y, k))
  }

  /** ‖x − y‖², over the entries of x. */
  function SquaredDistance(x: seq<real>, y: seq<real>): real
  {
    Sum(1, |x|, DiffSquare(x, y))
  }

  /** The tolerance test: the Euclidean norm of x − y is below ε. For a
      nonnegative s, √s < ε holds exactly when ε > 0 and s < ε², so the test
      is stated on the square. */
  predicate Converged(x: seq<real>, y: seq<real>, epsilon: real)
  {
    epsilon > 0.0 && SquaredDistance(x, y) < epsilon * epsilon
  }

  /** A vector is at distance zero from itself. */
  lemma {:induction false} SquaredDistanceSelf(x: seq<real>)
    ensures SquaredDistance(x, x) == 0.0
  {
    SumZero(1, |x|, DiffSquare(x, x));
  }

  /** A vector meets any positive tolerance against itself. */
  lemma {:induction false} ConvergedSelf(x: seq<real>, epsilon: real)
    requires epsilon > 0.0
    ensures Converged(x, x, epsilon)
  {
    calc {
      SquaredDistance(x, x);
      == { SquaredDistanceSelf(x); }
      0.0;
      < epsilon * epsilon;
    }
  }

  /** The iterate after k steps from x. */
  function Iterate(scheme: Scheme, a: Band, x: seq<real>, b: seq<real>, k: nat): seq<real>
    requires DiagonalNonzero(a)
  {
    if k == 0 then x else Step(scheme, a, Iterate(scheme, a, x, b, k - 1), b)
  }

  /** The loop of `jacobi` / `gauss_seidel` from x with `iters` steps left. */
  function Run(scheme: Scheme, a: Band, x: seq<real>, b: seq<real>, epsilon: real, iters: nat): (r: Option<seq<real>>)
    requires iters == 0 || DiagonalNonzero(a)
    ensures r.Some? ==> iters >= 1 && |r.value| == a.n
    decreases iters
  {
    if iters == 0 then None
    else
      var next := Step(scheme, a, x, b);
      if Converged(x, next, epsilon) then Some(next) else Run(scheme, a, next, b, epsilon, iters - 1)
  }

  /** Step j + 1 from x meets the tolerance. */
  ghost predicate ConvergesAt(scheme: Scheme, a: Band, x: seq<real>, b: seq<real>, epsilon: real, j: nat)
    requires DiagonalNonzero(a)
  {
    Converged(Iterate(scheme, a, x, b, j), Iterate(scheme, a, x, b, j + 1), epsilon)
  }

  /** No step before step k + 1 met the tolerance. */
  ghost predicate NoneConverged(scheme: Scheme, a: Band, x: seq<real>, b: seq<real>, epsilon: real, k: nat)
    requires DiagonalNonzero(a)
  {
    forall j: nat :: j < k ==> !ConvergesAt(scheme, a, x, b, epsilon, j)
  }

  /** While the tolerance is missed, each step carries `next` into the next
      round: k rounds later the loop is where it would start from the k-th
      iterate. */
  lemma {:induction false} RunSkip(scheme: Scheme, a: Band, x: seq<real>, b: seq<real>, epsilon: real, iters: nat, k: nat)
    requires DiagonalNonzero(a) && k <= iters
    requires NoneConverged(scheme, a, x, b, epsilon, k)
    ensures Run(scheme, a, x, b, epsilon, iters) == Run(scheme, a, Iterate(scheme, a, x, b, k), b, epsilon, iters - k)
  {
    if k > 0 {
      RunSkip(scheme, a, x, b, epsilon, iters, k - 1);
      assert !ConvergesAt(scheme, a, x, b, epsilon, k - 1);
      RunStep(scheme, a, Iterate(scheme, a, x, b, k - 1), b, epsilon, iters - (k - 1));
    }
  }

  /** A round that misses the tolerance goes on from the new vector. */
  lemma {:induction false} RunStep(scheme: Scheme, a: Band, u: seq<real>, b: seq<real>, epsilon: real, iters: nat)
    requires DiagonalNonzero(a) && iters >= 1
    requires !Converged(u, Step(scheme, a, u, b), epsilon)
    ensures Run(scheme, a, u, b, epsilon, iters) == Run(scheme, a, Step(scheme, a, u, b), b, epsilon, iters - 1)
  {
  }

  /** `None` when no step within the limit meets the tolerance (in particular
      when the limit is 0). */
  lemma {:induction false} RunNone(scheme: Scheme, a: Band, x: seq<real>, b: seq<real>, epsilon: real, iters: nat)
    requires DiagonalNonzero(a) && NoneConverged(scheme, a, x, b, epsilon, iters)
    ensures Run(scheme, a, x, b, epsilon, iters) == None
  {
    RunSkip(scheme, a, x, b, epsilon, iters, iters);
  }

  /** `Some` of the iterate of the first step that meets the tolerance, when
      that step is within the limit. */
  lemma {:induction false} RunFirst(scheme: Scheme, a: Band, x: seq<real>, b: seq<real>, epsilon: real, iters: nat, k: nat)
    requires DiagonalNonzero(a) && k < iters
    requires NoneConverged(scheme, a, x, b, epsilon, k)
    requires ConvergesAt(scheme, a, x, b, epsilon, k)
    ensures Run(scheme, a, x, b, epsilon, iters) == Some(Iterate(scheme, a, x, b, k + 1))
  {
    RunSkip(scheme, a, x, b, epsilon, iters, k);
  }

  /** Started at the solution, with a positive tolerance and at least one
      step allowed, either loop returns the solution after one step. */
  lemma {:induction false} RunAtSolution(scheme: Scheme, a: Band, x: seq<real>, b: seq<real>, epsilon: real, iters: nat)
    requires DiagonalNonzero(a) && |x| == a.n && Solution(a, x, b)
    requires epsilon > 0.0 && iters >= 1
    ensures Run(scheme, a, x, b, epsilon, iters) == Some(x)
  {
    StepFixedPoint(scheme, a, x, b);
    ConvergedSelf(x, epsilon);
  }
}
