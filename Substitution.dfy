/** The equations that the two triangular loops of `LuMatrices::solve` make
    true, and what they add up to.

    `s` is the storage after the decomposition, read through `Lower` and
    `Upper`. Step m of the forward loop stores y(m) so that `ForwardSolved`
    holds at m; step m of the backward loop stores x(m) so that `BackSolved`
    holds at m. Both use band-clipped sums. The lemmas show that each step
    keeps the equations of the earlier steps, that the equations are the full
    rows of L·y = b and U·x = y, and that together they give (L·U)·x = b; for
    the storage that `Decomposed(a)` produces, L·U is a, so a·x = b. */
module Substitution {
  import opened Sums
  import opened BandStorage
  import opened Doolittle
  import opened Vectors

  /** The term l(m, i)·y(i) of row m of L·y. */
  function LowerTerm(s: Band, m: int, y: seq<real>): int -> real
  {
    i => Lower(s, m, i) * VAt(y, i)
  }

  /** The term u(m, i)·x(i) of row m of U·x. */
  function UpperTerm(s: Band, m: int, x: seq<real>): int -> real
  {
    i => Upper(s, m, i) * VAt(x, i)
  }

  /** The term a(i, j)·x(j) of row i of a·x. */
  function RowTerm(s: Band, i: int, x: seq<real>): int -> real
  {
    j => s.At(i, j) * VAt(x, j)
  }

  /** x solves a·x = b: every row i of a times x is b(i). */
  ghost predicate Solution(a: Band, x: seq<real>, b: seq<real>)
  {
    forall i :: 1 <= i <= a.n ==> Sum(1, a.n, RowTerm(a, i, x)) == VAt(b, i)
  }

  /** Every diagonal entry of U is nonzero: the divisors of the backward loop. */
  ghost predicate DiagonalNonzero(s: Band)
  {
    forall k :: 1 <= k <= s.n ==> s.At(k, k) != 0.0
  }

  /** The first entry of the clipped forward sum of row m. */
  function ForwardFrom(s: Band, m: nat): nat
  {
    Max(1, SaturatingSub(m, s.below))
  }

  /** The last entry of the clipped backward sum of row m. */
  function BackwardTo(s: Band, m: nat): nat
  {
    Min(s.n, m + s.above)
  }

  // ---------------------------------------------------------------------
  // Forward substitution: y(m) = b(m) − Σ_{i=max(1, m−L)}^{m−1} l(m, i)·y(i)

  /** y satisfies the equation of forward step m. */
  predicate ForwardSolved(s: Band, b: seq<real>, y: seq<real>, m: nat)
  {
    VAt(y, m) + Sum(ForwardFrom(s, m), m - 1, LowerTerm(s, m, y)) == VAt(b, m)
  }

  /** Vectors that agree at i give the same term at i. */
  lemma {:induction false} LowerTermAgree(s: Band, m: int, y: seq<real>, y': seq<real>, i: int)
    requires VAt(y, i) == VAt(y', i)
    ensures LowerTerm(s, m, y)(i) == LowerTerm(s, m, y')(i)
  {
  }

  /** The equation of step k reads only the entries 1..k of y. */
  lemma {:induction false} ForwardFrame(s: Band, b: seq<real>, y: seq<real>, y': seq<real>, k: nat)
    requires forall i :: 1 <= i <= k ==> VAt(y, i) == VAt(y', i)
    ensures Sum(ForwardFrom(s, k), k - 1, LowerTerm(s, k, y)) == Sum(ForwardFrom(s, k), k - 1, LowerTerm(s, k, y'))
    ensures ForwardSolved(s, b, y, k) <==> ForwardSolved(s, b, y', k)
  {
    forall i | ForwardFrom(s, k) <= i <= k - 1
      ensures LowerTerm(s, k, y)(i) == LowerTerm(s, k, y')(i)
    {
      LowerTermAgree(s, k, y, y', i);
    }
    SumExt(ForwardFrom(s, k), k - 1, LowerTerm(s, k, y), LowerTerm(s, k, y'));
  }

  /** Step m of the forward loop: storing b(m) minus the clipped sum at m
      makes the equation of step m true and keeps those of steps 1..m − 1. */
  lemma {:induction false} ForwardStep(s: Band, b: seq<real>, y: seq<real>, m: nat, v: real, y': seq<real>)
    requires 1 <= m <= |y|
    requires forall k :: 1 <= k < m ==> ForwardSolved(s, b, y, k)
    requires v == VAt(b, m) - Sum(ForwardFrom(s, m), m - 1, LowerTerm(s, m, y))
    requires y' == y[m - 1 := v]
    ensures forall k :: 1 <= k <= m ==> ForwardSolved(s, b, y', k)
  {
    forall k | 1 <= k < m
      ensures ForwardSolved(s, b, y', k)
    {
      ForwardFrame(s, b, y, y', k);
    }
    forall i | 1 <= i <= m - 1
      ensures VAt(y, i) == VAt(y', i)
    {
    }
    ForwardFrameBelow(s, y, y', m);
  }

  /** The clipped sum of step m reads only the entries before m. */
  lemma {:induction false} ForwardFrameBelow(s: Band, y: seq<real>, y': seq<real>, m: nat)
    requires forall i :: 1 <= i <= m - 1 ==> VAt(y, i) == VAt(y', i)
    ensures Sum(ForwardFrom(s, m), m - 1, LowerTerm(s, m, y)) == Sum(ForwardFrom(s, m), m - 1, LowerTerm(s, m, y'))
  {
    forall i | ForwardFrom(s, m) <= i <= m - 1
      ensures LowerTerm(s, m, y)(i) == LowerTerm(s, m, y')(i)
    {
      LowerTermAgree(s, m, y, y', i);
    }
    SumExt(ForwardFrom(s, m), m - 1, LowerTerm(s, m, y), LowerTerm(s, m, y'));
  }

  /** Terms of row m of L·y before column m − L are zero (outside the band),
      the term at m is y(m) and the terms after m are zero. */
  lemma {:induction false} LowerTermsOutside(s: Band, m: nat, y: seq<real>)
    ensures forall i :: 1 <= i < ForwardFrom(s, m) ==> LowerTerm(s, m, y)(i) == 0.0
    ensures forall i :: m < i ==> LowerTerm(s, m, y)(i) == 0.0
    ensures LowerTerm(s, m, y)(m) == VAt(y, m)
  {
    forall i | 1 <= i < ForwardFrom(s, m)
      ensures LowerTerm(s, m, y)(i) == 0.0
    {
      AtOutOfBand(s, m, i);
    }
  }

  /** The equation of step m is row m of L·y = b. */
  lemma {:induction false} ForwardRow(s: Band, b: seq<real>, y: seq<real>, m: nat)
    requires 1 <= m <= s.n
    ensures Sum(1, s.n, LowerTerm(s, m, y)) == Sum(ForwardFrom(s, m), m - 1, LowerTerm(s, m, y)) + VAt(y, m)
  {
    LowerTermsOutside(s, m, y);
    SumPrefixWindow(1, ForwardFrom(s, m), m, s.n, LowerTerm(s, m, y), LowerTerm(s, m, y));
  }

  /** L·y = b, row by row, once every forward step has been taken. */
  lemma {:induction false} ForwardSolves(s: Band, b: seq<real>, y: seq<real>, m: nat)
    requires 1 <= m <= s.n && ForwardSolved(s, b, y, m)
    ensures Sum(1, s.n, LowerTerm(s, m, y)) == VAt(b, m)
  {
    ForwardRow(s, b, y, m);
  }

  // ---------------------------------------------------------------------
  // Backward substitution:
  // x(m) = (y(m) − Σ_{i=m+1}^{min(n, m+U)} u(m, i)·x(i)) / u(m, m)

  /** x satisfies the equation of backward step m:
      u(m, m)·x(m) + Σ_{i=m+1}^{min(n, m+U)} u(m, i)·x(i) = y(m). */
  predicate BackSolved(s: Band, y: seq<real>, x: seq<real>, m: nat)
  {
    Upper(s, m, m) * VAt(x, m) + Sum(m + 1, BackwardTo(s, m), UpperTerm(s, m, x)) == VAt(y, m)
  }

  /** Vectors that agree at i give the same term at i. */
  lemma {:induction false} UpperTermAgree(s: Band, m: int, x: seq<real>, x': seq<real>, i: int)
    requires VAt(x, i) == VAt(x', i)
    ensures UpperTerm(s, m, x)(i) == UpperTerm(s, m, x')(i)
  {
  }

  /** The clipped sum of step m reads only the entries after m. */
  lemma {:induction false} BackwardFrameAbove(s: Band, x: seq<real>, x': seq<real>, m: nat)
    requires forall i :: m + 1 <= i <= BackwardTo(s, m) ==> VAt(x, i) == VAt(x', i)
    ensures Sum(m + 1, BackwardTo(s, m), UpperTerm(s, m, x)) == Sum(m + 1, BackwardTo(s, m), UpperTerm(s, m, x'))
  {
    forall i | m + 1 <= i <= BackwardTo(s, m)
      ensures UpperTerm(s, m, x)(i) == UpperTerm(s, m, x')(i)
    {
      UpperTermAgree(s, m, x, x', i);
    }
    SumExt(m + 1, BackwardTo(s, m), UpperTerm(s, m, x), UpperTerm(s, m, x'));
  }

  /** The equation of step k reads only the entries k..n of x. */
  lemma {:induction false} BackwardFrame(s: Band, y: seq<real>, x: seq<real>, x': seq<real>, k: nat)
    requires forall i :: k <= i <= BackwardTo(s, k) ==> VAt(x, i) == VAt(x', i)
    ensures BackSolved(s, y, x, k) <==> BackSolved(s, y, x', k)
  {
    BackwardFrameAbove(s, x, x', k);
  }

  /** u·x + r = v when x = (v − r)/u and u is nonzero. */
  lemma {:induction false} SolvedStep(u: real, v: real, r: real, x: real)
    requires u != 0.0 && x == Quotient(v - r, u)
    ensures u * x + r == v
  {
  }

  /** Step m of the backward loop: storing y(m) minus the clipped sum at m,
      divided by u(m, m), makes the equation of step m true and keeps those
      of steps m + 1..n. */
  lemma {:induction false} BackwardStep(s: Band, y: seq<real>, x: seq<real>, m: nat, v: real, x': seq<real>)
    requires 1 <= m <= |x| && Upper(s, m, m) != 0.0
    requires forall k :: m < k <= |x| ==> BackSolved(s, y, x, k)
    requires v == Quotient(VAt(y, m) - Sum(m + 1, BackwardTo(s, m), UpperTerm(s, m, x)), Upper(s, m, m))
    requires x' == x[m - 1 := v]
    ensures forall k :: m <= k <= |x| ==> BackSolved(s, y, x', k)
  {
    forall k | m < k <= |x|
      ensures BackSolved(s, y, x', k)
    {
      BackwardFrame(s, y, x, x', k);
    }
    BackwardFrameAbove(s, x, x', m);
    SolvedStep(Upper(s, m, m), VAt(y, m), Sum(m + 1, BackwardTo(s, m), UpperTerm(s, m, x')), VAt(x', m));
  }

  lemma {:induction false} UpperTermAt(s: Band, m: int, x: seq<real>, i: int)
    ensures UpperTerm(s, m, x)(i) == Upper(s, m, i) * VAt(x, i)
  {
  }

  /** Terms of row m of U·x before column m are zero (below the diagonal),
      those after min(n, m + U) are zero (outside the band or the matrix). */
  lemma {:induction false} UpperTermsOutside(s: Band, m: nat, x: seq<real>)
    ensures forall i :: i < m ==> UpperTerm(s, m, x)(i) == 0.0
    ensures forall i :: BackwardTo(s, m) < i ==> UpperTerm(s, m, x)(i) == 0.0
  {
    forall i | BackwardTo(s, m) < i
      ensures UpperTerm(s, m, x)(i) == 0.0
    {
      AtOutOfBand(s, m, i);
    }
  }

  /** Row m of U·x is u(m, m)·x(m) plus the band-clipped sum after m. */
  lemma {:induction false} BackwardRow(s: Band, x: seq<real>, m: nat)
    requires 1 <= m <= s.n
    ensures Sum(1, s.n, UpperTerm(s, m, x))
            == Upper(s, m, m) * VAt(x, m) + Sum(m + 1, BackwardTo(s, m), UpperTerm(s, m, x))
  {
    UpperTermsOutside(s, m, x);
    SumSuffixWindow(1, m, BackwardTo(s, m), s.n, UpperTerm(s, m, x), UpperTerm(s, m, x));
    UpperTermAt(s, m, x, m);
  }

  /** U·x = y, row by row, once every backward step has been taken. */
  lemma {:induction false} BackwardSolves(s: Band, y: seq<real>, x: seq<real>, m: nat)
    requires 1 <= m <= s.n && BackSolved(s, y, x, m)
    ensures Sum(1, s.n, UpperTerm(s, m, x)) == VAt(y, m)
  {
    BackwardRow(s, x, m);
  }

  // ---------------------------------------------------------------------
  // L·y = b and U·x = y give (L·U)·x = b, which is a·x = b

  /** Row i of L. */
  function LowerRow(s: Band, i: int): int -> real
  {
    q => Lower(s, i, q)
  }

  /** The entries of U. */
  function UpperEntries(s: Band): (int, int) -> real
  {
    (q, j) => Upper(s, q, j)
  }

  /** (L·U)(i, j) is the row of L times the column of U. */
  lemma {:induction false} FactorSumIsVecMat(s: Band, i: int, j: int)
    ensures Sum(1, s.n, FactorTerm(s, i, j)) == VecMat(LowerRow(s, i), UpperEntries(s), 1, s.n)(j)
  {
    FactorTermsAgree(s, i, j);
    SumExt(1, s.n, FactorTerm(s, i, j), Times(LowerRow(s, i), Col(UpperEntries(s), j)));
  }

  lemma {:induction false} FactorTermsAgree(s: Band, i: int, j: int)
    ensures forall q :: FactorTerm(s, i, j)(q) == Times(LowerRow(s, i), Col(UpperEntries(s), j))(q)
  {
  }

  /** (U·x)(q) is the sum of the terms of row q of U·x. */
  lemma {:induction false} MatVecIsUpperRow(s: Band, x: seq<real>, q: int)
    ensures MatVec(UpperEntries(s), Entry(x), 1, s.n)(q) == Sum(1, s.n, UpperTerm(s, q, x))
  {
    UpperTermsAgree(s, x, q);
    SumExt(1, s.n, Times(Row(UpperEntries(s), q), Entry(x)), UpperTerm(s, q, x));
  }

  lemma {:induction false} UpperTermsAgree(s: Band, x: seq<real>, q: int)
    ensures forall j :: Times(Row(UpperEntries(s), q), Entry(x))(j) == UpperTerm(s, q, x)(j)
  {
  }

  /** Row i of a·x, term by term, is row i of (L·U)·x. */
  lemma {:induction false} RowTermsFactor(a: Band, x: seq<real>, i: nat)
    requires a.Wf() && PivotsNonzero(EntriesOf(a), a.n, a.below) && 1 <= i <= a.n
    ensures forall j :: 1 <= j <= a.n ==>
              RowTerm(a, i, x)(j) == Times(VecMat(LowerRow(Decomposed(a), i), UpperEntries(Decomposed(a)), 1, a.n), Entry(x))(j)
  {
    forall j | 1 <= j <= a.n
      ensures RowTerm(a, i, x)(j) == Times(VecMat(LowerRow(Decomposed(a), i), UpperEntries(Decomposed(a)), 1, a.n), Entry(x))(j)
    {
      EntryFactors(a, i, j);
      RowTermFactor(a, x, i, j, VecMat(LowerRow(Decomposed(a), i), UpperEntries(Decomposed(a)), 1, a.n));
    }
  }

  /** a(i, j) = (L·U)(i, j), through the generic vector-matrix product. */
  lemma {:induction false} EntryFactors(a: Band, i: nat, j: int)
    requires a.Wf() && PivotsNonzero(EntriesOf(a), a.n, a.below) && 1 <= i <= a.n && 1 <= j <= a.n
    ensures a.At(i, j) == VecMat(LowerRow(Decomposed(a), i), UpperEntries(Decomposed(a)), 1, a.n)(j)
  {
    LuRoundTrip(a, i, j);
    FactorSumIsVecMat(Decomposed(a), i, j);
  }

  /** A term a(i, j)·x(j) whose matrix entry is g(j) is the term g(j)·x(j). */
  lemma {:induction false} RowTermFactor(a: Band, x: seq<real>, i: nat, j: int, g: int -> real)
    requires a.At(i, j) == g(j)
    ensures RowTerm(a, i, x)(j) == Times(g, Entry(x))(j)
  {
    TimesLeft(g, Entry(x), RowTerm(a, i, x), j, a.At(i, j));
  }

  /** Row i of L times U·x, term by term, is row i of L·y. */
  lemma {:induction false} LowerTermsSolved(s: Band, y: seq<real>, x: seq<real>, i: int)
    requires forall m :: 1 <= m <= s.n ==> BackSolved(s, y, x, m)
    ensures forall q :: 1 <= q <= s.n ==>
              Times(LowerRow(s, i), MatVec(UpperEntries(s), Entry(x), 1, s.n))(q) == LowerTerm(s, i, y)(q)
  {
    forall q | 1 <= q <= s.n
      ensures Times(LowerRow(s, i), MatVec(UpperEntries(s), Entry(x), 1, s.n))(q) == LowerTerm(s, i, y)(q)
    {
      UpperRowSolved(s, y, x, q);
      LowerTermSolved(s, y, x, i, q);
    }
  }

  lemma {:induction false} LowerTermSolved(s: Band, y: seq<real>, x: seq<real>, i: int, q: int)
    requires MatVec(UpperEntries(s), Entry(x), 1, s.n)(q) == VAt(y, q)
    ensures Times(LowerRow(s, i), MatVec(UpperEntries(s), Entry(x), 1, s.n))(q) == LowerTerm(s, i, y)(q)
  {
    TimesRight(LowerRow(s, i), MatVec(UpperEntries(s), Entry(x), 1, s.n), LowerTerm(s, i, y), q, VAt(y, q));
  }

  /** U·x = y at row q, through the generic matrix-vector product. */
  lemma {:induction false} UpperRowSolved(s: Band, y: seq<real>, x: seq<real>, q: int)
    requires 1 <= q <= s.n && BackSolved(s, y, x, q)
    ensures MatVec(UpperEntries(s), Entry(x), 1, s.n)(q) == VAt(y, q)
  {
    MatVecIsUpperRow(s, x, q);
    BackwardSolves(s, y, x, q);
  }

  /** a·x = b: when y solves every forward equation and x every backward one
      for the storage that the decomposition of a produces, row i of a times
      x is b(i). */
  lemma {:induction false} Solves(a: Band, b: seq<real>, y: seq<real>, x: seq<real>, i: nat)
    requires a.Wf() && PivotsNonzero(EntriesOf(a), a.n, a.below) && 1 <= i <= a.n
    requires forall m :: 1 <= m <= a.n ==> ForwardSolved(Decomposed(a), b, y, m)
    requires forall m :: 1 <= m <= a.n ==> BackSolved(Decomposed(a), y, x, m)
    ensures Sum(1, a.n, RowTerm(a, i, x)) == VAt(b, i)
  {
    var d := Decomposed(a);
    RowTermsFactor(a, x, i);
    SumExt(1, a.n, RowTerm(a, i, x), Times(VecMat(LowerRow(d, i), UpperEntries(d), 1, a.n), Entry(x)));
    VecMatVec(1, a.n, LowerRow(d, i), UpperEntries(d), Entry(x));
    LowerTermsSolved(d, y, x, i);
    SumExt(1, a.n, Times(LowerRow(d, i), MatVec(UpperEntries(d), Entry(x), 1, a.n)), LowerTerm(d, i, y));
    ForwardSolves(d, b, y, i);
  }
}
