/** Finite sums over integer ranges.

    `Sum(lo, hi, f)` is f(lo) + ... + f(hi), and 0 when the range is empty. It is
    the meaning of the iterator chains `(lo..=hi).map(f).reduce(Add::add)
    .unwrap_or(zero)` that the band kernel uses for every inner product: the fold
    runs left to right, exactly as the recursion below unfolds, and an empty range
    yields the zero element. */
module Sums {

  function Sum(lo: int, hi: int, f: int -> real): real
    decreases hi - lo
  {
    if hi < lo then 0.0 else Sum(lo, hi - 1, f) + f(hi)
  }

  /** Sums of two terms that agree on the range are equal. */
  lemma {:induction false} SumExt(lo: int, hi: int, f: int -> real, g: int -> real)
    requires forall j :: lo <= j <= hi ==> f(j) == g(j)
    ensures Sum(lo, hi, f) == Sum(lo, hi, g)
    decreases hi - lo
  {
    if lo <= hi {
      SumExt(lo, hi - 1, f, g);
    }
  }

  /** A sum of zero terms is zero. */
  lemma {:induction false} SumZero(lo: int, hi: int, f: int -> real)
    requires forall j :: lo <= j <= hi ==> f(j) == 0.0
    ensures Sum(lo, hi, f) == 0.0
    decreases hi - lo
  {
    if lo <= hi {
      SumZero(lo, hi - 1, f);
    }
  }

  /** A range can be cut anywhere between its ends. */
  lemma {:induction false} SumSplit(lo: int, mid: int, hi: int, f: int -> real)
    requires lo - 1 <= mid <= hi
    ensures Sum(lo, hi, f) == Sum(lo, mid, f) + Sum(mid + 1, hi, f)
    decreases hi - mid
  {
    if mid < hi {
      SumSplit(lo, mid, hi - 1, f);
    }
  }

  /** The first term can be taken off the front of a non-empty range. */
  lemma {:induction false} SumFirst(lo: int, hi: int, f: int -> real)
    requires lo <= hi
    ensures Sum(lo, hi, f) == f(lo) + Sum(lo + 1, hi, f)
  {
    SumSplit(lo, lo, hi, f);
  }

  /** When every term but the one at p vanishes, the sum is that term. */
  lemma {:induction false} SumSingle(lo: int, p: int, hi: int, f: int -> real)
    requires lo <= p <= hi
    requires forall j :: lo <= j <= hi && j != p ==> f(j) == 0.0
    ensures Sum(lo, hi, f) == f(p)
  {
    SumSplit(lo, p - 1, hi, f);
    SumZero(lo, p - 1, f);
    SumFirst(p, hi, f);
    SumZero(p + 1, hi, f);
  }

  /** A sum whose terms agree with g before h and vanish after h is the sum of
      g before h plus the term at h. */
  lemma {:induction false} SumPeel(lo: int, h: int, hi: int, f: int -> real, g: int -> real)
    requires lo <= h <= hi
    requires forall j :: lo <= j < h ==> f(j) == g(j)
    requires forall j :: h < j <= hi ==> f(j) == 0.0
    ensures Sum(lo, hi, f) == Sum(lo, h - 1, g) + f(h)
  {
    SumSplit(lo, h, hi, f);
    SumZero(h + 1, hi, f);
    SumExt(lo, h - 1, f, g);
  }

  /** Leading terms of g that sum to zero can be dropped: Σ_{mid..hi} f equals
      Σ_{lo..hi} g when f agrees with g from mid on. */
  lemma {:induction false} SumDropPrefix(lo: int, mid: int, hi: int, f: int -> real, g: int -> real)
    requires lo <= mid <= hi + 1
    requires forall j :: mid <= j <= hi ==> f(j) == g(j)
    requires Sum(lo, mid - 1, g) == 0.0
    ensures Sum(mid, hi, f) == Sum(lo, hi, g)
  {
    SumExt(mid, hi, f, g);
    SumSplit(lo, mid - 1, hi, g);
  }

  /** A sum over first..n whose terms vanish before lo and after h, and agree
      with g from lo to h − 1, is the sum of g over lo..h − 1 plus the term at h. */
  lemma {:induction false} SumPrefixWindow(first: int, lo: int, h: int, n: int, f: int -> real, g: int -> real)
    requires first <= lo <= h <= n
    requires forall i :: first <= i < lo ==> f(i) == 0.0
    requires forall i :: lo <= i < h ==> g(i) == f(i)
    requires forall i :: h < i ==> f(i) == 0.0
    ensures Sum(first, n, f) == Sum(lo, h - 1, g) + f(h)
  {
    SumPeel(first, h, n, f, f);
    SumZero(first, lo - 1, f);
    SumDropPrefix(first, lo, h - 1, g, f);
  }

  /** A sum over first..n whose terms vanish before h and after hi, and agree
      with g from h + 1 to hi, is the term at h plus the sum of g over h + 1..hi. */
  lemma {:induction false} SumSuffixWindow(first: int, h: int, hi: int, n: int, f: int -> real, g: int -> real)
    requires first <= h <= n && hi <= n
    requires forall i :: i < h ==> f(i) == 0.0
    requires forall i :: h < i ==> g(i) == f(i)
    requires forall i :: hi < i ==> f(i) == 0.0
    ensures Sum(first, n, f) == f(h) + Sum(h + 1, hi, g)
  {
    SumSplit(first, h - 1, n, f);
    SumZero(first, h - 1, f);
    SumFirst(h, n, f);
    if hi < h + 1 {
      SumZero(h + 1, n, f);
    } else {
      SumSplit(h + 1, hi, n, f);
      SumZero(hi + 1, n, f);
      SumExt(h + 1, hi, f, g);
    }
  }

  /** Sums are linear: a term that is c·f + d·g sums to c·Σf + d·Σg. */
  lemma {:induction false} SumLinear(lo: int, hi: int, f: int -> real, g: int -> real, h: int -> real, c: real, d: real)
    requires forall j :: lo <= j <= hi ==> h(j) == c * f(j) + d * g(j)
    ensures Sum(lo, hi, h) == c * Sum(lo, hi, f) + d * Sum(lo, hi, g)
    decreases hi - lo
  {
    if lo <= hi {
      SumLinear(lo, hi - 1, f, g, h, c, d);
    }
  }

  /** The sum of a difference is the difference of the sums. */
  lemma {:induction false} SumDiff(lo: int, hi: int, f: int -> real, g: int -> real, h: int -> real)
    requires forall j :: lo <= j <= hi ==> h(j) == f(j) - g(j)
    ensures Sum(lo, hi, h) == Sum(lo, hi, f) - Sum(lo, hi, g)
  {
    SumLinear(lo, hi, f, g, h, 1.0, -1.0);
  }

  /** A constant factor comes out of a sum. */
  lemma {:induction false} SumScale(lo: int, hi: int, f: int -> real, h: int -> real, c: real)
    requires forall j :: lo <= j <= hi ==> h(j) == c * f(j)
    ensures Sum(lo, hi, h) == c * Sum(lo, hi, f)
  {
    SumLinear(lo, hi, f, f, h, c, 0.0);
  }

  /** Row i of a two-index term, as a one-index term. */
  function Row(g: (int, int) -> real, i: int): int -> real
  {
    j => g(i, j)
  }

  /** Column j of a two-index term, as a one-index term. */
  function Col(g: (int, int) -> real, j: int): int -> real
  {
    i => g(i, j)
  }

  /** i ↦ Σ_{j=c..d} g(i, j). */
  function RowSums(g: (int, int) -> real, c: int, d: int): int -> real
  {
    i => Sum(c, d, Row(g, i))
  }

  /** j ↦ Σ_{i=a..b} g(i, j). */
  function ColSums(g: (int, int) -> real, a: int, b: int): int -> real
  {
    j => Sum(a, b, Col(g, j))
  }

  /** The order of a double sum over a rectangle does not matter. */
  lemma {:induction false} SumSwap(a: int, b: int, c: int, d: int, g: (int, int) -> real)
    ensures Sum(a, b, RowSums(g, c, d)) == Sum(c, d, ColSums(g, a, b))
    decreases b - a
  {
    if b < a {
      SumZero(c, d, ColSums(g, a, b));
    } else {
      SumSwap(a, b - 1, c, d, g);
      // Σ_j Σ_{i≤b} g = Σ_j (Σ_{i<b} g) + Σ_j g(b, j)
      forall j | c <= j <= d
        ensures ColSums(g, a, b)(j) == 1.0 * ColSums(g, a, b - 1)(j) + 1.0 * Row(g, b)(j)
      {
      }
      SumLinear(c, d, ColSums(g, a, b - 1), Row(g, b), ColSums(g, a, b), 1.0, 1.0);
    }
  }

  /** k ↦ f(k)·g(k). */
  function Times(f: int -> real, g: int -> real): int -> real
  {
    k => f(k) * g(k)
  }

  /** A sum split around one of its terms. */
  lemma {:induction false} SumAround(lo: int, p: int, hi: int, f: int -> real)
    requires lo <= p <= hi
    ensures Sum(lo, hi, f) == Sum(lo, p - 1, f) + f(p) + Sum(p + 1, hi, f)
  {
    SumSplit(lo, p - 1, hi, f);
    SumFirst(p, hi, f);
  }

  /** A sum split around one of its terms, whose value is c. */
  lemma {:induction false} SumAroundTerm(lo: int, p: int, hi: int, f: int -> real, c: real)
    requires lo <= p <= hi && f(p) == c
    ensures Sum(lo, hi, f) == (Sum(lo, p - 1, f) + Sum(p + 1, hi, f)) + c
  {
    SumAround(lo, p, hi, f);
  }

  /** A product term with a known left factor u is any term equal to u·g(k). */
  lemma {:induction false} TimesLeft(f: int -> real, g: int -> real, h: int -> real, k: int, u: real)
    requires f(k) == u && h(k) == u * g(k)
    ensures h(k) == Times(f, g)(k)
  {
  }

  /** A product term with a known right factor v is any term equal to f(k)·v. */
  lemma {:induction false} TimesRight(f: int -> real, g: int -> real, h: int -> real, k: int, v: real)
    requires g(k) == v && h(k) == f(k) * v
    ensures Times(f, g)(k) == h(k)
  {
  }

  /** j ↦ Σ_{q=lo..hi} l(q)·M(q, j): the row vector l times the matrix M. */
  function VecMat(l: int -> real, M: (int, int) -> real, lo: int, hi: int): int -> real
  {
    j => Sum(lo, hi, Times(l, Col(M, j)))
  }

  /** q ↦ Σ_{j=lo..hi} M(q, j)·x(j): the matrix M times the column vector x. */
  function MatVec(M: (int, int) -> real, x: int -> real, lo: int, hi: int): int -> real
  {
    q => Sum(lo, hi, Times(Row(M, q), x))
  }

  /** l(q)·(M(q, j)·x(j)) over the grid of q and j. */
  function Triple(l: int -> real, M: (int, int) -> real, x: int -> real): (int, int) -> real
  {
    (q, j) => l(q) * (M(q, j) * x(j))
  }

  /** Multiplication is associative: (l·M)·x = l·(M·x). */
  lemma {:induction false} VecMatVec(lo: int, hi: int, l: int -> real, M: (int, int) -> real, x: int -> real)
    ensures Sum(lo, hi, Times(VecMat(l, M, lo, hi), x)) == Sum(lo, hi, Times(l, MatVec(M, x, lo, hi)))
  {
    var g := Triple(l, M, x);
    SumSwap(lo, hi, lo, hi, g);
    TripleRows(lo, hi, l, M, x);
    SumExt(lo, hi, RowSums(g, lo, hi), Times(l, MatVec(M, x, lo, hi)));
    TripleColumns(lo, hi, l, M, x);
    SumExt(lo, hi, ColSums(g, lo, hi), Times(VecMat(l, M, lo, hi), x));
  }

  lemma {:induction false} TripleRows(lo: int, hi: int, l: int -> real, M: (int, int) -> real, x: int -> real)
    ensures forall q :: lo <= q <= hi ==> RowSums(Triple(l, M, x), lo, hi)(q) == Times(l, MatVec(M, x, lo, hi))(q)
  {
    forall q | lo <= q <= hi
      ensures RowSums(Triple(l, M, x), lo, hi)(q) == Times(l, MatVec(M, x, lo, hi))(q)
    {
      TripleRow(lo, hi, l, M, x, q);
    }
  }

  lemma {:induction false} TripleRow(lo: int, hi: int, l: int -> real, M: (int, int) -> real, x: int -> real, q: int)
    ensures RowSums(Triple(l, M, x), lo, hi)(q) == Times(l, MatVec(M, x, lo, hi))(q)
  {
    SumScale(lo, hi, Times(Row(M, q), x), Row(Triple(l, M, x), q), l(q));
  }

  lemma {:induction false} TripleColumns(lo: int, hi: int, l: int -> real, M: (int, int) -> real, x: int -> real)
    ensures forall j :: lo <= j <= hi ==> ColSums(Triple(l, M, x), lo, hi)(j) == Times(VecMat(l, M, lo, hi), x)(j)
  {
    forall j | lo <= j <= hi
      ensures ColSums(Triple(l, M, x), lo, hi)(j) == Times(VecMat(l, M, lo, hi), x)(j)
    {
      TripleColumn(lo, hi, l, M, x, j);
    }
  }

  lemma {:induction false} TripleColumn(lo: int, hi: int, l: int -> real, M: (int, int) -> real, x: int -> real, j: int)
    ensures ColSums(Triple(l, M, x), lo, hi)(j) == Times(VecMat(l, M, lo, hi), x)(j)
  {
    forall q | lo <= q <= hi
      ensures Col(Triple(l, M, x), j)(q) == x(j) * Times(l, Col(M, j))(q)
    {
      Regroup(l(q), M(q, j), x(j));
    }
    SumScale(lo, hi, Times(l, Col(M, j)), Col(Triple(l, M, x), j), x(j));
  }

  lemma {:induction false} Regroup(a: real, b: real, c: real)
    ensures a * (b * c) == c * (a * b)
  {
  }
}
