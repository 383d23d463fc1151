/** Doolittle LU decomposition of a band matrix, as values.

    `RefU`/`RefL` are the textbook Doolittle recurrences with unclipped sums
    from 1 to k − 1, over the entries `A` of any matrix; `Decomposed(a)` is the storage that the in-place
    banded elimination leaves behind; `Lower`/`Upper` read that storage as the
    two factors (`LuMatrices::l` and `LuMatrices::u`). The lemmas show that the
    band-clipped sums of the in-place algorithm equal the unclipped ones, that
    each step of the algorithm advances a stage invariant whose end state is
    `Decomposed(a)`, and that Lower·Upper gives the original matrix back. */
module Doolittle {
  import opened Sums
  import opened BandStorage

  /** The entries of a matrix, indexed from 1. */
  type Entries = (int, int) -> real

  /** The entries of a stored band matrix. */
  function EntriesOf(a: Band): Entries
  {
    (i, j) => a.At(i, j)
  }

  /** Every entry outside the band is zero. */
  ghost predicate BandShaped(A: Entries, below: nat, above: nat)
  {
    forall i, j :: j > i + above || i > j + below ==> A(i, j) == 0.0
  }

  lemma {:induction false} EntriesOfBandShaped(a: Band)
    ensures BandShaped(EntriesOf(a), a.below, a.above)
  {
  }

  // ---------------------------------------------------------------------
  // Reference recurrences (unclipped)

  /** u(k, m) = a(k, m) − Σ_{j=1}^{k−1} l(k, j)·u(j, m). */
  function RefU(A: Entries, k: nat, m: nat): real
    decreases k, 1
  {
    if k == 0 then 0.0 else A(k, m) - RefDot(A, k, m, k - 1)
  }

  /** l(i, k) = (a(i, k) − Σ_{j=1}^{k−1} l(i, j)·u(j, k)) / u(k, k). Only
      consulted under nonzero pivots; a zero pivot yields 0 here instead of the
      division by zero. */
  function RefL(A: Entries, i: nat, k: nat): real
    decreases k, 2
  {
    if k == 0 then 0.0
    else
      var p := RefU(A, k, k);
      if p == 0.0 then 0.0 else Quotient(A(i, k) - RefDot(A, i, k, k - 1), p)
  }

  /** x / p, the one division of the elimination. */
  function Quotient(x: real, p: real): real
    requires p != 0.0
  {
    x / p
  }

  /** Σ_{j=1}^{h} l(i, j)·u(j, m). */
  function RefDot(A: Entries, i: nat, m: nat, h: nat): real
    decreases h, 3
  {
    if h == 0 then 0.0 else RefDot(A, i, m, h - 1) + RefL(A, i, h) * RefU(A, h, m)
  }

  /** The term l(i, j)·u(j, m) of the reference sums. */
  function RefTerm(A: Entries, i: nat, m: nat): int -> real
  {
    j => if j <= 0 then 0.0 else RefL(A, i, j) * RefU(A, j, m)
  }

  lemma {:induction false} RefDotIsSum(A: Entries, i: nat, m: nat, h: nat)
    ensures RefDot(A, i, m, h) == Sum(1, h, RefTerm(A, i, m))
  {
    if h > 0 {
      RefDotIsSum(A, i, m, h - 1);
    }
  }

  /** The matrix "admits LU decomposition" as the algorithm needs it: every
      pivot it divides by is nonzero. It divides by u(k, k) for k < n, and only
      when there is a sub-diagonal at all. */
  ghost predicate PivotsNonzero(A: Entries, n: nat, below: nat)
  {
    below == 0 || forall k :: 1 <= k < n ==> RefU(A, k, k) != 0.0
  }

  // ---------------------------------------------------------------------
  // The factors keep the band

  /** u(k, m) vanishes above the band. */
  lemma {:induction false} RefUZero(A: Entries, below: nat, above: nat, k: nat, m: nat)
    requires BandShaped(A, below, above) && m > k + above
    ensures RefU(A, k, m) == 0.0
    decreases k, 1
  {
    if k > 0 {
      RefDotZeroU(A, below, above, k, m, k - 1);
    }
  }

  lemma {:induction false} RefDotZeroU(A: Entries, below: nat, above: nat, i: nat, m: nat, h: nat)
    requires BandShaped(A, below, above) && m > h + above
    ensures RefDot(A, i, m, h) == 0.0
    decreases h, 2
  {
    if h > 0 {
      RefUZero(A, below, above, h, m);
      RefDotZeroU(A, below, above, i, m, h - 1);
    }
  }

  /** l(i, k) vanishes below the band. */
  lemma {:induction false} RefLZero(A: Entries, below: nat, above: nat, i: nat, k: nat)
    requires BandShaped(A, below, above) && i > k + below
    ensures RefL(A, i, k) == 0.0
    decreases k, 1
  {
    if k > 0 {
      RefDotZeroL(A, below, above, i, k, k - 1);
    }
  }

  lemma {:induction false} RefDotZeroL(A: Entries, below: nat, above: nat, i: nat, m: nat, h: nat)
    requires BandShaped(A, below, above) && i > h + below
    ensures RefDot(A, i, m, h) == 0.0
    decreases h, 2
  {
    if h > 0 {
      RefLZero(A, below, above, i, h);
      RefDotZeroL(A, below, above, i, m, h - 1);
    }
  }

  // ---------------------------------------------------------------------
  // The storage after decomposition

  /** The factor stored in cell (i, j): u on and above the diagonal, l below. */
  function FactorCell(A: Entries, i: nat, j: nat): real
  {
    if i <= j then RefU(A, i, j) else RefL(A, i, j)
  }

  /** Whether slot p belongs to a cell of the matrix (the first and last rows
      have slots that do not). */
  predicate UsedSlot(a: Band, p: nat)
  {
    1 <= CellOf(a.below, a.above, p).1 <= a.n
  }

  function SlotValue(a: Band, p: nat): real
    requires p < |a.cells|
  {
    var c := CellOf(a.below, a.above, p);
    if UsedSlot(a, p) && c.0 >= 1 then FactorCell(EntriesOf(a), c.0, c.1) else a.cells[p]
  }

  /** The storage that the in-place banded elimination produces. */
  function Decomposed(a: Band): (d: Band)
    requires a.Wf()
    ensures d.Wf() && d.n == a.n && d.below == a.below && d.above == a.above
  {
    Band(a.n, a.below, a.above, seq(|a.cells|, p requires 0 <= p < |a.cells| => SlotValue(a, p)))
  }

  /** Each in-band cell of `Decomposed(a)` holds its factor. */
  lemma {:induction false} DecomposedAt(a: Band, i: nat, j: nat)
    requires a.Wf()
    requires InBandCell(a.n, a.below, a.above, i, j)
    ensures Decomposed(a).At(i, j) == FactorCell(EntriesOf(a), i, j)
  {
    var p := Idx(a.n, a.below, a.above, i, j).offset;
    IdxOffset(a.n, a.below, a.above, i, j);
    CellOfIdx(a.n, a.below, a.above, i, j);
    DecomposedSlot(a, i, j, p);
  }

  /** The slot of cell (i, j) in `Decomposed(a)` holds its `SlotValue`. */
  lemma {:induction false} DecomposedSlot(a: Band, i: nat, j: nat, p: nat)
    requires a.Wf() && 1 <= i && 1 <= j
    requires Idx(a.n, a.below, a.above, i, j) == InBand(p) && p < |a.cells|
    ensures Decomposed(a).At(i, j) == SlotValue(a, p)
  {
  }

  /** `l(i, j)` of the storage: 1 on the diagonal, 0 above it. */
  function Lower(s: Band, i: int, j: int): real
  {
    if i == j then 1.0 else if i < j then 0.0 else s.At(i, j)
  }

  /** `u(i, j)` of the storage: 0 below the diagonal. */
  function Upper(s: Band, i: int, j: int): real
  {
    if i > j then 0.0 else s.At(i, j)
  }

  /** The full reference factor L: unit diagonal, zero above. */
  function RefLower(A: Entries, i: nat, j: nat): real
  {
    if i == j then 1.0 else if i < j then 0.0 else RefL(A, i, j)
  }

  /** The full reference factor U: zero below the diagonal. */
  function RefUpper(A: Entries, i: nat, j: nat): real
  {
    if i > j then 0.0 else RefU(A, i, j)
  }

  /** `l` of the decomposed storage is the reference factor L. */
  lemma {:induction false} LowerDecomposed(a: Band, i: nat, j: nat)
    requires a.Wf() && 1 <= i <= a.n && 1 <= j <= a.n
    ensures Lower(Decomposed(a), i, j) == RefLower(EntriesOf(a), i, j)
  {
    if j < i {
      if InBandCell(a.n, a.below, a.above, i, j) {
        DecomposedAt(a, i, j);
      } else {
        EntriesOfBandShaped(a);
        RefLZero(EntriesOf(a), a.below, a.above, i, j);
      }
    }
  }

  /** `u` of the decomposed storage is the reference factor U. */
  lemma {:induction false} UpperDecomposed(a: Band, i: nat, j: nat)
    requires a.Wf() && 1 <= i <= a.n && 1 <= j <= a.n
    ensures Upper(Decomposed(a), i, j) == RefUpper(EntriesOf(a), i, j)
  {
    if i <= j {
      if InBandCell(a.n, a.below, a.above, i, j) {
        DecomposedAt(a, i, j);
      } else {
        EntriesOfBandShaped(a);
        RefUZero(EntriesOf(a), a.below, a.above, i, j);
      }
    }
  }

  /** The term l(i, j)·u(j, m) of the product of the two stored factors. */
  function FactorTerm(s: Band, i: int, m: int): int -> real
  {
    j => Lower(s, i, j) * Upper(s, j, m)
  }

  /** The term L(i, j)·U(j, m) of the product of the two reference factors. */
  function RefFactorTerm(A: Entries, i: nat, m: nat): int -> real
  {
    j => if j <= 0 then 0.0 else RefLower(A, i, j) * RefUpper(A, j, m)
  }

  /** Storage whose factors agree with the reference factors has the same
      product terms. */
  lemma {:induction false} FactorTermAgrees(s: Band, A: Entries, i: nat, m: nat, j: nat)
    requires j >= 1 && Lower(s, i, j) == RefLower(A, i, j) && Upper(s, j, m) == RefUpper(A, j, m)
    ensures FactorTerm(s, i, m)(j) == RefFactorTerm(A, i, m)(j)
  {
  }

  /** Row i of L times column m of U: the terms after min(i, m) vanish, the
      term at min(i, m) is u(i, m) or l(i, m)·u(m, m), and the terms before it
      are those of the reference sums. */
  lemma {:induction false} RefFactorTermPeel(A: Entries, n: nat, i: nat, m: nat)
    requires 1 <= i <= n && 1 <= m <= n
    ensures Sum(1, n, RefFactorTerm(A, i, m))
            == Sum(1, Min(i, m) - 1, RefTerm(A, i, m))
               + (if i <= m then RefU(A, i, m) else RefL(A, i, m) * RefU(A, m, m))
  {
    var f := RefFactorTerm(A, i, m);
    var h := Min(i, m);
    forall j | h < j <= n
      ensures f(j) == 0.0
    {
      RefFactorTermAfter(A, i, m, j);
    }
    forall j | 1 <= j < h
      ensures f(j) == RefTerm(A, i, m)(j)
    {
      RefFactorTermBefore(A, i, m, j);
    }
    SumPeel(1, h, n, f, RefTerm(A, i, m));
    RefFactorTermAt(A, i, m);
  }

  lemma {:induction false} RefFactorTermAfter(A: Entries, i: nat, m: nat, j: nat)
    requires j > i || j > m
    ensures RefFactorTerm(A, i, m)(j) == 0.0
  {
  }

  lemma {:induction false} RefFactorTermBefore(A: Entries, i: nat, m: nat, j: nat)
    requires 1 <= j < i && j < m
    ensures RefFactorTerm(A, i, m)(j) == RefTerm(A, i, m)(j)
  {
  }

  lemma {:induction false} RefFactorTermAt(A: Entries, i: nat, m: nat)
    requires 1 <= i && 1 <= m
    ensures RefFactorTerm(A, i, m)(Min(i, m))
            == if i <= m then RefU(A, i, m) else RefL(A, i, m) * RefU(A, m, m)
  {
  }

  /** The reference factors multiply back to the matrix: (L·U)(i, m) = a(i, m). */
  lemma {:induction false} RefFactorsMultiply(A: Entries, n: nat, below: nat, above: nat, i: nat, m: nat)
    requires BandShaped(A, below, above) && PivotsNonzero(A, n, below)
    requires 1 <= i <= n && 1 <= m <= n
    ensures Sum(1, n, RefFactorTerm(A, i, m)) == A(i, m)
  {
    RefFactorTermPeel(A, n, i, m);
    if i <= m {
      RefRoundTripUpper(A, i, m);
    } else if below == 0 {
      RefRoundTripNoLower(A, above, i, m);
    } else {
      RefRoundTripLower(A, i, m);
    }
  }

  /** The reference factors multiply back to the matrix on and above the
      diagonal: u(i, m) + Σ_{j<i} l(i, j)·u(j, m) = a(i, m). */
  lemma {:induction false} RefRoundTripUpper(A: Entries, i: nat, m: nat)
    requires 1 <= i <= m
    ensures RefU(A, i, m) + Sum(1, i - 1, RefTerm(A, i, m)) == A(i, m)
  {
    RefDotIsSum(A, i, m, i - 1);
  }

  /** Below the diagonal of a matrix without sub-diagonals both sides vanish. */
  lemma {:induction false} RefRoundTripNoLower(A: Entries, above: nat, i: nat, m: nat)
    requires BandShaped(A, 0, above) && 1 <= m < i
    ensures RefL(A, i, m) * RefU(A, m, m) + Sum(1, m - 1, RefTerm(A, i, m)) == A(i, m)
  {
    RefDotIsSum(A, i, m, m - 1);
    RefLZero(A, 0, above, i, m);
    RefDotZeroL(A, 0, above, i, m, m - 1);
    assert A(i, m) == 0.0;
    ZeroRoundTrip(RefL(A, i, m), RefU(A, m, m), Sum(1, m - 1, RefTerm(A, i, m)), A(i, m));
  }

  lemma {:induction false} ZeroRoundTrip(l: real, u: real, s: real, x: real)
    requires l == 0.0 && s == 0.0 && x == 0.0
    ensures l * u + s == x
  {
  }

  /** Below the diagonal, under a nonzero pivot:
      l(i, m)·u(m, m) + Σ_{j<m} l(i, j)·u(j, m) = a(i, m). */
  lemma {:induction false} RefRoundTripLower(A: Entries, i: nat, m: nat)
    requires RefU(A, m, m) != 0.0 && 1 <= m < i
    ensures RefL(A, i, m) * RefU(A, m, m) + Sum(1, m - 1, RefTerm(A, i, m)) == A(i, m)
  {
    RefDotIsSum(A, i, m, m - 1);
    RefLTimesPivot(A, i, m);
  }

  /** Under a nonzero pivot, l(i, k)·u(k, k) = a(i, k) − Σ_{j<k} l(i, j)·u(j, k). */
  lemma {:induction false} RefLTimesPivot(A: Entries, i: nat, k: nat)
    requires k >= 1 && RefU(A, k, k) != 0.0
    ensures RefL(A, i, k) * RefU(A, k, k) == A(i, k) - RefDot(A, i, k, k - 1)
  {
    var x, p := A(i, k) - RefDot(A, i, k, k - 1), RefU(A, k, k);
    assert RefL(A, i, k) == x / p;
    QuotientTimes(x, p);
  }

  lemma {:induction false} QuotientTimes(x: real, p: real)
    requires p != 0.0
    ensures x / p * p == x
  {
  }

  /** Round trip: Σ_{j=1}^{n} l(i, j)·u(j, m) = a(i, m) for every cell. */
  lemma {:induction false} LuRoundTrip(a: Band, i: nat, m: nat)
    requires a.Wf() && PivotsNonzero(EntriesOf(a), a.n, a.below)
    requires 1 <= i <= a.n && 1 <= m <= a.n
    ensures Sum(1, a.n, FactorTerm(Decomposed(a), i, m)) == a.At(i, m)
  {
    var A := EntriesOf(a);
    forall j | 1 <= j <= a.n
      ensures FactorTerm(Decomposed(a), i, m)(j) == RefFactorTerm(A, i, m)(j)
    {
      LowerDecomposed(a, i, j);
      UpperDecomposed(a, j, m);
      FactorTermAgrees(Decomposed(a), A, i, m, j);
    }
    SumExt(1, a.n, FactorTerm(Decomposed(a), i, m), RefFactorTerm(A, i, m));
    EntriesOfBandShaped(a);
    RefFactorsMultiply(A, a.n, a.below, a.above, i, m);
  }

  /** For n ≤ 1 the decomposition leaves the storage as it is. */
  lemma {:induction false} SmallUnchanged(a: Band)
    requires a.Wf() && a.n <= 1
    ensures Decomposed(a) == a
  {
    var d := Decomposed(a);
    forall p | 0 <= p < |a.cells|
      ensures d.cells[p] == a.cells[p]
    {
      if UsedSlot(a, p) && CellOf(a.below, a.above, p).0 >= 1 {
        IdxCellOf(a.n, a.below, a.above, p);
      }
    }
  }

  // ---------------------------------------------------------------------
  // The in-place banded elimination, step by step

  function SaturatingSub(x: nat, y: nat): nat
  {
    if x >= y then x - y else 0
  }

  function Max(x: nat, y: nat): nat
  {
    if x >= y then x else y
  }

  function Min(x: nat, y: nat): nat
  {
    if x <= y then x else y
  }

  /** The lower bound of the clipped sums: the largest of 1, x − L and
      y − U (each difference saturating at 0), that is, the first j with
      both l(x, j) and u(j, y) inside the band. */
  function ClipFrom(x: nat, y: nat, below: nat, above: nat): nat
  {
    Max(Max(1, SaturatingSub(x, below)), SaturatingSub(y, above))
  }

  /** The term `self[(i, j)] * self[(j, m)]` of the clipped sums. */
  function ProdTerm(s: Band, i: int, m: int): int -> real
  {
    j => s.At(i, j) * s.At(j, m)
  }

  /** The value an in-band cell holds during the elimination: rows above k
      (and the first entries of row k, up to column mu) already hold u, columns
      before k (and the first entries of column k, up to row il) already hold l,
      and every other cell still holds its entry of A. */
  function StageValue(A: Entries, r: nat, c: nat, k: nat, mu: nat, il: nat): real
  {
    if r <= c then
      if r < k || (r == k && c < mu) then RefU(A, r, c) else A(r, c)
    else
      if c < k || (c == k && r < il) then RefL(A, r, c) else A(r, c)
  }

  /** The storage s is the state of decomposing the matrix A, originally
      stored as a, at pivot k. */
  ghost predicate Staged(A: Entries, a: Band, s: Band, k: nat, mu: nat, il: nat)
  {
    && s.n == a.n && s.below == a.below && s.above == a.above && |s.cells| == |a.cells|
    && (forall r: nat, c: nat :: InBandCell(a.n, a.below, a.above, r, c) ==>
          s.At(r, c) == StageValue(A, r, c, k, mu, il))
    && (forall p: nat :: p < |a.cells| && !UsedSlot(a, p) ==> s.cells[p] == a.cells[p])
  }

  /** Before the first pivot nothing has been overwritten. */
  lemma {:induction false} StagedStart(a: Band)
    requires a.Wf()
    ensures Staged(EntriesOf(a), a, a, 1, 1, 2)
  {
  }

  /** An in-band cell holds its stage value. */
  lemma {:induction false} StagedAt(A: Entries, a: Band, s: Band, k: nat, mu: nat, il: nat, r: nat, c: nat)
    requires Staged(A, a, s, k, mu, il) && InBandCell(a.n, a.below, a.above, r, c)
    ensures s.At(r, c) == StageValue(A, r, c, k, mu, il)
  {
  }

  /** Storage cells that hold l(x, j) and u(j, y) give the reference term. */
  lemma {:induction false} ProdTermAgrees(s: Band, A: Entries, x: nat, y: nat, j: nat)
    requires j >= 1 && s.At(x, j) == RefL(A, x, j) && s.At(j, y) == RefU(A, j, y)
    ensures ProdTerm(s, x, y)(j) == RefTerm(A, x, y)(j)
  {
  }

  /** Terms of the reference sum before `ClipFrom` vanish, since l or u is
      outside the band there. */
  lemma {:induction false} ClippedAway(A: Entries, below: nat, above: nat, x: nat, y: nat)
    requires BandShaped(A, below, above)
    ensures Sum(1, ClipFrom(x, y, below, above) - 1, RefTerm(A, x, y)) == 0.0
  {
    var lo := ClipFrom(x, y, below, above);
    forall j | 1 <= j <= lo - 1
      ensures RefTerm(A, x, y)(j) == 0.0
    {
      if x > j + below {
        RefLZero(A, below, above, x, j);
      } else {
        RefUZero(A, below, above, j, y);
      }
    }
    SumZero(1, lo - 1, RefTerm(A, x, y));
  }

  /** At stage k, the clipped sum Σ_j s(x, j)·s(j, y) over the band is the
      reference sum Σ_{j<k} l(x, j)·u(j, y). */
  lemma {:induction false} ClippedDot(A: Entries, a: Band, s: Band, k: nat, mu: nat, il: nat, x: nat, y: nat)
    requires BandShaped(A, a.below, a.above) && Staged(A, a, s, k, mu, il)
    requires 1 <= k <= x <= a.n && k <= y <= a.n
    requires x <= k + a.below && y <= k + a.above
    ensures Sum(ClipFrom(x, y, a.below, a.above), k - 1, ProdTerm(s, x, y)) == RefDot(A, x, y, k - 1)
  {
    ClippedTermsAgree(A, a, s, k, mu, il, x, y);
    ClippedSum(A, a.below, a.above, k, x, y, ProdTerm(s, x, y));
  }

  /** A sum from `ClipFrom` to k − 1 whose terms are those of the reference
      sum is the reference sum Σ_{j<k} l(x, j)·u(j, y). */
  lemma {:induction false} ClippedSum(A: Entries, below: nat, above: nat, k: nat, x: nat, y: nat, f: int -> real)
    requires BandShaped(A, below, above)
    requires 1 <= k && x <= k + below && y <= k + above
    requires forall j :: ClipFrom(x, y, below, above) <= j <= k - 1 ==> f(j) == RefTerm(A, x, y)(j)
    ensures Sum(ClipFrom(x, y, below, above), k - 1, f) == RefDot(A, x, y, k - 1)
  {
    ClippedAway(A, below, above, x, y);
    SumDropPrefix(1, ClipFrom(x, y, below, above), k - 1, f, RefTerm(A, x, y));
    RefDotIsSum(A, x, y, k - 1);
  }

  /** Every term of the clipped sum at stage k is a term of the reference sum. */
  lemma {:induction false} ClippedTermsAgree(A: Entries, a: Band, s: Band, k: nat, mu: nat, il: nat, x: nat, y: nat)
    requires Staged(A, a, s, k, mu, il)
    requires 1 <= k <= x <= a.n && k <= y <= a.n
    ensures forall j :: ClipFrom(x, y, a.below, a.above) <= j <= k - 1 ==>
              ProdTerm(s, x, y)(j) == RefTerm(A, x, y)(j)
  {
    forall j | ClipFrom(x, y, a.below, a.above) <= j <= k - 1
      ensures ProdTerm(s, x, y)(j) == RefTerm(A, x, y)(j)
    {
      ClippedDotTerm(A, a, s, k, mu, il, x, y, j);
    }
  }

  /** A term of the clipped sum at stage k multiplies a stored l(x, j) by a
      stored u(j, y). */
  lemma {:induction false} ClippedDotTerm(A: Entries, a: Band, s: Band, k: nat, mu: nat, il: nat, x: nat, y: nat, j: nat)
    requires Staged(A, a, s, k, mu, il)
    requires 1 <= k <= x <= a.n && k <= y <= a.n
    requires ClipFrom(x, y, a.below, a.above) <= j <= k - 1
    ensures ProdTerm(s, x, y)(j) == RefTerm(A, x, y)(j)
  {
    StagedAt(A, a, s, k, mu, il, x, j);
    StagedAt(A, a, s, k, mu, il, j, y);
    ProdTermAgrees(s, A, x, y, j);
  }

  /** u(k, m) computed with the clipped sum from the current storage is the
      reference u(k, m). */
  lemma {:induction false} ValueU(A: Entries, a: Band, s: Band, k: nat, m: nat)
    requires BandShaped(A, a.below, a.above) && Staged(A, a, s, k, m, k + 1)
    requires 1 <= k <= m <= a.n && m <= k + a.above
    ensures s.At(k, m) - Sum(ClipFrom(k, m, a.below, a.above), k - 1, ProdTerm(s, k, m)) == RefU(A, k, m)
  {
    assert InBandCell(a.n, a.below, a.above, k, m);
    ClippedDot(A, a, s, k, m, k + 1, k, m);
  }

  /** Storing u(k, m) advances the stage by one cell of row k. */
  lemma {:induction false} AdvanceU(A: Entries, a: Band, s: Band, k: nat, m: nat)
    requires a.Wf() && Staged(A, a, s, k, m, k + 1)
    requires 1 <= k <= m <= a.n && m <= k + a.above
    ensures Idx(s.n, s.below, s.above, k, m).InBand?
    ensures Staged(A, a, s.Update(k, m, RefU(A, k, m)), k, m + 1, k + 1)
  {
    var v := RefU(A, k, m);
    var s' := s.Update(k, m, v);
    forall r: nat, c: nat | InBandCell(a.n, a.below, a.above, r, c)
      ensures s'.At(r, c) == StageValue(A, r, c, k, m + 1, k + 1)
    {
      UpdateAt(s, k, m, v, r, c);
    }
    CellOfIdx(s.n, s.below, s.above, k, m);
  }

  /** l(i, k) computed with the clipped sum from the current storage is the
      reference l(i, k), and the pivot cell it divides by holds the nonzero
      pivot u(k, k). */
  lemma {:induction false} ValueL(A: Entries, a: Band, s: Band, k: nat, i: nat)
    requires BandShaped(A, a.below, a.above) && RefU(A, k, k) != 0.0
    requires 1 <= k < i <= a.n && i <= k + a.below
    requires Staged(A, a, s, k, Min(k + a.above, a.n) + 1, i)
    ensures s.At(k, k) != 0.0
    ensures Quotient(s.At(i, k) - Sum(ClipFrom(i, k, a.below, a.above), k - 1, ProdTerm(s, i, k)), s.At(k, k))
            == RefL(A, i, k)
  {
    StagedPivotColumn(A, a, s, k, i);
    RefLIs(A, i, k, s.At(i, k) - Sum(ClipFrom(i, k, a.below, a.above), k - 1, ProdTerm(s, i, k)), s.At(k, k));
  }

  /** A numerator and pivot equal to those of the recurrence give l(i, k). */
  lemma {:induction false} RefLIs(A: Entries, i: nat, k: nat, x: real, p: real)
    requires k >= 1 && p == RefU(A, k, k) && p != 0.0
    requires x == A(i, k) - RefDot(A, i, k, k - 1)
    ensures Quotient(x, p) == RefL(A, i, k)
  {
  }

  /** At the step that computes l(i, k), the pivot cell holds u(k, k) and the
      numerator computed from the storage is a(i, k) − Σ_{j<k} l(i, j)·u(j, k). */
  lemma {:induction false} StagedPivotColumn(A: Entries, a: Band, s: Band, k: nat, i: nat)
    requires BandShaped(A, a.below, a.above)
    requires 1 <= k < i <= a.n && i <= k + a.below
    requires Staged(A, a, s, k, Min(k + a.above, a.n) + 1, i)
    ensures s.At(k, k) == RefU(A, k, k)
    ensures s.At(i, k) - Sum(ClipFrom(i, k, a.below, a.above), k - 1, ProdTerm(s, i, k))
            == A(i, k) - RefDot(A, i, k, k - 1)
  {
    var mu := Min(k + a.above, a.n) + 1;
    StagedAt(A, a, s, k, mu, i, k, k);
    StagedAt(A, a, s, k, mu, i, i, k);
    ClippedDot(A, a, s, k, mu, i, i, k);
  }

  /** Storing l(i, k) advances the stage by one cell of column k. */
  lemma {:induction false} AdvanceL(A: Entries, a: Band, s: Band, k: nat, mu: nat, i: nat)
    requires a.Wf() && Staged(A, a, s, k, mu, i)
    requires 1 <= k < i <= a.n && i <= k + a.below
    ensures Idx(s.n, s.below, s.above, i, k).InBand?
    ensures Staged(A, a, s.Update(i, k, RefL(A, i, k)), k, mu, i + 1)
  {
    var v := RefL(A, i, k);
    var s' := s.Update(i, k, v);
    forall r: nat, c: nat | InBandCell(a.n, a.below, a.above, r, c)
      ensures s'.At(r, c) == StageValue(A, r, c, k, mu, i + 1)
    {
      UpdateAt(s, i, k, v, r, c);
    }
    CellOfIdx(s.n, s.below, s.above, i, k);
  }

  /** Once row k of u and column k of l are stored, pivot k is done. */
  lemma {:induction false} AdvanceK(A: Entries, a: Band, s: Band, k: nat)
    requires Staged(A, a, s, k, Min(k + a.above, a.n) + 1, Min(k + a.below, a.n) + 1)
    ensures Staged(A, a, s, k + 1, k + 1, k + 2)
  {
  }

  /** One step of the loop over m: writing the computed value advances the
      stage. */
  lemma {:induction false} StepU(A: Entries, a: Band, s: Band, k: nat, m: nat, v: real)
    requires a.Wf() && BandShaped(A, a.below, a.above) && Staged(A, a, s, k, m, k + 1)
    requires 1 <= k <= m <= a.n && m <= k + a.above
    requires v == s.At(k, m) - Sum(ClipFrom(k, m, a.below, a.above), k - 1, ProdTerm(s, k, m))
    ensures Idx(s.n, s.below, s.above, k, m).InBand?
    ensures Staged(A, a, s.Update(k, m, v), k, m + 1, k + 1)
  {
    ValueU(A, a, s, k, m);
    AdvanceU(A, a, s, k, m);
  }

  /** One step of the loop over i: writing the computed quotient advances the
      stage. */
  lemma {:induction false} StepL(A: Entries, a: Band, s: Band, k: nat, i: nat, num: real, v: real)
    requires a.Wf() && BandShaped(A, a.below, a.above) && RefU(A, k, k) != 0.0
    requires 1 <= k < i <= a.n && i <= k + a.below
    requires Staged(A, a, s, k, Min(k + a.above, a.n) + 1, i)
    requires num == s.At(i, k) - Sum(ClipFrom(i, k, a.below, a.above), k - 1, ProdTerm(s, i, k))
    ensures s.At(k, k) != 0.0
    ensures v == num / s.At(k, k) ==>
              && Idx(s.n, s.below, s.above, i, k).InBand?
              && Staged(A, a, s.Update(i, k, v), k, Min(k + a.above, a.n) + 1, i + 1)
  {
    ValueL(A, a, s, k, i);
    AdvanceL(A, a, s, k, Min(k + a.above, a.n) + 1, i);
  }

  /** After the last pivot the storage is `Decomposed(a)`. */
  lemma {:induction false} StagedDone(a: Band, s: Band)
    requires a.Wf() && Staged(EntriesOf(a), a, s, a.n + 1, a.n + 1, a.n + 2)
    ensures s == Decomposed(a)
  {
    var d := Decomposed(a);
    forall p: nat | p < |a.cells|
      ensures s.cells[p] == d.cells[p]
    {
      StagedDoneSlot(EntriesOf(a), a, s, p);
    }
    assert s.cells == d.cells;
  }

  /** After the last pivot each used slot holds the factor of its cell and
      every other slot its original value. */
  lemma {:induction false} StagedDoneSlot(A: Entries, a: Band, s: Band, p: nat)
    requires Staged(A, a, s, a.n + 1, a.n + 1, a.n + 2)
    requires p < |a.cells| && |a.cells| == Width(a.below, a.above) * a.n
    ensures var c := CellOf(a.below, a.above, p);
            s.cells[p] == if UsedSlot(a, p) && c.0 >= 1 then FactorCell(A, c.0, c.1) else a.cells[p]
  {
    var c := CellOf(a.below, a.above, p);
    if UsedSlot(a, p) && c.0 >= 1 {
      IdxCellOf(a.n, a.below, a.above, p);
      AtSlot(s, p, c.0, c.1);
      StagedAt(A, a, s, a.n + 1, a.n + 1, a.n + 2, c.0, c.1);
      StageValueDone(A, c.0, c.1, a.n);
      assert s.cells[p] == FactorCell(A, c.0, c.1);
    } else {
      CellOfRow(a.below, a.above, p);
    }
  }

  /** A used slot is read back by the cell that owns it. */
  lemma {:induction false} AtSlot(s: Band, p: nat, i: nat, j: nat)
    requires p < |s.cells| && 1 <= i && 1 <= j
    requires Idx(s.n, s.below, s.above, i, j) == InBand(p)
    ensures s.At(i, j) == s.cells[p]
  {
  }

  /** After the last pivot every cell holds its factor. */
  lemma {:induction false} StageValueDone(A: Entries, r: nat, c: nat, n: nat)
    requires r <= n && c <= n
    ensures StageValue(A, r, c, n + 1, n + 1, n + 2) == FactorCell(A, r, c)
  {
  }

  // ---------------------------------------------------------------------
  // Determinant

  /** Π_{i=1}^{k} s(i, i). */
  function DiagProduct(s: Band, k: nat): real
  {
    if k == 0 then 1.0 else DiagProduct(s, k - 1) * s.At(k, k)
  }

  /** Π_{i=1}^{k} u(i, i) of the reference factors. */
  function PivotProduct(A: Entries, k: nat): real
  {
    if k == 0 then 1.0 else PivotProduct(A, k - 1) * RefU(A, k, k)
  }

  /** One more diagonal cell that holds its pivot extends the product. */
  lemma {:induction false} DiagStep(s: Band, A: Entries, k: nat)
    requires k >= 1 && DiagProduct(s, k - 1) == PivotProduct(A, k - 1)
    requires s.At(k, k) == RefU(A, k, k)
    ensures DiagProduct(s, k) == PivotProduct(A, k)
  {
  }

  /** Multiplying the running product by the next diagonal cell. */
  lemma {:induction false} DiagStepValue(s: Band, k: nat, d: real, p: real)
    requires k >= 1 && d == DiagProduct(s, k - 1) && p == s.At(k, k)
    ensures d * p == DiagProduct(s, k)
  {
  }

  /** The diagonal of the decomposed storage is the product of the pivots. */
  lemma {:induction false} DiagIsPivots(a: Band, k: nat)
    requires a.Wf() && k <= a.n
    ensures DiagProduct(Decomposed(a), k) == PivotProduct(EntriesOf(a), k)
  {
    if k > 0 {
      DiagIsPivots(a, k - 1);
      DecomposedAt(a, k, k);
      DiagStep(Decomposed(a), EntriesOf(a), k);
    }
  }

  // ---------------------------------------------------------------------
  // The worked example

  /** The Doolittle recurrences on any matrix whose leading 2×2 block is
      [[4, 3], [6, 3]]. */
  lemma {:induction false} TwoByTwoFactors(A: Entries)
    requires A(1, 1) == 4.0 && A(1, 2) == 3.0 && A(2, 1) == 6.0 && A(2, 2) == 3.0
    ensures RefU(A, 1, 1) == 4.0 && RefU(A, 1, 2) == 3.0
    ensures RefL(A, 2, 1) == 1.5 && RefU(A, 2, 2) == -1.5
  {
    assert RefDot(A, 1, 1, 0) == 0.0 && RefDot(A, 1, 2, 0) == 0.0 && RefDot(A, 2, 1, 0) == 0.0;
    assert RefU(A, 1, 1) == 4.0 && RefU(A, 1, 2) == 3.0;
    assert RefL(A, 2, 1) == Quotient(6.0, 4.0) == 1.5;
    assert RefDot(A, 2, 2, 1) == RefL(A, 2, 1) * RefU(A, 1, 2) == 4.5;
  }

  /** The decomposition of [[4, 3], [6, 3]] with one band on each side holds
      u(1, 1) = 4, u(1, 2) = 3, l(2, 1) = 1.5 and u(2, 2) = −1.5; the pivot 4
      is nonzero. */
  lemma {:induction false} TwoByTwoDecomposed(a: Band)
    requires a.Wf() && a.n == 2 && a.below == 1 && a.above == 1
    requires a.At(1, 1) == 4.0 && a.At(1, 2) == 3.0 && a.At(2, 1) == 6.0 && a.At(2, 2) == 3.0
    ensures PivotsNonzero(EntriesOf(a), 2, 1)
    ensures Decomposed(a).At(1, 1) == 4.0
    ensures Decomposed(a).At(1, 2) == 3.0
    ensures Decomposed(a).At(2, 1) == 1.5
    ensures Decomposed(a).At(2, 2) == -1.5
  {
    var A := EntriesOf(a);
    TwoByTwoFactors(A);
    forall k | 1 <= k < 2
      ensures RefU(A, k, k) != 0.0
    {
      assert k == 1;
    }
    DecomposedAt(a, 1, 1);
    DecomposedAt(a, 1, 2);
    DecomposedAt(a, 2, 1);
    DecomposedAt(a, 2, 2);
  }
}
