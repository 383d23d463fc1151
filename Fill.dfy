/** The shape shared by the problem generators of the three crates: a loop
    over i from 1 to count that writes f(i) into cell (i + dr, i + dc), one
    diagonal of a band matrix; and the vector (1, 2, …, n). */
module Fill {
  import opened BandStorage
  import opened Vectors
  import opened Matrix

  /** Whether (r, c) is one of the cells (i + dr, i + dc), 1 ≤ i ≤ count. */
  predicate OnDiagonal(r: int, c: int, dr: nat, dc: nat, count: nat)
  {
    1 <= r - dr <= count && c - dc == r - dr
  }

  /** One generator loop: every written cell must lie in the band (a write
      outside it panics in `index_mut`); every other cell keeps its value. */
  method FillDiagonal(m: BandMatrix, dr: nat, dc: nat, count: nat, f: nat --> real)
    requires m.Valid() && count + dr <= m.n && count + dc <= m.n
    requires dc <= dr + m.above && dr <= dc + m.below
    requires forall i :: 1 <= i <= count ==> f.requires(i)
    modifies m.elements
    ensures forall r, c :: m.Value().At(r, c)
              == if OnDiagonal(r, c, dr, dc, count) then f(r - dr) else old(m.Value()).At(r, c)
  {
    for i := 1 to count + 1
      invariant forall r, c :: m.Value().At(r, c)
                  == if OnDiagonal(r, c, dr, dc, i - 1) then f(r - dr) else old(m.Value()).At(r, c)
    {
      ghost var s := m.Value();
      m.Set(i + dr, i + dc, f(i));
      UpdateAtAll(s, i + dr, i + dc, f(i));
    }
  }

  /** The numbers 1 to n as reals: entry k is k. */
  function Counting(n: nat): (r: seq<real>)
    ensures |r| == n && forall k :: 1 <= k <= n ==> VAt(r, k) == k as real
  {
    seq(n, p => (p + 1) as real)
  }
}
