/** Packed storage of a square band matrix with `below` sub-diagonals and
    `above` super-diagonals (the const generics L and U of `BandMatrix`).

    Row i (1-based) owns the block of `below + above + 1` slots starting at
    (below + above + 1)·(i − 1); inside the block the cell (i, j) sits at position
    below + (j − i). `Idx` is the index computation, `CellOf` its inverse, `Band`
    the storage as a value, `At` the read of a cell (0 outside the band) and
    `Update` the write of one in-band cell. */
module BandStorage {
  import opened Arith

  /** Where a 1-based index pair lands: a panic for index 0 or beyond n, a
      structurally zero cell outside the band, or a slot of the storage. */
  datatype Slot = OutOfRange | OutOfBand | InBand(offset: nat)

  /** Number of slots per row. */
  function Width(below: nat, above: nat): nat
  {
    below + above + 1
  }

  /** The index computation of `BandMatrix::idx`. */
  function Idx(n: nat, below: nat, above: nat, i: nat, j: nat): (r: Slot)
    ensures r.OutOfRange? <==> i == 0 || j == 0 || i > n || j > n
    ensures r.OutOfBand? <==> 1 <= i <= n && 1 <= j <= n && (j > i + above || i > j + below)
  {
    if i == 0 || j == 0 || i > n || j > n then OutOfRange
    else
      var a, b := i - 1, j - 1;
      if a < b && b - a > above then OutOfBand
      else if a > b && a - b > below then OutOfBand
      else
        var w := Width(below, above);
        InBand(if a < b then w * a + below + (b - a) else w * a + below - (a - b))
  }

  /** An in-band cell (i, j) lives in the block of row i, at position
      below + (j − i), so inside the storage of (L + U + 1)·n slots. */
  lemma {:induction false} IdxOffset(n: nat, below: nat, above: nat, i: nat, j: nat)
    requires Idx(n, below, above, i, j).InBand?
    ensures var p, w := Idx(n, below, above, i, j).offset, Width(below, above);
            && w * (i - 1) <= p <= w * (i - 1) + below + above
            && p == w * (i - 1) + below + j - i
            && p < w * n
  {
    MulLeft(Width(below, above), i, n);
  }

  /** The cell (row, column) that owns a slot; the column may fall outside
      1..n for the unused slots of the first and last rows. */
  function CellOf(below: nat, above: nat, p: nat): (int, int)
  {
    var w := Width(below, above);
    (p / w + 1, p / w + 1 + p % w - below)
  }

  /** Every slot belongs to a row from 1 on. */
  lemma {:induction false} CellOfRow(below: nat, above: nat, p: nat)
    ensures CellOf(below, above, p).0 >= 1
  {
  }

  /** Decoding the slot of an in-band cell gives the cell back. */
  lemma {:induction false} CellOfIdx(n: nat, below: nat, above: nat, i: nat, j: nat)
    requires Idx(n, below, above, i, j).InBand?
    ensures CellOf(below, above, Idx(n, below, above, i, j).offset) == (i, j)
  {
    var w := Width(below, above);
    var p := Idx(n, below, above, i, j).offset;
    IdxOffset(n, below, above, i, j);
    DivModUnique(p, w, i - 1, below + j - i);
  }

  /** Encoding the cell that owns a used slot gives the slot back. */
  lemma {:induction false} IdxCellOf(n: nat, below: nat, above: nat, p: nat)
    requires p < Width(below, above) * n
    requires 1 <= CellOf(below, above, p).1 <= n
    ensures Idx(n, below, above, CellOf(below, above, p).0, CellOf(below, above, p).1) == InBand(p)
  {
    var w := Width(below, above);
    var i := p / w + 1;
    if n < i {
      MulLeft(w, n, i - 1);
      assert false;
    }
  }

  /** Distinct in-band cells own distinct slots. */
  lemma {:induction false} IdxInjective(n: nat, below: nat, above: nat, i: nat, j: nat, i': nat, j': nat)
    requires Idx(n, below, above, i, j).InBand? && Idx(n, below, above, i', j').InBand?
    requires Idx(n, below, above, i, j).offset == Idx(n, below, above, i', j').offset
    ensures i == i' && j == j'
  {
    CellOfIdx(n, below, above, i, j);
    CellOfIdx(n, below, above, i', j');
  }

  /** Whether (i, j) is a cell of the n×n matrix that the band stores. */
  predicate InBandCell(n: nat, below: nat, above: nat, i: int, j: int)
  {
    1 <= i <= n && 1 <= j <= n && j <= i + above && i <= j + below
  }

  /** The storage of a band matrix as a value: `elements` of `BandMatrix`. */
  datatype Band = Band(n: nat, below: nat, above: nat, cells: seq<real>)
  {
    /** The storage holds (L + U + 1)·n slots. */
    ghost predicate Wf()
    {
      |cells| == Width(below, above) * n
    }

    /** Read access `self[(i, j)]`: the stored slot for an in-band cell, the
        shared zero for every other cell. Total, so that it can stand in terms
        of sums; the panics of an index outside 1..n are up to the callers. */
    function At(i: int, j: int): (r: real)
      ensures !InBandCell(n, below, above, i, j) ==> r == 0.0
    {
      if i <= 0 || j <= 0 then 0.0
      else match Idx(n, below, above, i, j)
        case InBand(p) => if p < |cells| then cells[p] else 0.0
        case _ => 0.0
    }

    /** Write access `self[(i, j)] = v` for an in-band cell. */
    function Update(i: nat, j: nat, v: real): (r: Band)
      requires Wf() && Idx(n, below, above, i, j).InBand?
      ensures r.Wf() && r.n == n && r.below == below && r.above == above
    {
      IdxOffset(n, below, above, i, j);
      Band(n, below, above, cells[Idx(n, below, above, i, j).offset := v])
    }
  }

  /** Cells outside the band read as zero. */
  lemma {:induction false} AtOutOfBand(s: Band, i: int, j: int)
    requires !InBandCell(s.n, s.below, s.above, i, j)
    ensures s.At(i, j) == 0.0
  {
  }

  /** Writing (i, j) sets that cell and leaves every other cell's value alone. */
  lemma {:induction false} UpdateAt(s: Band, i: nat, j: nat, v: real, r: int, c: int)
    requires s.Wf() && Idx(s.n, s.below, s.above, i, j).InBand?
    ensures s.Update(i, j, v).At(r, c) == if r == i && c == j then v else s.At(r, c)
  {
    if r > 0 && c > 0 && Idx(s.n, s.below, s.above, r, c).InBand? && (r != i || c != j) {
      if Idx(s.n, s.below, s.above, r, c).offset == Idx(s.n, s.below, s.above, i, j).offset {
        IdxInjective(s.n, s.below, s.above, r, c, i, j);
      }
    }
  }

  /** `UpdateAt` for every cell at once. */
  lemma {:induction false} UpdateAtAll(s: Band, i: nat, j: nat, v: real)
    requires s.Wf() && Idx(s.n, s.below, s.above, i, j).InBand?
    ensures forall r, c :: s.Update(i, j, v).At(r, c) == if r == i && c == j then v else s.At(r, c)
  {
    forall r, c ensures s.Update(i, j, v).At(r, c) == if r == i && c == j then v else s.At(r, c) {
      UpdateAt(s, i, j, v, r, c);
    }
  }

  /** A zero-filled storage of the right size: `BandMatrix::new(n)`. */
  function Zeros(n: nat, below: nat, above: nat): (r: Band)
    ensures r.Wf() && r.n == n && r.below == below && r.above == above
    ensures forall i, j :: r.At(i, j) == 0.0
  {
    Band(n, below, above, seq(Width(below, above) * n, _ => 0.0))
  }
}
