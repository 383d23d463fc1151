/** The 1-based column vector `Vector<E>` over a boxed slice, with the element
    type taken as `real`.

    `Vector` is the object: its storage `elements` never changes length, reads
    and writes are 1-based, and `DivideBy`/`Subtract` are the in-place loops of
    `Div<E>` and `Sub<Self>`. `VAt` is the same 1-based read on a plain sequence,
    total (0 outside 1..n) so that it can stand inside sums. */
module Vectors {
  import opened Sums

  /** Element k (1-based) of a sequence, 0 outside 1..|v|. */
  function VAt(v: seq<real>, k: int): real
  {
    if 1 <= k <= |v| then v[k - 1] else 0.0
  }

  /** k ↦ v[k] as a term of a sum. */
  function Entry(v: seq<real>): int -> real
  {
    k => VAt(v, k)
  }

  /** v[1] + ... + v[n]: the reduction by addition, which yields no
      value for an empty vector; the callers unwrap it, so n ≥ 1 is demanded. */
  function Total(v: seq<real>): (t: real)
    requires |v| >= 1
    ensures |v| == 1 ==> t == v[0]
  {
    Sum(1, |v|, Entry(v))
  }

  /** Two sequences of the same length are equal exactly when every 1-based
      entry agrees. */
  lemma {:induction false} SameEntries(u: seq<real>, v: seq<real>)
    requires |u| == |v|
    ensures u == v <==> forall k :: 1 <= k <= |u| ==> VAt(u, k) == VAt(v, k)
  {
    if forall k :: 1 <= k <= |u| ==> VAt(u, k) == VAt(v, k) {
      forall p | 0 <= p < |u|
        ensures u[p] == v[p]
      {
        assert VAt(u, p + 1) == VAt(v, p + 1);
      }
    }
  }

  /** A sequence of n zeros: what `Vector::new(n)` holds. */
  function ZeroSeq(n: nat): (z: seq<real>)
    ensures |z| == n && forall k :: 1 <= k <= n ==> VAt(z, k) == 0.0
  {
    seq(n, _ => 0.0)
  }

  /** s / r: every element divided by r (nonzero for real division). */
  function Divided(s: seq<real>, r: real): (q: seq<real>)
    requires r != 0.0
    ensures |q| == |s|
  {
    seq(|s|, k requires 0 <= k < |s| => s[k] / r)
  }

  /** s − t as `Sub` computes it: `zip` stops at the shorter operand, so
      only the first min(|s|, |t|) elements are reduced and the rest of s
      stays. */
  function Difference(s: seq<real>, t: seq<real>): (d: seq<real>)
    ensures |d| == |s|
  {
    seq(|s|, k requires 0 <= k < |s| => if k < |t| then s[k] - t[k] else s[k])
  }

  /** Division by r is undone by multiplication by r. */
  lemma {:induction false} DividedInverse(s: seq<real>, r: real)
    requires r != 0.0
    ensures forall k :: 0 <= k < |s| ==> Divided(s, r)[k] * r == s[k]
  {
    forall k | 0 <= k < |s|
      ensures Divided(s, r)[k] * r == s[k]
    {
      assert Divided(s, r)[k] == s[k] / r;
    }
  }

  /** Adding t back to s − t gives s on the positions `zip` reaches; the
      positions beyond t are those of s. */
  lemma {:induction false} DifferenceInverse(s: seq<real>, t: seq<real>)
    ensures forall k :: 0 <= k < |s| && k < |t| ==> Difference(s, t)[k] + t[k] == s[k]
    ensures |t| <= |s| ==> Difference(s, t)[|t|..] == s[|t|..]
    ensures |s| <= |t| ==> Difference(s, t) == Difference(s, t[..|s|])
  {
  }

  class Vector {
    /** The boxed slice; its length is fixed when the vector is built. */
    const elements: array<real>

    /** `Vector::new(n)`: n zeros. */
    constructor Zeros(n: nat)
      ensures fresh(elements) && elements[..] == ZeroSeq(n)
    {
      elements := new real[n](_ => 0.0);
    }

    /** `FromIterator::from_iter` over a finite iterator, given as the sequence
        of its items: element k (1-based) is the k-th item. */
    constructor FromSeq(s: seq<real>)
      ensures fresh(elements) && elements[..] == s
    {
      elements := new real[|s|](i requires 0 <= i < |s| => s[i]);
    }

    /** `n()`: the storage length. */
    function N(): nat
      reads this
    {
      elements.Length
    }

    /** The elements in storage order: what `iter()` and both `IntoIterator`
        impls yield. */
    function Elements(): (s: seq<real>)
      reads this, elements
      ensures |s| == N()
    {
      elements[..]
    }

    /** `v[k]`: index 0 fails the `assert_ne!` and an index above n the slice
        bound, both panics, so 1 ≤ k ≤ n is demanded of the caller. */
    function Get(k: nat): (r: real)
      reads this, elements
      requires 1 <= k <= N()
      ensures r == VAt(Elements(), k)
    {
      elements[k - 1]
    }

    /** `v[k] = x` through `index_mut`: slot k − 1 is written, nothing else. */
    method Set(k: nat, x: real)
      requires 1 <= k <= N()
      modifies elements
      ensures Elements() == old(Elements())[k - 1 := x]
    {
      elements[k - 1] := x;
    }

    /** `self / r`: every element divided by r, in place. The divisor must be
        nonzero for real division. */
    method DivideBy(r: real)
      requires r != 0.0
      modifies elements
      ensures Elements() == Divided(old(Elements()), r)
    {
      for i := 0 to elements.Length
        invariant forall k :: 0 <= k < i ==> elements[k] == old(elements[k]) / r
        invariant forall k :: i <= k < elements.Length ==> elements[k] == old(elements[k])
      {
        elements[i] := elements[i] / r;
      }
    }

    /** `self - rhs`: `zip` stops at the shorter vector, so only the first
        min(n, rhs.n) elements are reduced and the rest of `self` stays. */
    method Subtract(rhs: Vector)
      requires rhs.elements != elements
      modifies elements
      ensures Elements() == Difference(old(Elements()), rhs.Elements())
    {
      var m := if elements.Length <= rhs.elements.Length then elements.Length else rhs.elements.Length;
      for i := 0 to m
        invariant forall k :: 0 <= k < i ==> elements[k] == old(elements[k]) - rhs.elements[k]
        invariant forall k :: i <= k < elements.Length ==> elements[k] == old(elements[k])
      {
        elements[i] := elements[i] - rhs.elements[i];
      }
    }
  }
}
