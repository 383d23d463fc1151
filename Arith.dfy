/** Facts of natural-number arithmetic shared by the index computations. */
module Arith {

  /** Multiplication by a natural number is monotone. */
  lemma {:induction false} MulLeft(w: nat, a: nat, b: nat)
    requires a <= b
    ensures w * a <= w * b
  {
  }

  /** Quotient and remainder are determined by p = w·q + r with 0 ≤ r < w. */
  lemma {:induction false} DivModUnique(p: nat, w: nat, q: nat, r: nat)
    requires 0 <= r < w
    requires p == w * q + r
    ensures p / w == q && p % w == r
  {
    var q', r' := p / w, p % w;
    assert p == w * q' + r';
    if q' < q {
      MulLeft(w, q' + 1, q);
      assert false;
    } else if q < q' {
      MulLeft(w, q + 1, q');
      assert false;
    }
  }

  /** Dividing by a and then by b is dividing by a·b. */
  lemma {:induction false} DivDiv(n: nat, a: nat, b: nat)
    requires a > 0 && b > 0
    ensures n / a / b == n / (a * b)
  {
    var q, r := n / a, n % a;
    var q2, r2 := q / b, q % b;
    NestedQuotient(n, a, b, q, r, q2, r2);
    RemainderBound(a, b, r, r2);
    DivModUnique(n, a * b, q2, a * r2 + r);
  }

  lemma {:induction false} NestedQuotient(n: nat, a: nat, b: nat, q: nat, r: nat, q2: nat, r2: nat)
    requires n == a * q + r && q == b * q2 + r2
    ensures n == (a * b) * q2 + (a * r2 + r)
  {
    assert a * q == a * (b * q2) + a * r2;
  }

  lemma {:induction false} RemainderBound(a: nat, b: nat, r: nat, r2: nat)
    requires r < a && r2 < b
    ensures a * r2 + r < a * b
  {
    MulLeft(a, r2, b - 1);
    assert a * (b - 1) == a * b - a;
  }
}
