/** `superscript(n)` of the NUM5 driver: the decimal spelling of n with every
    digit replaced by its superscript form, used in the plot labels. It is
    modelled stage by stage: `Decimal` spells n in decimal, `ToDigit` turns a
    character back into its digit value (failing on a non-digit), and
    `Superscript` looks each digit up in `DIGITS`. The failure case of the
    character conversion is proved never to arise. */
module Superscript {
  import opened Arith
  import opened Wrappers

  /** `DIGITS`: the superscript forms of 0 to 9. */
  const DIGITS: seq<char> := ['⁰', '¹', '²', '³', '⁴', '⁵', '⁶', '⁷', '⁸', '⁹']

  /** 10^e. */
  function Pow10(e: nat): (p: nat)
    ensures p >= 1
  {
    if e == 0 then 1 else 10 * Pow10(e - 1)
  }

  /** The decimal digits of n, most significant first, with no leading zero
      (so 0 has the single digit 0). */
  function Digits(n: nat): (ds: seq<nat>)
    ensures |ds| >= 1 && forall k :: 0 <= k < |ds| ==> ds[k] < 10
    decreases n
  {
    if n < 10 then [n] else Digits(n / 10) + [n % 10]
  }

  /** The character of a decimal digit. */
  function DigitChar(d: nat): (c: char)
    requires d < 10
    ensures '0' <= c <= '9'
  {
    ('0' as int + d) as char
  }

  /** The decimal spelling of an unsigned n (`to_string`). */
  function Decimal(n: nat): (s: string)
    ensures |s| == |Digits(n)|
  {
    seq(|Digits(n)|, k requires 0 <= k < |Digits(n)| => DigitChar(Digits(n)[k]))
  }

  /** Base-10 digit value of a character (`to_digit(10)`): a value exactly for
      the ten decimal digit characters. */
  function ToDigit(c: char): (r: Option<nat>)
    ensures r.Some? <==> '0' <= c <= '9'
    ensures r.Some? ==> r.value < 10 && DigitChar(r.value) == c
  {
    if '0' <= c <= '9' then Some(c as int - '0' as int) else None
  }

  /** The `unwrap` never fails: every character `to_string` produces is a
      decimal digit, and it converts back to the digit it spells. */
  lemma {:induction false} UnwrapSucceeds(n: nat, k: nat)
    requires k < |Decimal(n)|
    ensures ToDigit(Decimal(n)[k]) == Some(Digits(n)[k])
  {
  }

  /** `superscript(n)`. */
  function Superscript(n: nat): (s: string)
    ensures |s| == |Digits(n)|
  {
    var cs := Decimal(n);
    seq(|cs|, k requires 0 <= k < |cs| => UnwrapSucceeds(n, k); DIGITS[ToDigit(cs[k]).value])
  }

  // ---------------------------------------------------------------------
  // Properties

  /** The number of digits of n is the L ≥ 1 with 10^(L−1) ≤ n < 10^L (for
      n ≥ 1; 0 has one digit). */
  lemma {:induction false} DigitCount(n: nat)
    ensures n < Pow10(|Digits(n)|)
    ensures n >= 1 ==> Pow10(|Digits(n)| - 1) <= n
    decreases n
  {
    if n >= 10 {
      DigitCount(n / 10);
      var l := |Digits(n / 10)|;
      assert n == 10 * (n / 10) + n % 10;
      assert n / 10 + 1 <= Pow10(l);
      MulLeft(10, n / 10 + 1, Pow10(l));
      if n / 10 >= 10 {
        MulLeft(10, Pow10(l - 1), n / 10);
      }
    }
  }

  /** Digit k of n (from the left, L digits) is ⌊n / 10^(L−1−k)⌋ mod 10. */
  lemma {:induction false} DigitAt(n: nat, k: nat)
    requires k < |Digits(n)|
    ensures Digits(n)[k] == (n / Pow10(|Digits(n)| - 1 - k)) % 10
    decreases n
  {
    if n >= 10 {
      var l := |Digits(n / 10)|;
      if k < l {
        DigitAt(n / 10, k);
        DivDiv(n, 10, Pow10(l - 1 - k));
        assert Pow10(|Digits(n)| - 1 - k) == 10 * Pow10(l - 1 - k);
      }
    }
  }

  /** `superscript(n)` has one character per decimal digit of n, and its
      k-th character is `DIGITS[d]` for the k-th digit d. */
  lemma {:induction false} SuperscriptDigits(n: nat)
    ensures |Superscript(n)| == |Digits(n)|
    ensures forall k :: 0 <= k < |Digits(n)| ==> Superscript(n)[k] == DIGITS[Digits(n)[k]]
  {
    forall k | 0 <= k < |Digits(n)|
      ensures Superscript(n)[k] == DIGITS[Digits(n)[k]]
    {
      UnwrapSucceeds(n, k);
    }
  }

  /** The same in terms of n alone: L characters for 10^(L−1) ≤ n < 10^L,
      the k-th being `DIGITS[⌊n / 10^(L−1−k)⌋ mod 10]`. */
  lemma {:induction false} SuperscriptAt(n: nat, k: nat)
    requires k < |Superscript(n)|
    ensures n < Pow10(|Superscript(n)|)
    ensures n >= 1 ==> Pow10(|Superscript(n)| - 1) <= n
    ensures Superscript(n)[k] == DIGITS[(n / Pow10(|Superscript(n)| - 1 - k)) % 10]
  {
    DigitCount(n);
    DigitAt(n, k);
    SuperscriptDigits(n);
  }

  /** `superscript(0)` is "⁰". */
  lemma {:induction false} SuperscriptZero()
    ensures Superscript(0) == "⁰"
  {
    SuperscriptDigits(0);
  }

  /** The number a digit sequence spells, most significant first. */
  function FromDigits(ds: seq<nat>): nat
  {
    if |ds| == 0 then 0 else 10 * FromDigits(ds[..|ds| - 1]) + ds[|ds| - 1]
  }

  /** The digits spell n back. */
  lemma {:induction false} DigitsRoundTrip(n: nat)
    ensures FromDigits(Digits(n)) == n
    decreases n
  {
    if n >= 10 {
      DigitsRoundTrip(n / 10);
      assert Digits(n)[..|Digits(n)| - 1] == Digits(n / 10);
    }
  }

  /** Distinct numbers get distinct superscripts. */
  lemma {:induction false} SuperscriptInjective(m: nat, n: nat)
    requires Superscript(m) == Superscript(n)
    ensures m == n
  {
    SuperscriptDigits(m);
    SuperscriptDigits(n);
    forall k | 0 <= k < |Digits(m)|
      ensures Digits(m)[k] == Digits(n)[k]
    {
      assert DIGITS[Digits(m)[k]] == DIGITS[Digits(n)[k]];
    }
    assert Digits(m) == Digits(n);
    DigitsRoundTrip(m);
    DigitsRoundTrip(n);
  }
}
