/** Decimal text of natural numbers: what `%d` and `%0wd` print and what strconv.ParseInt
    reads back from a run of digits. */
module Decimal {

  predicate IsDigit(c: char) {
    '0' <= c <= '9'
  }

  function DigitValue(c: char): (d: nat)
    requires IsDigit(c)
    ensures d < 10
  {
    c as int - '0' as int
  }

  function DigitChar(d: nat): (c: char)
    requires d < 10
    ensures IsDigit(c) && DigitValue(c) == d
  {
    ('0' as int + d) as char
  }

  predicate AllDigits(s: string) {
    forall i :: 0 <= i < |s| ==> IsDigit(s[i])
  }

  /** The number a run of digits denotes; the empty run denotes zero. */
  function Value(s: string): nat
    requires AllDigits(s)
  {
    if s == "" then 0 else Value(s[..|s| - 1]) * 10 + DigitValue(s[|s| - 1])
  }

  /** `%d` of a natural number. */
  function Digits(n: nat): (s: string)
    ensures AllDigits(s) && |s| >= 1
  {
    if n < 10 then [DigitChar(n)] else Digits(n / 10) + [DigitChar(n % 10)]
  }

  lemma {:induction false} NoLeadingZero(n: nat)
    requires n > 0
    ensures Digits(n)[0] != '0'
    decreases n
  {
    if n >= 10 { NoLeadingZero(n / 10); }
  }

  function Pow10(k: nat): (p: nat)
    ensures p >= 1
  {
    if k == 0 then 1 else 10 * Pow10(k - 1)
  }

  function Zeros(k: nat): (s: string)
    ensures AllDigits(s) && |s| == k
  {
    if k == 0 then "" else "0" + Zeros(k - 1)
  }

  function PadTo(d: string, width: nat): (s: string)
    requires AllDigits(d)
    ensures AllDigits(s) && |s| == if |d| < width then width else |d|
  {
    if |d| < width then Zeros(width - |d|) + d else d
  }

  /** `%0wd` of a natural number. */
  function Padded(n: nat, width: nat): (s: string)
    ensures AllDigits(s) && |s| >= width
  {
    PadTo(Digits(n), width)
  }

  /** Reading back what was printed. */
  lemma {:induction false} ValueOfDigits(n: nat)
    ensures Value(Digits(n)) == n
    decreases n
  {
    if n >= 10 {
      ValueOfDigits(n / 10);
      var s := Digits(n);
      assert s[..|s| - 1] == Digits(n / 10);
    }
  }

  /** A run of digits splits like positional notation. */
  lemma {:induction false} ValueConcat(a: string, b: string)
    requires AllDigits(a) && AllDigits(b)
    ensures AllDigits(a + b)
    ensures Value(a + b) == Value(a) * Pow10(|b|) + Value(b)
    decreases |b|
  {
    if b == "" {
      assert a + b == a;
    } else {
      var b' := b[..|b| - 1];
      ValueConcat(a, b');
      assert (a + b)[..|a + b| - 1] == a + b';
      MulShift(Value(a), Pow10(|b'|));
    }
  }

  lemma MulShift(x: nat, p: nat)
    ensures x * p * 10 == x * (10 * p)
  {
  }

  lemma {:induction false} LeadingZero(d: string)
    requires AllDigits(d)
    ensures AllDigits("0" + d) && Value("0" + d) == Value(d)
  {
    if d == "" {
      assert "0" + d == "0";
    } else {
      LeadingZero(d[..|d| - 1]);
      assert ("0" + d)[..|d|] == "0" + d[..|d| - 1];
    }
  }

  /** Leading zeros do not change a number. */
  lemma {:induction false} LeadingZeros(k: nat, d: string)
    requires AllDigits(d)
    ensures AllDigits(Zeros(k) + d) && Value(Zeros(k) + d) == Value(d)
  {
    if k == 0 {
      assert Zeros(k) + d == d;
    } else {
      var rest := Zeros(k - 1) + d;
      assert Zeros(k) + d == "0" + rest;
      LeadingZeros(k - 1, d);
      LeadingZero(rest);
    }
  }

  lemma ValueOfPadTo(d: string, width: nat)
    requires AllDigits(d)
    ensures Value(PadTo(d, width)) == Value(d)
  {
    if |d| < width {
      LeadingZeros(width - |d|, d);
    }
  }

  lemma ValueOfPadded(n: nat, width: nat)
    ensures Value(Padded(n, width)) == n
  {
    ValueOfDigits(n);
    ValueOfPadTo(Digits(n), width);
  }

  /** Distinct numbers print differently. */
  lemma DigitsInjective(m: nat, n: nat)
    requires Digits(m) == Digits(n)
    ensures m == n
  {
    ValueOfDigits(m);
    ValueOfDigits(n);
  }

  lemma {:induction false} ValueBound(s: string)
    requires AllDigits(s)
    ensures Value(s) < Pow10(|s|)
  {
    if s != "" {
      ValueBound(s[..|s| - 1]);
    }
  }

  /** A number below 10^k prints in at most k digits. */
  lemma {:induction false} DigitsLength(n: nat, k: nat)
    requires k >= 1 && n < Pow10(k)
    ensures |Digits(n)| <= k
    decreases k
  {
    if n >= 10 {
      assert k >= 2;
      DigitsLength(n / 10, k - 1);
    }
  }
}
