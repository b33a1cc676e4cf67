/** Decimal digit strings and the numbers they stand for. */
module Digits {

  predicate IsDigit(c: char) {
    '0' <= c <= '9'
  }

  predicate AllDigits(s: string) {
    forall i :: 0 <= i < |s| ==> IsDigit(s[i])
  }

  function DigitValue(c: char): nat
    requires IsDigit(c)
  {
    c as int - '0' as int
  }

  function DigitChar(d: nat): (c: char)
    requires d < 10
    ensures IsDigit(c) && DigitValue(c) == d
  {
    ('0' as int + d) as char
  }

  function Pow10(n: nat): (p: nat)
    ensures p >= 1
  {
    if n == 0 then 1 else 10 * Pow10(n - 1)
  }

  /** The number a digit string denotes, most significant digit first. */
  function Value(s: string): nat
    requires AllDigits(s)
  {
    if s == [] then 0 else Value(s[..|s| - 1]) * 10 + DigitValue(s[|s| - 1])
  }

  /** The decimal digits of `n`, without leading zeros. */
  function Decimal(n: nat): (s: string)
    ensures s != [] && AllDigits(s)
  {
    if n < 10 then [DigitChar(n)] else Decimal(n / 10) + [DigitChar(n % 10)]
  }

  /** The low `width` decimal digits of `n`, with leading zeros. */
  function Padded(n: nat, width: nat): (s: string)
    ensures |s| == width && AllDigits(s)
  {
    if width == 0 then [] else Padded(n / 10, width - 1) + [DigitChar(n % 10)]
  }

  lemma {:induction false} ValueOfAppend(s: string, c: char)
    requires AllDigits(s) && IsDigit(c)
    ensures AllDigits(s + [c]) && Value(s + [c]) == Value(s) * 10 + DigitValue(c)
  {
    assert (s + [c])[..|s|] == s;
  }

  lemma {:induction false} DecimalValue(n: nat)
    ensures Value(Decimal(n)) == n
  {
    if n >= 10 {
      DecimalValue(n / 10);
      ValueOfAppend(Decimal(n / 10), DigitChar(n % 10));
    } else {
      ValueOfAppend([], DigitChar(n));
      assert [] + [DigitChar(n)] == [DigitChar(n)];
    }
  }

  lemma {:induction false} PaddedValue(n: nat, width: nat)
    requires n < Pow10(width)
    ensures Value(Padded(n, width)) == n
  {
    if width > 0 {
      PaddedValue(n / 10, width - 1);
      ValueOfAppend(Padded(n / 10, width - 1), DigitChar(n % 10));
    }
  }

  /** A digit string is the padded form of its own value. */
  lemma {:induction false} PaddedOfValue(s: string)
    requires AllDigits(s)
    ensures Value(s) < Pow10(|s|) && Padded(Value(s), |s|) == s
  {
    if s != [] {
      var k := |s| - 1;
      PaddedOfValue(s[..k]);
      assert Value(s) / 10 == Value(s[..k]) && Value(s) % 10 == DigitValue(s[k]);
      assert s == s[..k] + [s[k]];
    }
  }

  lemma {:induction false} PowSum(a: nat, b: nat)
    ensures Pow10(a + b) == Pow10(a) * Pow10(b)
  {
    if a > 0 {
      PowSum(a - 1, b);
    }
  }

  /** A prefix of a digit string denotes no more than the whole. */
  lemma {:induction false} ValueOfPrefix(s: string, k: nat)
    requires AllDigits(s) && k <= |s|
    ensures Value(s[..k]) <= Value(s)
  {
    if k < |s| {
      ValueOfPrefix(s[..|s| - 1], k);
      assert s[..|s| - 1][..k] == s[..k];
    } else {
      assert s[..k] == s;
    }
  }

  lemma {:induction false} EmptyValue()
    ensures Value([]) == 0
  {
  }

  /** One more digit of a text that is scanned from the left. */
  lemma {:induction false} PrefixStep(digits: string, i: nat)
    requires i < |digits| && AllDigits(digits[..i]) && IsDigit(digits[i])
    ensures AllDigits(digits[..i + 1])
    ensures Value(digits[..i + 1]) == Value(digits[..i]) * 10 + DigitValue(digits[i])
    ensures AllDigits(digits) ==> Value(digits[..i + 1]) <= Value(digits)
  {
    ValueOfAppend(digits[..i], digits[i]);
    assert digits[..i + 1] == digits[..i] + [digits[i]];
    if AllDigits(digits) {
      ValueOfPrefix(digits, i + 1);
    }
  }

  lemma {:induction false} ScaledBound(v: nat, k: nat)
    requires k <= 9 && v < Pow10(k)
    ensures v * Pow10(9 - k) < Pow10(9)
  {
    PowSum(k, 9 - k);
    Monotone(v, Pow10(k), Pow10(9 - k));
  }

  lemma {:induction false} Monotone(a: int, b: int, c: int)
    requires a < b && c > 0
    ensures a * c < b * c
  {
  }

  lemma {:induction false} NineDigits(s: string)
    requires AllDigits(s) && |s| <= 9
    ensures Value(s) < 1_000_000_000
    ensures Value(s) * Pow10(9 - |s|) < Pow10(9) == 1_000_000_000
    ensures Pow10(9 - |s|) <= 1_000_000_000
  {
    hide Value, Pow10, AllDigits;
    PaddedOfValue(s);
    PowBound(|s|);
    PowBound(9 - |s|);
    ScaledBound(Value(s), |s|);
  }

  lemma {:induction false} PowBound(n: nat)
    requires n <= 9
    ensures Pow10(n) <= Pow10(9) == 1_000_000_000
  {
    PowSum(n, 9 - n);
    Grow(Pow10(n), Pow10(9 - n));
    NinePlaces();
  }

  lemma {:induction false} Grow(a: nat, b: nat)
    requires b >= 1
    ensures a * b >= a
  {
  }

  lemma {:induction false} NinePlaces()
    ensures Pow10(9) == 1_000_000_000
  {
    assert Pow10(3) == 1000;
    PowSum(3, 3);
    PowSum(3, 6);
  }

  // ---- Division ----------------------------------------------------------------------------------------

  function Quot(m: nat, d: nat): nat
    requires d >= 1
  {
    m / d
  }

  function Rem(m: nat, d: nat): (r: nat)
    requires d >= 1
    ensures r < d
  {
    m % d
  }

  lemma {:induction false} QuotRem(m: nat, d: nat)
    requires d >= 1
    ensures Quot(m, d) * d + Rem(m, d) == m
  {
  }

  // ---- Lexicographic order ----------------------------------------------------------------------------

  /** `s` comes before `t` when compared character by character. */
  predicate Before(s: string, t: string) {
    t != [] && (s == [] || s[0] < t[0] || (s[0] == t[0] && Before(s[1..], t[1..])))
  }

  /** Fixed-width fields compare field by field. */
  lemma {:induction false} BeforeFields(a: string, b: string, x: string, y: string)
    requires |a| == |b|
    ensures Before(a + x, b + y) <==> Before(a, b) || (a == b && Before(x, y))
  {
    if a == [] {
      assert a + x == x && b + y == y;
    } else {
      assert (a + x)[1..] == a[1..] + x && (b + y)[1..] == b[1..] + y;
      BeforeFields(a[1..], b[1..], x, y);
      assert a == [a[0]] + a[1..] && b == [b[0]] + b[1..];
    }
  }

  /** Fixed-width digits compare like their numbers. */
  lemma {:induction false} BeforePadded(m: nat, n: nat, width: nat)
    requires m < Pow10(width) && n < Pow10(width)
    ensures Before(Padded(m, width), Padded(n, width)) <==> m < n
    ensures Padded(m, width) == Padded(n, width) <==> m == n
  {
    PaddedValue(m, width);
    PaddedValue(n, width);
    if width > 0 {
      BeforePadded(m / 10, n / 10, width - 1);
      BeforeFields(Padded(m / 10, width - 1), Padded(n / 10, width - 1), [DigitChar(m % 10)], [DigitChar(n % 10)]);
    }
  }
}
