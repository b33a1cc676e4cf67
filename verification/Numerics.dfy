/** The NUMERIC codec: decimal strings against integers scaled by 10^9. */
module Numerics {
  import opened Wrappers
  import opened Digits

  const I128_MAX: int := 0x7FFF_FFFF_FFFF_FFFF_FFFF_FFFF_FFFF_FFFF
  const I128_MIN: int := -I128_MAX - 1

  newtype i128 = x: int | I128_MIN <= x <= I128_MAX

  // ---- What a decimal string is --------------------------------------------------------------------

  /** The value of a decimal times 10^9, without its sign. */
  function Magnitude(whole: string, fraction: string): nat
    requires AllDigits(whole) && AllDigits(fraction) && |fraction| <= 9
  {
    Value(whole) * Pow10(9) + Value(fraction) * Pow10(9 - |fraction|)
  }

  /** `[-]digits[.digits]`. */
  datatype Numeral = Numeral(negative: bool, whole: string, fraction: Option<string>)
  {
    /** Digits before the point, and one to nine behind it if there is a point. */
    predicate Canonical() {
      && whole != [] && AllDigits(whole)
      && (fraction.Some? ==> 1 <= |fraction.value| <= 9 && AllDigits(fraction.value))
    }

    function Unsigned(): string {
      whole + if fraction.Some? then "." + fraction.value else ""
    }

    function Text(): string {
      (if negative then "-" else "") + Unsigned()
    }

    function FractionDigits(): string {
      if fraction.Some? then fraction.value else []
    }

    function Unscaled(): nat
      requires Canonical()
    {
      Magnitude(whole, FractionDigits())
    }

    function Scaled(): int
      requires Canonical()
    {
      var m: int := Unscaled();
      if negative then -m else m
    }
  }

  /** A text cut at its first point. */
  function Cut(negative: bool, body: string): Numeral {
    var point := PointAt(body);
    Numeral(negative, body[..point], if point < |body| then Some(body[point + 1..]) else None)
  }

  /** The numeral a text spells, if it is canonical. */
  function Read(s: string): Option<Numeral> {
    var n := if s != [] && s[0] == '-' then Cut(true, s[1..]) else Cut(false, s);
    if n.Canonical() then Some(n) else None
  }

  /** Where the first point is, or the length. */
  function PointAt(s: string): (i: nat)
    ensures i <= |s| && '.' !in s[..i] && (i < |s| ==> s[i] == '.')
  {
    if s == [] then 0 else if s[0] == '.' then 0 else 1 + PointAt(s[1..])
  }

  lemma {:induction false} PointIs(s: string, i: nat)
    requires i <= |s| && '.' !in s[..i] && (i < |s| ==> s[i] == '.')
    ensures PointAt(s) == i
  {
    var j := PointAt(s);
    assert j <= |s|;
  }

  lemma {:induction false} CutInverts(n: Numeral)
    requires AllDigits(n.whole)
    ensures Cut(n.negative, n.Unsigned()) == n
  {
    var body := n.Unsigned();
    assert body[..|n.whole|] == n.whole;
    PointIs(body, |n.whole|);
    if n.fraction.Some? {
      assert body[|n.whole| + 1..] == n.fraction.value;
    }
  }

  lemma {:induction false} CutCovers(negative: bool, body: string)
    ensures Cut(negative, body).Unsigned() == body
  {
    var point := PointAt(body);
    if point < |body| {
      assert body == body[..point] + ("." + body[point + 1..]);
    }
  }

  /** Any text of digits around a point is cut where it was joined. */
  lemma {:induction false} ReadOfText(n: Numeral)
    requires n.whole != [] && AllDigits(n.whole)
    ensures Read(n.Text()) == if n.Canonical() then Some(n) else None
  {
    hide Cut;
    CutInverts(n);
    var s := n.Text();
    if n.negative {
      assert s[1..] == n.Unsigned();
    } else {
      assert s == n.Unsigned() && s[0] == n.whole[0];
    }
  }

  /** Reading finds exactly the canonical numerals: it inverts their text, and accepts nothing else. */
  lemma {:induction false} ReadInverts(n: Numeral, s: string)
    requires n.Canonical()
    ensures Read(s) == Some(n) <==> s == n.Text()
  {
    hide Cut;
    ReadOfText(n);
    if s != [] && s[0] == '-' {
      CutCovers(true, s[1..]);
      assert s == "-" + s[1..];
      CutSign(true, s[1..]);
    } else {
      CutCovers(false, s);
      assert s == "" + s;
      CutSign(false, s);
    }
  }

  lemma {:induction false} CutSign(negative: bool, body: string)
    ensures Cut(negative, body).negative == negative
  {
  }

  // ---- Parsing -------------------------------------------------------------------------------------

  /** The scaled integer a text denotes, when its magnitude is at most 2^127 - 1. */
  function Parsed(s: string): Option<int> {
    if Read(s).Some? && Read(s).value.Unscaled() <= I128_MAX then Some(Read(s).value.Scaled()) else None
  }

  /** What a decimal text means: its digits with a point in front of the last of the nine places, negated behind a
      minus, unless that is too big. */
  lemma {:induction false} ParsedMeans(whole: string, fraction: string)
    requires whole != [] && AllDigits(whole) && AllDigits(fraction)
    ensures var n := Value(whole) * 1_000_000_000;
            && Parsed(whole) == (if n <= I128_MAX then Some(n) else None)
            && Parsed("-" + whole) == (if n <= I128_MAX then Some(-n) else None)
    ensures 1 <= |fraction| <= 9 ==>
              var n := Value(whole) * 1_000_000_000 + Value(fraction) * Pow10(9 - |fraction|);
              && Parsed(whole + "." + fraction) == (if n <= I128_MAX then Some(n) else None)
              && Parsed("-" + whole + "." + fraction) == (if n <= I128_MAX then Some(-n) else None)
  {
    hide Value, Pow10, Parsed, AllDigits;
    NinePlaces();
    EmptyValue();
    NoDigits();
    ParsedOfText(Numeral(false, whole, None));
    ParsedOfText(Numeral(true, whole, None));
    assert Numeral(false, whole, None).Text() == whole && Numeral(true, whole, None).Text() == "-" + whole;
    if 1 <= |fraction| <= 9 {
      ParsedOfText(Numeral(false, whole, Some(fraction)));
      ParsedOfText(Numeral(true, whole, Some(fraction)));
      assert Numeral(false, whole, Some(fraction)).Text() == whole + "." + fraction;
      assert Numeral(true, whole, Some(fraction)).Text() == "-" + whole + "." + fraction;
    }
  }

  function CheckedMul(a: i128, b: i128): Option<i128> {
    if I128_MIN <= a as int * b as int <= I128_MAX then Some((a as int * b as int) as i128) else None
  }

  function CheckedAdd(a: i128, b: i128): Option<i128> {
    if I128_MIN <= a as int + b as int <= I128_MAX then Some((a as int + b as int) as i128) else None
  }

  /** The integer digits, with overflow checks: `None` on a non-digit, or when the value is too big. */
  method WholePart(digits: string) returns (r: Option<i128>)
    ensures r.Some? <==> AllDigits(digits) && Value(digits) <= I128_MAX
    ensures r.Some? ==> r.value as int == Value(digits)
  {
    hide Value;
    var value: i128 := 0;
    var i := 0;
    EmptyValue();
    while i < |digits|
      invariant 0 <= i <= |digits| && AllDigits(digits[..i]) && value as int == Value(digits[..i])
    {
      if !IsDigit(digits[i]) {
        return None;
      }
      PrefixStep(digits, i);
      var tens := CheckedMul(value, 10);
      if tens.None? {
        return None;
      }
      var next := CheckedAdd(tens.value, DigitValue(digits[i]) as i128);
      if next.None? {
        return None;
      }
      value := next.value;
      i := i + 1;
    }
    assert digits[..i] == digits;
    return Some(value);
  }

  /** The fraction digits brought to nine places; no step leaves `i128`. */
  method FractionPart(digits: string) returns (r: Option<i128>)
    requires |digits| <= 9
    ensures r.Some? <==> AllDigits(digits)
    ensures r.Some? ==> r.value as int == Value(digits) * Pow10(9 - |digits|) && 0 <= r.value as int < Pow10(9)
  {
    hide Value, Pow10;
    var value: i128 := 0;
    var i := 0;
    EmptyValue();
    while i < |digits|
      invariant 0 <= i <= |digits| && AllDigits(digits[..i]) && value as int == Value(digits[..i])
    {
      if !IsDigit(digits[i]) {
        return None;
      }
      NineDigits(digits[..i]);
      PrefixStep(digits, i);
      value := value * 10 + DigitValue(digits[i]) as i128;
      i := i + 1;
    }
    assert digits[..i] == digits;
    NineDigits(digits);
    value := value * Pow10(9 - |digits|) as i128;
    return Some(value);
  }

  /** The value of a numeral whose parts have been found. */
  method Combine(negative: bool, whole: string, fraction: string) returns (r: Option<i128>)
    requires |fraction| <= 9
    ensures r.Some? <==>
            AllDigits(whole) && AllDigits(fraction) && Magnitude(whole, fraction) <= I128_MAX
    ensures r.Some? ==>
            r.value as int == if negative then -(Magnitude(whole, fraction) as int) else Magnitude(whole, fraction)
  {
    hide Value, Pow10, AllDigits;
    NinePlaces();
    var intVal := WholePart(whole);
    if intVal.None? {
      if AllDigits(whole) && AllDigits(fraction) {
        TooBig(whole, fraction);
      }
      return None;
    }
    var fracVal := FractionPart(fraction);
    if fracVal.None? {
      return None;
    }
    var high := CheckedMul(intVal.value, 1_000_000_000);
    if high.None? {
      return None;
    }
    var unscaled := CheckedAdd(high.value, fracVal.value);
    if unscaled.None? {
      return None;
    }
    return Some(if negative then -unscaled.value else unscaled.value);
  }

  /** `parse_numeric_i128`: accepts exactly the canonical texts whose scaled magnitude fits, and returns
      that exact integer. */
  method ParseNumeric(s: string) returns (r: Option<i128>)
    ensures r.Some? <==> Parsed(s).Some?
    ensures r.Some? ==> r.value as int == Parsed(s).value
  {
    hide Magnitude, AllDigits;
    var negative := s != [] && s[0] == '-';
    var body := if negative then s[1..] else s;
    var point := 0;
    while point < |body| && body[point] != '.'
      invariant 0 <= point <= |body| && '.' !in body[..point]
    {
      point := point + 1;
    }
    PointIs(body, point);
    if point < |body| && point + 1 == |body| {
      return None;
    }
    var whole, fraction := body[..point], if point < |body| then body[point + 1..] else [];
    if whole == [] || |fraction| > 9 {
      return None;
    }
    ghost var n := Cut(negative, body);
    assert n.FractionDigits() == fraction;
    assert n.Canonical() <==> AllDigits(whole) && AllDigits(fraction) by { NoDigits(); }
    r := Combine(negative, whole, fraction);
  }

  lemma {:induction false} NoDigits()
    ensures AllDigits([])
  {
  }

  lemma {:induction false} TooBig(whole: string, fraction: string)
    requires AllDigits(whole) && AllDigits(fraction) && |fraction| <= 9 && Value(whole) > I128_MAX
    ensures Magnitude(whole, fraction) > I128_MAX
  {
    NinePlaces();
    var f := Value(fraction) * Pow10(9 - |fraction|);
    assert f >= 0;
  }

  // ---- Printing ------------------------------------------------------------------------------------

  function Abs(x: int): nat {
    if x < 0 then -x else x
  }

  /** `numeric_string`. */
  function NumericString(unscaled: int, scale: nat): string {
    var sign := if unscaled < 0 then "-" else "";
    if scale == 0 then sign + Decimal(Abs(unscaled))
    else sign + Decimal(Quot(Abs(unscaled), Pow10(scale))) + "." + Padded(Rem(Abs(unscaled), Pow10(scale)), scale)
  }

  function Printed(unscaled: int, scale: nat): Numeral {
    if scale == 0 then Numeral(unscaled < 0, Decimal(Abs(unscaled)), None)
    else Numeral(unscaled < 0, Decimal(Quot(Abs(unscaled), Pow10(scale))),
                 Some(Padded(Rem(Abs(unscaled), Pow10(scale)), scale)))
  }

  lemma {:induction false} PrintedText(unscaled: int, scale: nat)
    ensures NumericString(unscaled, scale) == Printed(unscaled, scale).Text()
  {
    hide Decimal, Padded, Pow10, Quot, Rem;
    var sign := if unscaled < 0 then "-" else "";
    if scale > 0 {
      var a, b := Decimal(Quot(Abs(unscaled), Pow10(scale))), Padded(Rem(Abs(unscaled), Pow10(scale)), scale);
      assert sign + a + "." + b == sign + (a + ("." + b));
    }
  }

  lemma {:induction false} Regroup(q: nat, r: nat, d: nat, e: nat)
    ensures q * (d * e) + r * e == (q * d + r) * e
  {
  }

  lemma {:induction false} PrintedMagnitude(unscaled: int, scale: nat)
    requires scale <= 9
    ensures Printed(unscaled, scale).Canonical()
    ensures Printed(unscaled, scale).Unscaled() == Abs(unscaled) * Pow10(9 - scale)
  {
    hide Decimal, Padded, Value, Pow10, Quot, Rem;
    var m, d := Abs(unscaled), Pow10(scale);
    if scale == 0 {
      DecimalValue(m);
      EmptyValue();
    } else {
      var q, r := Quot(m, d), Rem(m, d);
      DecimalValue(q);
      PaddedValue(r, scale);
      PowSum(scale, 9 - scale);
      Regroup(q, r, d, Pow10(9 - scale));
      QuotRem(m, d);
    }
  }

  /** Parsing a printed decimal multiplies it by 10^(9 - scale), exactly when the scale is at most nine
      and the product's magnitude is at most 2^127 - 1. */
  lemma {:induction false} RoundTrip(unscaled: int, scale: nat)
    ensures Parsed(NumericString(unscaled, scale)) ==
            if scale <= 9 && Abs(unscaled) * Pow10(9 - scale) <= I128_MAX
            then Some(unscaled * Pow10(9 - scale)) else None
  {
    hide Pow10, Magnitude, Printed, NumericString, Parsed, Abs;
    var n := Printed(unscaled, scale);
    PrintedText(unscaled, scale);
    PrintedShape(unscaled, scale);
    ParsedOfText(n);
    if scale <= 9 {
      PrintedMagnitude(unscaled, scale);
      Negated(unscaled, Pow10(9 - scale));
    }
  }

  lemma {:induction false} ParsedOfText(n: Numeral)
    requires n.whole != [] && AllDigits(n.whole)
    ensures Parsed(n.Text()) == if n.Canonical() && n.Unscaled() <= I128_MAX then Some(n.Scaled()) else None
  {
    hide Magnitude, Read, AllDigits;
    ReadOfText(n);
  }

  lemma {:induction false} PrintedShape(unscaled: int, scale: nat)
    ensures var n := Printed(unscaled, scale);
            && n.negative == (unscaled < 0) && n.whole != [] && AllDigits(n.whole)
            && (n.Canonical() <==> scale <= 9)
  {
    hide Decimal, Padded, Pow10, Quot, Rem, AllDigits;
  }

  lemma {:induction false} Negated(x: int, p: nat)
    ensures x * p == if x < 0 then -(Abs(x) * p) else Abs(x) * p
  {
  }

  /** At scale nine every `i128` but the least comes back unchanged. */
  lemma {:induction false} RoundTripScaleNine(x: i128)
    ensures Parsed(NumericString(x as int, 9)) == if x as int == I128_MIN then None else Some(x as int)
  {
    RoundTrip(x as int, 9);
    assert Pow10(0) == 1;
  }
}
