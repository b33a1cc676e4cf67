/** The TIMESTAMP codec: UTC texts as in section 5.6 of RFC 3339, against counts since the epoch. */
module Timestamps {
  import opened Wrappers
  import opened Digits
  import opened Calendar

  newtype u32 = x: int | 0 <= x < 0x1_0000_0000

  const I64_MAX: int := 0x7FFF_FFFF_FFFF_FFFF
  const I64_MIN: int := -I64_MAX - 1

  newtype i64 = x: int | I64_MIN <= x <= I64_MAX

  predicate FitsI64(x: int) {
    I64_MIN <= x <= I64_MAX
  }

  /** A point in time: the day, the second of the day, and the nanosecond of the second. */
  datatype Instant = Instant(days: int, second: nat, nanos: nat)
  {
    predicate Valid() {
      second < 86400 && nanos < 1_000_000_000
    }

    /** chrono's `timestamp()`: whole seconds since the epoch, rounded down. */
    function Seconds(): int {
      days * 86400 + second
    }

    function TotalNanos(): int {
      Seconds() * 1_000_000_000 + nanos
    }
  }

  // ---- Scanning ------------------------------------------------------------------------------------

  /** The fraction of a second a text carries behind its seconds, in nanoseconds: `Z`, or a point, one
      to nine digits and `Z`. */
  function Fraction(s: string): Option<nat>
    requires |s| >= 20
  {
    if s[19] == 'Z' && |s| == 20 then Some(0)
    else if s[19] == '.' && |s| > 20 then
      var digits := s[20..|s| - 1];
      if s[|s| - 1] == 'Z' && 1 <= |digits| <= 9 && AllDigits(digits)
      then Some(Value(digits) * Pow10(9 - |digits|)) else None
    else None
  }

  /** `and_hms_nano_opt`; a leap second is no time of day here. */
  function TimeOf(days: int, hour: nat, minute: nat, second: nat, nanos: nat): Option<Instant> {
    if hour < 24 && minute < 60 && second < 60 && nanos < 1_000_000_000
    then Some(Instant(days, hour * 3600 + minute * 60 + second, nanos)) else None
  }

  predicate Separated(s: string) {
    |s| >= 20 && s[4] == '-' && s[7] == '-' && s[10] == 'T' && s[13] == ':' && s[16] == ':'
  }

  predicate Numbered(s: string)
    requires |s| >= 20
  {
    && TwoDigits(s, 0).Some? && TwoDigits(s, 2).Some? && TwoDigits(s, 5).Some? && TwoDigits(s, 8).Some?
    && TwoDigits(s, 11).Some? && TwoDigits(s, 14).Some? && TwoDigits(s, 17).Some?
  }

  /** What `scan_timestamp_utc` finds. */
  function Scanned(s: string): Option<Instant> {
    if !Separated(s) || !Numbered(s) || Fraction(s).None? then None
    else
      var days := DayOf(TwoDigits(s, 0).value * 100 + TwoDigits(s, 2).value, TwoDigits(s, 5).value, TwoDigits(s, 8).value);
      if days.None? then None
      else TimeOf(days.value, TwoDigits(s, 11).value, TwoDigits(s, 14).value, TwoDigits(s, 17).value, Fraction(s).value)
  }

  /** The scan of the fraction; no step leaves `u32`. */
  method ScanFraction(digits: string) returns (r: Option<u32>)
    requires 1 <= |digits| <= 9
    ensures r.Some? <==> AllDigits(digits)
    ensures r.Some? ==> r.value as int == Value(digits) * Pow10(9 - |digits|) && r.value < 1_000_000_000
  {
    hide Value, Pow10;
    var nanos: u32 := 0;
    var i := 0;
    EmptyValue();
    while i < |digits|
      invariant 0 <= i <= |digits| && AllDigits(digits[..i]) && nanos as int == Value(digits[..i])
    {
      if !IsDigit(digits[i]) {
        return None;
      }
      PrefixStep(digits, i);
      NineDigits(digits[..i + 1]);
      nanos := nanos * 10 + DigitValue(digits[i]) as u32;
      i := i + 1;
    }
    assert digits[..i] == digits;
    NineDigits(digits);
    nanos := nanos * Pow10(9 - |digits|) as u32;
    return Some(nanos);
  }

  /** `scan_timestamp_utc`: accepts exactly the texts that instants of four-digit years print as, with zero to
      nine fraction digits, and finds that instant. */
  method ScanTimestamp(s: string) returns (r: Option<Instant>)
    ensures r == Scanned(s)
    ensures r.Some? ==> r.value.Valid() && FractionCount(s) <= 9 && InstantText(r.value, FractionCount(s)) == s
    ensures r.None? ==> NeverPrinted(s)
  {
    hide Scanned, FractionCount, InstantText, NeverPrinted;
    r := ScanFields(s);
    if r.Some? {
      ScannedValid(s);
      PrintScanned(s);
    } else {
      RefusedNeverPrinted(s);
    }
  }

  /** The fields at their fixed offsets. */
  method ScanFields(s: string) returns (r: Option<Instant>)
    ensures r == Scanned(s)
  {
    hide Value, Pow10, DayOf, AllDigits;
    if |s| < 20 || s[4] != '-' || s[7] != '-' || s[10] != 'T' || s[13] != ':' || s[16] != ':' {
      return None;
    }
    var century, year := TwoDigits(s, 0), TwoDigits(s, 2);
    var month, day := TwoDigits(s, 5), TwoDigits(s, 8);
    var hour, minute, second := TwoDigits(s, 11), TwoDigits(s, 14), TwoDigits(s, 17);
    if century.None? || year.None? || month.None? || day.None? || hour.None? || minute.None? || second.None? {
      return None;
    }
    var nanos: u32 := 0;
    if s[19] == 'Z' && |s| == 20 {
      nanos := 0;
    } else if s[19] == '.' && |s| > 20 {
      var digits := s[20..|s| - 1];
      if s[|s| - 1] != 'Z' || digits == [] || |digits| > 9 {
        return None;
      }
      var scanned := ScanFraction(digits);
      if scanned.None? {
        return None;
      }
      nanos := scanned.value;
    } else {
      return None;
    }
    assert Fraction(s) == Some(nanos as nat);
    var days := DayOf(century.value * 100 + year.value, month.value, day.value);
    if days.None? {
      return None;
    }
    r := TimeOf(days.value, hour.value, minute.value, second.value, nanos as nat);
  }

  // ---- Counts --------------------------------------------------------------------------------------

  function CheckedMul(a: int, b: int): Option<int> {
    if FitsI64(a * b) then Some(a * b) else None
  }

  function CheckedAdd(a: int, b: int): Option<int> {
    if FitsI64(a + b) then Some(a + b) else None
  }

  /** chrono's `timestamp_nanos_opt`, which moves one second of a negative instant into its fraction so
      that no intermediate result overflows early. */
  function NanosOf(t: Instant): Option<int> {
    var negative := t.Seconds() < 0;
    var seconds := if negative then t.Seconds() + 1 else t.Seconds();
    var nanos := if negative then t.nanos - 1_000_000_000 else t.nanos;
    var whole := CheckedMul(seconds, 1_000_000_000);
    if whole.None? then None else CheckedAdd(whole.value, nanos)
  }

  /** `parse_timestamp_nanos`. */
  function ParseNanos(s: string): Option<int> {
    if Scanned(s).None? then None else NanosOf(Scanned(s).value)
  }

  /** `parse_timestamp_micros`. */
  function ParseMicros(s: string): Option<int> {
    if Scanned(s).None? then None
    else
      var t := Scanned(s).value;
      var whole := CheckedMul(t.Seconds(), 1_000_000);
      if whole.None? then None else CheckedAdd(whole.value, t.nanos / 1000)
  }

  /** A scanned instant is a time of day in the years 0 to 9999. */
  lemma {:induction false} ScannedValid(s: string)
    requires Scanned(s).Some?
    ensures Scanned(s).value.Valid()
    ensures -719528 <= Scanned(s).value.days <= 2932896
  {
    hide Fraction, DayNumber, DaysInMonth;
    var d := Date(TwoDigits(s, 0).value * 100 + TwoDigits(s, 2).value, TwoDigits(s, 5).value, TwoDigits(s, 8).value);
    assert 0 <= d.year <= 9999;
    NumberCivil(d);
    Landmarks();
    YearInterval(DayNumber(d), 0, 9999);
  }

  /** For every text the scanner accepts, nanoseconds exist exactly when their number fits `i64`, and
      microseconds always exist and are that number divided by 1000, rounded down. */
  lemma {:induction false} CountsExact(s: string)
    requires Scanned(s).Some?
    ensures var total := Scanned(s).value.TotalNanos();
            && ParseNanos(s) == (if FitsI64(total) then Some(total) else None)
            && ParseMicros(s) == Some(total / 1000)
  {
    hide Scanned;
    ScannedValid(s);
    NanosExact(Scanned(s).value);
    MicrosExact(Scanned(s).value);
  }

  lemma {:induction false} MicrosExact(t: Instant)
    requires t.Valid() && -719528 <= t.days <= 2932896
    ensures t.TotalNanos() / 1000 == t.Seconds() * 1_000_000 + t.nanos / 1000
    ensures FitsI64(t.Seconds() * 1_000_000) && FitsI64(t.TotalNanos() / 1000)
  {
  }

  lemma {:induction false} NanosExact(t: Instant)
    requires t.Valid()
    ensures NanosOf(t) == if FitsI64(t.TotalNanos()) then Some(t.TotalNanos()) else None
  {
    var seconds := t.Seconds();
    if seconds < 0 {
      assert t.TotalNanos() == (seconds + 1) * 1_000_000_000 + (t.nanos - 1_000_000_000);
    }
  }

  // ---- Printing ------------------------------------------------------------------------------------

  datatype TimeUnit = Second | Millisecond | Microsecond | Nanosecond
  {
    /** How many fraction digits the unit carries. */
    function Digits(): nat {
      match this
      case Second => 0
      case Millisecond => 3
      case Microsecond => 6
      case Nanosecond => 9
    }

    function PerSecond(): (n: nat)
      ensures n >= 1
    {
      Pow10(Digits())
    }
  }

  /** The instant `value` units after the epoch. */
  function InstantOf(unit: TimeUnit, value: int): Instant {
    var seconds := value / unit.PerSecond();
    var rest := value % unit.PerSecond();
    Instant(seconds / 86400, seconds % 86400, rest * Pow10(9 - unit.Digits()))
  }

  function ClockText(second: nat): string {
    "T" + Padded(second / 3600, 2) + ":" + Padded(second / 60 % 60, 2) + ":" + Padded(second % 60, 2)
  }

  function FractionText(nanos: nat, digits: nat): string
    requires digits <= 9
  {
    if digits == 0 then "Z" else "." + Padded(Quot(nanos, Pow10(9 - digits)), digits) + "Z"
  }

  /** `to_rfc3339_opts` in UTC with `Z`. */
  function InstantText(t: Instant, digits: nat): string
    requires digits <= 9
  {
    CivilNumber(t.days);
    DateText(Civil(t.days)) + ClockText(t.second) + FractionText(t.nanos, digits)
  }

  /** `timestamp_string`: `None` outside chrono's range of dates. */
  function TimestampString(unit: TimeUnit, value: int): Option<string> {
    var t := InstantOf(unit, value);
    if Representable(Civil(t.days)) then Some(InstantText(t, unit.Digits())) else None
  }

  // ---- Scanning what was printed -----------------------------------------------------------------------

  lemma {:induction false} TwoIsValue(s: string, i: nat)
    requires i + 1 < |s|
    ensures TwoDigits(s, i) == if AllDigits(s[i..i + 2]) then Some(Value(s[i..i + 2])) else None
  {
    hide Value, DigitValue;
    var f := s[i..i + 2];
    assert AllDigits(f) <==> IsDigit(f[0]) && IsDigit(f[1]);
    if AllDigits(f) {
      ValueOfTwo(f);
    }
  }

  /** The date fields of a text that begins with a date. */
  lemma {:induction false} DateFields(s: string, date: string)
    requires |s| >= 20 && s[..10] == date && DateShape(date)
    ensures s[4] == '-' && s[7] == '-'
    ensures TwoDigits(s, 0).Some? && TwoDigits(s, 2).Some?
    ensures TwoDigits(s, 0).value * 100 + TwoDigits(s, 2).value == Value(date[..4])
    ensures TwoDigits(s, 5) == Some(Value(date[5..7])) && TwoDigits(s, 8) == Some(Value(date[8..]))
  {
    hide Value, DigitValue, TwoDigits, IsDigit;
    TwoIsValue(s, 0);
    TwoIsValue(s, 2);
    TwoIsValue(s, 5);
    TwoIsValue(s, 8);
    var year := date[..4];
    assert s[0..2] == year[..2] && s[2..4] == year[2..] && s[5..7] == date[5..7] && s[8..10] == date[8..];
    ValueOfFour(year);
  }

  lemma {:induction false} SubSlice(s: string, a: nat, b: nat, i: nat, j: nat)
    requires a <= b <= |s| && i <= j <= b - a
    ensures s[a..b][i..j] == s[a + i..a + j]
  {
    var inner, direct := s[a..b][i..j], s[a + i..a + j];
    assert |inner| == |direct| && forall k :: 0 <= k < |inner| ==> inner[k] == direct[k];
  }

  lemma {:induction false} ClockFields(s: string, second: nat)
    requires |s| >= 20 && second < 86400 && s[10..19] == ClockText(second)
    ensures s[10] == 'T' && s[13] == ':' && s[16] == ':'
    ensures TwoDigits(s, 11) == Some(second / 3600) && second / 3600 < 24
    ensures TwoDigits(s, 14) == Some(second / 60 % 60)
    ensures TwoDigits(s, 17) == Some(second % 60)
    ensures second / 3600 * 3600 + second / 60 % 60 * 60 + second % 60 == second
  {
    hide Value, TwoDigits, IsDigit, Padded;
    var c, h, m, t := ClockText(second), Padded(second / 3600, 2), Padded(second / 60 % 60, 2), Padded(second % 60, 2);
    assert c == "T" + h + ":" + m + ":" + t;
    assert s[11..13] == h && s[14..16] == m && s[17..19] == t by {
      assert c[1..3] == h && c[4..6] == m && c[7..9] == t;
      SubSlice(s, 10, 19, 1, 3);
      SubSlice(s, 10, 19, 4, 6);
      SubSlice(s, 10, 19, 7, 9);
    }
    assert s[10] == c[0] && s[13] == c[3] && s[16] == c[6];
    SmallPowers();
    PaddedValue(second / 3600, 2);
    PaddedValue(second / 60 % 60, 2);
    PaddedValue(second % 60, 2);
    TwoIsValue(s, 11);
    TwoIsValue(s, 14);
    TwoIsValue(s, 17);
  }

  /** `nanos` cut to `digits` fraction digits. */
  function Truncated(nanos: nat, digits: nat): nat
    requires digits <= 9
  {
    Quot(nanos, Pow10(9 - digits)) * Pow10(9 - digits)
  }

  lemma {:induction false} QuotBound(m: nat, d: nat, e: nat)
    requires d >= 1 && m < e * d
    ensures Quot(m, d) < e
  {
    QuotRem(m, d);
    if Quot(m, d) >= e {
      Ordered(e, Quot(m, d), d);
    }
  }

  lemma {:induction false} FractionFields(s: string, nanos: nat, digits: nat)
    requires |s| >= 20 && digits <= 9 && nanos < 1_000_000_000 && s[19..] == FractionText(nanos, digits)
    ensures Fraction(s) == Some(Truncated(nanos, digits))
    ensures Truncated(nanos, digits) < 1_000_000_000
  {
    hide Value, Padded, Quot, Pow10, AllDigits;
    var p := Pow10(9 - digits);
    NinePlaces();
    PowSum(digits, 9 - digits);
    QuotBound(nanos, p, Pow10(digits));
    QuotRem(nanos, p);
    var f := Padded(Quot(nanos, p), digits);
    PaddedValue(Quot(nanos, p), digits);
    if digits == 0 {
      assert s[19] == s[19..][0];
      PowZero();
      assert Truncated(nanos, 0) == 0;
    } else {
      assert s[19..] == "." + f + "Z";
      assert s[19] == s[19..][0] && s[|s| - 1] == s[19..][digits + 1];
      assert s[20..|s| - 1] == s[19..][1..digits + 1] == f;
    }
  }

  lemma {:induction false} PowZero()
    ensures Pow10(0) == 1
  {
  }

  /** Scanning a printed instant of a four-digit year gives it back, cut to the printed digits; any other
      year is refused. */
  lemma {:induction false} ScanPrinted(t: Instant, digits: nat)
    requires t.Valid() && digits <= 9
    ensures Scanned(InstantText(t, digits)) ==
            if -719528 <= t.days <= 2932896 then Some(t.(nanos := Truncated(t.nanos, digits))) else None
  {
    hide Civil, DayNumber, DateText, ClockText, FractionText, Fraction, Truncated, DaysInMonth, DateShape, Value;
    var d := Civil(t.days);
    CivilNumber(t.days);
    Landmarks();
    YearInterval(t.days, 0, 9999);
    var s := InstantText(t, digits);
    if 0 <= d.year <= 9999 {
      DateTextFields(d);
      ShapeLength(DateText(d));
      TextParts(t, digits);
      DateFields(s, DateText(d));
      ClockFields(s, t.second);
      FractionFields(s, t.nanos, digits);
    } else {
      SignedYear(d);
      assert s[0] == DateText(d)[0];
    }
  }

  lemma {:induction false} TextParts(t: Instant, digits: nat)
    requires digits <= 9 && Civil(t.days).Valid() && |DateText(Civil(t.days))| == 10
    ensures var s := InstantText(t, digits);
            && |s| >= 20 && s[..10] == DateText(Civil(t.days)) && s[10..19] == ClockText(t.second)
            && s[19..] == FractionText(t.nanos, digits)
  {
    hide Civil, DateText, Padded, Quot, Pow10, DaysInMonth;
    assert |ClockText(t.second)| == 9 && |FractionText(t.nanos, digits)| >= 1;
  }

  // ---- Printing what was scanned -------------------------------------------------------------------------

  /** How many fraction digits a timestamp text carries. */
  function FractionCount(s: string): nat {
    if |s| <= 21 then 0 else |s| - 21
  }

  lemma {:induction false} FractionPrints(s: string)
    requires |s| >= 20 && Fraction(s).Some?
    ensures FractionCount(s) <= 9 && FractionText(Fraction(s).value, FractionCount(s)) == s[19..]
  {
    hide Value, Padded, Pow10, Quot;
    if |s| > 20 {
      var digits := s[20..|s| - 1];
      PaddedOfValue(digits);
      QuotOfProduct(Value(digits), Pow10(9 - |digits|));
      assert s[19..] == "." + digits + "Z";
    } else {
      assert s[19..] == "Z";
    }
  }

  lemma {:induction false} TwoPrints(s: string, i: nat)
    requires i + 1 < |s| && TwoDigits(s, i).Some?
    ensures TwoDigits(s, i).value < 100 && Padded(TwoDigits(s, i).value, 2) == s[i..i + 2]
  {
    hide Value, Padded;
    TwoIsValue(s, i);
    PaddedOfValue(s[i..i + 2]);
    SmallPowers();
  }

  lemma {:induction false} ClockPrints(s: string, second: nat)
    requires Separated(s) && Numbered(s)
    requires TwoDigits(s, 11).value < 24 && TwoDigits(s, 14).value < 60 && TwoDigits(s, 17).value < 60
    requires second == TwoDigits(s, 11).value * 3600 + TwoDigits(s, 14).value * 60 + TwoDigits(s, 17).value
    ensures ClockText(second) == s[10..19]
  {
    hide TwoDigits, Padded;
    TwoPrints(s, 11);
    TwoPrints(s, 14);
    TwoPrints(s, 17);
    assert second / 3600 == TwoDigits(s, 11).value && second / 60 % 60 == TwoDigits(s, 14).value && second % 60 == TwoDigits(s, 17).value;
    assert s[10..19] == "T" + s[11..13] + ":" + s[14..16] + ":" + s[17..19];
  }

  lemma {:induction false} DatePrints(s: string, d: Date)
    requires Separated(s) && Numbered(s) && d.Valid()
    requires d == Date(TwoDigits(s, 0).value * 100 + TwoDigits(s, 2).value, TwoDigits(s, 5).value, TwoDigits(s, 8).value)
    ensures DateText(d) == s[..10]
  {
    hide TwoDigits, Value, DaysInMonth, DateText;
    var date := s[..10];
    TwoIsValue(s, 0);
    TwoIsValue(s, 2);
    TwoIsValue(s, 5);
    TwoIsValue(s, 8);
    assert s[0..2] == date[..4][..2] && s[2..4] == date[..4][2..] && s[5..7] == date[5..7] && s[8..10] == date[8..];
    ValueOfFour(date[..4]);
    ShapeIsText(date, d);
  }

  /** Every text the scanner accepts is what its instant prints as, with as many fraction digits as the text
      has. */
  lemma {:induction false} PrintScanned(s: string)
    requires Scanned(s).Some?
    ensures FractionCount(s) <= 9 && InstantText(Scanned(s).value, FractionCount(s)) == s
  {
    hide Civil, DayNumber, DateText, ClockText, Fraction, FractionText, FractionCount, TwoDigits, DaysInMonth;
    var d := Date(TwoDigits(s, 0).value * 100 + TwoDigits(s, 2).value, TwoDigits(s, 5).value, TwoDigits(s, 8).value);
    NumberCivil(d);
    DatePrints(s, d);
    ClockPrints(s, Scanned(s).value.second);
    FractionPrints(s);
    assert s == s[..10] + s[10..19] + s[19..];
  }

  /** No instant of a four-digit year prints as this text. */
  ghost predicate NeverPrinted(s: string) {
    forall t: Instant, digits: nat :: t.Valid() && -719528 <= t.days <= 2932896 && digits <= 9 ==> InstantText(t, digits) != s
  }

  lemma {:induction false} RefusedNeverPrinted(s: string)
    requires Scanned(s).None?
    ensures NeverPrinted(s)
  {
    hide Scanned, InstantText, Truncated;
    forall t: Instant, digits: nat | t.Valid() && -719528 <= t.days <= 2932896 && digits <= 9
      ensures InstantText(t, digits) != s
    {
      ScanPrinted(t, digits);
    }
  }

  /** The instant of a count is that count of units, to the nanosecond. */
  lemma {:induction false} InstantExact(unit: TimeUnit, value: int)
    ensures var t := InstantOf(unit, value);
            && t.Valid() && t.TotalNanos() == value * Pow10(9 - unit.Digits())
            && Truncated(t.nanos, unit.Digits()) == t.nanos
  {
    hide Pow10, Quot;
    var n, e := unit.PerSecond(), Pow10(9 - unit.Digits());
    NinePlaces();
    PowSum(unit.Digits(), 9 - unit.Digits());
    var q, r := value / n, value % n;
    assert value == q * n + r;
    assert q == q / 86400 * 86400 + q % 86400;
    assert n * e == 1_000_000_000;
    Monotone(r, n, e);
    Spread(q, n, r, e);
    QuotOfProduct(r, e);
  }

  lemma {:induction false} Spread(q: int, n: nat, r: int, e: nat)
    ensures (q * n + r) * e == q * (n * e) + r * e
  {
  }

  lemma {:induction false} Ordered(a: nat, b: nat, c: nat)
    requires a <= b
    ensures a * c <= b * c
  {
  }

  lemma {:induction false} QuotOfProduct(a: nat, d: nat)
    requires d >= 1
    ensures Quot(a * d, d) == a
  {
    QuotRem(a * d, d);
    var q, r := Quot(a * d, d), Rem(a * d, d);
    assert (a - q) * d == r;
    if a - q >= 1 {
      Ordered(1, a - q, d);
    } else if a - q <= -1 {
      Ordered(1, q - a, d);
    }
  }

  /** Scanning a printed count gives exactly the instant it stands for when the year has four digits, and
      is refused otherwise. */
  lemma {:induction false} TimestampRoundTrip(unit: TimeUnit, value: int)
    ensures var text, t := TimestampString(unit, value), InstantOf(unit, value);
            text.Some? ==> Scanned(text.value) == if -719528 <= t.days <= 2932896 then Some(t) else None
  {
    hide InstantOf, InstantText, Scanned, Truncated, Civil;
    InstantExact(unit, value);
    ScanPrinted(InstantOf(unit, value), unit.Digits());
  }

  /** Every `i64` count of nanoseconds prints, and parses back unchanged. */
  lemma {:induction false} NanosRoundTrip(value: i64)
    ensures TimestampString(Nanosecond, value as int).Some?
    ensures ParseNanos(TimestampString(Nanosecond, value as int).value) == Some(value as int)
  {
    hide InstantOf, InstantText, Scanned, Civil, NanosOf, DayNumber, Pow10;
    var t := InstantOf(Nanosecond, value as int);
    InstantExact(Nanosecond, value as int);
    PowZero();
    assert -719528 <= t.days <= 2932896;
    Landmarks();
    YearInterval(t.days, 0, 9999);
    TimestampRoundTrip(Nanosecond, value as int);
    NanosExact(t);
  }

  /** The units: how many make a second, and how long a printed timestamp of a four-digit year is. */
  lemma {:induction false} UnitsPrint(unit: TimeUnit, value: int)
    ensures unit.PerSecond() == match unit case Second => 1 case Millisecond => 1000 case Microsecond => 1_000_000 case Nanosecond => 1_000_000_000
    ensures var text := TimestampString(unit, value);
            text.Some? && -719528 <= InstantOf(unit, value).days <= 2932896 ==>
              |text.value| == match unit case Second => 20 case Millisecond => 24 case Microsecond => 27 case Nanosecond => 30
  {
    hide Civil, DateText, DayNumber, InstantOf, DaysInMonth;
    SmallPowers();
    NinePlaces();
    PowSum(3, 3);
    var t := InstantOf(unit, value);
    Landmarks();
    CivilNumber(t.days);
    YearInterval(t.days, 0, 9999);
    if TimestampString(unit, value).Some? && -719528 <= t.days <= 2932896 {
      DateTextFields(Civil(t.days));
      ShapeLength(DateText(Civil(t.days)));
      TextParts(t, unit.Digits());
    }
  }

  /** A printed count of any unit parses back to that many microseconds and, where they fit, nanoseconds. */
  lemma {:induction false} UnitRoundTrip(unit: TimeUnit, value: int)
    ensures var text := TimestampString(unit, value);
            text.Some? && -719528 <= InstantOf(unit, value).days <= 2932896 ==>
              var nanos := value * match unit case Second => 1_000_000_000 case Millisecond => 1_000_000 case Microsecond => 1000 case Nanosecond => 1;
              && ParseMicros(text.value) == Some(nanos / 1000)
              && ParseNanos(text.value) == if FitsI64(nanos) then Some(nanos) else None
  {
    hide InstantOf, Scanned, TimestampString, Pow10, ParseNanos, ParseMicros;
    var text := TimestampString(unit, value);
    if text.Some? && -719528 <= InstantOf(unit, value).days <= 2932896 {
      InstantExact(unit, value);
      TimestampRoundTrip(unit, value);
      CountsExact(text.value);
      PowZero();
      SmallPowers();
      NinePlaces();
      PowSum(3, 3);
    }
  }

  /** A count of microseconds that prints parses back unchanged exactly when its year has four digits. */
  lemma {:induction false} MicrosRoundTrip(value: i64)
    requires TimestampString(Microsecond, value as int).Some?
    ensures ParseMicros(TimestampString(Microsecond, value as int).value) ==
            if -719528 <= value as int / 86_400_000_000 <= 2932896 then Some(value as int) else None
  {
    hide InstantOf, InstantText, Scanned, Civil, TimestampString, Pow10;
    var t := InstantOf(Microsecond, value as int);
    InstantExact(Microsecond, value as int);
    TimestampRoundTrip(Microsecond, value as int);
    assert Pow10(3) == 1000 by { SmallPowers(); }
    assert t.TotalNanos() == value as int * 1000;
    assert t.days == value as int / 86_400_000_000;
    if -719528 <= t.days <= 2932896 {
      CountsExact(TimestampString(Microsecond, value as int).value);
    }
  }
}
