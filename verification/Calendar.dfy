/** The proleptic Gregorian calendar, and the DATE codec over it. */
module Calendar {
  import opened Wrappers
  import opened Digits

  datatype Date = Date(year: int, month: int, day: int)
  {
    predicate Valid() {
      1 <= month <= 12 && 1 <= day <= DaysInMonth(year, month)
    }

    predicate Earlier(other: Date) {
      || year < other.year
      || (year == other.year && (month < other.month || (month == other.month && day < other.day)))
    }
  }

  predicate IsLeap(year: int) {
    year % 4 == 0 && (year % 100 != 0 || year % 400 == 0)
  }

  function DaysInMonth(year: int, month: int): (n: int)
    ensures 28 <= n <= 31
  {
    if month == 2 then (if IsLeap(year) then 29 else 28)
    else if month in [4, 6, 9, 11] then 30
    else 31
  }

  function DaysInYear(year: int): int {
    if IsLeap(year) then 366 else 365
  }

  const Epoch := Date(1970, 1, 1)

  // ---- Counting days one by one ----------------------------------------------------------------------

  function Tomorrow(d: Date): Date {
    if d.day < DaysInMonth(d.year, d.month) then d.(day := d.day + 1)
    else if d.month < 12 then Date(d.year, d.month + 1, 1)
    else Date(d.year + 1, 1, 1)
  }

  function Yesterday(d: Date): Date {
    if d.day > 1 then d.(day := d.day - 1)
    else if d.month > 1 then Date(d.year, d.month - 1, DaysInMonth(d.year, d.month - 1))
    else Date(d.year - 1, 12, 31)
  }

  /** The date `n` days after the Unix epoch, or before it when negative. */
  function Civil(n: int): Date
    decreases if n < 0 then -n else n
  {
    if n == 0 then Epoch
    else if n > 0 then Tomorrow(Civil(n - 1))
    else Yesterday(Civil(n + 1))
  }

  // ---- Counting days in closed form ------------------------------------------------------------------

  /** Days from 0001-01-01 to the first of January. */
  function DaysBeforeYear(year: int): int {
    var past := year - 1;
    365 * past + past / 4 - past / 100 + past / 400
  }

  function DaysBeforeMonth(year: int, month: int): int
    requires 1 <= month <= 13
  {
    if month == 1 then 0 else DaysBeforeMonth(year, month - 1) + DaysInMonth(year, month - 1)
  }

  /** Days since the Unix epoch: chrono's day of the common era less 719163. */
  function DayNumber(d: Date): int
    requires d.Valid()
  {
    DaysBeforeYear(d.year) + DaysBeforeMonth(d.year, d.month) + d.day - 719163
  }

  lemma {:induction false} Carry(n: int, k: int)
    requires k in [4, 100, 400]
    ensures n / k - (n - 1) / k == if n % k == 0 then 1 else 0
  {
  }

  lemma {:induction false} LeapDay(year: int)
    ensures year / 4 - year / 100 + year / 400 ==
            (year - 1) / 4 - (year - 1) / 100 + (year - 1) / 400 + if IsLeap(year) then 1 else 0
  {
    Carry(year, 4);
    Carry(year, 100);
    Carry(year, 400);
    Nested(year);
  }

  lemma {:induction false} Nested(n: int)
    ensures n % 400 == 0 ==> n % 100 == 0
    ensures n % 100 == 0 ==> n % 4 == 0
  {
  }

  lemma {:induction false} YearLength(year: int)
    ensures DaysBeforeYear(year + 1) == DaysBeforeYear(year) + DaysInYear(year)
    ensures DaysBeforeMonth(year, 13) == DaysInYear(year)
  {
    hide DaysBeforeMonth;
    LeapDay(year);
    assert year + 1 - 1 == year;
    MonthStarts(year);
  }

  /** The day of the year before each month begins. */
  lemma {:induction false} MonthStarts(year: int)
    ensures var leap := if year % 4 == 0 && (year % 100 != 0 || year % 400 == 0) then 1 else 0;
            && DaysBeforeMonth(year, 1) == 0 && DaysBeforeMonth(year, 2) == 31
            && DaysBeforeMonth(year, 3) == 59 + leap && DaysBeforeMonth(year, 4) == 90 + leap
            && DaysBeforeMonth(year, 5) == 120 + leap && DaysBeforeMonth(year, 6) == 151 + leap
            && DaysBeforeMonth(year, 7) == 181 + leap && DaysBeforeMonth(year, 8) == 212 + leap
            && DaysBeforeMonth(year, 9) == 243 + leap && DaysBeforeMonth(year, 10) == 273 + leap
            && DaysBeforeMonth(year, 11) == 304 + leap && DaysBeforeMonth(year, 12) == 334 + leap
            && DaysBeforeMonth(year, 13) == 365 + leap
  {
    assert DaysBeforeMonth(year, 2) == 31;
    assert DaysBeforeMonth(year, 4) == 62 + DaysInMonth(year, 2);
    assert DaysBeforeMonth(year, 6) == DaysBeforeMonth(year, 4) + 61;
    assert DaysBeforeMonth(year, 8) == DaysBeforeMonth(year, 6) + 61;
    assert DaysBeforeMonth(year, 10) == DaysBeforeMonth(year, 8) + 61;
    assert DaysBeforeMonth(year, 12) == DaysBeforeMonth(year, 10) + 61;
  }

  lemma {:induction false} TomorrowCounts(d: Date)
    requires d.Valid()
    ensures Tomorrow(d).Valid() && DayNumber(Tomorrow(d)) == DayNumber(d) + 1
  {
    hide IsLeap, DaysBeforeYear;
    YearLength(d.year);
  }

  lemma {:induction false} YesterdayCounts(d: Date)
    requires d.Valid()
    ensures Yesterday(d).Valid() && DayNumber(Yesterday(d)) == DayNumber(d) - 1
  {
    hide IsLeap, DaysBeforeYear;
    YearLength(d.year - 1);
  }

  /** Stepping `n` days from the epoch ends on the date whose closed-form number is `n`. */
  lemma {:induction false} CivilNumber(n: int)
    ensures Civil(n).Valid() && DayNumber(Civil(n)) == n
    decreases if n < 0 then -n else n
  {
    hide IsLeap, DaysInMonth, Tomorrow, Yesterday;
    if n > 0 {
      CivilNumber(n - 1);
      TomorrowCounts(Civil(n - 1));
    } else if n < 0 {
      CivilNumber(n + 1);
      YesterdayCounts(Civil(n + 1));
    }
  }

  lemma {:induction false} YearsApart(a: int, b: int)
    requires a < b
    ensures DaysBeforeYear(a) + DaysInYear(a) <= DaysBeforeYear(b)
    decreases b - a
  {
    hide IsLeap, DaysBeforeYear;
    YearLength(b - 1);
    if a + 1 < b {
      YearsApart(a, b - 1);
    }
  }

  lemma {:induction false} MonthsApart(year: int, a: int, b: int)
    requires 1 <= a < b <= 13
    ensures DaysBeforeMonth(year, a) + DaysInMonth(year, a) <= DaysBeforeMonth(year, b)
    ensures 0 <= DaysBeforeMonth(year, a)
    decreases b
  {
    hide IsLeap, DaysInMonth;
    if a + 1 < b {
      MonthsApart(year, a, b - 1);
    }
    if a > 1 {
      MonthsApart(year, 1, a);
    }
  }

  /** Day numbers order dates. */
  lemma {:induction false} NumberOrders(a: Date, b: Date)
    requires a.Valid() && b.Valid()
    ensures a.Earlier(b) <==> DayNumber(a) < DayNumber(b)
    ensures a == b <==> DayNumber(a) == DayNumber(b)
  {
    hide DaysInMonth, DaysBeforeYear, DayNumber;
    if a.Earlier(b) {
      EarlierIsLess(a, b);
    } else if b.Earlier(a) {
      EarlierIsLess(b, a);
    }
  }

  lemma {:induction false} EarlierIsLess(a: Date, b: Date)
    requires a.Valid() && b.Valid() && a.Earlier(b)
    ensures DayNumber(a) < DayNumber(b)
  {
    hide IsLeap, DaysInMonth, DaysBeforeYear, DaysBeforeMonth;
    if a.year < b.year {
      YearsApart(a.year, b.year);
      YearLength(a.year);
      MonthsApart(a.year, a.month, 13);
      MonthsApart(b.year, b.month, 13);
    } else if a.month < b.month {
      MonthsApart(a.year, a.month, b.month);
    }
  }

  lemma {:induction false} NumberCivil(d: Date)
    requires d.Valid()
    ensures Civil(DayNumber(d)) == d
  {
    hide DayNumber, Civil;
    var n := DayNumber(d);
    CivilNumber(n);
    NumberOrders(Civil(n), d);
  }

  /** A span of whole years is an interval of day numbers. */
  lemma {:induction false} YearInterval(n: int, first: int, last: int)
    requires first <= last
    ensures first <= Civil(n).year <= last <==> DayNumber(Date(first, 1, 1)) <= n <= DayNumber(Date(last, 12, 31))
  {
    hide DayNumber, Civil, IsLeap;
    CivilNumber(n);
    NumberOrders(Civil(n), Date(first, 1, 1));
    NumberOrders(Date(last, 12, 31), Civil(n));
  }

  // ---- The DATE codec --------------------------------------------------------------------------------

  const MinDate := Date(-262143, 1, 1)
  const MaxDate := Date(262142, 12, 31)

  lemma {:induction false} Landmarks()
    ensures MinDate.Valid() && MaxDate.Valid()
    ensures DayNumber(Date(0, 1, 1)) == -719528
    ensures DayNumber(Date(1, 1, 1)) == -719162
    ensures DayNumber(Date(9999, 12, 31)) == 2932896
    ensures DayNumber(MinDate) < -719528 && 2932896 < DayNumber(MaxDate)
  {
    YearLength(9999);
    YearLength(262142);
  }

  /** A year as chrono prints it: four digits, or a sign and at least four digits outside 0 to 9999. */
  function YearText(year: int): string {
    if 0 <= year <= 9999 then Padded(year, 4)
    else
      var magnitude: nat := if year < 0 then -year else year;
      (if year < 0 then "-" else "+") + if magnitude <= 9999 then Padded(magnitude, 4) else Decimal(magnitude)
  }

  function DateText(d: Date): string
    requires d.Valid()
  {
    YearText(d.year) + "-" + Padded(d.month, 2) + "-" + Padded(d.day, 2)
  }

  /** The dates chrono can hold. */
  predicate Representable(d: Date) {
    !d.Earlier(MinDate) && !MaxDate.Earlier(d)
  }

  /** `date_string`. */
  function DateString(days: int): Option<string> {
    CivilNumber(days);
    if Representable(Civil(days)) then Some(DateText(Civil(days))) else None
  }

  /** `two_digits`. */
  function TwoDigits(s: string, i: nat): Option<nat>
    requires i + 1 < |s|
  {
    if IsDigit(s[i]) && IsDigit(s[i + 1]) then Some(DigitValue(s[i]) * 10 + DigitValue(s[i + 1])) else None
  }

  /** `from_ymd_opt`, as a day number. */
  function DayOf(year: nat, month: nat, day: nat): Option<int> {
    var d := Date(year, month, day);
    if d.Valid() then Some(DayNumber(d)) else None
  }

  /** `parse_date_days`. */
  function ParseDate(s: string): Option<int> {
    if |s| != 10 || s[4] != '-' || s[7] != '-' then None
    else if !(IsDigit(s[0]) && IsDigit(s[1]) && IsDigit(s[2]) && IsDigit(s[3])) then None
    else if !(IsDigit(s[5]) && IsDigit(s[6]) && IsDigit(s[8]) && IsDigit(s[9])) then None
    else
      var year := DigitValue(s[0]) * 1000 + DigitValue(s[1]) * 100 + DigitValue(s[2]) * 10 + DigitValue(s[3]);
      var month := DigitValue(s[5]) * 10 + DigitValue(s[6]);
      var day := DigitValue(s[8]) * 10 + DigitValue(s[9]);
      DayOf(year, month, day)
  }

  // ---- Fixed-width fields ------------------------------------------------------------------------------

  lemma {:induction false} ValueOfTwo(s: string)
    requires |s| == 2 && AllDigits(s)
    ensures Value(s) == DigitValue(s[0]) * 10 + DigitValue(s[1])
  {
    assert s == [] + [s[0]] + [s[1]];
    ValueOfAppend([], s[0]);
    ValueOfAppend([] + [s[0]], s[1]);
  }

  lemma {:induction false} ValueOfFour(s: string)
    requires |s| == 4 && AllDigits(s)
    ensures Value(s) == DigitValue(s[0]) * 1000 + DigitValue(s[1]) * 100 + DigitValue(s[2]) * 10 + DigitValue(s[3])
    ensures Value(s) == Value(s[..2]) * 100 + Value(s[2..])
  {
    ValueOfTwo(s[..2]);
    ValueOfTwo(s[2..]);
    assert s == s[..2] + [s[2]] + [s[3]];
    ValueOfAppend(s[..2], s[2]);
    ValueOfAppend(s[..2] + [s[2]], s[3]);
  }

  /** A text of the shape `dddd-dd-dd`. */
  predicate DateShape(s: string) {
    |s| == 10 && s[4] == '-' && s[7] == '-' && AllDigits(s[..4]) && AllDigits(s[5..7]) && AllDigits(s[8..])
  }

  lemma {:induction false} ParseDateFields(s: string)
    ensures ParseDate(s) == if DateShape(s) then DayOf(Value(s[..4]), Value(s[5..7]), Value(s[8..])) else None
  {
    hide DayOf, Value, DigitValue, IsDigit;
    if |s| == 10 && s[4] == '-' && s[7] == '-' {
      var y, m, d := s[..4], s[5..7], s[8..];
      assert AllDigits(y) <==> IsDigit(y[0]) && IsDigit(y[1]) && IsDigit(y[2]) && IsDigit(y[3]);
      assert AllDigits(m) <==> IsDigit(m[0]) && IsDigit(m[1]);
      assert AllDigits(d) <==> IsDigit(d[0]) && IsDigit(d[1]);
      if DateShape(s) {
        ValueOfFour(y);
        ValueOfTwo(m);
        ValueOfTwo(d);
      }
    }
  }

  /** The text of a date with a four-digit year. */
  lemma {:induction false} DateTextFields(d: Date)
    requires d.Valid() && 0 <= d.year <= 9999
    ensures var s := DateText(d);
            DateShape(s) && Value(s[..4]) == d.year && Value(s[5..7]) == d.month && Value(s[8..]) == d.day
  {
    hide Padded, Value, DaysInMonth;
    var s := DateText(d);
    var y, m, t := Padded(d.year, 4), Padded(d.month, 2), Padded(d.day, 2);
    assert s == y + "-" + m + "-" + t;
    assert s[..4] == y && s[5..7] == m && s[8..] == t;
    SmallPowers();
    PaddedValue(d.year, 4);
    PaddedValue(d.month, 2);
    PaddedValue(d.day, 2);
  }

  lemma {:induction false} SmallPowers()
    ensures Pow10(2) == 100 && Pow10(3) == 1000 && Pow10(4) == 10000
  {
  }

  /** A date-shaped text spells its own fields. */
  lemma {:induction false} ShapeIsText(s: string, d: Date)
    requires DateShape(s) && d == Date(Value(s[..4]), Value(s[5..7]), Value(s[8..])) && d.Valid()
    ensures 0 <= d.year <= 9999 && DateText(d) == s
  {
    hide Padded, Value, DaysInMonth;
    SmallPowers();
    PaddedOfValue(s[..4]);
    PaddedOfValue(s[5..7]);
    PaddedOfValue(s[8..]);
    assert s == s[..4] + "-" + s[5..7] + "-" + s[8..];
  }

  /** A year outside 0 to 9999 prints with a sign, and longer. */
  lemma {:induction false} SignedYear(d: Date)
    requires d.Valid() && !(0 <= d.year <= 9999)
    ensures DateText(d) != [] && !IsDigit(DateText(d)[0]) && |DateText(d)| != 10
  {
    hide Padded, DaysInMonth;
    var magnitude: nat := if d.year < 0 then -d.year else d.year;
    if magnitude > 9999 {
      LongDecimal(magnitude);
    }
  }

  lemma {:induction false} LongDecimal(n: nat)
    requires n > 9999
    ensures |Decimal(n)| > 4
  {
    DecimalLength(n / 10);
    DecimalLength(n);
  }

  lemma {:induction false} DecimalLength(n: nat)
    ensures n < Pow10(|Decimal(n)|)
    ensures n >= 10 ==> |Decimal(n)| == 1 + |Decimal(n / 10)|
  {
    if n >= 10 {
      DecimalLength(n / 10);
    }
  }

  // ---- Printing and parsing are inverse ----------------------------------------------------------------

  /** Parsing a printed date gives the day back exactly when its year has four digits, that is for days
      -719528 to 2932896. */
  lemma {:induction false} ParsePrinted(days: int)
    requires DateString(days).Some?
    ensures ParseDate(DateString(days).value) == if -719528 <= days <= 2932896 then Some(days) else None
  {
    hide Civil, DateText, DayNumber, DateShape, ParseDate, DaysInMonth;
    var d := Civil(days);
    CivilNumber(days);
    Landmarks();
    YearInterval(days, 0, 9999);
    ParseDateFields(DateText(d));
    if 0 <= d.year <= 9999 {
      DateTextFields(d);
    } else {
      SignedYear(d);
      ShapeLength(DateText(d));
    }
  }

  lemma {:induction false} ShapeLength(s: string)
    ensures DateShape(s) ==> |s| == 10
  {
  }

  /** Whatever parses is what its day prints as. */
  lemma {:induction false} PrintParsed(s: string)
    requires ParseDate(s).Some?
    ensures DateString(ParseDate(s).value) == Some(s)
    ensures -719528 <= ParseDate(s).value <= 2932896
  {
    hide Civil, DateText, DayNumber, ParseDate, DaysInMonth;
    ParseDateFields(s);
    var d := Date(Value(s[..4]), Value(s[5..7]), Value(s[8..]));
    ShapeIsText(s, d);
    NumberCivil(d);
    Landmarks();
    YearInterval(DayNumber(d), 0, 9999);
  }

  /** The dates Spanner stores, 0001-01-01 to 9999-12-31, are the days -719162 to 2932896; all of them
      print. */
  lemma {:induction false} SpannerRange(days: int)
    ensures 1 <= Civil(days).year <= 9999 <==> -719162 <= days <= 2932896
    ensures -719162 <= days <= 2932896 ==> DateString(days).Some?
  {
    hide Civil, DateText, DayNumber, DaysInMonth;
    Landmarks();
    YearInterval(days, 1, 9999);
  }

  /** On four-digit years the order of the texts is the order of the days. */
  lemma {:induction false} TextOrder(a: int, b: int)
    requires -719528 <= a <= 2932896 && -719528 <= b <= 2932896
    ensures DateString(a).Some? && DateString(b).Some?
    ensures Before(DateString(a).value, DateString(b).value) <==> a < b
  {
    hide Civil, DateText, DayNumber, DaysInMonth, Before;
    Landmarks();
    YearInterval(a, 0, 9999);
    YearInterval(b, 0, 9999);
    CivilNumber(a);
    CivilNumber(b);
    NumberOrders(Civil(a), Civil(b));
    DateTextOrder(Civil(a), Civil(b));
  }

  lemma {:induction false} DateTextOrder(a: Date, b: Date)
    requires a.Valid() && b.Valid() && 0 <= a.year <= 9999 && 0 <= b.year <= 9999
    ensures Before(DateText(a), DateText(b)) <==> a.Earlier(b)
  {
    hide Padded, Before, DaysInMonth;
    SmallPowers();
    BeforePadded(a.year, b.year, 4);
    BeforePadded(a.month, b.month, 2);
    BeforePadded(a.day, b.day, 2);
    var ya, yb, ma, mb := Padded(a.year, 4) + "-", Padded(b.year, 4) + "-", Padded(a.month, 2) + "-", Padded(b.month, 2) + "-";
    var da, db := Padded(a.day, 2), Padded(b.day, 2);
    assert DateText(a) == ya + (ma + da) && DateText(b) == yb + (mb + db);
    BeforeFields(ya, yb, ma + da, mb + db);
    BeforeFields(ma, mb, da, db);
    DashedOrder(Padded(a.year, 4), Padded(b.year, 4));
    DashedOrder(Padded(a.month, 2), Padded(b.month, 2));
  }

  lemma {:induction false} DashedOrder(a: string, b: string)
    requires |a| == |b|
    ensures Before(a + "-", b + "-") <==> Before(a, b)
    ensures a + "-" == b + "-" <==> a == b
  {
    BeforeFields(a, b, "-", "-");
    assert !Before("-", "-");
    assert (a + "-")[..|a|] == a && (b + "-")[..|b|] == b;
  }
}
