/** The proleptic Gregorian calendar on whole hours, as Python's `datetime`
    has it: an instant is a count of hours since 0001-01-01T00, and is written
    and read with the pattern "%Y-%m-%dT%H". */
module Calendar {
  import opened Outcomes
  import opened Decimal

  /** A calendar date and hour of the day. */
  datatype Civil = Civil(year: int, month: int, day: int, hour: int)

  predicate IsLeapYear(y: int) {
    y % 4 == 0 && (y % 100 != 0 || y % 400 == 0)
  }

  function DaysInYear(y: int): int {
    if IsLeapYear(y) then 366 else 365
  }

  function DaysInMonth(y: int, m: int): int
    requires 1 <= m <= 12
  {
    if m == 2 then (if IsLeapYear(y) then 29 else 28)
    else if m == 4 || m == 6 || m == 9 || m == 11 then 30
    else 31
  }

  /** The dates `datetime` can represent: years 1 to 9999. */
  predicate Valid(c: Civil) {
    && 1 <= c.year <= 9999
    && 1 <= c.month <= 12
    && 1 <= c.day <= DaysInMonth(c.year, c.month)
    && 0 <= c.hour < 24
  }

  /** Days from 0001-01-01 to the first of January of year `y`. */
  function DaysBeforeYear(y: int): int
    requires y >= 1
  {
    var p := y - 1;
    365 * p + p / 4 - p / 100 + p / 400
  }

  /** Days from the first of January to the first of month `m` (13 stands for the next year). */
  function DaysBeforeMonth(y: int, m: int): int
    requires 1 <= m <= 13
  {
    var common :=
      if m == 1 then 0 else if m == 2 then 31 else if m == 3 then 59
      else if m == 4 then 90 else if m == 5 then 120 else if m == 6 then 151
      else if m == 7 then 181 else if m == 8 then 212 else if m == 9 then 243
      else if m == 10 then 273 else if m == 11 then 304 else if m == 12 then 334
      else 365;
    if m > 2 && IsLeapYear(y) then common + 1 else common
  }

  /** The hour count of a calendar date and hour. */
  function ToHours(c: Civil): int
    requires Valid(c)
  {
    (DaysBeforeYear(c.year) + DaysBeforeMonth(c.year, c.month) + c.day - 1) * 24 + c.hour
  }

  /** 9999-12-31T23, the last hour `datetime` can represent. */
  const MaxHour: int := 87649415

  predicate InRange(h: int) {
    0 <= h <= MaxHour
  }

  lemma MaxHourIsLastHour()
    ensures ToHours(Civil(9999, 12, 31, 23)) == MaxHour
  {
  }

  /** Counting multiples: one more from y - 1 to y exactly when y is one. */
  lemma Multiples(y: int)
    requires y >= 1
    ensures y / 4 == (y - 1) / 4 + (if y % 4 == 0 then 1 else 0)
    ensures y / 100 == (y - 1) / 100 + (if y % 100 == 0 then 1 else 0)
    ensures y / 400 == (y - 1) / 400 + (if y % 400 == 0 then 1 else 0)
  {
  }

  lemma YearStep(y: int)
    requires y >= 1
    ensures DaysBeforeYear(y + 1) == DaysBeforeYear(y) + DaysInYear(y)
  {
    Multiples(y);
    var p := y - 1;
    var a, b, c := y / 4 - p / 4, y / 100 - p / 100, y / 400 - p / 400;
    assert DaysBeforeYear(y + 1) - DaysBeforeYear(y) == 365 + a - b + c;
    Divisors(y);
  }

  lemma Divisors(y: int)
    ensures y % 400 == 0 ==> y % 100 == 0
    ensures y % 100 == 0 ==> y % 4 == 0
  {
    CenturyDivisor(y);
    QuadrenniumDivisor(y);
  }

  lemma CenturyDivisor(y: int)
    ensures y % 400 == 0 ==> y % 100 == 0
  {
    var q := y / 400;
    assert y == 400 * q + y % 400;
    if y % 400 == 0 {
      assert y == 100 * (4 * q) + 0;
    }
  }

  lemma QuadrenniumDivisor(y: int)
    ensures y % 100 == 0 ==> y % 4 == 0
  {
    var q := y / 100;
    assert y == 100 * q + y % 100;
    if y % 100 == 0 {
      assert y == 4 * (25 * q) + 0;
    }
  }

  lemma {:induction false} YearsIncrease(a: int, b: int)
    requires 1 <= a < b
    ensures DaysBeforeYear(a) + DaysInYear(a) <= DaysBeforeYear(b)
    decreases b - a
  {
    YearStep(a);
    if a + 1 < b {
      YearsIncrease(a + 1, b);
      YearStep(a + 1);
    }
  }

  /** At most one year contains a given day. */
  lemma YearUnique(y1: int, y2: int, days: int)
    requires y1 >= 1 && y2 >= 1
    requires DaysBeforeYear(y1) <= days < DaysBeforeYear(y1) + DaysInYear(y1)
    requires DaysBeforeYear(y2) <= days < DaysBeforeYear(y2) + DaysInYear(y2)
    ensures y1 == y2
  {
    if y1 < y2 {
      YearsIncrease(y1, y2);
    } else if y2 < y1 {
      YearsIncrease(y2, y1);
    }
  }

  /** The year that contains day number `days` (0 is 0001-01-01), found by
      splitting off 400-, 100-, 4- and 1-year cycles. */
  function YearOf(days: nat): (y: int)
    ensures y >= 1
    ensures DaysBeforeYear(y) <= days < DaysBeforeYear(y) + DaysInYear(y)
  {
    var a := days / 146097;
    var r := days % 146097;
    var b := r / 36524;
    var r2 := r % 36524;
    var c := r2 / 1461;
    var r3 := r2 % 1461;
    var d := r3 / 365;
    var y :=
      if b == 4 then 400 * a + 400
      else if d == 4 then 400 * a + 100 * b + 4 * c + 4
      else 400 * a + 100 * b + 4 * c + d + 1;
    YearOfCycles(a, b, c, d, r3 % 365);
    y
  }

  lemma YearOfCycles(a: nat, b: nat, c: nat, d: nat, e: nat)
    requires b <= 4 && c < 25 && d <= 4 && e < 365
    requires b == 4 ==> c == 0 && d == 0 && e == 0
    requires d == 4 ==> e == 0 && b < 4 && c < 24
    ensures var days := 146097 * a + 36524 * b + 1461 * c + 365 * d + e;
            var y := if b == 4 then 400 * a + 400
                     else if d == 4 then 400 * a + 100 * b + 4 * c + 4
                     else 400 * a + 100 * b + 4 * c + d + 1;
            y >= 1 && DaysBeforeYear(y) <= days < DaysBeforeYear(y) + DaysInYear(y)
  {
    if b == 4 {
      LastDayOfQuadricentury(a);
    } else if d == 4 {
      LastDayOfQuadrennium(a, b, c);
    } else {
      DayInOrdinaryCycle(a, b, c, d);
    }
  }

  /** The last day of a 400-year cycle is the 366th of its last year. */
  lemma LastDayOfQuadricentury(a: nat)
    ensures var y := 400 * a + 400;
            DaysBeforeYear(y) == 146097 * a + 145731 && DaysInYear(y) == 366
  {
    var y := 400 * a + 400;
    Quotient(y - 1, 4, 100 * a + 99, 3);
    Quotient(y - 1, 100, 4 * a + 3, 99);
    Quotient(y - 1, 400, a, 399);
    Quotient(y, 4, 100 * a + 100, 0);
    Quotient(y, 400, a + 1, 0);
  }

  /** Euclidean division recovers the quotient and remainder it was built from. */
  lemma Quotient(n: int, d: int, q: int, r: int)
    requires n == d * q + r && 0 <= r < d
    ensures n / d == q && n % d == r
  {
    var q0, r0 := n / d, n % d;
    assert d * (q - q0) == r0 - r;
    if q - q0 >= 1 {
      AtLeastOnce(d, q - q0);
    } else if q0 - q >= 1 {
      AtLeastOnce(d, q0 - q);
    }
  }

  lemma AtLeastOnce(d: int, k: int)
    requires d > 0 && k >= 1
    ensures d * k >= d
  {
    assert d * k == d + d * (k - 1);
  }

  /** The last day of a 4-year cycle short of a century's end is the 366th of its last year. */
  lemma LastDayOfQuadrennium(a: nat, b: nat, c: nat)
    requires b < 4 && c < 24
    ensures var y := 400 * a + 100 * b + 4 * c + 4;
            DaysBeforeYear(y) == 146097 * a + 36524 * b + 1461 * c + 1095 && DaysInYear(y) == 366
  {
    var y := 400 * a + 100 * b + 4 * c + 4;
    Quotient(y - 1, 4, 100 * a + 25 * b + c, 3);
    Quotient(y - 1, 100, 4 * a + b, 4 * c + 3);
    Quotient(y - 1, 400, a, 100 * b + 4 * c + 3);
    Quotient(y, 4, 100 * a + 25 * b + c + 1, 0);
    Quotient(y, 100, 4 * a + b, 4 * c + 4);
  }

  /** Any other day falls in year d + 1 of its 4-year cycle. */
  lemma DayInOrdinaryCycle(a: nat, b: nat, c: nat, d: nat)
    requires b < 4 && c < 25 && d < 4
    ensures var y := 400 * a + 100 * b + 4 * c + d + 1;
            DaysBeforeYear(y) == 146097 * a + 36524 * b + 1461 * c + 365 * d && DaysInYear(y) >= 365
  {
    var y := 400 * a + 100 * b + 4 * c + d + 1;
    Quotient(y - 1, 4, 100 * a + 25 * b + c, d);
    Quotient(y - 1, 100, 4 * a + b, 4 * c + d);
    Quotient(y - 1, 400, a, 100 * b + 4 * c + d);
  }

  lemma MonthStep(y: int, m: int)
    requires 1 <= m <= 12
    ensures DaysBeforeMonth(y, m + 1) == DaysBeforeMonth(y, m) + DaysInMonth(y, m)
    ensures DaysBeforeMonth(y, 13) == DaysInYear(y)
  {
  }

  /** The month of day `doy` (0-based) of year `y`, searched from month `m` on. */
  function MonthFrom(y: int, m: int, doy: int): (r: int)
    requires 1 <= m <= 12
    requires DaysBeforeMonth(y, m) <= doy < DaysInYear(y)
    ensures m <= r <= 12
    ensures DaysBeforeMonth(y, r) <= doy < DaysBeforeMonth(y, r) + DaysInMonth(y, r)
    decreases 12 - m
  {
    MonthStep(y, m);
    if doy < DaysBeforeMonth(y, m + 1) then m else MonthFrom(y, m + 1, doy)
  }

  /** At most one month contains a given day of the year. */
  lemma MonthUnique(y: int, m1: int, m2: int, doy: int)
    requires 1 <= m1 <= 12 && 1 <= m2 <= 12
    requires DaysBeforeMonth(y, m1) <= doy < DaysBeforeMonth(y, m1) + DaysInMonth(y, m1)
    requires DaysBeforeMonth(y, m2) <= doy < DaysBeforeMonth(y, m2) + DaysInMonth(y, m2)
    ensures m1 == m2
  {
  }

  /** The calendar date and hour of an hour count; the inverse of ToHours. */
  function FromHours(h: int): (c: Civil)
    requires InRange(h)
    ensures Valid(c) && ToHours(c) == h
  {
    var days := h / 24;
    var y := YearOf(days);
    if y > 9999 then YearsIncrease(10000, y); assert false; Civil(1, 1, 1, 0) else
    var doy := days - DaysBeforeYear(y);
    var m := MonthFrom(y, 1, doy);
    Civil(y, m, doy - DaysBeforeMonth(y, m) + 1, h % 24)
  }

  /** Year 9999 ends on day 3652058, the last day `datetime` can represent. */
  lemma LastYearEnds(y: int)
    requires 1 <= y <= 9999
    ensures DaysBeforeYear(y) + DaysInYear(y) <= 3652059
  {
    if y < 9999 {
      YearsIncrease(y, 9999);
    }
  }

  /** The day number of a valid date, and the day of its year it is. */
  function DayNumber(c: Civil): (n: int)
    requires Valid(c)
    ensures DaysBeforeYear(c.year) <= n < DaysBeforeYear(c.year) + DaysInYear(c.year)
    ensures 0 <= n < 3652059
    ensures ToHours(c) == n * 24 + c.hour
  {
    MonthStep(c.year, c.month);
    LastYearEnds(c.year);
    DaysBeforeYear(c.year) + DaysBeforeMonth(c.year, c.month) + c.day - 1
  }

  /** Every valid date and hour is an hour count in range, and FromHours gives it back. */
  lemma FromHoursToHours(c: Civil)
    requires Valid(c)
    ensures InRange(ToHours(c)) && FromHours(ToHours(c)) == c
  {
    var days := DayNumber(c);
    var h := ToHours(c);
    assert h / 24 == days && h % 24 == c.hour;
    var y := YearOf(days);
    YearUnique(c.year, y, days);
    var doy := days - DaysBeforeYear(y);
    MonthUnique(y, c.month, MonthFrom(y, 1, doy), doy);
  }

  /** ToHours is one-to-one on valid dates. */
  lemma ToHoursInjective(c1: Civil, c2: Civil)
    requires Valid(c1) && Valid(c2) && ToHours(c1) == ToHours(c2)
    ensures c1 == c2
  {
    FromHoursToHours(c1);
    FromHoursToHours(c2);
  }

  /** The date and hour one hour after `c`, by the calendar's rollover rules. */
  function NextHour(c: Civil): Civil
    requires Valid(c)
  {
    if c.hour < 23 then c.(hour := c.hour + 1)
    else if c.day < DaysInMonth(c.year, c.month) then c.(day := c.day + 1, hour := 0)
    else if c.month < 12 then Civil(c.year, c.month + 1, 1, 0)
    else Civil(c.year + 1, 1, 1, 0)
  }

  /** Every date and hour but the last has a successor, one hour count later. */
  lemma NextHourIsOneLater(c: Civil)
    requires Valid(c) && c != Civil(9999, 12, 31, 23)
    ensures Valid(NextHour(c)) && ToHours(NextHour(c)) == ToHours(c) + 1
  {
    MonthStep(c.year, c.month);
    if c.hour == 23 && c.day == DaysInMonth(c.year, c.month) && c.month == 12 {
      YearStep(c.year);
      assert ToHours(c) == (DaysBeforeYear(c.year) + DaysInYear(c.year)) * 24 - 1;
    }
  }

  /** Adding one to an hour count moves the date by the rollover rules: to the
      next day, month and year, with February 29 in leap years only. */
  lemma OneHourLater(h: int)
    requires 0 <= h < MaxHour
    ensures FromHours(h + 1) == NextHour(FromHours(h))
  {
    var c := FromHours(h);
    MaxHourIsLastHour();
    if c == Civil(9999, 12, 31, 23) {
      assert false;
    }
    NextHourIsOneLater(c);
    FromHoursToHours(NextHour(c));
  }

  /** `strftime("%Y-%m-%dT%H")`: four-digit year, two-digit month, day and hour. */
  function Format(h: int): (s: string)
    requires InRange(h)
    ensures |s| == 13
  {
    Canonical(FromHours(h))
  }

  /** The text Format gives for a valid date and hour. */
  function Canonical(c: Civil): (s: string)
    requires Valid(c)
  {
    Padded(c.year, 4) + "-" + Padded(c.month, 2) + "-" + Padded(c.day, 2) + "T" + Padded(c.hour, 2)
  }

  lemma FormatCivil(c: Civil)
    requires Valid(c)
    ensures InRange(ToHours(c)) && Format(ToHours(c)) == Canonical(c)
  {
    FromHoursToHours(c);
  }

  /** The first index in `s` holding `a` or `b`, or `|s|` when there is none. */
  function IndexOf(s: string, a: char, b: char): (i: nat)
    ensures i <= |s|
    ensures i < |s| ==> s[i] == a || s[i] == b
    ensures forall j :: 0 <= j < i ==> s[j] != a && s[j] != b
    decreases |s|
  {
    if s == [] then 0
    else if s[0] == a || s[0] == b then 0
    else 1 + IndexOf(s[1..], a, b)
  }

  /** A field of one or two digits (strptime's %m and %H; %d also allows " d"). */
  predicate ShortNumber(f: string) {
    1 <= |f| <= 2 && AllDigits(f)
  }

  predicate DayField(f: string) {
    ShortNumber(f) || (|f| == 2 && f[0] == ' ' && IsDigit(f[1]))
  }

  function DayValue(f: string): nat
    requires DayField(f)
  {
    if f[0] == ' ' then DigitValue(f[1]) else Value(f)
  }

  /** The four fields of "Y-M-DTH": the text before the first dash (which must
      be four digits), up to the next dash, up to the next 'T' or 't', and the rest. */
  function Fields(s: string): Option<(string, string, string, string)>
  {
    if |s| < 5 || !AllDigits(s[..4]) || s[4] != '-' then None
    else
      var rest := s[5..];
      var i := IndexOf(rest, '-', '-');
      if i == |rest| then None
      else
        var rest2 := rest[i + 1..];
        var j := IndexOf(rest2, 'T', 't');
        if j == |rest2| then None
        else Some((s[..4], rest[..i], rest2[..j], rest2[j + 1..]))
  }

  /** `strptime(s, "%Y-%m-%dT%H")` with a UTC result: exactly four digits of
      year, a dash, a month of one or two digits, a dash, a day of one or two
      digits or a space and a digit, a 'T' in either case, an hour of one or two
      digits and nothing after it; the date must then exist. */
  function Parse(s: string): (r: Result<int>)
    ensures r.Ok? ==> InRange(r.value)
    ensures r.Err? ==> r.error == BadDate(s)
  {
    match Fields(s)
    case None => Err(BadDate(s))
    case Some((year, month, day, hour)) =>
      if !AllDigits(year) || !ShortNumber(month) || !DayField(day) || !ShortNumber(hour) then Err(BadDate(s))
      else
        var c := Civil(Value(year), Value(month), DayValue(day), Value(hour));
        if !Valid(c) then Err(BadDate(s))
        else
          FromHoursToHours(c);
          Ok(ToHours(c))
  }

  /** A string in the canonical layout "YYYY-MM-DDTHH" splits into its four fields. */
  lemma FieldsCanonical(ys: string, ms: string, ds: string, hs: string)
    requires |ys| == 4 && |ms| == 2 && |ds| == 2 && |hs| == 2
    requires AllDigits(ys) && AllDigits(ms) && AllDigits(ds) && AllDigits(hs)
    ensures Fields(ys + "-" + ms + "-" + ds + "T" + hs) == Some((ys, ms, ds, hs))
  {
    var s := ys + "-" + ms + "-" + ds + "T" + hs;
    assert s[..4] == ys && s[4] == '-';
    var rest := s[5..];
    assert rest == ms + "-" + ds + "T" + hs;
    assert IndexOf(rest, '-', '-') == 2 by {
      assert rest[2] == '-' && IsDigit(rest[0]) && IsDigit(rest[1]);
    }
    assert rest[..2] == ms;
    var rest2 := rest[3..];
    var q := ds + "T" + hs;
    assert s == (ys + "-" + ms + "-") + q;
    assert rest2 == s[8..] == q;
    assert IndexOf(rest2, 'T', 't') == 2 by {
      assert rest2[2] == 'T' && IsDigit(rest2[0]) && IsDigit(rest2[1]);
    }
    assert rest2[..2] == ds && rest2[3..] == hs;
  }

  /** A string in the canonical layout "YYYY-MM-DDTHH" reads as the date its digits spell. */
  lemma ParseCanonical(ys: string, ms: string, ds: string, hs: string)
    requires |ys| == 4 && |ms| == 2 && |ds| == 2 && |hs| == 2
    requires AllDigits(ys) && AllDigits(ms) && AllDigits(ds) && AllDigits(hs)
    requires Valid(Civil(Value(ys), Value(ms), Value(ds), Value(hs)))
    ensures Parse(ys + "-" + ms + "-" + ds + "T" + hs) == Ok(ToHours(Civil(Value(ys), Value(ms), Value(ds), Value(hs))))
  {
    FieldsCanonical(ys, ms, ds, hs);
    assert ShortNumber(ms) && DayField(ds) && ShortNumber(hs);
    assert DayValue(ds) == Value(ds) by {
      assert IsDigit(ds[0]);
    }
  }

  /** Reading back a formatted hour gives the same hour. */
  lemma ParseFormat(h: int)
    requires InRange(h)
    ensures Parse(Format(h)) == Ok(h)
  {
    var c := FromHours(h);
    PaddedValue(c.year, 4);
    PaddedValue(c.month, 2);
    PaddedValue(c.day, 2);
    PaddedValue(c.hour, 2);
    ParseCanonical(Padded(c.year, 4), Padded(c.month, 2), Padded(c.day, 2), Padded(c.hour, 2));
  }
}
