/**
 * Calendar days as Python's `datetime.date` has them: the proleptic Gregorian
 * calendar from 0001-01-01 to 9999-12-31, the day count `toordinal`
 * (0001-01-01 is day 1), `weekday` with Monday = 0, subtraction of a
 * `timedelta` of whole days, and the `%Y-%m-%d` text form.
 */
module Civil {
  import opened Wrappers
  import opened Text

  const MinYear := 1
  const MaxYear := 9999

  datatype Date = Date(year: int, month: int, day: int)

  predicate IsLeap(y: int) {
    y % 4 == 0 && (y % 100 != 0 || y % 400 == 0)
  }

  function DaysInMonth(y: int, m: int): (n: int)
    requires 1 <= m <= 12
    ensures 28 <= n <= 31
  {
    if m == 2 then (if IsLeap(y) then 29 else 28)
    else if m == 4 || m == 6 || m == 9 || m == 11 then 30
    else 31
  }

  function DaysInYear(y: int): int {
    if IsLeap(y) then 366 else 365
  }

  /** A date `datetime.date` accepts. */
  predicate Valid(d: Date) {
    MinYear <= d.year <= MaxYear && 1 <= d.month <= 12 && 1 <= d.day <= DaysInMonth(d.year, d.month)
  }

  function DaysBeforeYear(y: int): int
    requires y >= 1
  {
    var z := y - 1;
    365 * z + z / 4 - z / 100 + z / 400
  }

  function DaysBeforeMonth(y: int, m: int): int
    requires 1 <= m <= 12
  {
    (if m == 1 then 0 else if m == 2 then 31 else if m == 3 then 59 else if m == 4 then 90
     else if m == 5 then 120 else if m == 6 then 151 else if m == 7 then 181 else if m == 8 then 212
     else if m == 9 then 243 else if m == 10 then 273 else if m == 11 then 304 else 334)
      + (if m > 2 && IsLeap(y) then 1 else 0)
  }

  /** `date.toordinal()`. */
  function Ordinal(d: Date): int
    requires Valid(d)
  {
    DaysBeforeYear(d.year) + DaysBeforeMonth(d.year, d.month) + d.day
  }

  /** `date.weekday()`: 0 is Monday, 6 is Sunday (0001-01-01 was a Monday). */
  function Weekday(d: Date): (w: int)
    requires Valid(d)
  {
    (Ordinal(d) + 6) % 7
  }

  lemma YearStep(y: int)
    requires y >= 1
    ensures DaysBeforeYear(y + 1) == DaysBeforeYear(y) + DaysInYear(y)
  {
    var z := y - 1;
    assert y / 4 == z / 4 + (if y % 4 == 0 then 1 else 0);
    assert y / 100 == z / 100 + (if y % 100 == 0 then 1 else 0);
    assert y / 400 == z / 400 + (if y % 400 == 0 then 1 else 0);
  }

  lemma {:induction false} YearsIncrease(y1: int, y2: int)
    requires 1 <= y1 <= y2
    ensures DaysBeforeYear(y1) + DaysInYear(y1) * (if y1 < y2 then 1 else 0) <= DaysBeforeYear(y2)
    decreases y2 - y1
  {
    if y1 < y2 {
      YearStep(y1);
      if y1 + 1 < y2 {
        YearsIncrease(y1 + 1, y2);
      }
    }
  }

  lemma MonthsIncrease(y: int, m1: int, m2: int)
    requires 1 <= m1 < m2 <= 12
    ensures DaysBeforeMonth(y, m1) + DaysInMonth(y, m1) <= DaysBeforeMonth(y, m2)
  {
  }

  lemma YearEnd(y: int)
    ensures DaysBeforeMonth(y, 12) + DaysInMonth(y, 12) == DaysInYear(y)
  {
  }

  /** The day count runs through the year in order: it lies after all
      earlier years and does not reach the next one. */
  lemma OrdinalWithinYear(d: Date)
    requires Valid(d)
    ensures DaysBeforeYear(d.year) < Ordinal(d) <= DaysBeforeYear(d.year) + DaysInYear(d.year)
  {
    YearEnd(d.year);
    if d.month < 12 {
      MonthsIncrease(d.year, d.month, 12);
    }
  }

  /** Lexicographic order on (year, month, day), the order Python compares
      dates in. */
  predicate Earlier(a: Date, b: Date) {
    a.year < b.year || (a.year == b.year && (a.month < b.month || (a.month == b.month && a.day < b.day)))
  }

  /** The day count orders dates as the calendar does, so it identifies a
      date uniquely. */
  lemma OrdinalOrder(a: Date, b: Date)
    requires Valid(a) && Valid(b)
    ensures Earlier(a, b) <==> Ordinal(a) < Ordinal(b)
    ensures a == b <==> Ordinal(a) == Ordinal(b)
  {
    OrdinalWithinYear(a);
    OrdinalWithinYear(b);
    if a.year < b.year {
      YearsIncrease(a.year, b.year);
    } else if b.year < a.year {
      YearsIncrease(b.year, a.year);
    } else if a.month < b.month {
      MonthsIncrease(a.year, a.month, b.month);
    } else if b.month < a.month {
      MonthsIncrease(a.year, b.month, a.month);
    }
  }

  /** The last day of the month before `d`'s month. */
  function PrevMonthEnd(d: Date): (r: Date)
    requires Valid(d) && !(d.year == MinYear && d.month == 1)
    ensures Valid(r) && r.day == DaysInMonth(r.year, r.month)
    ensures Ordinal(r) == Ordinal(d) - d.day
  {
    if d.month == 1 then
      YearStep(d.year - 1);
      Date(d.year - 1, 12, 31)
    else
      Date(d.year, d.month - 1, DaysInMonth(d.year, d.month - 1))
  }

  /** `d - timedelta(days=n)`: None where Python raises OverflowError
      because the result would fall before 0001-01-01 (any `n` that large
      also exceeds `timedelta`'s own limit only in the same cases). */
  function SubDays(d: Date, n: nat): (r: Option<Date>)
    requires Valid(d)
    ensures r.Some? <==> n < Ordinal(d)
    ensures r.Some? ==> Valid(r.value) && Ordinal(r.value) == Ordinal(d) - n
    decreases n
  {
    if n < d.day then Some(Date(d.year, d.month, d.day - n))
    else if d.year == MinYear && d.month == 1 then None
    else SubDays(PrevMonthEnd(d), n - d.day)
  }

  /** Stepping a day count back by at most its weekday moves the weekday
      back by the same amount. */
  lemma WeekdayArith(o: int, p: int, n: int)
    requires p == o - n && 0 <= n <= (o + 6) % 7
    ensures (p + 6) % 7 == (o + 6) % 7 - n
  {
    var q := (o + 6) / 7;
    assert p + 6 == 7 * q + ((o + 6) % 7 - n);
  }

  lemma WeekdayArithSunday(o: int, w: int)
    requires w == (o + 6) % 7
    ensures (o - (w + 1) + 6) % 7 == 6
  {
    var q := (o + 6) / 7;
    assert o - (w + 1) + 6 == 7 * (q - 1) + 6;
  }

  /** Going back `Weekday(d)` days reaches a Monday. */
  lemma MondayOnOrBefore(d: Date)
    requires Valid(d)
    ensures Weekday(d) < Ordinal(d) && Weekday(SubDays(d, Weekday(d)).value) == 0
  {
    WeekdayBackWithinWeek(d, Weekday(d));
  }

  /** Going back one day more than the weekday reaches the Sunday before. */
  lemma SundayBefore(d: Date)
    requires Valid(d) && Weekday(d) + 1 < Ordinal(d)
    ensures Weekday(SubDays(d, Weekday(d) + 1).value) == 6
  {
    var o := Ordinal(d);
    WeekdayArithSunday(o, Weekday(d));
  }

  /** Going back `n` days, for `n` up to the weekday, moves the weekday back
      by `n`. */
  lemma WeekdayBackWithinWeek(d: Date, n: nat)
    requires Valid(d) && n <= Weekday(d)
    ensures n < Ordinal(d) && Weekday(SubDays(d, n).value) == Weekday(d) - n
  {
    OrdinalPositive(d);
    WeekdayBelow(Ordinal(d));
    WeekdayStep(d, SubDays(d, n).value, n);
  }

  lemma WeekdayStep(a: Date, b: Date, n: int)
    requires Valid(a) && Valid(b) && Ordinal(b) == Ordinal(a) - n && 0 <= n <= Weekday(a)
    ensures Weekday(b) == Weekday(a) - n
  {
    WeekdayArith(Ordinal(a), Ordinal(b), n);
  }

  /** A weekday is below any positive day count. */
  lemma WeekdayBelow(o: int)
    requires o >= 1
    ensures (o + 6) % 7 < o
  {
    var q := (o + 6) / 7;
    assert o + 6 == 7 * q + (o + 6) % 7;
  }

  /** Day counts start at 1. */
  lemma OrdinalPositive(d: Date)
    requires Valid(d)
    ensures Ordinal(d) >= 1
  {
    var z := d.year - 1;
    assert z / 4 >= z / 100 >= z / 400 >= 0;
  }

  /** `YYYY-MM-DD` at position `i` of `s`: the shape `\d{4}-\d{2}-\d{2}`. */
  predicate DateShapeAt(s: string, i: nat) {
    i + 10 <= |s|
    && IsDigit(s[i]) && IsDigit(s[i + 1]) && IsDigit(s[i + 2]) && IsDigit(s[i + 3])
    && s[i + 4] == '-' && IsDigit(s[i + 5]) && IsDigit(s[i + 6])
    && s[i + 7] == '-' && IsDigit(s[i + 8]) && IsDigit(s[i + 9])
  }

  /** Exactly a `YYYY-MM-DD` text (digits in place, not necessarily a real
      date). */
  predicate IsDateText(t: string) {
    |t| == 10 && DateShapeAt(t, 0)
  }

  /** The ten characters at a `YYYY-MM-DD` position form such a text. */
  lemma DateTextAt(s: string, i: nat)
    requires DateShapeAt(s, i)
    ensures IsDateText(s[i..i + 10])
  {
  }

  /** The number four digits at `i` spell. */
  function Value4At(s: string, i: nat): int
    requires i + 4 <= |s| && IsDigit(s[i]) && IsDigit(s[i + 1]) && IsDigit(s[i + 2]) && IsDigit(s[i + 3])
  {
    1000 * DigitValue(s[i]) + 100 * DigitValue(s[i + 1]) + 10 * DigitValue(s[i + 2]) + DigitValue(s[i + 3])
  }

  /** The number two digits at `i` spell. */
  function Value2At(s: string, i: nat): int
    requires i + 2 <= |s| && IsDigit(s[i]) && IsDigit(s[i + 1])
  {
    10 * DigitValue(s[i]) + DigitValue(s[i + 1])
  }

  /** Four decimal digits of `n`, zero-padded. */
  function Digits4(n: int): (s: string)
    requires 0 <= n <= 9999
    ensures |s| == 4 && AllDigits(s) && Value4At(s, 0) == n
  {
    var a := n / 1000;
    var r := n - 1000 * a;
    var b := r / 100;
    var r2 := r - 100 * b;
    var c := r2 / 10;
    [DigitChar(a), DigitChar(b), DigitChar(c), DigitChar(r2 - 10 * c)]
  }

  /** Two decimal digits of `n`, zero-padded. */
  function Digits2(n: int): (s: string)
    requires 0 <= n <= 99
    ensures |s| == 2 && AllDigits(s) && Value2At(s, 0) == n
  {
    var a := n / 10;
    [DigitChar(a), DigitChar(n - 10 * a)]
  }

  /** Digits are determined by the number they spell. */
  lemma Value4Injective(s: string, i: nat, t: string, j: nat)
    requires i + 4 <= |s| && IsDigit(s[i]) && IsDigit(s[i + 1]) && IsDigit(s[i + 2]) && IsDigit(s[i + 3])
    requires j + 4 <= |t| && IsDigit(t[j]) && IsDigit(t[j + 1]) && IsDigit(t[j + 2]) && IsDigit(t[j + 3])
    requires Value4At(s, i) == Value4At(t, j)
    ensures s[i] == t[j] && s[i + 1] == t[j + 1] && s[i + 2] == t[j + 2] && s[i + 3] == t[j + 3]
  {
    assert DigitValue(s[i]) == DigitValue(t[j]);
    assert DigitValue(s[i + 1]) == DigitValue(t[j + 1]);
    assert DigitValue(s[i + 2]) == DigitValue(t[j + 2]);
  }

  lemma Value2Injective(s: string, i: nat, t: string, j: nat)
    requires i + 2 <= |s| && IsDigit(s[i]) && IsDigit(s[i + 1])
    requires j + 2 <= |t| && IsDigit(t[j]) && IsDigit(t[j + 1])
    requires Value2At(s, i) == Value2At(t, j)
    ensures s[i] == t[j] && s[i + 1] == t[j + 1]
  {
    assert DigitValue(s[i]) == DigitValue(t[j]);
  }

  /** `strftime('%Y-%m-%d')`, the year written with four digits. */
  function Format(d: Date): (s: string)
    requires Valid(d)
    ensures IsDateText(s)
  {
    var y, m, n := Digits4(d.year), Digits2(d.month), Digits2(d.day);
    [y[0], y[1], y[2], y[3], '-', m[0], m[1], '-', n[0], n[1]]
  }

  /** Reads a ten-character `YYYY-MM-DD` text back into a date, if it names
      one. */
  function ParseIso(s: string): (r: Option<Date>)
    ensures r.Some? ==> Valid(r.value)
  {
    if IsDateText(s) then
      var d := Date(Value4At(s, 0), Value2At(s, 5), Value2At(s, 8));
      if Valid(d) then Some(d) else None
    else None
  }

  lemma FormatThenParse(d: Date)
    requires Valid(d)
    ensures ParseIso(Format(d)) == Some(d)
  {
    var f := Format(d);
    assert Value4At(f, 0) == Value4At(Digits4(d.year), 0);
    assert Value2At(f, 5) == Value2At(Digits2(d.month), 0);
    assert Value2At(f, 8) == Value2At(Digits2(d.day), 0);
  }

  lemma ParseThenFormat(s: string)
    requires ParseIso(s).Some?
    ensures Format(ParseIso(s).value) == s
  {
    var d := ParseIso(s).value;
    var f := Format(d);
    Value4Injective(Digits4(d.year), 0, s, 0);
    Value2Injective(Digits2(d.month), 0, s, 5);
    Value2Injective(Digits2(d.day), 0, s, 8);
    assert f == s by {
      forall k | 0 <= k < 10 ensures f[k] == s[k] {}
    }
  }
}
