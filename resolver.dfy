/**
 * The date-expression resolver `_parse_date_filter`: a lower-cased, stripped
 * expression and the current day become a pair of `YYYY-MM-DD` strings.
 *
 * The resolver is split in two as the code reads: `Classify` decides which
 * branch the text takes (the exact keywords, then the prefix-anchored regular
 * expressions in order), and `Evaluate` computes that branch's pair.
 */
module DateResolver {
  import opened Wrappers
  import opened Text
  import opened Civil

  /** The exceptions `datetime` raises: `replace` with a day or year that
      does not exist, and subtraction below 0001-01-01. */
  datatype DateError = ValueError | OverflowError

  /** The branch an expression takes; captured groups are kept verbatim. */
  datatype Expr =
    | Today | Yesterday | ThisWeek | LastWeek | ThisMonth | LastMonth | ThisYear | LastYear
    | LastDays(days: nat) | LastWeeks(weeks: nat) | LastMonths(months: nat)
    | Range(first: string, last: string)
    | OnDate(date: string)
    | SinceDate(date: string)
    | BeforeDate(date: string)
    | Unrecognized

  /** The `(from_date, to_date)` pair the resolver returns. */
  datatype Interval = Interval(from: string, to: string)

  // ---------------------------------------------------------------------
  // The regular expressions, matched as `re.match` does: anchored at the
  // start only, so text after a match is ignored.
  // ---------------------------------------------------------------------

  /** `re.match(r'last (\d+) <unit>s?', s)`: the captured count. The optional
      `s` never decides a prefix match, so it is not examined. */
  function MatchLastN(s: string, unit: string): (r: Option<nat>)
    ensures r.Some? ==> |s| >= 5 && LastNMatchAt(s, unit, DigitRun(s, 5)) && r.value == DecimalValue(s[5..5 + DigitRun(s, 5)])
  {
    if StartsWith(s, "last ") then
      var k := DigitRun(s, 5);
      assert AllDigits(s[5..5 + k]);
      if k >= 1 && StartsWith(s[5 + k..], " " + unit) then Some(DecimalValue(s[5..5 + k])) else None
    else None
  }

  /** The regular expression's own reading: the text is `last `, then `k`
      digits, then a space and the unit. */
  predicate LastNMatchAt(s: string, unit: string, k: nat) {
    k >= 1 && 5 + k <= |s| && StartsWith(s, "last ") && AllDigits(s[5..5 + k])
    && StartsWith(s[5 + k..], " " + unit)
  }

  /** Any way the pattern can match is the greedy one, so the matcher finds
      every match and captures the same digits. */
  lemma LastNMatchIsGreedy(s: string, unit: string, k: nat)
    requires LastNMatchAt(s, unit, k)
    ensures MatchLastN(s, unit) == Some(DecimalValue(s[5..5 + k]))
  {
    assert s[5 + k] == ' ';
    DigitRunUnique(s, 5, k);
  }

  /** `re.match(r'(\d{4}-\d{2}-\d{2})\s+to\s+(\d{4}-\d{2}-\d{2})', s)`. */
  function MatchRange(s: string): (r: Option<(string, string)>)
    ensures r.Some? ==> DateShapeAt(s, 0) && r.value.0 == s[..10]
    ensures r.Some? ==> IsDateText(r.value.0) && IsDateText(r.value.1)
  {
    if DateShapeAt(s, 0) then
      var i := 10 + SpaceRun(s, 10);
      if i > 10 && StartsWith(s[i..], "to") then
        var j := i + 2 + SpaceRun(s, i + 2);
        if j > i + 2 && DateShapeAt(s, j) then
          DateTextAt(s, 0);
          DateTextAt(s, j);
          assert s[..10] == s[0..10];
          Some((s[..10], s[j..j + 10]))
        else None
      else None
    else None
  }

  predicate AllSpace(s: string) {
    forall i :: 0 <= i < |s| ==> IsSpace(s[i])
  }

  /** The pattern's reading of a range: a date, whitespace up to `i`, `to`,
      whitespace up to `j`, a date at `j`. */
  predicate RangeMatchAt(s: string, i: nat, j: nat) {
    DateShapeAt(s, 0) && 10 < i && i + 2 < j <= |s| && AllSpace(s[10..i])
    && s[i..i + 2] == "to" && AllSpace(s[i + 2..j]) && DateShapeAt(s, j)
  }

  lemma RangeMatchIsGreedy(s: string, i: nat, j: nat)
    requires RangeMatchAt(s, i, j)
    ensures MatchRange(s) == Some((s[..10], s[j..j + 10]))
  {
    GapRun(s, 10, i);
    GapRun(s, i + 2, j);
    assert s[i..][..2] == s[i..i + 2];
    RangeFromRuns(s, i, j);
  }

  /** Whitespace filling a slice up to a non-space is exactly the greedy run. */
  lemma GapRun(s: string, a: nat, b: nat)
    requires a <= b <= |s| && AllSpace(s[a..b])
    requires b < |s| ==> !IsSpace(s[b])
    ensures SpaceRun(s, a) == b - a
  {
    SpaceSlice(s, a, b);
    SpaceRunUnique(s, a, b - a);
  }

  /** Whitespace at each position of a slice is whitespace over the slice. */
  lemma RunIsSpace(s: string, a: nat, b: nat)
    requires a <= b <= |s| && forall k :: a <= k < b ==> IsSpace(s[k])
    ensures AllSpace(s[a..b])
  {
    forall k | 0 <= k < b - a ensures IsSpace(s[a..b][k]) {
      assert s[a..b][k] == s[a + k];
    }
  }

  /** Whitespace over a slice is whitespace at each of its positions. */
  lemma SpaceSlice(s: string, a: nat, b: nat)
    requires a <= b <= |s| && AllSpace(s[a..b])
    ensures forall k :: a <= k < b ==> IsSpace(s[k])
  {
    forall k | a <= k < b ensures IsSpace(s[k]) {
      assert s[a..b][k - a] == s[k];
    }
  }

  /** The matcher succeeds exactly when the text has the pattern's form, and
      then captures the first date and the date after `to`. */
  lemma MatchRangeMeans(s: string)
    ensures MatchRange(s).Some? <==> exists i: nat, j: nat :: RangeMatchAt(s, i, j)
    ensures MatchRange(s).Some? ==>
      exists i: nat, j: nat :: RangeMatchAt(s, i, j) && MatchRange(s).value == (s[..10], s[j..j + 10])
  {
    if MatchRange(s).Some? {
      var i := 10 + SpaceRun(s, 10);
      var j := i + 2 + SpaceRun(s, i + 2);
      RunsMatchRange(s, i, j);
    }
    if exists i: nat, j: nat :: RangeMatchAt(s, i, j) {
      var i: nat, j: nat :| RangeMatchAt(s, i, j);
      RangeMatchIsGreedy(s, i, j);
    }
  }

  /** The runs the matcher reads form the pattern's reading of a range. */
  lemma RunsMatchRange(s: string, i: nat, j: nat)
    requires DateShapeAt(s, 0) && i == 10 + SpaceRun(s, 10) && i > 10 && StartsWith(s[i..], "to")
    requires j == i + 2 + SpaceRun(s, i + 2) && j > i + 2 && DateShapeAt(s, j)
    ensures RangeMatchAt(s, i, j)
  {
    RunIsSpace(s, 10, i);
    RunIsSpace(s, i + 2, j);
    assert s[i..][..2] == s[i..i + 2];
  }

  lemma RangeFromRuns(s: string, i: nat, j: nat)
    requires DateShapeAt(s, 0) && 10 < i && i + 2 < j && DateShapeAt(s, j)
    requires SpaceRun(s, 10) == i - 10 && StartsWith(s[i..], "to") && SpaceRun(s, i + 2) == j - i - 2
    ensures MatchRange(s) == Some((s[..10], s[j..j + 10]))
  {
  }

  /** `re.match(r'<keyword>\s+(\d{4}-\d{2}-\d{2})', s)` for `since` and
      `before`. */
  function MatchKeywordDate(s: string, keyword: string): (r: Option<string>)
    ensures r.Some? ==> StartsWith(s, keyword)
    ensures r.Some? ==> var j := |keyword| + SpaceRun(s, |keyword|); KeywordDateAt(s, keyword, j) && r.value == s[j..j + 10]
    ensures r.Some? ==> IsDateText(r.value)
  {
    if StartsWith(s, keyword) then
      var j := |keyword| + SpaceRun(s, |keyword|);
      if j > |keyword| && DateShapeAt(s, j) then
        RunIsSpace(s, |keyword|, j);
        DateTextAt(s, j);
        Some(s[j..j + 10])
      else None
    else None
  }

  predicate KeywordDateAt(s: string, keyword: string, j: nat) {
    StartsWith(s, keyword) && |keyword| < j <= |s| && AllSpace(s[|keyword|..j]) && DateShapeAt(s, j)
  }

  lemma KeywordDateIsGreedy(s: string, keyword: string, j: nat)
    requires KeywordDateAt(s, keyword, j)
    ensures MatchKeywordDate(s, keyword) == Some(s[j..j + 10])
  {
    GapRun(s, |keyword|, j);
    KeywordDateFromRun(s, keyword, j);
  }

  lemma KeywordDateFromRun(s: string, keyword: string, j: nat)
    requires StartsWith(s, keyword) && |keyword| < j && DateShapeAt(s, j)
    requires SpaceRun(s, |keyword|) == j - |keyword|
    ensures MatchKeywordDate(s, keyword) == Some(s[j..j + 10])
  {
  }

  // ---------------------------------------------------------------------
  // Branch selection and evaluation
  // ---------------------------------------------------------------------

  /** Which branch of the resolver a normalised expression takes, in the
      order the code tests them. */
  function Classify(s: string): Expr {
    if s == "today" then Today
    else if s == "yesterday" then Yesterday
    else if s == "this week" then ThisWeek
    else if s == "last week" then LastWeek
    else if s == "this month" then ThisMonth
    else if s == "last month" then LastMonth
    else if s == "this year" then ThisYear
    else if s == "last year" then LastYear
    else if MatchLastN(s, "day").Some? then LastDays(MatchLastN(s, "day").value)
    else if MatchLastN(s, "week").Some? then LastWeeks(MatchLastN(s, "week").value)
    else if MatchLastN(s, "month").Some? then LastMonths(MatchLastN(s, "month").value)
    else if MatchRange(s).Some? then Range(MatchRange(s).value.0, MatchRange(s).value.1)
    else if DateShapeAt(s, 0) then OnDate(s[..10])
    else if MatchKeywordDate(s, "since").Some? then SinceDate(MatchKeywordDate(s, "since").value)
    else if MatchKeywordDate(s, "before").Some? then BeforeDate(MatchKeywordDate(s, "before").value)
    else Unrecognized
  }

  /** The loop of `last N months` (`while month <= 0: month += 12; year -= 1`)
      in closed form: the month count `12 * year + month` is unchanged and a
      month at or below zero lands in 1..12. */
  function WrappedMonth(year: int, month: int): (r: (int, int))
    ensures 12 * r.0 + r.1 == 12 * year + month
    ensures month > 0 ==> r == (year, month)
    ensures month <= 0 ==> 1 <= r.1 <= 12 && r.0 < year
  {
    if month > 0 then (year, month) else (year + (month - 1) / 12, (month - 1) % 12 + 1)
  }

  /** A month count splits into a year and a month in 1..12 in one way only. */
  lemma MonthSplitUnique(y1: int, m1: int, y2: int, m2: int)
    requires 12 * y1 + m1 == 12 * y2 + m2
    requires 1 <= m1 <= 12 && 1 <= m2 <= 12
    ensures y1 == y2 && m1 == m2
  {
  }

  /** The `while month <= 0` loop itself. */
  method WrapMonth(year: int, month: int) returns (y: int, m: int)
    ensures (y, m) == WrappedMonth(year, month)
  {
    y, m := year, month;
    while m <= 0
      invariant 12 * y + m == 12 * year + month
      invariant month <= 0 ==> m <= 12
      invariant month > 0 ==> y == year && m == month
      decreases -m
    {
      m := m + 12;
      y := y - 1;
    }
    if month <= 0 {
      var r := WrappedMonth(year, month);
      MonthSplitUnique(y, m, r.0, r.1);
    }
  }

  // ---------------------------------------------------------------------
  // The branches. Each computes its two ends as dates (or takes them as
  // captured text); `Resolve` writes computed dates out with `strftime`
  // only at the end, as the code does in its `return` statements.
  // ---------------------------------------------------------------------

  /** One end of the interval before it is written out: a date the code
      computed, or text one of the patterns captured. */
  datatype Bound = Computed(day: Date) | Verbatim(text: string)

  /** The two ends a branch produces. */
  datatype Span = Span(start: Bound, end: Bound)

  predicate ValidBound(b: Bound) {
    b.Computed? ==> Valid(b.day)
  }

  predicate ValidSpan(sp: Span) {
    ValidBound(sp.start) && ValidBound(sp.end)
  }

  /** How an end appears in the returned pair: `strftime('%Y-%m-%d')` of a
      computed date, or the captured text itself. */
  function Written(b: Bound): (s: string)
    requires ValidBound(b)
    ensures b.Computed? ==> IsDateText(s)
    ensures b.Verbatim? ==> s == b.text
  {
    match b
    case Computed(d) => Format(d)
    case Verbatim(t) => t
  }

  function Days(a: Date, b: Date): Span {
    Span(Computed(a), Computed(b))
  }

  /** `today`: today to today. */
  function TodayRange(today: Date): Result<Span, DateError>
    requires Valid(today)
  {
    Ok(Days(today, today))
  }

  /** `yesterday`: `today - timedelta(days=1)` twice. */
  function YesterdayRange(today: Date): Result<Span, DateError>
    requires Valid(today)
  {
    match SubDays(today, 1)
    case None => Err(OverflowError)
    case Some(y) => Ok(Days(y, y))
  }

  /** `this week`: back `weekday()` days, to today. */
  function ThisWeekRange(today: Date): Result<Span, DateError>
    requires Valid(today)
  {
    match SubDays(today, Weekday(today))
    case None => Err(OverflowError)
    case Some(monday) => Ok(Days(monday, today))
  }

  /** `last week`: the end is `weekday() + 1` days back, the start six days
      before the end. */
  function LastWeekRange(today: Date): Result<Span, DateError>
    requires Valid(today)
  {
    match SubDays(today, Weekday(today) + 1)
    case None => Err(OverflowError)
    case Some(sunday) =>
      match SubDays(sunday, 6)
      case None => Err(OverflowError)
      case Some(monday) => Ok(Days(monday, sunday))
  }

  /** `this month`: `today.replace(day=1)` to today. */
  function ThisMonthRange(today: Date): Result<Span, DateError>
    requires Valid(today)
  {
    Ok(Days(Date(today.year, today.month, 1), today))
  }

  /** `last month`: the end is the day before the 1st of this month, the
      start that end with `day=1`. */
  function LastMonthRange(today: Date): Result<Span, DateError>
    requires Valid(today)
  {
    match SubDays(Date(today.year, today.month, 1), 1)
    case None => Err(OverflowError)
    case Some(last) => Ok(Days(Date(last.year, last.month, 1), last))
  }

  /** `this year`: `today.replace(month=1, day=1)` to today. */
  function ThisYearRange(today: Date): Result<Span, DateError>
    requires Valid(today)
  {
    Ok(Days(Date(today.year, 1, 1), today))
  }

  /** `last year`: `replace(year=year - 1, ...)` with January 1 and
      December 31; year 0 does not exist. */
  function LastYearRange(today: Date): Result<Span, DateError>
    requires Valid(today)
  {
    if today.year - 1 < MinYear then Err(ValueError)
    else Ok(Days(Date(today.year - 1, 1, 1), Date(today.year - 1, 12, 31)))
  }

  /** `last N days`, and `last N weeks` as `7 * N` days. */
  function LastDaysRange(n: nat, today: Date): Result<Span, DateError>
    requires Valid(today)
  {
    match SubDays(today, n)
    case None => Err(OverflowError)
    case Some(start) => Ok(Days(start, today))
  }

  /** `last N months`: the month wrapped into 1..12, then
      `today.replace(year=year, month=month)`, which keeps the day. */
  function LastMonthsRange(n: nat, today: Date): Result<Span, DateError>
    requires Valid(today)
  {
    var ym := WrappedMonth(today.year, today.month - n);
    if ym.0 < MinYear || today.day > DaysInMonth(ym.0, ym.1) then Err(ValueError)
    else Ok(Days(Date(ym.0, ym.1, today.day), today))
  }

  /** `before D`: from 365 days back to D as captured. */
  function BeforeRange(d: string, today: Date): Result<Span, DateError>
    requires Valid(today)
  {
    match SubDays(today, 365)
    case None => Err(OverflowError)
    case Some(start) => Ok(Span(Computed(start), Verbatim(d)))
  }

  /** Anything else: the last 30 days. */
  function DefaultRange(today: Date): Result<Span, DateError>
    requires Valid(today)
  {
    match SubDays(today, 30)
    case None => Err(OverflowError)
    case Some(start) => Ok(Days(start, today))
  }

  /** The two ends each branch computes, or the exception `datetime` raises;
      every computed end is a real date. */
  function Evaluate(e: Expr, today: Date): (r: Result<Span, DateError>)
    requires Valid(today)
    ensures r.Ok? ==> ValidSpan(r.value)
  {
    match e
    case Today => TodayRange(today)
    case Yesterday => YesterdayRange(today)
    case ThisWeek => ThisWeekRange(today)
    case LastWeek => LastWeekRange(today)
    case ThisMonth => ThisMonthRange(today)
    case LastMonth => LastMonthRange(today)
    case ThisYear => ThisYearRange(today)
    case LastYear => LastYearRange(today)
    case LastDays(n) => LastDaysRange(n, today)
    case LastWeeks(n) => LastDaysRange(7 * n, today)
    case LastMonths(n) => LastMonthsRange(n, today)
    case Range(a, b) => Ok(Span(Verbatim(a), Verbatim(b)))
    case OnDate(d) => Ok(Span(Verbatim(d), Verbatim(d)))
    case SinceDate(d) => Ok(Span(Verbatim(d), Computed(today)))
    case BeforeDate(d) => BeforeRange(d, today)
    case Unrecognized => DefaultRange(today)
  }

  /** `_parse_date_filter(date_filter)` with `datetime.now()` as `today`:
      the branch's two ends, written out. */
  function Resolve(filter: string, today: Date): Result<Interval, DateError>
    requires Valid(today)
  {
    match Evaluate(Classify(Normalize(filter)), today)
    case Err(e) => Err(e)
    case Ok(sp) => Ok(Interval(Written(sp.start), Written(sp.end)))
  }
}
