/**
 * What `_parse_date_filter` promises, branch by branch: each keyword and
 * `last N` form names the calendar interval its words describe, the
 * pattern forms copy their dates verbatim, and everything else falls back
 * to the last 30 days.
 */
module ResolverLaws {
  import opened Wrappers
  import opened Text
  import opened Civil
  import opened DateResolver

  /** A computed end is written so that it reads back as the same date; a
      captured end is written as captured. */
  lemma WrittenReadsBack(b: Bound)
    requires ValidBound(b)
    ensures b.Computed? ==> ParseIso(Written(b)) == Some(b.day)
    ensures b.Verbatim? ==> Written(b) == b.text
  {
    if b.Computed? {
      FormatThenParse(b.day);
    }
  }

  /** The returned pair is the branch's two ends written out: it fails
      exactly when the branch does, with the same exception, and each
      computed end reads back as its date. */
  lemma ResolveWritesEnds(filter: string, today: Date)
    requires Valid(today)
    ensures var r := Evaluate(Classify(Normalize(filter)), today);
      (Resolve(filter, today).Ok? <==> r.Ok?)
      && (r.Err? ==> Resolve(filter, today) == Err(r.error))
      && (r.Ok? && r.value.start.Computed? ==> ParseIso(Resolve(filter, today).value.from) == Some(r.value.start.day))
      && (r.Ok? && r.value.end.Computed? ==> ParseIso(Resolve(filter, today).value.to) == Some(r.value.end.day))
      && (r.Ok? && r.value.start.Verbatim? ==> Resolve(filter, today).value.from == r.value.start.text)
      && (r.Ok? && r.value.end.Verbatim? ==> Resolve(filter, today).value.to == r.value.end.text)
  {
    var r := Evaluate(Classify(Normalize(filter)), today);
    if r.Ok? {
      WrittenReadsBack(r.value.start);
      WrittenReadsBack(r.value.end);
    }
  }

  /** Case and surrounding whitespace never matter. */
  lemma ResolveIgnoresCaseAndSpace(filter: string, today: Date)
    requires Valid(today)
    ensures Resolve(filter, today) == Resolve(Normalize(filter), today)
  {
    var n := Normalize(filter);
    NormalizeIdempotent(filter);
    assert Classify(Normalize(n)) == Classify(n);
  }

  /** The eight keywords are matched exactly, before any pattern. */
  lemma KeywordsClassify()
    ensures Classify("today") == Today && Classify("yesterday") == Yesterday
    ensures Classify("this week") == ThisWeek && Classify("last week") == LastWeek
    ensures Classify("this month") == ThisMonth && Classify("last month") == LastMonth
    ensures Classify("this year") == ThisYear && Classify("last year") == LastYear
  {
  }

  /** `today` is today to today. */
  lemma TodayIsToday(today: Date)
    requires Valid(today)
    ensures TodayRange(today).Ok?
    ensures TodayRange(today).value.start == TodayRange(today).value.end == Computed(today)
  {
  }

  /** `yesterday` is the single day before today; only 0001-01-01 has none. */
  lemma YesterdayIsDayBefore(today: Date)
    requires Valid(today)
    ensures YesterdayRange(today).Ok? <==> Ordinal(today) > 1
    ensures YesterdayRange(today).Err? ==> YesterdayRange(today).error == OverflowError
    ensures YesterdayRange(today).Ok? ==>
      var sp := YesterdayRange(today).value;
      sp.start == sp.end && sp.start.Computed? && Ordinal(sp.start.day) == Ordinal(today) - 1
  {
  }

  /** `this week` starts on this week's Monday and ends today. */
  lemma ThisWeekFromMonday(today: Date)
    requires Valid(today)
    ensures ThisWeekRange(today).Ok?
    ensures var sp := ThisWeekRange(today).value;
      sp.end == Computed(today) && sp.start.Computed? && Valid(sp.start.day)
      && Weekday(sp.start.day) == 0 && Ordinal(today) - Ordinal(sp.start.day) == Weekday(today)
  {
    MondayOnOrBefore(today);
  }

  /** `last week` is the Monday-to-Sunday week ending the day before this
      week's Monday; it fails only within 0001's first week. */
  lemma LastWeekIsPreviousWeek(today: Date)
    requires Valid(today)
    ensures LastWeekRange(today).Ok? <==> Ordinal(today) > Weekday(today) + 7
    ensures LastWeekRange(today).Err? ==> LastWeekRange(today).error == OverflowError
    ensures LastWeekRange(today).Ok? ==>
      var sp := LastWeekRange(today).value;
      sp.start.Computed? && sp.end.Computed? && Valid(sp.start.day) && Valid(sp.end.day)
      && Weekday(sp.start.day) == 0 && Weekday(sp.end.day) == 6
      && Ordinal(sp.end.day) - Ordinal(sp.start.day) == 6
      && Ordinal(sp.end.day) + 1 == Ordinal(today) - Weekday(today)
  {
    var w := Weekday(today);
    if Ordinal(today) > w + 7 {
      var sunday := SubDays(today, w + 1).value;
      var monday := SubDays(sunday, 6).value;
      LastWeekSpan(today, sunday, monday);
      LastWeekDays(today, sunday, monday);
    } else if w + 1 < Ordinal(today) {
      assert SubDays(SubDays(today, w + 1).value, 6).None?;
    }
  }

  lemma LastWeekSpan(today: Date, sunday: Date, monday: Date)
    requires Valid(today) && Ordinal(today) > Weekday(today) + 7
    requires sunday == SubDays(today, Weekday(today) + 1).value && monday == SubDays(sunday, 6).value
    ensures LastWeekRange(today) == Ok(Days(monday, sunday))
  {
  }

  lemma LastWeekDays(today: Date, sunday: Date, monday: Date)
    requires Valid(today) && Ordinal(today) > Weekday(today) + 7
    requires sunday == SubDays(today, Weekday(today) + 1).value && monday == SubDays(sunday, 6).value
    ensures Weekday(monday) == 0 && Weekday(sunday) == 6
  {
    SundayBefore(today);
    WeekdayBackWithinWeek(sunday, 6);
  }

  /** `this month` runs from the 1st to today. */
  lemma ThisMonthFromFirst(today: Date)
    requires Valid(today)
    ensures ThisMonthRange(today).Ok?
    ensures var sp := ThisMonthRange(today).value;
      sp.end == Computed(today) && sp.start.Computed? && Valid(sp.start.day)
      && sp.start.day.year == today.year && sp.start.day.month == today.month && sp.start.day.day == 1
  {
  }

  /** `last month` is the whole previous calendar month (December of the year
      before, in January); the day after it is the 1st of this month. */
  lemma LastMonthIsPreviousMonth(today: Date)
    requires Valid(today)
    ensures LastMonthRange(today).Ok? <==> !(today.year == MinYear && today.month == 1)
    ensures LastMonthRange(today).Err? ==> LastMonthRange(today).error == OverflowError
    ensures LastMonthRange(today).Ok? ==>
      var sp := LastMonthRange(today).value;
      sp.start.Computed? && sp.end.Computed? && Valid(sp.start.day) && Valid(sp.end.day)
      && var first := sp.start.day; var last := sp.end.day;
      first.day == 1 && first.year == last.year && first.month == last.month
      && last.day == DaysInMonth(last.year, last.month)
      && Ordinal(last) + 1 == Ordinal(Date(today.year, today.month, 1))
      && (today.month == 1 ==> last.year == today.year - 1 && last.month == 12)
      && (today.month > 1 ==> last.year == today.year && last.month == today.month - 1)
  {
    var first := Date(today.year, today.month, 1);
    if !(today.year == MinYear && today.month == 1) {
      var last := PrevMonthEnd(first);
      assert SubDays(first, 1) == SubDays(last, 0) == Some(last);
    }
  }

  /** `this year` runs from January 1 to today. */
  lemma ThisYearFromJanuary(today: Date)
    requires Valid(today)
    ensures ThisYearRange(today).Ok?
    ensures var sp := ThisYearRange(today).value;
      sp.end == Computed(today) && sp.start.Computed? && Valid(sp.start.day)
      && sp.start.day.year == today.year && sp.start.day.month == 1 && sp.start.day.day == 1
  {
  }

  /** `last year` is January 1 to December 31 of the year before; in year 1
      the year-0 replacement raises ValueError. */
  lemma LastYearIsPreviousYear(today: Date)
    requires Valid(today)
    ensures LastYearRange(today).Ok? <==> today.year > MinYear
    ensures LastYearRange(today).Err? ==> LastYearRange(today).error == ValueError
    ensures LastYearRange(today).Ok? ==>
      var sp := LastYearRange(today).value;
      sp.start.Computed? && sp.end.Computed? && Valid(sp.start.day) && Valid(sp.end.day)
      && sp.start.day.year == sp.end.day.year == today.year - 1
      && sp.start.day.month == 1 && sp.start.day.day == 1
      && sp.end.day.month == 12 && sp.end.day.day == 31
  {
  }

  /** `last N days` ends today and starts N days earlier; it raises
      OverflowError exactly when that start is before 0001-01-01. */
  lemma LastDaysGoesBack(n: nat, today: Date)
    requires Valid(today)
    ensures LastDaysRange(n, today).Ok? <==> n < Ordinal(today)
    ensures LastDaysRange(n, today).Err? ==> LastDaysRange(n, today).error == OverflowError
    ensures LastDaysRange(n, today).Ok? ==>
      var sp := LastDaysRange(n, today).value;
      sp.end == Computed(today) && sp.start.Computed? && Valid(sp.start.day)
      && Ordinal(sp.start.day) == Ordinal(today) - n
  {
  }

  /** `last N weeks` is `last 7N days`. */
  lemma LastWeeksAreSevenDays(n: nat, today: Date)
    requires Valid(today)
    ensures Evaluate(LastWeeks(n), today) == Evaluate(LastDays(7 * n), today)
  {
  }

  /** `last N months` keeps today's day of the month in the month N months
      back and ends today; it raises ValueError when that day, or that year,
      does not exist. */
  lemma LastMonthsGoesBack(n: nat, today: Date)
    requires Valid(today)
    ensures var ym := WrappedMonth(today.year, today.month - n);
      LastMonthsRange(n, today).Ok? <==> ym.0 >= MinYear && today.day <= DaysInMonth(ym.0, ym.1)
    ensures LastMonthsRange(n, today).Err? ==> LastMonthsRange(n, today).error == ValueError
    ensures LastMonthsRange(n, today).Ok? ==>
      var sp := LastMonthsRange(n, today).value;
      sp.end == Computed(today) && sp.start.Computed? && Valid(sp.start.day)
      && var start := sp.start.day;
      12 * start.year + start.month == 12 * today.year + today.month - n
      && start.day == today.day
      && Ordinal(start) <= Ordinal(today)
  {
    var ym := WrappedMonth(today.year, today.month - n);
    if ym.0 >= MinYear && today.day <= DaysInMonth(ym.0, ym.1) {
      OrdinalOrder(Date(ym.0, ym.1, today.day), today);
    }
  }

  /** Anything unrecognised means the last 30 days, ending today. */
  lemma DefaultIsLast30Days(today: Date)
    requires Valid(today)
    ensures DefaultRange(today).Ok? <==> Ordinal(today) > 30
    ensures DefaultRange(today).Err? ==> DefaultRange(today).error == OverflowError
    ensures DefaultRange(today).Ok? ==>
      var sp := DefaultRange(today).value;
      sp.end == Computed(today) && sp.start.Computed? && Valid(sp.start.day)
      && Ordinal(sp.start.day) == Ordinal(today) - 30
  {
  }

  /** The pattern forms copy what they captured; `since D` ends today. */
  lemma PatternsCopy(e: Expr, today: Date)
    requires Valid(today) && (e.Range? || e.OnDate? || e.SinceDate?)
    ensures Evaluate(e, today).Ok?
    ensures e.Range? ==> Evaluate(e, today).value == Span(Verbatim(e.first), Verbatim(e.last))
    ensures e.OnDate? ==> Evaluate(e, today).value == Span(Verbatim(e.date), Verbatim(e.date))
    ensures e.SinceDate? ==> Evaluate(e, today).value == Span(Verbatim(e.date), Computed(today))
  {
  }

  /** A normalised text of the form `last <digits> day...` takes the
      `last N days` branch with the number its digits spell. */
  lemma ClassifyLastDays(s: string, k: nat)
    requires LastNMatchAt(s, "day", k)
    ensures Classify(s) == LastDays(DecimalValue(s[5..5 + k]))
  {
    LastNMatchIsGreedy(s, "day", k);
    assert s[5] != 'w' && s[5] != 'm' && s[5] != 'y';
  }

  /** `last <digits> week...` fails the `day` pattern and takes the
      `last N weeks` branch. */
  lemma ClassifyLastWeeks(s: string, k: nat)
    requires LastNMatchAt(s, "week", k)
    ensures Classify(s) == LastWeeks(DecimalValue(s[5..5 + k]))
  {
    LastNMatchIsGreedy(s, "week", k);
    assert s[5] != 'w' && s[5] != 'm' && s[5] != 'y';
    LastNUnitDiffers(s, k, "week", "day");
  }

  /** `last <digits> month...` fails the `day` and `week` patterns and takes
      the `last N months` branch. */
  lemma ClassifyLastMonths(s: string, k: nat)
    requires LastNMatchAt(s, "month", k)
    ensures Classify(s) == LastMonths(DecimalValue(s[5..5 + k]))
  {
    LastNMatchIsGreedy(s, "month", k);
    assert s[5] != 'w' && s[5] != 'm' && s[5] != 'y';
    LastNUnitDiffers(s, k, "month", "day");
    LastNUnitDiffers(s, k, "month", "week");
  }

  /** After the count comes one unit; a unit with another first letter
      does not match there. */
  lemma LastNUnitDiffers(s: string, k: nat, unit: string, other: string)
    requires LastNMatchAt(s, unit, k) && unit != [] && other != [] && unit[0] != other[0]
    ensures MatchLastN(s, other).None?
  {
    assert s[5 + k] == ' ';
    DigitRunUnique(s, 5, k);
    assert s[5 + k..][1] == unit[0];
  }

  /** `A to B` returns A and B exactly as written: no check that they are
      dates and no swap when B is before A. It wins over the single-date
      form, which would also match its first date. */
  lemma ClassifyRange(s: string, i: nat, j: nat)
    requires RangeMatchAt(s, i, j)
    ensures Classify(s) == Range(s[..10], s[j..j + 10])
  {
    RangeMatchIsGreedy(s, i, j);
    DigitSkipsWords(s);
  }

  /** A text starting with a digit is neither a keyword nor a `last N` form. */
  lemma DigitSkipsWords(s: string)
    requires s != [] && IsDigit(s[0])
    ensures s != "today" && s != "yesterday" && s != "this week" && s != "last week"
    ensures s != "this month" && s != "last month" && s != "this year" && s != "last year"
    ensures MatchLastN(s, "day").None? && MatchLastN(s, "week").None? && MatchLastN(s, "month").None?
  {
    assert !StartsWith(s, "last ") by { assert s[0] != 'l'; }
  }

  /** A text that starts with a date and is not a range gives that date as
      both ends, unvalidated. */
  lemma ClassifySingleDate(s: string)
    requires DateShapeAt(s, 0) && MatchRange(s).None?
    ensures Classify(s) == OnDate(s[..10])
  {
    DigitSkipsWords(s);
  }

  /** `since D` runs from D, verbatim, to today. */
  lemma ClassifySince(s: string, j: nat)
    requires KeywordDateAt(s, "since", j)
    ensures Classify(s) == SinceDate(s[j..j + 10])
  {
    KeywordDateIsGreedy(s, "since", j);
    assert s[0] == 's';
    NoEarlierBranch(s);
    TakesSince(s, s[j..j + 10]);
  }

  /** `before D`: from 365 days ago to D, verbatim. */
  lemma ClassifyBefore(s: string, j: nat)
    requires KeywordDateAt(s, "before", j)
    ensures Classify(s) == BeforeDate(s[j..j + 10])
  {
    KeywordDateIsGreedy(s, "before", j);
    assert s[0] == 'b';
    NoEarlierBranch(s);
    assert !StartsWith(s, "since") by { assert s[0] != 's'; }
    TakesBefore(s, s[j..j + 10]);
  }

  /** The last two pattern branches, once every earlier test has failed:
      steps of `ClassifySince` and `ClassifyBefore`, which state the meaning. */
  lemma TakesSince(s: string, d: string)
    requires s != "today" && s != "yesterday" && s != "this week" && s != "last week"
    requires s != "this month" && s != "last month" && s != "this year" && s != "last year"
    requires MatchLastN(s, "day").None? && MatchLastN(s, "week").None? && MatchLastN(s, "month").None?
    requires MatchRange(s).None? && !DateShapeAt(s, 0)
    requires MatchKeywordDate(s, "since") == Some(d)
    ensures Classify(s) == SinceDate(d)
  {
  }

  lemma TakesBefore(s: string, d: string)
    requires s != "today" && s != "yesterday" && s != "this week" && s != "last week"
    requires s != "this month" && s != "last month" && s != "this year" && s != "last year"
    requires MatchLastN(s, "day").None? && MatchLastN(s, "week").None? && MatchLastN(s, "month").None?
    requires MatchRange(s).None? && !DateShapeAt(s, 0)
    requires MatchKeywordDate(s, "since").None? && MatchKeywordDate(s, "before") == Some(d)
    ensures Classify(s) == BeforeDate(d)
  {
  }

  /** A text starting with neither a keyword's first letter nor a digit
      passes the keyword, `last N` and date tests; a step of `ClassifySince`
      and `ClassifyBefore`. */
  lemma NoEarlierBranch(s: string)
    requires s != [] && s[0] != 't' && s[0] != 'y' && s[0] != 'l' && !IsDigit(s[0])
    ensures s != "today" && s != "yesterday" && s != "this week" && s != "last week"
    ensures s != "this month" && s != "last month" && s != "this year" && s != "last year"
    ensures MatchLastN(s, "day").None? && MatchLastN(s, "week").None? && MatchLastN(s, "month").None?
    ensures MatchRange(s).None? && !DateShapeAt(s, 0)
  {
    assert !StartsWith(s, "last ") by { assert s[0] != 'l'; }
  }

  /** Lower-case letters, digits and inner spaces are already normal. */
  lemma PlainWordsAreNormal(s: string)
    requires forall i :: 0 <= i < |s| ==> 'a' <= s[i] <= 'z' || '0' <= s[i] <= '9' || s[i] == ' ' || s[i] == '-'
    requires s != [] ==> s[0] != ' ' && s[|s| - 1] != ' '
    ensures Normalize(s) == s
  {
    NormalizeKeepsNormal(s);
  }

  /** `before D` starts 365 days back and ends at D verbatim, so with D
      more than 365 days back the interval is inverted. */
  lemma BeforeCanInvert(d: string, today: Date)
    requires Valid(today)
    ensures BeforeRange(d, today).Ok? <==> Ordinal(today) > 365
    ensures BeforeRange(d, today).Err? ==> BeforeRange(d, today).error == OverflowError
    ensures BeforeRange(d, today).Ok? ==>
      var sp := BeforeRange(d, today).value;
      sp.end == Verbatim(d) && sp.start.Computed? && Valid(sp.start.day)
      && Ordinal(sp.start.day) == Ordinal(today) - 365
      && (ParseIso(d).Some? && Ordinal(ParseIso(d).value) < Ordinal(today) - 365 ==>
            Earlier(ParseIso(d).value, sp.start.day))
  {
    if Ordinal(today) > 365 {
      var start := SubDays(today, 365).value;
      if ParseIso(d).Some? {
        OrdinalOrder(ParseIso(d).value, start);
      }
    }
  }

  /** Both ends are computed dates, the first not after the second. */
  predicate Ordered(sp: Span) {
    sp.start.Computed? && sp.end.Computed? && Valid(sp.start.day) && Valid(sp.end.day)
    && Ordinal(sp.start.day) <= Ordinal(sp.end.day)
  }

  /** The keyword and `last N` forms are computed, not copied: both ends
      are real dates and the interval is never inverted. */
  lemma ComputedFormsOrdered(e: Expr, today: Date)
    requires Valid(today)
    requires !(e.Range? || e.OnDate? || e.SinceDate? || e.BeforeDate?)
    requires Evaluate(e, today).Ok?
    ensures Ordered(Evaluate(e, today).value)
  {
    if e.LastDays? || e.LastWeeks? || e.LastMonths? || e.Unrecognized? {
      CountedFormsOrdered(e, today);
    } else {
      KeywordFormsOrdered(e, today);
    }
  }

  lemma KeywordFormsOrdered(e: Expr, today: Date)
    requires Valid(today)
    requires e.Today? || e.Yesterday? || e.ThisWeek? || e.LastWeek?
          || e.ThisMonth? || e.LastMonth? || e.ThisYear? || e.LastYear?
    requires Evaluate(e, today).Ok?
    ensures Ordered(Evaluate(e, today).value)
  {
    match e
    case Today =>
    case Yesterday => YesterdayIsDayBefore(today);
    case ThisWeek => ThisWeekFromMonday(today);
    case LastWeek => LastWeekIsPreviousWeek(today);
    case ThisMonth => OrdinalOrder(Date(today.year, today.month, 1), today);
    case LastMonth => LastMonthIsPreviousMonth(today);
    case ThisYear => OrdinalOrder(Date(today.year, 1, 1), today);
    case LastYear => OrdinalOrder(Date(today.year - 1, 1, 1), Date(today.year - 1, 12, 31));
  }

  lemma CountedFormsOrdered(e: Expr, today: Date)
    requires Valid(today)
    requires e.LastDays? || e.LastWeeks? || e.LastMonths? || e.Unrecognized?
    requires Evaluate(e, today).Ok?
    ensures Ordered(Evaluate(e, today).value)
  {
    match e
    case LastDays(n) => LastDaysGoesBack(n, today);
    case LastWeeks(n) => LastDaysGoesBack(7 * n, today);
    case LastMonths(n) => LastMonthsGoesBack(n, today);
    case Unrecognized => DefaultIsLast30Days(today);
  }

  /** Every successful result is two ten-character `YYYY-MM-DD` strings, so
      neither end is ever empty. */
  lemma ResolvedShape(filter: string, today: Date)
    requires Valid(today) && Resolve(filter, today).Ok?
    ensures IsDateText(Resolve(filter, today).value.from) && IsDateText(Resolve(filter, today).value.to)
  {
    var s := Normalize(filter);
    CapturesAreDateTexts(s);
    EvaluatedShape(Classify(s), today);
  }

  /** What the patterns capture is always a `YYYY-MM-DD` text. */
  lemma CapturesAreDateTexts(s: string)
    ensures Classify(s).Range? ==> IsDateText(Classify(s).first) && IsDateText(Classify(s).last)
    ensures Classify(s).OnDate? || Classify(s).SinceDate? || Classify(s).BeforeDate? ==> IsDateText(Classify(s).date)
  {
    if DateShapeAt(s, 0) {
      DateTextAt(s, 0);
      assert s[..10] == s[0..10];
    }
  }

  lemma EvaluatedShape(e: Expr, today: Date)
    requires Valid(today) && Evaluate(e, today).Ok?
    requires e.Range? ==> IsDateText(e.first) && IsDateText(e.last)
    requires e.OnDate? || e.SinceDate? || e.BeforeDate? ==> IsDateText(e.date)
    ensures var sp := Evaluate(e, today).value;
      IsDateText(Written(sp.start)) && IsDateText(Written(sp.end))
  {
  }
}
