/**
 * Properties of the natural-language routing: which keywords decide, what a
 * detected date filter looks like, and how the date resolver reads it.
 */
module RouterLaws {
  import opened Wrappers
  import opened Text
  import opened Civil
  import opened DateResolver
  import opened QueryRouter
  import ResolverLaws

  // ---------------------------------------------------------------- substrings

  /** A text containing a word contains every prefix of that word. */
  lemma ContainsPrefix(q: string, big: string, small: string)
    requires StartsWith(big, small) && Contains(q, big)
    ensures Contains(q, small)
  {
    var i: nat :| OccursAt(q, big, i);
    assert q[i..i + |small|] == q[i..i + |big|][..|small|];
    assert OccursAt(q, small, i);
  }

  // ---------------------------------------------------------------- routing

  /** Of the repository keywords only `repos` matters: the other two contain it. */
  lemma RepositoryKeywordsAreRepos(q: string)
    ensures AnyIn(q, RepositoryKeywords) <==> Contains(q, "repos")
  {
    assert RepositoryKeywords[1] == "repos";
    if Contains(q, "repositorios") { ContainsPrefix(q, "repositorios", "repos"); }
    if Contains(q, "repositories") { ContainsPrefix(q, "repositories", "repos"); }
  }

  /** Of the pipeline keywords `pipelines` adds nothing to `pipeline`. */
  lemma PipelineKeywordsReduce(q: string)
    ensures AnyIn(q, PipelineKeywords) <==> Contains(q, "pipeline") || Contains(q, "ci/cd")
  {
    assert PipelineKeywords[0] == "pipeline" && PipelineKeywords[2] == "ci/cd";
    if Contains(q, "pipelines") { ContainsPrefix(q, "pipelines", "pipeline"); }
  }

  /** The type is decided by the singular words alone; the plural tests never change it. */
  lemma TypeBySingularWords(q: string)
    ensures WorkItemType(q) ==
      if Contains(q, "epic") then Some("Epic")
      else if Contains(q, "historia") || Contains(q, "user story") then Some("User Story")
      else if Contains(q, "tarea") || Contains(q, "task") then Some("Task")
      else if Contains(q, "bug") then Some("Bug")
      else None
  {
    if Contains(q, "epics") { ContainsPrefix(q, "epics", "epic"); }
    if Contains(q, "historias") { ContainsPrefix(q, "historias", "historia"); }
    if Contains(q, "tareas") { ContainsPrefix(q, "tareas", "tarea"); }
    if Contains(q, "bugs") { ContainsPrefix(q, "bugs", "bug"); }
  }

  /** A work-item query that does not say `work items` always names a type. */
  lemma WorkItemKeywordNamesType(q: string)
    requires AnyIn(q, WorkItemKeywords) && !Contains(q, "work items")
    ensures WorkItemType(q).Some?
  {
    var k :| 0 <= k < |WorkItemKeywords| && Contains(q, WorkItemKeywords[k]);
    TypeBySingularWords(q);
    if k == 1 { ContainsPrefix(q, "tareas", "tarea"); }
    else if k == 2 { ContainsPrefix(q, "epics", "epic"); }
    else if k == 3 { ContainsPrefix(q, "historias", "historia"); }
    else if k == 4 { ContainsPrefix(q, "bugs", "bug"); }
  }

  predicate IsRepositoryCall(a: Action) {
    a.RepositoriesByDate? || a.ListRepositories?
  }

  predicate IsWorkItemCall(a: Action) {
    a.WorkItemsByTypeAndDate? || a.ListWorkItems?
  }

  predicate IsPipelineCall(a: Action) {
    a.PipelinesByDate? || a.ListPipelines?
  }

  /** Repositories win over work items, which win over pipelines; with none of them no call is made. */
  lemma ResourcePrecedence(q: string, f: Option<string>)
    ensures IsRepositoryCall(Route(q, f)) <==> Contains(q, "repos")
    ensures IsWorkItemCall(Route(q, f)) <==> !Contains(q, "repos") && AnyIn(q, WorkItemKeywords)
    ensures IsPipelineCall(Route(q, f)) <==>
      !Contains(q, "repos") && !AnyIn(q, WorkItemKeywords) && (Contains(q, "pipeline") || Contains(q, "ci/cd"))
    ensures Route(q, f) == NotUnderstood <==>
      !Contains(q, "repos") && !AnyIn(q, WorkItemKeywords) && !Contains(q, "pipeline") && !Contains(q, "ci/cd")
  {
    RepositoryKeywordsAreRepos(q);
    PipelineKeywordsReduce(q);
  }

  /** A date filter is passed on to the repositories and pipelines calls exactly when one was found. */
  lemma DateGoesWithResource(q: string, f: Option<string>)
    ensures Route(q, f).RepositoriesByDate? <==> Contains(q, "repos") && Given(f)
    ensures Route(q, f).RepositoriesByDate? ==> Route(q, f).filter == f.value
    ensures Route(q, f).PipelinesByDate? <==>
      !Contains(q, "repos") && !AnyIn(q, WorkItemKeywords) && (Contains(q, "pipeline") || Contains(q, "ci/cd")) && Given(f)
    ensures Route(q, f).PipelinesByDate? ==> Route(q, f).filter == f.value
  {
    RepositoryKeywordsAreRepos(q);
    PipelineKeywordsReduce(q);
  }

  /**
   * The work-item dispatch: type and date go to the search by type and date,
   * a type alone or a date alone to the listing with the state, and with
   * neither the listing gets no argument at all, so a detected state is lost.
   */
  lemma WorkItemDispatch(q: string, f: Option<string>)
    requires !Contains(q, "repos") && AnyIn(q, WorkItemKeywords)
    ensures Given(WorkItemType(q)) && Given(f) ==>
      Route(q, f) == WorkItemsByTypeAndDate(WorkItemType(q).value, f.value, StateOf(q))
    ensures Given(WorkItemType(q)) && !Given(f) ==> Route(q, f) == ListWorkItems(WorkItemType(q), None, StateOf(q))
    ensures !Given(WorkItemType(q)) && Given(f) ==> Route(q, f) == ListWorkItems(None, f, StateOf(q))
    ensures !Given(WorkItemType(q)) && !Given(f) ==> Route(q, f) == ListWorkItems(None, None, None)
  {
    RepositoryKeywordsAreRepos(q);
  }

  /** Active is checked before closed. */
  lemma StatePrecedence(q: string)
    ensures StateOf(q) == Some("Active") <==> Contains(q, "activ")
    ensures StateOf(q) == Some("Closed") <==> !Contains(q, "activ") && (Contains(q, "cerrad") || Contains(q, "completad"))
    ensures StateOf(q) == None <==> !Contains(q, "activ") && !Contains(q, "cerrad") && !Contains(q, "completad")
  {
  }

  /** Case and surrounding whitespace of the query make no difference. */
  lemma ParseIgnoresCaseAndSpace(text: string, currentYear: nat)
    ensures Route(Normalize(Normalize(text)), DateFilterOf(Normalize(Normalize(text)), currentYear))
      == Route(Normalize(text), DateFilterOf(Normalize(text), currentYear))
  {
    NormalizeIdempotent(text);
  }

  // ---------------------------------------------------------------- the date filter

  /** Without any month in the text, the filter is the first four-digit word, if any. */
  lemma YearWithoutMonth(q: string, currentYear: nat, k: nat)
    requires FirstMonthFrom(q, 0).None?
    requires k < |Words(q)| && IsYearWord(Words(q)[k])
    requires forall j :: 0 <= j < k ==> !IsYearWord(Words(q)[j])
    ensures DateFilterOf(q, currentYear) == Some(Words(q)[k])
  {
    var words := Words(q);
    var r := FirstYearAt(words, 0, |words|);
    assert r.Some? && r.value == k;
  }

  /** Without any month and without a four-digit word, there is no filter. */
  lemma NoYearNoMonth(q: string, currentYear: nat)
    requires FirstMonthFrom(q, 0).None?
    requires forall j :: 0 <= j < |Words(q)| ==> !IsYearWord(Words(q)[j])
    ensures DateFilterOf(q, currentYear) == None
  {
  }

  /**
   * The first month in calendar order that occurs in the text, found as a
   * word at position mi (its first), takes the first four-digit word at
   * most two positions away.
   */
  lemma MonthWithNearbyYear(q: string, currentYear: nat, m: nat, mi: nat, k: nat)
    requires m < |Months| && Contains(q, Months[m])
    requires forall j :: 0 <= j < m ==> !Contains(q, Months[j])
    requires mi < |Words(q)| && Words(q)[mi] == Months[m]
    requires forall j :: 0 <= j < mi ==> Words(q)[j] != Months[m]
    requires WindowLo(mi) <= k < WindowHi(mi, |Words(q)|) && IsYearWord(Words(q)[k])
    requires forall j :: WindowLo(mi) <= j < k ==> !IsYearWord(Words(q)[j])
    ensures DateFilterOf(q, currentYear) == Some(Months[m] + " " + Words(q)[k])
  {
    var words := Words(q);
    MonthIsFirst(q, m);
    assert IndexOf(words, Months[m]) == mi;
    var r := FirstYearAt(words, WindowLo(mi), WindowHi(mi, |words|));
    assert r.Some? && r.value == k;
  }

  /** With no four-digit word near the month, the current year is used. */
  lemma MonthWithoutNearbyYear(q: string, currentYear: nat, m: nat, mi: nat)
    requires m < |Months| && Contains(q, Months[m])
    requires forall j :: 0 <= j < m ==> !Contains(q, Months[j])
    requires mi < |Words(q)| && Words(q)[mi] == Months[m]
    requires forall j :: 0 <= j < mi ==> Words(q)[j] != Months[m]
    requires forall j :: WindowLo(mi) <= j < WindowHi(mi, |Words(q)|) ==> !IsYearWord(Words(q)[j])
    ensures DateFilterOf(q, currentYear) == Some(Months[m] + " " + NatToDecimal(currentYear))
  {
    var words := Words(q);
    MonthIsFirst(q, m);
    assert IndexOf(words, Months[m]) == mi;
    assert FirstYearAt(words, WindowLo(mi), WindowHi(mi, |words|)).None?;
    assert !Given(YearAmong(words, WindowLo(mi), WindowHi(mi, |words|)));
  }

  /** A month that occurs only inside a longer word leaves the year filter as it was. */
  lemma MonthInsideWord(q: string, currentYear: nat, m: nat)
    requires m < |Months| && Contains(q, Months[m])
    requires forall j :: 0 <= j < m ==> !Contains(q, Months[j])
    requires Months[m] !in Words(q)
    ensures DateFilterOf(q, currentYear) == YearAmong(Words(q), 0, |Words(q)|)
  {
    MonthIsFirst(q, m);
  }

  /** The first month found, read off its characterisation. */
  lemma MonthIsFirst(q: string, m: nat)
    requires m < |Months| && Contains(q, Months[m])
    requires forall j :: 0 <= j < m ==> !Contains(q, Months[j])
    ensures FirstMonthFrom(q, 0) == Some(m)
  {
    var r := FirstMonthFrom(q, 0);
    assert r.Some?;
    assert r.value == m;
  }

  /** `month year`: a month name, a space and a run of digits. */
  predicate MonthYearText(f: string, m: nat) {
    m < |Months| && |Months[m]| + 1 < |f|
    && f[..|Months[m]|] == Months[m] && f[|Months[m]|] == ' ' && AllDigits(f[|Months[m]| + 1..])
  }

  /** Every detected filter is a four-digit word or a month followed by a year. */
  lemma FilterShapes(q: string, currentYear: nat)
    requires DateFilterOf(q, currentYear).Some?
    ensures var f := DateFilterOf(q, currentYear).value;
      IsYearWord(f) || (FirstMonthFrom(q, 0).Some? && MonthYearText(f, FirstMonthFrom(q, 0).value))
  {
    var words := Words(q);
    var f := DateFilterOf(q, currentYear).value;
    match FirstMonthFrom(q, 0)
    case None =>
    case Some(m) =>
      var month := Months[m];
      if month in words {
        var mi := IndexOf(words, month);
        var near := YearAmong(words, WindowLo(mi), WindowHi(mi, |words|));
        var y := if Given(near) then near.value else NatToDecimal(currentYear);
        assert f == month + " " + y;
        assert f[..|month|] == month && f[|month| + 1..] == y;
      }
  }

  // ---------------------------------------------------------------- what the resolver makes of it

  predicate LowerLetters(s: string) {
    forall i :: 0 <= i < |s| ==> 'a' <= s[i] <= 'z'
  }

  /** The month names: lower-case letters, none starting a resolver keyword. */
  lemma MonthLetters(m: nat)
    requires m < |Months|
    ensures |Months[m]| >= 4
    ensures LowerLetters(Months[m])
    ensures Months[m][0] !in "tylb"
    ensures Months[m][0] == 's' ==> Months[m][1] == 'e'
  {
  }

  /** A filter the router detects is not a form the resolver knows. */
  lemma DetectedFilterIsUnrecognized(f: string, m: nat)
    requires IsYearWord(f) || MonthYearText(f, m)
    ensures Normalize(f) == f
    ensures Classify(f) == Unrecognized
  {
    if IsYearWord(f) {
      YearIsNormal(f);
      YearIsUnrecognized(f);
    } else {
      MonthFilterIsUnrecognized(f, m);
    }
  }

  lemma MonthFilterIsUnrecognized(f: string, m: nat)
    requires MonthYearText(f, m)
    ensures Normalize(f) == f
    ensures Classify(f) == Unrecognized
  {
    var month := Months[m];
    MonthLetters(m);
    MonthYearStart(f, month);
    MonthYearIsUnrecognized(f);
    MonthYearIsNormal(f, month);
  }

  lemma YearIsNormal(f: string)
    requires IsYearWord(f)
    ensures Normalize(f) == f
  {
    ResolverLaws.PlainWordsAreNormal(f);
  }

  lemma YearIsUnrecognized(f: string)
    requires IsYearWord(f)
    ensures Classify(f) == Unrecognized
  {
    ResolverLaws.DigitSkipsWords(f);
    NoLaterBranch(f);
  }

  /** A text shorter than a date, or not starting with `since` or `before`, matches none of the date forms. */
  lemma NoLaterBranch(s: string)
    requires |s| < 10 || !DateShapeAt(s, 0)
    requires s == [] || (s[0] != 's' && s[0] != 'b') || (s[0] == 's' && |s| >= 2 && s[1] != 'i')
    requires s != "today" && s != "yesterday" && s != "this week" && s != "last week"
    requires s != "this month" && s != "last month" && s != "this year" && s != "last year"
    requires MatchLastN(s, "day").None? && MatchLastN(s, "week").None? && MatchLastN(s, "month").None?
    ensures Classify(s) == Unrecognized
  {
    assert !DateShapeAt(s, 0);
    assert MatchRange(s).None?;
    assert !StartsWith(s, "since") && !StartsWith(s, "before");
    assert MatchKeywordDate(s, "since").None? && MatchKeywordDate(s, "before").None?;
  }

  lemma MonthYearStart(f: string, month: string)
    requires |month| >= 2 && |month| < |f| && f[..|month|] == month
    ensures f[0] == month[0] && f[1] == month[1]
  {
    assert f[0] == f[..|month|][0] && f[1] == f[..|month|][1];
  }

  lemma MonthYearIsNormal(f: string, month: string)
    requires |month| >= 2 && LowerLetters(month)
    requires |month| + 1 < |f| && f[..|month|] == month && f[|month|] == ' ' && AllDigits(f[|month| + 1..])
    ensures Normalize(f) == f
  {
    var n := |month|;
    forall i | 0 <= i < |f|
      ensures 'a' <= f[i] <= 'z' || '0' <= f[i] <= '9' || f[i] == ' ' || f[i] == '-'
    {
      if i < n { assert f[i] == f[..n][i]; }
      else if i > n { assert f[i] == f[n + 1..][i - n - 1]; }
    }
    assert f[0] == f[..n][0];
    assert f[|f| - 1] == f[n + 1..][|f| - n - 2];
    ResolverLaws.PlainWordsAreNormal(f);
  }

  lemma MonthYearIsUnrecognized(f: string)
    requires |f| >= 2 && f[0] != 't' && f[0] != 'y' && f[0] != 'l' && f[0] != 'b' && !IsDigit(f[0])
    requires f[0] == 's' ==> f[1] == 'e'
    ensures Classify(f) == Unrecognized
  {
    ResolverLaws.NoEarlierBranch(f);
    NoLaterBranch(f);
  }

  /** The resolver's fallback: an unrecognised text gives the default range. */
  lemma UnrecognizedIsDefault(today: Date)
    requires Valid(today)
    ensures Evaluate(Unrecognized, today) == DefaultRange(today)
  {
  }

  /**
   * So every date filter the router passes on, a year such as `2025` or a
   * month such as `abril 2025`, is resolved as the last 30 days.
   */
  lemma DetectedFilterMeansLast30Days(q: string, currentYear: nat, today: Date)
    requires Valid(today) && DateFilterOf(q, currentYear).Some?
    ensures var f := DateFilterOf(q, currentYear).value;
      Classify(Normalize(f)) == Unrecognized && Evaluate(Classify(Normalize(f)), today) == DefaultRange(today)
  {
    FilterShapes(q, currentYear);
    var f := DateFilterOf(q, currentYear).value;
    var m := if FirstMonthFrom(q, 0).Some? then FirstMonthFrom(q, 0).value else 0;
    DetectedFilterIsUnrecognized(f, m);
    UnrecognizedIsDefault(today);
  }
}
