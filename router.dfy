/**
 * The natural-language front end of the client (`parse_natural_query`):
 * the text is lower-cased and stripped, a date filter is picked out of it
 * (a four-digit year, or a Spanish month name with a nearby year), and
 * keyword tests choose which tool call to make.
 *
 * The calls themselves are not made here: the result is the Action that
 * names the call and its arguments.  The current year, read from the clock
 * in the source, is a parameter.
 */
module QueryRouter {
  import opened Wrappers
  import opened Text

  /** The tool call chosen for a query. */
  datatype Action =
    | RepositoriesByDate(filter: string)
    | ListRepositories
    | WorkItemsByTypeAndDate(workItemType: string, filter: string, state: Option<string>)
    | ListWorkItems(typeArg: Option<string>, filterArg: Option<string>, stateArg: Option<string>)
    | PipelinesByDate(filter: string)
    | ListPipelines
    | NotUnderstood

  // ---------------------------------------------------------------- date filter

  const Months: seq<string> := [
    "enero", "febrero", "marzo", "abril", "mayo", "junio",
    "julio", "agosto", "septiembre", "octubre", "noviembre", "diciembre"]

  /** `w.isdigit() and len(w) == 4`. */
  predicate IsYearWord(w: string) {
    |w| == 4 && AllDigits(w)
  }

  /** The first position in lo..hi holding a year word. */
  function FirstYearAt(words: seq<string>, lo: nat, hi: nat): (r: Option<nat>)
    requires lo <= hi <= |words|
    ensures r.Some? ==> lo <= r.value < hi && IsYearWord(words[r.value])
    ensures r.Some? ==> forall j :: lo <= j < r.value ==> !IsYearWord(words[j])
    ensures r.None? ==> forall j :: lo <= j < hi ==> !IsYearWord(words[j])
    decreases hi - lo
  {
    if lo == hi then None
    else if IsYearWord(words[lo]) then Some(lo)
    else FirstYearAt(words, lo + 1, hi)
  }

  /** The year word found in lo..hi, if any. */
  function YearAmong(words: seq<string>, lo: nat, hi: nat): Option<string>
    requires lo <= hi <= |words|
  {
    match FirstYearAt(words, lo, hi)
    case Some(k) => Some(words[k])
    case None => None
  }

  /** The first month, from index k on, that occurs anywhere in the text. */
  function FirstMonthFrom(text: string, k: nat): (r: Option<nat>)
    requires k <= |Months|
    ensures r.Some? ==> k <= r.value < |Months| && Contains(text, Months[r.value])
    ensures r.Some? ==> forall j :: k <= j < r.value ==> !Contains(text, Months[j])
    ensures r.None? ==> forall j :: k <= j < |Months| ==> !Contains(text, Months[j])
    decreases |Months| - k
  {
    if k == |Months| then None
    else if Contains(text, Months[k]) then Some(k)
    else FirstMonthFrom(text, k + 1)
  }

  /** `words.index(w)`: the first position of w. */
  function IndexOf(words: seq<string>, w: string): (i: nat)
    requires w in words
    ensures i < |words| && words[i] == w
    ensures forall j :: 0 <= j < i ==> words[j] != w
  {
    if words[0] == w then 0 else 1 + IndexOf(words[1..], w)
  }

  /** The positions searched for a year around a month at position mi: two before to two after. */
  function WindowLo(mi: nat): nat {
    if mi >= 2 then mi - 2 else 0
  }

  function WindowHi(mi: nat, n: nat): nat {
    if mi + 3 <= n then mi + 3 else n
  }

  /**
   * The date filter of a normalised query: the first year word, replaced,
   * when the first month that occurs in the text is also one of its words,
   * by that month and the first year word near it (or the current year).
   */
  function DateFilterOf(q: string, currentYear: nat): Option<string> {
    var words := Words(q);
    var byYear := YearAmong(words, 0, |words|);
    match FirstMonthFrom(q, 0)
    case None => byYear
    case Some(m) => WithMonth(words, Months[m], byYear, currentYear)
  }

  /** The filter once `month` is found in the text: kept as it was unless the month is a word. */
  function WithMonth(words: seq<string>, month: string, byYear: Option<string>, currentYear: nat): Option<string> {
    if month in words then
      var mi := IndexOf(words, month);
      var near := YearAmong(words, WindowLo(mi), WindowHi(mi, |words|));
      if Given(near) then Some(month + " " + near.value)
      else Some(month + " " + NatToDecimal(currentYear))
    else byYear
  }

  /** The scan for a year word, stopping at the first. */
  method FindYearWord(words: seq<string>) returns (f: Option<string>)
    ensures f == YearAmong(words, 0, |words|)
  {
    f := None;
    var i := 0;
    while i < |words|
      invariant 0 <= i <= |words|
      invariant FirstYearAt(words, 0, |words|) == FirstYearAt(words, i, |words|)
    {
      if IsYearWord(words[i]) {
        f := Some(words[i]);
        break;
      }
      i := i + 1;
    }
  }

  /** The scan for a year word near the month at position mi, stopping at the first. */
  method FindYearNear(words: seq<string>, mi: nat) returns (year: Option<string>)
    requires mi < |words|
    ensures year == YearAmong(words, WindowLo(mi), WindowHi(mi, |words|))
  {
    var lo := if mi >= 2 then mi - 2 else 0;
    var hi := if |words| <= mi + 3 then |words| else mi + 3;
    year := None;
    var i := lo;
    while i < hi
      invariant lo <= i <= hi
      invariant FirstYearAt(words, lo, hi) == FirstYearAt(words, i, hi)
    {
      if IsYearWord(words[i]) {
        year := Some(words[i]);
        break;
      }
      i := i + 1;
    }
  }

  /** The two scans of the query for a date filter. */
  method DetectDateFilter(q: string, currentYear: nat) returns (f: Option<string>)
    ensures f == DateFilterOf(q, currentYear)
  {
    var words := Words(q);
    f := FindYearWord(words);
    var found := FindMonth(q);
    if found.Some? {
      f := UseMonth(words, Months[found.value], f, currentYear);
    }
  }

  /** The scan over the month names, stopping at the first that occurs in the text. */
  method FindMonth(q: string) returns (found: Option<nat>)
    ensures found == FirstMonthFrom(q, 0)
  {
    found := None;
    var m := 0;
    while m < |Months|
      invariant 0 <= m <= |Months|
      invariant FirstMonthFrom(q, 0) == FirstMonthFrom(q, m)
    {
      if Contains(q, Months[m]) {
        found := Some(m);
        break;
      }
      m := m + 1;
    }
  }

  /** The body of the month scan once a month occurs: look for it as a word and for a year near it. */
  method UseMonth(words: seq<string>, month: string, f0: Option<string>, currentYear: nat) returns (f: Option<string>)
    ensures f == WithMonth(words, month, f0, currentYear)
  {
    f := f0;
    var mi: int := if month in words then IndexOf(words, month) else -1;
    if mi >= 0 {
      var year := FindYearNear(words, mi);
      if Given(year) {
        f := Some(month + " " + year.value);
      } else {
        f := Some(month + " " + NatToDecimal(currentYear));
      }
    }
  }

  // ---------------------------------------------------------------- routing

  const RepositoryKeywords: seq<string> := ["repositorios", "repos", "repositories"]
  const WorkItemKeywords: seq<string> := ["work items", "tareas", "epics", "historias", "bugs"]
  const PipelineKeywords: seq<string> := ["pipeline", "pipelines", "ci/cd"]

  /** `any(k in q for k in keys)`. */
  function AnyIn(q: string, keys: seq<string>): (r: bool)
    ensures r <==> exists k :: 0 <= k < |keys| && Contains(q, keys[k])
  {
    if keys == [] then false
    else Contains(q, keys[0]) || AnyIn(q, keys[1..])
  }

  /** The work item type named in the query, epics first. */
  function WorkItemType(q: string): Option<string> {
    if Contains(q, "epic") || Contains(q, "epics") then Some("Epic")
    else if Contains(q, "historia") || Contains(q, "user story") || Contains(q, "historias") then Some("User Story")
    else if Contains(q, "tarea") || Contains(q, "task") || Contains(q, "tareas") then Some("Task")
    else if Contains(q, "bug") || Contains(q, "bugs") then Some("Bug")
    else None
  }

  /** The state named in the query: active before closed. */
  function StateOf(q: string): Option<string> {
    if Contains(q, "activ") then Some("Active")
    else if Contains(q, "cerrad") || Contains(q, "completad") then Some("Closed")
    else None
  }

  /** The call for a normalised query and its date filter. */
  function Route(q: string, dateFilter: Option<string>): Action {
    if AnyIn(q, RepositoryKeywords) then
      if Given(dateFilter) then RepositoriesByDate(dateFilter.value) else ListRepositories
    else if AnyIn(q, WorkItemKeywords) then
      var t := WorkItemType(q);
      var s := StateOf(q);
      if Given(t) && Given(dateFilter) then WorkItemsByTypeAndDate(t.value, dateFilter.value, s)
      else if Given(t) then ListWorkItems(t, None, s)
      else if Given(dateFilter) then ListWorkItems(None, dateFilter, s)
      else ListWorkItems(None, None, None)
    else if AnyIn(q, PipelineKeywords) then
      if Given(dateFilter) then PipelinesByDate(dateFilter.value) else ListPipelines
    else NotUnderstood
  }

  /** `parse_natural_query`: normalise, detect the date filter, route. */
  method ParseNaturalQuery(text: string, currentYear: nat) returns (a: Action)
    ensures a == Route(Normalize(text), DateFilterOf(Normalize(text), currentYear))
  {
    var q := Normalize(text);
    var f := DetectDateFilter(q, currentYear);
    a := Route(q, f);
  }
}
