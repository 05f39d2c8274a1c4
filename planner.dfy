/**
 * Listing work items (`list_work_items`): choose the project, decide where
 * the date filter is applied, build the WIQL query, post it, fetch the
 * details of the returned ids in batches of 200 and, when the date filter
 * could not go into the query, filter the details on the client.
 *
 * The REST service is a Remote object: it answers from two fixed functions
 * and records every request it receives, so that the order and content of
 * the requests are part of what the model states.
 */
module WorkItemPlanner {
  import opened Wrappers
  import opened Text
  import opened Civil
  import opened DateResolver
  import opened DateFilter
  import ResolverLaws

  /** The configured organization URL and default project of the tool object. */
  datatype Config = Config(organization: string, project: Option<string>)

  /** The arguments of `list_work_items`; None stands for an omitted argument. */
  datatype ListArgs = ListArgs(
    query: Option<string>,
    project: Option<string>,
    workItemType: Option<string>,
    dateFilter: Option<string>,
    state: Option<string>)

  /** Why a listing raised: no project (ValueError), or the date filter's own error. */
  datatype ListError = NoProject | DateFailure(error: DateError)

  /** A request sent to the service. */
  datatype Request = PostQuery(url: string, query: string) | GetDetails(url: string)

  /** The REST service, answering from fixed functions and logging each request. */
  class Remote {
    var log: seq<Request>
    /** The ids listed under `workItems` in the answer to a WIQL post. */
    const answerQuery: (string, string) -> seq<nat>
    /** The records listed under `value` in the answer to a details request. */
    const answerDetails: string -> seq<Record>

    constructor (q: (string, string) -> seq<nat>, d: string -> seq<Record>)
      ensures log == [] && answerQuery == q && answerDetails == d
    {
      log := [];
      answerQuery := q;
      answerDetails := d;
    }

    method Post(url: string, query: string) returns (ids: seq<nat>)
      modifies this
      ensures log == old(log) + [PostQuery(url, query)]
      ensures ids == answerQuery(url, query)
    {
      log := log + [PostQuery(url, query)];
      ids := answerQuery(url, query);
    }

    method Get(url: string) returns (items: seq<Record>)
      modifies this
      ensures log == old(log) + [GetDetails(url)]
      ensures items == answerDetails(url)
    {
      log := log + [GetDetails(url)];
      items := answerDetails(url);
    }
  }

  // ---------------------------------------------------------------- planning

  /** `project or self.project`. */
  function ChosenProject(cfg: Config, args: ListArgs): Option<string> {
    if Given(args.project) then args.project else cfg.project
  }

  /** The WIQL date condition with both ends. */
  function RangeClause(from: string, to: string): string {
    "AND [System.CreatedDate] >= '" + from + "' AND [System.CreatedDate] <= '" + to + "'"
  }

  /** Where the date filter goes: a clause for the query, or text to filter on later. */
  datatype DatePlan = DatePlan(clause: string, deferred: Option<string>)

  /** The date branch: only without a custom query is the filter resolved here. */
  function PlanDate(args: ListArgs, today: Date): Result<DatePlan, DateError>
    requires Valid(today)
  {
    if Given(args.dateFilter) && !Given(args.query) then
      match Resolve(args.dateFilter.value, today)
      case Err(e) => Err(e)
      case Ok(iv) =>
        if iv.from != "" && iv.to != "" then Ok(DatePlan(RangeClause(iv.from, iv.to), None))
        else if iv.from != "" then Ok(DatePlan("AND [System.CreatedDate] >= '" + iv.from + "'", None))
        else if iv.to != "" then Ok(DatePlan("AND [System.CreatedDate] <= '" + iv.to + "'", None))
        else Ok(DatePlan("", args.dateFilter))
    else if Given(args.dateFilter) && Given(args.query) then Ok(DatePlan("", args.dateFilter))
    else Ok(DatePlan("", None))
  }

  const SelectPrefix: string :=
    "SELECT [System.Id], [System.Title], [System.State], [System.WorkItemType], [System.CreatedDate], "
    + "[System.ChangedDate], [System.AssignedTo], [System.Tags] FROM WorkItems WHERE [System.TeamProject] = '"

  const OrderClause: string := " ORDER BY [System.CreatedDate] DESC"

  /** The fixed SELECT restricted to one project. */
  function Select(project: string): string {
    SelectPrefix + project + "'"
  }

  function TypeCondition(t: string): string {
    "[System.WorkItemType] = '" + t + "'"
  }

  function StateCondition(s: string): string {
    "[System.State] = '" + s + "'"
  }

  /** The `filters` list: the type condition, then the state condition, each when given. */
  function Conditions(workItemType: Option<string>, state: Option<string>): seq<string> {
    (if Given(workItemType) then [TypeCondition(workItemType.value)] else [])
    + (if Given(state) then [StateCondition(state.value)] else [])
  }

  /** The query built when no custom query is given. */
  function BuiltQuery(project: string, workItemType: Option<string>, state: Option<string>, clause: string): string {
    Select(project) + ConditionText(Conditions(workItemType, state)) + ClauseText(clause) + OrderClause
  }

  /** The conditions joined by AND, after a leading AND; nothing when there are none. */
  function ConditionText(conds: seq<string>): string {
    if conds != [] then " AND " + Join(conds, " AND ") else ""
  }

  /** The date clause after a space; nothing when it is empty. */
  function ClauseText(clause: string): string {
    if clause != "" then " " + clause else ""
  }

  function QueryUrl(organization: string, project: string): string {
    organization + "/" + project + "/_apis/wit/wiql?api-version=7.0"
  }

  /** `map(str, batch)`. */
  function IdStrings(batch: seq<nat>): (r: seq<string>)
    ensures |r| == |batch|
    ensures forall k :: 0 <= k < |r| ==> r[k] == NatToDecimal(batch[k])
  {
    if batch == [] then [] else [NatToDecimal(batch[0])] + IdStrings(batch[1..])
  }

  function DetailsUrl(organization: string, project: string, batch: seq<nat>): string {
    organization + "/" + project + "/_apis/wit/workitems?ids=" + Join(IdStrings(batch), ",")
    + "&api-version=7.0&$expand=all"
  }

  /** Everything fixed before the first request. */
  datatype Plan = Plan(project: string, url: string, query: string, deferred: Option<string>)

  function PlanList(cfg: Config, args: ListArgs, today: Date): Result<Plan, ListError>
    requires Valid(today)
  {
    var p := ChosenProject(cfg, args);
    if !Given(p) then Err(NoProject)
    else match PlanDate(args, today)
      case Err(e) => Err(DateFailure(e))
      case Ok(dp) =>
        var query :=
          if Given(args.query) then args.query.value
          else BuiltQuery(p.value, args.workItemType, args.state, dp.clause);
        Ok(Plan(p.value, QueryUrl(cfg.organization, p.value), query, dp.deferred))
  }

  // ---------------------------------------------------------------- batches

  const BatchSize: nat := 200

  /** Consecutive slices of at most BatchSize ids. */
  function Batches(ids: seq<nat>): seq<seq<nat>>
    decreases |ids|
  {
    if ids == [] then []
    else if |ids| <= BatchSize then [ids]
    else [ids[..BatchSize]] + Batches(ids[BatchSize..])
  }

  function Flatten(bs: seq<seq<nat>>): seq<nat> {
    if bs == [] then [] else bs[0] + Flatten(bs[1..])
  }

  /** The details requests, one per batch, in batch order. */
  function DetailRequests(organization: string, project: string, bs: seq<seq<nat>>): seq<Request> {
    if bs == [] then []
    else [GetDetails(DetailsUrl(organization, project, bs[0]))] + DetailRequests(organization, project, bs[1..])
  }

  /** The records answered to those requests, concatenated in batch order. */
  function Fetched(answer: string -> seq<Record>, organization: string, project: string, bs: seq<seq<nat>>): seq<Record> {
    if bs == [] then []
    else answer(DetailsUrl(organization, project, bs[0])) + Fetched(answer, organization, project, bs[1..])
  }

  /** The ids from position i on, empty once i is past the end (Python slicing). */
  function Tail(ids: seq<nat>, i: nat): seq<nat> {
    if i <= |ids| then ids[i..] else []
  }

  /** The path the deferred date filter reads. */
  const CreatedDatePath: string := "fields.System.CreatedDate"

  /** The listing once the ids are known: empty without ids, else the fetched details, filtered when deferred. */
  function Outcome(plan: Plan, ids: seq<nat>, answer: string -> seq<Record>, organization: string,
                   today: Date, parse: Parser): Result<seq<Record>, ListError>
    requires Valid(today)
  {
    if ids == [] then Ok([])
    else
      var details := Fetched(answer, organization, plan.project, Batches(ids));
      if Given(plan.deferred) then
        match Filtered(details, CreatedDatePath, plan.deferred.value, today, parse)
        case Err(e) => Err(DateFailure(e))
        case Ok(kept) => Ok(kept)
      else Ok(details)
  }

  // ---------------------------------------------------------------- the operation

  /** `list_work_items`, with its query building and batch loop. */
  method ListWorkItems(cfg: Config, args: ListArgs, today: Date, parse: Parser, remote: Remote)
    returns (r: Result<seq<Record>, ListError>)
    requires Valid(today)
    modifies remote
    ensures PlanList(cfg, args, today).Err? ==>
      r == Err(PlanList(cfg, args, today).error) && remote.log == old(remote.log)
    ensures PlanList(cfg, args, today).Ok? ==>
      var plan := PlanList(cfg, args, today).value;
      var ids := remote.answerQuery(plan.url, plan.query);
      remote.log == old(remote.log) + [PostQuery(plan.url, plan.query)]
        + (if ids == [] then [] else DetailRequests(cfg.organization, plan.project, Batches(ids)))
      && r == Outcome(plan, ids, remote.answerDetails, cfg.organization, today, parse)
  {
    var chosen := ChosenProject(cfg, args);
    if !Given(chosen) {
      return Err(NoProject);
    }
    var project := chosen.value;
    var dates := PlanDate(args, today);
    if dates.Err? {
      return Err(DateFailure(dates.error));
    }
    var query: string;
    if Given(args.query) {
      query := args.query.value;
    } else {
      query := BuildQuery(project, args.workItemType, args.state, dates.value.clause);
    }
    var url := QueryUrl(cfg.organization, project);
    assert PlanList(cfg, args, today) == Ok(Plan(project, url, query, dates.value.deferred));
    var ids := remote.Post(url, query);
    if ids == [] {
      return Ok([]);
    }
    var details := FetchBatches(cfg.organization, project, ids, remote);
    if Given(dates.value.deferred) {
      var filtered := FilterByDate(details, CreatedDatePath, dates.value.deferred.value, today, parse);
      match filtered
      case Err(e) => return Err(DateFailure(e));
      case Ok(kept) => return Ok(kept);
    }
    return Ok(details);
  }

  /** The query building, growing the text clause by clause. */
  method BuildQuery(project: string, workItemType: Option<string>, state: Option<string>, clause: string)
    returns (query: string)
    ensures query == BuiltQuery(project, workItemType, state, clause)
  {
    query := Select(project);
    var filters: seq<string> := [];
    if Given(workItemType) {
      filters := filters + [TypeCondition(workItemType.value)];
    }
    if Given(state) {
      filters := filters + [StateCondition(state.value)];
    }
    assert filters == Conditions(workItemType, state);
    if filters != [] {
      query := query + (" AND " + Join(filters, " AND "));
    } else {
      assert query + "" == query;
    }
    assert query == Select(project) + ConditionText(filters);
    if clause != "" {
      query := query + (" " + clause);
    } else {
      assert query + "" == query;
    }
    assert query == Select(project) + ConditionText(filters) + ClauseText(clause);
    query := query + OrderClause;
  }

  /** The batch loop: one details request per slice of ids, answers appended in order. */
  method FetchBatches(organization: string, project: string, ids: seq<nat>, remote: Remote)
    returns (details: seq<Record>)
    modifies remote
    ensures remote.log == old(remote.log) + DetailRequests(organization, project, Batches(ids))
    ensures details == Fetched(remote.answerDetails, organization, project, Batches(ids))
  {
    details := [];
    var i: nat := 0;
    while i < |ids|
      invariant remote.log + DetailRequests(organization, project, Batches(Tail(ids, i)))
        == old(remote.log) + DetailRequests(organization, project, Batches(ids))
      invariant details + Fetched(remote.answerDetails, organization, project, Batches(Tail(ids, i)))
        == Fetched(remote.answerDetails, organization, project, Batches(ids))
      decreases |ids| - i
    {
      var end := if i + BatchSize <= |ids| then i + BatchSize else |ids|;
      var batch := ids[i..end];
      var url := DetailsUrl(organization, project, batch);
      ghost var rest := Batches(Tail(ids, i + BatchSize));
      BatchStep(ids, i);
      RequestsCons(organization, project, batch, rest);
      FetchedCons(remote.answerDetails, organization, project, batch, rest);
      ghost var logBefore := remote.log;
      var answer := remote.Get(url);
      Regroup(logBefore, [GetDetails(url)], DetailRequests(organization, project, rest));
      Regroup(details, answer, Fetched(remote.answerDetails, organization, project, rest));
      details := details + answer;
      i := i + BatchSize;
    }
    assert Tail(ids, i) == [];
  }

  lemma Regroup<T>(a: seq<T>, b: seq<T>, c: seq<T>)
    ensures a + (b + c) == (a + b) + c
  {
  }

  lemma RequestsCons(organization: string, project: string, b: seq<nat>, rest: seq<seq<nat>>)
    ensures DetailRequests(organization, project, [b] + rest)
      == [GetDetails(DetailsUrl(organization, project, b))] + DetailRequests(organization, project, rest)
  {
    assert ([b] + rest)[1..] == rest;
  }

  lemma FetchedCons(answer: string -> seq<Record>, organization: string, project: string, b: seq<nat>, rest: seq<seq<nat>>)
    ensures Fetched(answer, organization, project, [b] + rest)
      == answer(DetailsUrl(organization, project, b)) + Fetched(answer, organization, project, rest)
  {
    assert ([b] + rest)[1..] == rest;
  }

  /** One turn of the batch loop: the next batch is the clamped slice, and the rest starts BatchSize later. */
  lemma BatchStep(ids: seq<nat>, i: nat)
    requires i < |ids|
    ensures var end := if i + BatchSize <= |ids| then i + BatchSize else |ids|;
      Batches(Tail(ids, i)) == [ids[i..end]] + Batches(Tail(ids, i + BatchSize))
  {
    var t := ids[i..];
    if |t| > BatchSize {
      assert t[..BatchSize] == ids[i..i + BatchSize];
      assert t[BatchSize..] == ids[i + BatchSize..];
    } else {
      assert t == ids[i..|ids|];
      assert Tail(ids, i + BatchSize) == [];
      assert Batches([]) == [];
    }
  }

  /** `search_work_items_by_type_and_date`: a listing with no custom query. */
  method SearchWorkItemsByTypeAndDate(cfg: Config, workItemType: string, dateFilter: string,
                                      project: Option<string>, state: Option<string>,
                                      today: Date, parse: Parser, remote: Remote)
    returns (r: Result<seq<Record>, ListError>)
    requires Valid(today)
    modifies remote
    ensures var args := ListArgs(None, project, Some(workItemType), Some(dateFilter), state);
      PlanList(cfg, args, today).Err? ==>
        r == Err(PlanList(cfg, args, today).error) && remote.log == old(remote.log)
    ensures var args := ListArgs(None, project, Some(workItemType), Some(dateFilter), state);
      PlanList(cfg, args, today).Ok? ==>
        var plan := PlanList(cfg, args, today).value;
        var ids := remote.answerQuery(plan.url, plan.query);
        remote.log == old(remote.log) + [PostQuery(plan.url, plan.query)]
          + (if ids == [] then [] else DetailRequests(cfg.organization, plan.project, Batches(ids)))
        && r == Outcome(plan, ids, remote.answerDetails, cfg.organization, today, parse)
  {
    r := ListWorkItems(cfg, ListArgs(None, project, Some(workItemType), Some(dateFilter), state), today, parse, remote);
  }
}
