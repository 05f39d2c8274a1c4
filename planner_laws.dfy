/**
 * Properties of the work-item listing: when it raises, where the date filter
 * goes, what the built query contains, how ids are batched, and what the
 * deferred client-side filter reads.
 */
module PlannerLaws {
  import opened Wrappers
  import opened Text
  import opened Civil
  import opened DateResolver
  import opened DateFilter
  import opened WorkItemPlanner
  import ResolverLaws

  // ---------------------------------------------------------------- project and dates

  /** The listing fails for want of a project exactly when neither the argument nor the default is given. */
  lemma NoProjectIffNeitherGiven(cfg: Config, args: ListArgs, today: Date)
    requires Valid(today)
    ensures PlanList(cfg, args, today) == Err(NoProject) <==> !Given(args.project) && !Given(cfg.project)
  {
  }

  /** A given project argument wins over the configured default. */
  lemma ArgumentProjectWins(cfg: Config, args: ListArgs, today: Date)
    requires Valid(today) && Given(args.project) && PlanList(cfg, args, today).Ok?
    ensures PlanList(cfg, args, today).value.project == args.project.value
    ensures PlanList(cfg, args, today).value.url == QueryUrl(cfg.organization, args.project.value)
  {
  }

  /** A custom query is sent as given, and a date filter beside it is left to the client. */
  lemma CustomQueryIsVerbatim(cfg: Config, args: ListArgs, today: Date)
    requires Valid(today) && Given(args.query) && Given(ChosenProject(cfg, args))
    ensures PlanList(cfg, args, today).Ok?
    ensures PlanList(cfg, args, today).value.query == args.query.value
    ensures PlanList(cfg, args, today).value.deferred == if Given(args.dateFilter) then args.dateFilter else None
  {
  }

  /**
   * Without a custom query the date filter always goes into the query with
   * both ends, so nothing is left to the client: the fallback that would
   * filter on the client is never taken.
   */
  lemma DatesGoToServer(cfg: Config, args: ListArgs, today: Date)
    requires Valid(today) && !Given(args.query) && Given(args.dateFilter) && Given(ChosenProject(cfg, args))
    requires Resolve(args.dateFilter.value, today).Ok?
    ensures var iv := Resolve(args.dateFilter.value, today).value;
      var p := ChosenProject(cfg, args).value;
      PlanList(cfg, args, today) ==
        Ok(Plan(p, QueryUrl(cfg.organization, p), BuiltQuery(p, args.workItemType, args.state, RangeClause(iv.from, iv.to)), None))
  {
    ResolverLaws.ResolvedShape(args.dateFilter.value, today);
  }

  /** Without a custom query nothing is ever filtered on the client. */
  lemma NothingDeferredWithoutQuery(cfg: Config, args: ListArgs, today: Date)
    requires Valid(today) && !Given(args.query) && PlanList(cfg, args, today).Ok?
    ensures PlanList(cfg, args, today).value.deferred == None
  {
    if Given(args.dateFilter) {
      DatesGoToServer(cfg, args, today);
    }
  }

  /** A date filter that raises stops the listing before any request. */
  lemma DateErrorComesFirst(cfg: Config, args: ListArgs, today: Date)
    requires Valid(today) && !Given(args.query) && Given(args.dateFilter) && Given(ChosenProject(cfg, args))
    requires Resolve(args.dateFilter.value, today).Err?
    ensures PlanList(cfg, args, today) == Err(DateFailure(Resolve(args.dateFilter.value, today).error))
  {
  }

  // ---------------------------------------------------------------- the built query

  /** The query opens with the SELECT for the project and closes with the ordering. */
  lemma QueryFrame(project: string, workItemType: Option<string>, state: Option<string>, clause: string)
    ensures var q := BuiltQuery(project, workItemType, state, clause);
      StartsWith(q, Select(project)) && |OrderClause| <= |q| && q[|q| - |OrderClause|..] == OrderClause
  {
    var c := ConditionText(Conditions(workItemType, state));
    var l := ClauseText(clause);
    Frame(Select(project) + c + l, OrderClause);
    Frame(Select(project), c + l);
    assert Select(project) + c + l == Select(project) + (c + l);
  }

  /** The two halves of a concatenation can be read back from it. */
  lemma Frame(a: string, z: string)
    ensures (a + z)[..|a|] == a && (a + z)[|a|..] == z
  {
  }

  lemma TypeConditionInjective(a: string, b: string)
    requires TypeCondition(a) == TypeCondition(b)
    ensures a == b
  {
    var n := |"[System.WorkItemType] = '"|;
    assert a == TypeCondition(a)[n..|TypeCondition(a)| - 1];
    assert b == TypeCondition(b)[n..|TypeCondition(b)| - 1];
  }

  lemma StateConditionInjective(a: string, b: string)
    requires StateCondition(a) == StateCondition(b)
    ensures a == b
  {
    var n := |"[System.State] = '"|;
    assert a == StateCondition(a)[n..|StateCondition(a)| - 1];
    assert b == StateCondition(b)[n..|StateCondition(b)| - 1];
  }

  /** A type condition is never a state condition: they differ at the ninth character. */
  lemma TypeIsNotState(a: string, b: string)
    ensures TypeCondition(a) != StateCondition(b)
  {
    assert TypeCondition(a)[8] == 'W';
    assert StateCondition(b)[8] == 'S';
  }

  /**
   * The query's conditions hold a type condition exactly for the given type
   * and a state condition exactly for the given state, the type first.
   */
  lemma ConditionsAreTheGivenOnes(workItemType: Option<string>, state: Option<string>, t: string)
    ensures TypeCondition(t) in Conditions(workItemType, state) <==> Given(workItemType) && workItemType.value == t
    ensures StateCondition(t) in Conditions(workItemType, state) <==> Given(state) && state.value == t
    ensures Given(workItemType) && Given(state) ==>
      Conditions(workItemType, state) == [TypeCondition(workItemType.value), StateCondition(state.value)]
  {
    if Given(workItemType) {
      if TypeCondition(t) == TypeCondition(workItemType.value) { TypeConditionInjective(t, workItemType.value); }
      TypeIsNotState(workItemType.value, t);
    }
    if Given(state) {
      if StateCondition(t) == StateCondition(state.value) { StateConditionInjective(t, state.value); }
      TypeIsNotState(t, state.value);
    }
  }

  /** With neither type, state nor date the query is the bare SELECT with its ordering. */
  lemma BareQuery(project: string)
    ensures BuiltQuery(project, None, None, "") == Select(project) + OrderClause
  {
    assert Select(project) + "" + "" == Select(project);
  }

  // ---------------------------------------------------------------- batches

  /** The batches, put back together, are the ids in their order. */
  lemma {:induction false} BatchesCoverIds(ids: seq<nat>)
    ensures Flatten(Batches(ids)) == ids
    decreases |ids|
  {
    if |ids| > BatchSize {
      BatchesCoverIds(ids[BatchSize..]);
      assert ([ids[..BatchSize]] + Batches(ids[BatchSize..]))[1..] == Batches(ids[BatchSize..]);
      assert ids[..BatchSize] + ids[BatchSize..] == ids;
    } else if ids != [] {
      assert [ids][1..] == [];
      assert ids + [] == ids;
    }
  }

  /** Every batch holds 1 to 200 ids, and every batch but the last exactly 200. */
  lemma {:induction false} BatchSizes(ids: seq<nat>)
    ensures forall k :: 0 <= k < |Batches(ids)| ==> 1 <= |Batches(ids)[k]| <= BatchSize
    ensures forall k :: 0 <= k < |Batches(ids)| - 1 ==> |Batches(ids)[k]| == BatchSize
    decreases |ids|
  {
    if |ids| > BatchSize {
      BatchSizes(ids[BatchSize..]);
      var rest := Batches(ids[BatchSize..]);
      assert Batches(ids) == [ids[..BatchSize]] + rest;
      forall k | 1 <= k < |Batches(ids)|
        ensures Batches(ids)[k] == rest[k - 1]
      {
      }
    }
  }

  /** There are ceil(n / 200) batches, hence as many details requests. */
  lemma {:induction false} BatchCount(ids: seq<nat>)
    ensures |Batches(ids)| == (|ids| + BatchSize - 1) / BatchSize
    decreases |ids|
  {
    if |ids| > BatchSize {
      BatchCount(ids[BatchSize..]);
      assert |ids[BatchSize..]| + BatchSize - 1 == (|ids| + BatchSize - 1) - BatchSize;
    }
  }

  /** 450 ids go out as 200, 200 and 50. */
  lemma FourHundredFifty(ids: seq<nat>)
    requires |ids| == 450
    ensures |Batches(ids)| == 3
    ensures Batches(ids) == [ids[..200], ids[200..400], ids[400..]]
  {
    var r1 := ids[200..];
    var r2 := r1[200..];
    assert Batches(r2) == [r2];
    assert r1[..200] == ids[200..400];
    assert r2 == ids[400..];
  }

  /** The requests and the records follow the batches one for one. */
  lemma {:induction false} RequestPerBatch(organization: string, project: string, bs: seq<seq<nat>>)
    ensures |DetailRequests(organization, project, bs)| == |bs|
    decreases |bs|
  {
    if bs != [] {
      RequestPerBatch(organization, project, bs[1..]);
    }
  }

  /** The ids written into a details URL read back as the batch. */
  lemma IdsReadBack(batch: seq<nat>)
    requires batch != []
    ensures SplitOn(Join(IdStrings(batch), ","), ',') == IdStrings(batch)
    ensures forall k :: 0 <= k < |batch| ==> DecimalValue(IdStrings(batch)[k]) == batch[k]
  {
    var parts := IdStrings(batch);
    forall p | p in parts
      ensures ',' !in p
    {
      var k :| 0 <= k < |parts| && parts[k] == p;
      assert AllDigits(NatToDecimal(batch[k]));
    }
    JoinThenSplit(parts, ',');
    forall k | 0 <= k < |batch|
      ensures DecimalValue(parts[k]) == batch[k]
    {
      DecimalRoundTrip(batch[k]);
    }
  }

  /** Splitting a join on a separator that no part contains gives the parts back. */
  lemma {:induction false} JoinThenSplit(parts: seq<string>, c: char)
    requires parts != []
    requires forall p :: p in parts ==> c !in p
    ensures SplitOn(Join(parts, [c]), c) == parts
    decreases |parts|
  {
    if |parts| > 1 {
      var rest := parts[1..];
      var j := Join(rest, [c]);
      var s := parts[0] + [c] + j;
      assert Join(parts, [c]) == s;
      assert parts[0] in parts;
      SplitAtFirst(parts[0], j, c);
      assert forall p :: p in rest ==> p in parts;
      JoinThenSplit(rest, c);
      assert parts == [parts[0]] + rest;
    } else {
      assert c !in parts[0];
    }
  }

  // ---------------------------------------------------------------- the deferred filter path

  /** The deferred filter splits its path at every dot. */
  lemma CreatedDatePathParts()
    ensures SplitOn(CreatedDatePath, '.') == ["fields", "System", "CreatedDate"]
  {
    var tail := "System" + ['.'] + "CreatedDate";
    assert CreatedDatePath == "fields" + ['.'] + tail;
    assert '.' !in "fields";
    assert '.' !in "System";
    assert '.' !in "CreatedDate";
    SplitAtFirst("fields", tail, '.');
    SplitAtFirst("System", "CreatedDate", '.');
    assert SplitOn("CreatedDate", '.') == ["CreatedDate"];
    Triple("fields", "System", "CreatedDate");
  }

  lemma Triple(a: string, b: string, c: string)
    ensures [a] + ([b] + [c]) == [a, b, c]
  {
  }

  /** Splitting at the first separator: what precedes it is the first part. */
  lemma SplitAtFirst(a: string, b: string, c: char)
    requires c !in a
    ensures SplitOn(a + [c] + b, c) == [a] + SplitOn(b, c)
  {
    var s := a + [c] + b;
    assert s[|a|] == c;
    var j := IndexOfChar(s, c);
    assert forall k :: 0 <= k < |a| ==> s[k] == a[k];
    assert j == |a|;
    assert s[..j] == a;
    assert s[j + 1..] == b;
  }

  /**
   * A record whose `fields` object has no key `System` is dropped by the
   * deferred filter, whatever its dates: the split path looks for
   * `fields` / `System` / `CreatedDate`.  The service keys its fields by
   * dotted reference names (`System.CreatedDate`), so every such record is dropped.
   */
  lemma DeferredFilterMissesDottedKey(item: Record, from: string, to: string, parse: Parser)
    requires "fields" in item && item["fields"].JObj? && "System" !in item["fields"].fields
    ensures FieldValue(item, CreatedDatePath) == JNull
    ensures !Kept(item, CreatedDatePath, from, to, parse)
  {
    CreatedDatePathParts();
    var parts := ["fields", "System", "CreatedDate"];
    assert parts[1..] == ["System", "CreatedDate"];
  }

  /** A concrete work item created inside any range is still dropped by the deferred filter. */
  lemma DeferredFilterDropsServiceRecord(stamp: string, from: string, to: string, parse: Parser)
    ensures var item := map["id" := JNum(1), "fields" := JObj(map["System.CreatedDate" := JStr(stamp)])];
      !Kept(item, CreatedDatePath, from, to, parse)
  {
    var item := map["id" := JNum(1), "fields" := JObj(map["System.CreatedDate" := JStr(stamp)])];
    assert "System" !in item["fields"].fields;
    DeferredFilterMissesDottedKey(item, from, to, parse);
  }

  /** So a deferred filter keeps none of a list of such records. */
  lemma {:induction false} DeferredFilterKeepsNone(items: seq<Record>, from: string, to: string, parse: Parser)
    requires forall k :: 0 <= k < |items| ==>
      "fields" in items[k] && items[k]["fields"].JObj? && "System" !in items[k]["fields"].fields
    ensures KeepAll(items, CreatedDatePath, from, to, parse) == []
    decreases |items|
  {
    if items != [] {
      DeferredFilterKeepsNone(items[..|items| - 1], from, to, parse);
      DeferredFilterMissesDottedKey(items[|items| - 1], from, to, parse);
    }
  }

  /** The creation date where the service puts it: key `System.CreatedDate` inside `fields`. */
  function CreatedDate(item: Record): (v: Json)
    ensures "fields" in item && item["fields"].JObj? && "System.CreatedDate" in item["fields"].fields ==>
      v == item["fields"].fields["System.CreatedDate"]
    ensures !("fields" in item && item["fields"].JObj? && "System.CreatedDate" in item["fields"].fields) ==>
      v == JNull
  {
    Walk(JObj(item), ["fields", "System.CreatedDate"])
  }

  /** A record whose `fields` object holds the service's creation date. */
  predicate HoldsCreatedDate(item: Record) {
    "fields" in item && item["fields"].JObj? && "System.CreatedDate" in item["fields"].fields
  }

  /**
   * Read at that key, any record holding a date is kept exactly when the
   * date parses and lies between the ends, both included, on the same
   * time-zone awareness as each end.
   */
  lemma CorrectedDeferredFilterKeeps(item: Record, stamp: string, from: string, to: string, parse: Parser)
    requires HoldsCreatedDate(item) && item["fields"].fields["System.CreatedDate"] == JStr(stamp)
    requires stamp != "" && parse(stamp).Some? && from != "" && to != ""
    requires parse(from).Some? && parse(to).Some?
    ensures Decide(CreatedDate(item), from, to, parse) <==>
      NotAfter(parse(from).value, parse(stamp).value) == Some(true) &&
      NotAfter(parse(stamp).value, parse(to).value) == Some(true)
  {
    assert CreatedDate(item) == JStr(stamp);
  }

  /**
   * Even at the right key, a record stamped with a time zone (the service's
   * `...Z` form) is dropped against a naive end such as the resolver's
   * `YYYY-MM-DD`: the comparison raises TypeError and the bare `except`
   * swallows it.
   */
  lemma AwareRecordDropped(item: Record, stamp: string, from: string, to: string, parse: Parser)
    requires HoldsCreatedDate(item) && item["fields"].fields["System.CreatedDate"] == JStr(stamp)
    requires parse(stamp).Some? && parse(stamp).value.aware
    requires from != "" && parse(from).Some? && !parse(from).value.aware
    ensures !Decide(CreatedDate(item), from, to, parse)
  {
    assert CreatedDate(item) == JStr(stamp);
  }

  // ------------------------------------------------ the corrected filter

  /** A parsed datetime with a naive result read as UTC. */
  function AsUtc(t: Option<Stamp>): (r: Option<Stamp>)
    ensures r.Some? <==> t.Some?
    ensures r.Some? ==> r.value.aware && r.value.seconds == t.value.seconds
  {
    match t
    case None => None
    case Some(st) => Some(Stamp(st.seconds, true))
  }

  /** The parser composed with `AsUtc`, so every two results compare. */
  function UtcParser(parse: Parser): Parser {
    s => AsUtc(parse(s))
  }

  /** The deferred filter's test as intended: the service's key, and instants compared across awareness. */
  predicate CorrectedKept(item: Record, from: string, to: string, parse: Parser) {
    Decide(CreatedDate(item), from, to, UtcParser(parse))
  }

  /**
   * With both ends given, the corrected test keeps a record exactly when it
   * holds a date that parses, both ends parse, and its instant lies between
   * them, both included, whatever the time-zone awareness of each.
   */
  lemma CorrectedKeptMeans(item: Record, from: string, to: string, parse: Parser)
    requires from != "" && to != ""
    ensures CorrectedKept(item, from, to, parse) <==>
      HoldsCreatedDate(item) && CreatedDate(item).JStr? && CreatedDate(item).s != "" &&
      parse(CreatedDate(item).s).Some? && parse(from).Some? && parse(to).Some? &&
      parse(from).value.seconds <= parse(CreatedDate(item).s).value.seconds <= parse(to).value.seconds
  {
    var u := UtcParser(parse);
    DecideMeans(CreatedDate(item), from, to, u);
    assert u(from) == AsUtc(parse(from)) && u(to) == AsUtc(parse(to));
    if CreatedDate(item).JStr? {
      assert u(CreatedDate(item).s) == AsUtc(parse(CreatedDate(item).s));
    }
  }

  /** Where the record and the ends agree on awareness, the correction changes nothing. */
  lemma CorrectedAgreesOnSameAwareness(item: Record, stamp: string, from: string, to: string, parse: Parser)
    requires HoldsCreatedDate(item) && item["fields"].fields["System.CreatedDate"] == JStr(stamp)
    requires parse(stamp).Some? && parse(from).Some? && parse(to).Some?
    requires parse(from).value.aware == parse(stamp).value.aware == parse(to).value.aware
    ensures CorrectedKept(item, from, to, parse) == Decide(CreatedDate(item), from, to, parse)
  {
    var u := UtcParser(parse);
    assert CreatedDate(item) == JStr(stamp);
    assert u(stamp) == AsUtc(parse(stamp));
    assert u(from) == AsUtc(parse(from)) && u(to) == AsUtc(parse(to));
  }

  /** The deferred filter with both corrections, in the original order. */
  function CorrectedKeepAll(items: seq<Record>, from: string, to: string, parse: Parser): seq<Record>
    decreases |items|
  {
    if items == [] then []
    else
      var last := items[|items| - 1];
      CorrectedKeepAll(items[..|items| - 1], from, to, parse) +
        (if CorrectedKept(last, from, to, parse) then [last] else [])
  }

  /** A record is in the corrected result exactly when it is an input record the corrected test keeps. */
  lemma {:induction false} CorrectedKeepAllMembers(items: seq<Record>, from: string, to: string, parse: Parser, x: Record)
    ensures x in CorrectedKeepAll(items, from, to, parse) <==> x in items && CorrectedKept(x, from, to, parse)
    decreases |items|
  {
    if items != [] {
      var init := items[..|items| - 1];
      CorrectedKeepAllMembers(init, from, to, parse, x);
      assert items == init + [items[|items| - 1]];
    }
  }
}
