# Azure DevOps work-item date filtering, modelled in Dafny

This project models the logic at the centre of the Azure DevOps tool server and its client. The model has four parts:

- **The date-expression resolver** `AzureDevOpsTool._parse_date_filter`. It turns a natural-language filter (`today`, `last week`, `last 3 months`, `2025-01-01 to 2025-02-01`, `since …`, `before …`, anything else) into a `(from, to)` pair of date strings.
- **The client-side date filter** `_filter_by_date`. It walks a dotted path through each JSON record, parses the value it finds there and keeps the records that fall inside the inclusive range.
- **The work-item query planner** `list_work_items`, together with its one-line wrapper `search_work_items_by_type_and_date`. It chooses the project and decides whether the date filter goes into the WIQL query or is applied afterwards on the client. It builds the query, posts it, fetches the details in batches of 200 ids and applies any deferred filter.
- **The natural-language router** `DevOpsMCPClient.parse_natural_query`. It normalises the text, picks out a year or a Spanish month with a nearby year, and chooses the tool call, returned as an `Action` value.

Modules follow the program:

- `Wrappers`: `Option`, `Result`, and Python truthiness of optional strings.
- `Text`: `lower`/`strip`, `split()`, `split('.')`, `in` on strings, and decimal `str(int)`.
- `Civil`: proleptic Gregorian dates, `toordinal`, `weekday`, `timedelta` subtraction, and `%Y-%m-%d` formatting and parsing.
- `DateResolver` and `ResolverLaws`: the resolver.
- `DateFilter`: the client-side filter.
- `WorkItemPlanner` and `PlannerLaws`: the planner, with the REST service as a `Remote` object that answers from two fixed functions and logs every request.
- `QueryRouter` and `RouterLaws`: the router.

The source reads the clock, so the model takes `today` (a valid date) and `currentYear` as parameters.

Date parsing by `dateutil` is a parameter of type `Parser = string -> Option<Stamp>`. A `Stamp` carries an instant in seconds and whether it is time-zone aware. The two combinations the source can meet are modelled:

- comparing an aware stamp with a naive one raises `TypeError`, and that error drops the record;
- any parse failure also drops the record.

`azdo_tools_backup.py` holds copies of `_parse_date_filter`, `_filter_by_date` and `list_work_items` that behave the same way. Each is modelled once. Rows citing the backup file point at the same behaviour in that copy.

## Model

| member | source | states |
|---|---|---|
| Text.NormalizeIdempotent | azdo_tools.py:119 | lower-casing and stripping a second time changes nothing |
| Text.Contains | mcp_client.py:250 | `sub in s` holds exactly when `sub` occurs at some position of `s` |
| Text.Words | mcp_client.py:241 | every word of `str.split()` is non-empty and free of whitespace |
| Text.WordsEmpty | mcp_client.py:241 | `str.split()` gives no word exactly when the text is all whitespace |
| Text.WordsOfJoin | mcp_client.py:241 | words joined by single spaces split back into exactly those words, in order |
| Text.WordsAfterWord | mcp_client.py:241 | a word followed by a space is the first word, and the rest splits on its own |
| Text.SplitOn | azdo_tools.py:234 | `split('.')` yields at least one part, and no part contains the separator |
| Text.SplitThenJoin | azdo_tools.py:234 | joining the parts of a split with the separator gives back the original string |
| Text.NatToDecimal | azdo_tools.py:454 | `str(id)` is a non-empty run of decimal digits |
| Text.DecimalRoundTrip | azdo_tools.py:454 | the digits written for an id read back as that id |
| Civil.SubDays | azdo_tools.py:125 | `date - timedelta(days=n)` is defined exactly when the result is on or after 0001-01-01, and is then exactly n days earlier |
| Civil.PrevMonthEnd | azdo_tools.py:138 | the day before the 1st of a month is the last day of the previous month |
| Civil.Ordinal | azdo_tools.py:125-211 | `date.toordinal()`: the day number counted from 0001-01-01 as 1, which every `timedelta` step and date comparison goes through; OrdinalOrder and SubDays give its meaning |
| Civil.Weekday | azdo_tools.py:128-131 | `date.weekday()`: 0 for Monday to 6 for Sunday, from the day number; MondayOnOrBefore and SundayBefore give its meaning |
| Civil.OrdinalOrder | azdo_tools.py:256 | calendar order of two dates is the order of their day numbers, and equal dates have equal day numbers |
| Civil.MondayOnOrBefore | azdo_tools.py:128 | going back `weekday()` days from any date lands on a Monday |
| Civil.SundayBefore | azdo_tools.py:131 | going back `weekday() + 1` days lands on a Sunday |
| Civil.Format | azdo_tools.py:123 | `strftime('%Y-%m-%d')` yields text of the shape `dddd-dd-dd` |
| Civil.FormatThenParse | azdo_tools.py:123 | a formatted date parses back to the same date |
| Civil.ParseThenFormat | azdo_tools.py:123 | a text that parses as a date is the formatted form of that date |
| DateResolver.MatchLastN | azdo_tools.py:153-155 | a match of `last (\d+) <unit>s?` at the start means the text has that form, and the number is the value of the longest digit run |
| DateResolver.LastNMatchIsGreedy | azdo_tools.py:153-155 | every text of the form `last <digits> <unit>` matches, with the number of the whole digit run |
| DateResolver.MatchRange | azdo_tools.py:183-186 | a match of `date \s+ to \s+ date` at the start returns two date-shaped captures, the first being the ten characters at position 0 |
| DateResolver.MatchRangeMeans | azdo_tools.py:183-186 | the pattern matches exactly when the text starts with a date, whitespace, `to`, whitespace and a date, and the captures are then those two dates |
| DateResolver.RunsMatchRange | azdo_tools.py:183-186 | the whitespace runs the matcher reads around `to` give the pattern's form |
| DateResolver.RangeMatchIsGreedy | azdo_tools.py:183-186 | every text of that form matches, and the captures are the two dates |
| DateResolver.MatchKeywordDate | azdo_tools.py:196-198 | a match of `since\s+date` or `before\s+date` means the text starts with the keyword and the capture is the date after the spaces |
| DateResolver.KeywordDateIsGreedy | azdo_tools.py:202-204 | every text of that form matches, and the capture sits right after the whole run of spaces |
| DateResolver.Classify | azdo_tools.py:122-207 | which branch a normalised filter takes, testing in source order: the eight exact keywords, `last N days`, `last N weeks`, `last N months`, the range, the single date, `since`, `before`, and otherwise the default; the `ResolverLaws.Classify*` lemmas and KeywordsClassify give its meaning |
| DateResolver.TodayRange | azdo_tools.py:122-123 | the `today` branch: today at both ends; TodayIsToday gives its meaning |
| DateResolver.YesterdayRange | azdo_tools.py:124-126 | the `yesterday` branch: one day back at both ends, or OverflowError; YesterdayIsDayBefore gives its meaning |
| DateResolver.ThisWeekRange | azdo_tools.py:127-129 | the `this week` branch: `weekday()` days back to today; ThisWeekFromMonday gives its meaning |
| DateResolver.LastWeekRange | azdo_tools.py:130-133 | the `last week` branch: `weekday() + 1` days back for the end and six more for the start; LastWeekIsPreviousWeek gives its meaning |
| DateResolver.ThisMonthRange | azdo_tools.py:134-136 | the `this month` branch: `replace(day=1)` to today; ThisMonthFromFirst gives its meaning |
| DateResolver.LastMonthRange | azdo_tools.py:137-140 | the `last month` branch: the day before this month's 1st, and the 1st of that month; LastMonthIsPreviousMonth gives its meaning |
| DateResolver.ThisYearRange | azdo_tools.py:141-143 | the `this year` branch: `replace(month=1, day=1)` to today; ThisYearFromJanuary gives its meaning |
| DateResolver.LastYearRange | azdo_tools.py:144-148 | the `last year` branch: 1 January and 31 December of the year before, or ValueError in year 1; LastYearIsPreviousYear gives its meaning |
| DateResolver.LastDaysRange | azdo_tools.py:153-164 | the `last N days` branch, also used for `last N weeks` as 7N days: N days back to today, or OverflowError; LastDaysGoesBack and LastWeeksAreSevenDays give its meaning |
| DateResolver.LastMonthsRange | azdo_tools.py:167-180 | the `last N months` branch: the wrapped month with today's day through `replace`, or ValueError; LastMonthsGoesBack gives its meaning |
| DateResolver.BeforeRange | azdo_tools.py:202-207 | the `before D` branch: 365 days back, and D verbatim; BeforeCanInvert gives its meaning |
| DateResolver.DefaultRange | azdo_tools.py:209-211 | the default: 30 days back to today; DefaultIsLast30Days gives its meaning |
| DateResolver.WrappedMonth | azdo_tools.py:175-177 | the wrapped (year, month) denotes the same month count, with the month in 1..12; it is unchanged when the month is already positive |
| DateResolver.MonthSplitUnique | azdo_tools.py:175-177 | a month count has only one (year, month in 1..12) form, so the wrapped result is the only correct one |
| DateResolver.WrapMonth | azdo_tools.py:171-177 | the `while month <= 0` loop computes exactly WrappedMonth |
| DateResolver.Written | azdo_tools.py:185-187 | a computed end is written in date form and a captured end is passed through untouched |
| DateResolver.Evaluate | azdo_tools.py:122-211 | every range the resolver yields has valid calendar dates at its computed ends |
| DateResolver.Resolve | azdo_tools.py:108-211 | `_parse_date_filter`: normalise, classify, evaluate the branch against today, and write both ends, computed ones as `YYYY-MM-DD` and captured ones verbatim; ResolveWritesEnds, ResolvedShape and the per-branch laws give its meaning |
| ResolverLaws.WrittenReadsBack | azdo_tools.py:123 | a computed end parses back to its date, and a captured end is returned verbatim |
| ResolverLaws.ResolveWritesEnds | azdo_tools.py:108-211 | resolving fails exactly when evaluation fails, with the same error; otherwise each end is the written form of its bound |
| ResolverLaws.ResolveIgnoresCaseAndSpace | azdo_tools.py:119 | a filter and its lower-cased, stripped form resolve alike |
| ResolverLaws.KeywordsClassify | azdo_tools.py:122-148 | the eight keywords select their own branches |
| ResolverLaws.TodayIsToday | azdo_tools.py:122-123 | `today` gives (today, today) |
| ResolverLaws.YesterdayIsDayBefore | azdo_tools.py:124-126 | `yesterday` gives the previous day at both ends, or OverflowError on 0001-01-01 |
| ResolverLaws.ThisWeekFromMonday | azdo_tools.py:127-129 | `this week` runs from this week's Monday, `weekday()` days back, to today |
| ResolverLaws.LastWeekIsPreviousWeek | azdo_tools.py:130-133 | `last week` runs Monday to Sunday, six days apart, ending the day before this week's Monday; the error case is exactly when that would precede year 1 |
| ResolverLaws.ThisMonthFromFirst | azdo_tools.py:134-136 | `this month` runs from day 1 of the current month to today |
| ResolverLaws.LastMonthIsPreviousMonth | azdo_tools.py:137-140 | `last month` runs from day 1 to the last day of the previous month, December of the year before in January; the day after its end is the 1st of this month |
| ResolverLaws.ThisYearFromJanuary | azdo_tools.py:141-143 | `this year` runs from 1 January to today |
| ResolverLaws.LastYearIsPreviousYear | azdo_tools.py:144-148 | `last year` runs from 1 January to 31 December of the previous year, or raises ValueError in year 1 |
| ResolverLaws.LastDaysGoesBack | azdo_tools.py:153-157 | `last N days` runs from N days before today to today, or raises OverflowError when that precedes year 1 |
| ResolverLaws.LastWeeksAreSevenDays | azdo_tools.py:160-164 | `last N weeks` is `last 7N days` |
| ResolverLaws.LastMonthsGoesBack | azdo_tools.py:167-180 | `last N months` keeps today's day of the month, N months back, ending today; it raises ValueError exactly when that day does not exist in the target month or the year falls below 1 |
| ResolverLaws.DefaultIsLast30Days | azdo_tools.py:210-211 | any other text runs from 30 days before today to today |
| ResolverLaws.PatternsCopy | azdo_tools.py:183-199 | range, single-date and since forms return their captures verbatim, unvalidated and unswapped |
| ResolverLaws.ClassifyLastDays | azdo_tools.py:153-154 | a text of the `last N days` form is classified as such, with that N |
| ResolverLaws.ClassifyLastWeeks | azdo_tools.py:153-161 | a text of the `last N weeks` form fails the days pattern and is classified as `last N weeks`, with that N |
| ResolverLaws.ClassifyLastMonths | azdo_tools.py:153-168 | a text of the `last N months` form fails the days and weeks patterns and is classified as `last N months`, with that N |
| ResolverLaws.LastNUnitDiffers | azdo_tools.py:153-168 | after the count there is room for one unit only, so a unit with another first letter does not match |
| ResolverLaws.ClassifyRange | azdo_tools.py:183-184 | a text of the `A to B` form is classified as a range, ahead of the single-date form |
| ResolverLaws.ClassifySingleDate | azdo_tools.py:190-193 | a text starting with a date that is not a range is classified as that single date |
| ResolverLaws.ClassifySince | azdo_tools.py:196-199 | a text of the `since D` form is classified as since D |
| ResolverLaws.ClassifyBefore | azdo_tools.py:202-204 | a text of the `before D` form is classified as before D |
| ResolverLaws.BeforeCanInvert | azdo_tools.py:202-207 | `before D` runs from 365 days before today to D verbatim, and `from` is after `to` whenever D is more than 365 days back |
| ResolverLaws.ComputedFormsOrdered | azdo_tools.py:122-211 | every form whose two ends are both computed gives from <= to |
| ResolverLaws.KeywordFormsOrdered | azdo_tools.py:122-148 | the keyword forms give from <= to |
| ResolverLaws.CountedFormsOrdered | azdo_tools.py:153-211 | the `last N` forms and the default give from <= to |
| ResolverLaws.ResolvedShape | azdo_tools.py:108-211 | both returned strings are non-empty dates of the shape `dddd-dd-dd` |
| ResolverLaws.CapturesAreDateTexts | azdo_tools.py:183-204 | every captured date has the shape `dddd-dd-dd` |
| ResolverLaws.EvaluatedShape | azdo_tools.py:183-211 | both ends of any evaluated range are written in date shape |
| ResolverLaws.DigitSkipsWords | azdo_tools.py:122-167 | a text starting with a digit is none of the keywords and no `last N` form |
| ResolverLaws.NoEarlierBranch | azdo_tools.py:122-190 | a text starting with neither t, y, l nor a digit reaches the since test |
| ResolverLaws.PlainWordsAreNormal | azdo_tools.py:119 | lower-case words, digits, dashes and inner spaces are already normalised |
| DateFilter.NotAfter | azdo_tools.py:256 | a naive-versus-aware comparison raises, and the comparison holds exactly when the two stamps share their awareness and the first is not later |
| DateFilter.Walk | azdo_tools.py:233-242 | the dotted-path walk: each part steps into an object holding that key, and a missing key or a non-object gives None; WalkMissing and Lookup give its meaning |
| DateFilter.FieldValue | azdo_tools.py:232-244 | the value the filter reads: the walk over the parts of a dotted field, `item.get(field)` otherwise; PlainFieldIsOneStep gives its meaning |
| DateFilter.Decide | azdo_tools.py:246-266 | the test for one record's value, including the drop on a falsy value and on every exception the `try` swallows; DecideMeans gives its meaning |
| DateFilter.Kept | azdo_tools.py:231-266 | whether one record survives: Decide on its field value |
| DateFilter.KeepAll | azdo_tools.py:229-268 | the records that survive, in input order; KeepAllMembers, KeepAllIsSubsequence and KeepAllIdempotent give its meaning, and SelectItems computes it |
| DateFilter.Filtered | azdo_tools.py:213-268 | `_filter_by_date`: the resolver's error, the input untouched when both ends are empty, otherwise KeepAll with the resolved ends; FilterNeverSkips, FilterIdempotent and FilterByDate give its meaning |
| DateFilter.Lookup | azdo_tools.py:233-244 | the path-walking loop returns exactly FieldValue: the dotted walk, or `item.get(field)` |
| DateFilter.PlainFieldIsOneStep | azdo_tools.py:243-244 | a field without a dot is a plain key lookup that gives None when the key is missing |
| DateFilter.WalkMissing | azdo_tools.py:236-241 | a missing key or a non-dict at any step of the path gives None |
| DateFilter.DecideMeans | azdo_tools.py:246-266 | a record is kept exactly when its value is a non-empty string that parses, each given end parses, and it lies within the given ends inclusive |
| DateFilter.SelectItems | azdo_tools.py:229-268 | the loop over the records returns exactly the kept records in order |
| DateFilter.FilterByDate | azdo_tools.py:225-268 | the whole method returns the resolver's error, the input unchanged when both ends are empty, or the kept records |
| DateFilter.KeepAllIsSubsequence | azdo_tools_backup.py:165-204 | the result is a subsequence of the input, in the input's order |
| DateFilter.KeepAllMembers | azdo_tools_backup.py:188-199 | a record is in the result exactly when it is in the input and passes the test |
| DateFilter.KeepAllIdempotent | azdo_tools_backup.py:165-204 | keeping twice with the same ends equals keeping once |
| DateFilter.FilterNeverSkips | azdo_tools.py:225-227 | filtering fails only when resolving fails, and otherwise returns exactly the items kept for the resolved ends: the early return of all items never happens, because both ends are always non-empty |
| DateFilter.FilterIdempotent | azdo_tools_backup.py:161-204 | filtering the result again with the same filter and day changes nothing |
| WorkItemPlanner.Remote.Post | azdo_tools.py:437-443 | the WIQL POST is logged, and its answer is the service's id list |
| WorkItemPlanner.Remote.Get | azdo_tools.py:455-458 | the detail GET is logged, and its answer is the service's record list |
| WorkItemPlanner.IdStrings | azdo_tools.py:454 | each id is written as its decimal string, one per id, in order |
| WorkItemPlanner.ChosenProject | azdo_tools.py:380 | `project or self.project`; NoProjectIffNeitherGiven and ArgumentProjectWins give its meaning |
| WorkItemPlanner.PlanDate | azdo_tools.py:384-408 | where the date filter goes: resolved into a WIQL clause without a custom query, deferred with one; DatesGoToServer, CustomQueryIsVerbatim and DateErrorComesFirst give its meaning |
| WorkItemPlanner.BuiltQuery | azdo_tools.py:410-435 | the WIQL text: the fixed SELECT, the type and state conditions, the date clause and the ORDER BY; QueryFrame and ConditionsAreTheGivenOnes give its meaning, and BuildQuery computes it |
| WorkItemPlanner.PlanList | azdo_tools.py:380-438 | everything fixed before the first request: project, query URL, query text and the deferred filter, or the error |
| WorkItemPlanner.Batches | azdo_tools.py:450-453 | the consecutive slices of at most 200 ids; BatchesCoverIds, BatchSizes and BatchCount give its meaning |
| WorkItemPlanner.Outcome | azdo_tools.py:445-465 | the result once the ids are known: empty without ids, otherwise the fetched records, filtered on the deferred filter when there is one; ListWorkItems returns it |
| WorkItemPlanner.BuildQuery | azdo_tools.py:411-435 | the `+=` steps produce exactly BuiltQuery |
| WorkItemPlanner.FetchBatches | azdo_tools.py:448-458 | one GET is made per batch in order, and the details are the answers concatenated in batch order |
| WorkItemPlanner.ListWorkItems | azdo_tools.py:380-465 | with no project, or a date that raises, nothing is requested and the error is returned; otherwise exactly one POST is followed by one GET per batch (none for an empty id list), and the result is the concatenated details, filtered when a filter was deferred |
| WorkItemPlanner.SearchWorkItemsByTypeAndDate | azdo_tools.py:480-486 | behaves as ListWorkItems with no custom query and the given type, date and state |
| PlannerLaws.NoProjectIffNeitherGiven | azdo_tools_backup.py:389-391 | the listing refuses exactly when neither the argument nor the configured project is given |
| PlannerLaws.ArgumentProjectWins | azdo_tools.py:380 | a given project argument overrides the configured one, in the plan and in the URL |
| PlannerLaws.CustomQueryIsVerbatim | azdo_tools_backup.py:415-417 | a custom query is sent verbatim, and a date filter given with it is deferred to the client |
| PlannerLaws.DatesGoToServer | azdo_tools.py:388-393 | without a custom query a date filter always becomes `AND [System.CreatedDate] >= 'from' AND [System.CreatedDate] <= 'to'` in the query, and nothing is deferred |
| PlannerLaws.NothingDeferredWithoutQuery | azdo_tools.py:403-405 | without a custom query the client-side branch is never taken |
| PlannerLaws.DateErrorComesFirst | azdo_tools.py:388-389 | a date filter that raises ends the listing with that error |
| PlannerLaws.QueryFrame | azdo_tools.py:413-433 | the built query starts with the fixed SELECT for the project and ends with `ORDER BY [System.CreatedDate] DESC` |
| PlannerLaws.ConditionsAreTheGivenOnes | azdo_tools.py:416-426 | the type condition is present exactly when a type is given and the state condition exactly when a state is given, type first |
| PlannerLaws.TypeConditionInjective | azdo_tools.py:419 | different types give different conditions |
| PlannerLaws.StateConditionInjective | azdo_tools.py:422 | different states give different conditions |
| PlannerLaws.TypeIsNotState | azdo_tools.py:419-422 | a type condition is never a state condition |
| PlannerLaws.BareQuery | azdo_tools.py:413-433 | with no type, state or date the query is the SELECT followed by the ordering |
| PlannerLaws.BatchesCoverIds | azdo_tools.py:452-453 | the batches concatenated are the id list |
| PlannerLaws.BatchSizes | azdo_tools.py:450-453 | every batch holds 1 to 200 ids and all but the last hold exactly 200 |
| PlannerLaws.BatchCount | azdo_tools.py:452 | there are ceil(n / 200) batches |
| PlannerLaws.FourHundredFifty | azdo_tools.py:450-453 | 450 ids go out as 200, 200 and 50, in order |
| PlannerLaws.RequestPerBatch | azdo_tools.py:452-456 | one detail request per batch |
| PlannerLaws.IdsReadBack | azdo_tools.py:454 | the `ids=` list splits back on commas into the written ids, and each reads back as its id |
| PlannerLaws.JoinThenSplit | azdo_tools.py:454 | joining parts free of the separator and splitting again gives the parts |
| PlannerLaws.CreatedDatePathParts | azdo_tools.py:463 | the deferred path splits into `fields`, `System`, `CreatedDate` |
| PlannerLaws.DeferredFilterMissesDottedKey | azdo_tools.py:463 | a record whose `fields` has no key `System` yields no date on the deferred path and is dropped |
| PlannerLaws.DeferredFilterDropsServiceRecord | azdo_tools.py:463 | a record `{"id": 1, "fields": {"System.CreatedDate": d}}` is dropped whatever d and the range are |
| PlannerLaws.DeferredFilterKeepsNone | azdo_tools.py:460-463 | a deferred filter over such records keeps none of them |
| PlannerLaws.CreatedDate | azdo_tools.py:463 | reading key `System.CreatedDate` inside `fields` gives the creation date when present, otherwise None |
| PlannerLaws.CorrectedDeferredFilterKeeps | azdo_tools.py:463 | read at that key, any record holding a date is kept exactly when the date lies within both ends on the same time-zone awareness as each |
| PlannerLaws.AwareRecordDropped | azdo_tools.py:249-266 | even at that key, a record with a time-zone-aware date is dropped against a naive start, because the comparison raises and the bare `except` swallows it |
| PlannerLaws.AsUtc | azdo_tools.py:249-263 | reading a naive result as UTC keeps its instant and makes it aware |
| PlannerLaws.CorrectedKeptMeans | azdo_tools.py:229-266 | the corrected test keeps a record exactly when it holds a date that parses, both ends parse, and its instant lies between them, whatever the awareness of each |
| PlannerLaws.CorrectedAgreesOnSameAwareness | azdo_tools.py:249-266 | where the record and both ends share their awareness, the corrected comparison decides as the written one does |
| PlannerLaws.CorrectedKeepAllMembers | azdo_tools.py:229-268 | a record is in the corrected result exactly when it is an input record whose date lies within the range |
| QueryRouter.FirstYearAt | mcp_client.py:241-244 | the position found holds a four-digit word and no earlier position does; when none is found, no position in the range has one |
| QueryRouter.FindYearWord | mcp_client.py:241-244 | the scan with `break` returns the first four-digit word, or nothing |
| QueryRouter.FindYearNear | mcp_client.py:257-261 | the scan, two positions before the month to two after, returns the first four-digit word there |
| QueryRouter.FirstMonthFrom | mcp_client.py:249-250 | the month found occurs in the text and no earlier month in the list does; when none is found, no month occurs |
| QueryRouter.FindMonth | mcp_client.py:249-250 | the scan over the month list stops at the first month that occurs in the text |
| QueryRouter.IndexOf | mcp_client.py:253 | `words.index(month)` is the first position holding the month |
| QueryRouter.WithMonth | mcp_client.py:250-269 | the month branch for the first month found: `month year` with a year within two words, `month currentYear` without, and the year filter kept when the month is not a whole word; MonthWithNearbyYear, MonthWithoutNearbyYear and MonthInsideWord give its meaning |
| QueryRouter.DateFilterOf | mcp_client.py:238-270 | the detected date filter: the first four-digit word, then the month branch; FilterShapes, YearWithoutMonth, NoYearNoMonth and MonthIsFirst give its meaning |
| QueryRouter.UseMonth | mcp_client.py:252-269 | the month branch gives `month year` or `month currentYear` when the month is a whole word, and otherwise leaves the filter unchanged |
| QueryRouter.DetectDateFilter | mcp_client.py:238-270 | the two scans compute exactly DateFilterOf |
| QueryRouter.AnyIn | mcp_client.py:273 | `any(k in q ...)` holds exactly when some keyword occurs |
| QueryRouter.WorkItemType | mcp_client.py:281-291 | the work-item type, tested epic, user story, task and bug in that order; TypeBySingularWords gives its meaning |
| QueryRouter.StateOf | mcp_client.py:294-298 | the state, `activ` before `cerrad` or `completad`; StatePrecedence gives its meaning |
| QueryRouter.Route | mcp_client.py:272-317 | the call chosen for the text and its date filter; ResourcePrecedence, DateGoesWithResource and WorkItemDispatch give its meaning |
| QueryRouter.ParseNaturalQuery | mcp_client.py:235-317 | the chosen call is Route of the normalised text and its detected date filter |
| RouterLaws.RepositoryKeywordsAreRepos | mcp_client.py:273 | the repository test is the same as `repos` occurring |
| RouterLaws.PipelineKeywordsReduce | mcp_client.py:310 | the pipeline test is the same as `pipeline` or `ci/cd` occurring |
| RouterLaws.TypeBySingularWords | mcp_client.py:284-291 | the type is chosen epic, then historia or user story, then tarea or task, then bug |
| RouterLaws.WorkItemKeywordNamesType | mcp_client.py:280-291 | a work-item query matched by a keyword other than `work items` always names a type |
| RouterLaws.ResourcePrecedence | mcp_client.py:273-317 | repositories win over work items, which win over pipelines; with none of them, nothing is called |
| RouterLaws.DateGoesWithResource | mcp_client.py:273-314 | the repositories by-date call is made exactly when `repos` occurs and a filter was detected, the pipelines by-date call exactly when a pipeline keyword occurs, no earlier resource does and a filter was detected, and each receives that filter |
| RouterLaws.WorkItemDispatch | mcp_client.py:300-307 | type and date, type only, date only and neither select the four calls, and the last call drops the state |
| RouterLaws.StatePrecedence | mcp_client.py:294-298 | `activ` gives Active ahead of `cerrad` or `completad`, which give Closed |
| RouterLaws.ParseIgnoresCaseAndSpace | mcp_client.py:235 | normalising the text first changes neither the call nor its arguments |
| RouterLaws.YearWithoutMonth | mcp_client.py:241-244 | with no month in the text, the filter is the first four-digit word |
| RouterLaws.NoYearNoMonth | mcp_client.py:238-244 | with neither a month nor a four-digit word, there is no filter |
| RouterLaws.MonthIsFirst | mcp_client.py:249-250 | the month considered is the first one in list order that occurs |
| RouterLaws.MonthWithNearbyYear | mcp_client.py:255-264 | a month word with a four-digit word within two positions gives `month year`, taking the first such year |
| RouterLaws.MonthWithoutNearbyYear | mcp_client.py:265-269 | a month word with no year nearby gives `month currentYear` |
| RouterLaws.MonthInsideWord | mcp_client.py:250-255 | a month that occurs only inside another word leaves the year filter as it was |
| RouterLaws.FilterShapes | mcp_client.py:238-269 | every detected filter is a four-digit year, or the first month followed by a space and digits |
| RouterLaws.DetectedFilterIsUnrecognized | mcp_client.py:264-269 | every filter shape the router produces is already normalised and matches none of the resolver's forms |
| RouterLaws.DetectedFilterMeansLast30Days | azdo_tools.py:210-211 | so every filter the router passes on, such as `2025` or `abril 2025`, resolves to the last 30 days. This contradicts the docstrings at azdo_tools.py:220, 374 and 473 and mcp_client.py:117 and 184, which give `2025` and `enero 2025` as example date filters |

## Findings

| source | as written | input that shows it | evidently intended | confidence | as-written member | corrected member |
|---|---|---|---|---|---|---|
| azdo_tools.py:463 | the deferred filter reads path `fields.System.CreatedDate` and splits it on every dot, so it looks for key `System` inside `fields` | a custom query with a date filter, where the service returns `{"id": 1, "fields": {"System.CreatedDate": "2025-03-01T10:00:00Z"}}`; the record is dropped for every range, so the listing is always empty | read key `System.CreatedDate` inside `fields`, so that a record is judged by its own creation date | not executed | PlannerLaws.DeferredFilterDropsServiceRecord | PlannerLaws.CorrectedDeferredFilterKeeps |
| azdo_tools.py:249-266 | the record's date and the ends are compared as parsed; the service's dates carry a time zone (`...Z`) while the resolver's ends are plain `YYYY-MM-DD`, so `<=` raises TypeError and the bare `except` drops the record | the same record, read at the right key, against the range `2025-01-01` to `2025-12-31`: the comparison of an aware and a naive datetime raises, and the record is dropped | compare the instants, reading a naive end as UTC, so that a record inside the range is kept | not executed | PlannerLaws.AwareRecordDropped | PlannerLaws.CorrectedKeepAllMembers |

The same line appears at azdo_tools_backup.py:472. `ListWorkItems` keeps the path as written, because it models the source. `PlannerLaws.CreatedDate` is the corrected lookup; `PlannerLaws.CorrectedDeferredFilterKeeps` shows that it alone still leaves the awareness rule in place, which `PlannerLaws.AwareRecordDropped` turns against the service's dates. `PlannerLaws.CorrectedKeepAll` applies both corrections, and `PlannerLaws.CorrectedKeptMeans` with `PlannerLaws.CorrectedKeepAllMembers` proves that it keeps exactly the records whose creation date lies within the range.

## Left out

- HTTP transport: headers, the Basic authentication token, `raise_for_status` errors and JSON decoding. The service is reduced to two functions, one from (url, query) to ids and one from url to records.
- A WIQL answer entry without `id` raises `KeyError` at azdo_tools.py:443. It is not modelled: the service returns ids directly, as natural numbers.
- `dateutil.parser.parse` is a parameter. Time of day and time zones are reduced to a number of seconds and an awareness flag.
- The clock: `datetime.now()` becomes the `today` and `currentYear` parameters.
- `str.lower` and `str.isdigit` are modelled on ASCII only. Non-ASCII letters and Unicode digits are not modelled.
- Civil.Format: `%Y` is written with four digits. Some C libraries print years below 1000 with fewer digits.
- Dates above year 9999, and so `timedelta` overflow upwards, are outside the model: `today` is a valid date in 1..9999, and the resolver only goes back in time.
- The calls the router chooses (repositories, pipelines, and the MCP tool `get_work_items_by_type_and_date`) are results of type `Action`. They are not made.
- The other `AzureDevOpsTool` methods: repositories, pipelines, pull requests, comments, file content, projects and the current user. The backup's per-repository and per-pipeline fetching is left out too. These are direct REST calls.
- The MCP server and client plumbing, the LLM agents, the tool registration tables and the entry points.
- A truthy field value that is not a string is dropped directly. In the source it is dropped because the parser raises on it and the bare `except` swallows the error; the outcome is the same.
