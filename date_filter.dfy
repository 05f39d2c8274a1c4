/**
 * Client-side date filtering of work items (`_filter_by_date`): each item's
 * date field, reached by a dotted path such as `fields.System.CreatedDate`,
 * is parsed and compared against the two ends that the date resolver
 * produces for the filter text.
 *
 * The date parser (`dateutil.parser.parse`) is a parameter: it maps a string
 * to a Stamp or fails.  A Stamp keeps what the comparisons depend on: an
 * instant in seconds and whether it carries a time zone, since Python refuses
 * to order a naive datetime against an aware one.
 */
module DateFilter {
  import opened Wrappers
  import opened Text
  import opened Civil
  import opened DateResolver
  import ResolverLaws

  /** A decoded JSON value; JNull is Python's None. */
  datatype Json =
    | JNull
    | JBool(b: bool)
    | JNum(n: int)
    | JStr(s: string)
    | JArr(elems: seq<Json>)
    | JObj(fields: map<string, Json>)

  /** A work item as returned by the REST API: a JSON object. */
  type Record = map<string, Json>

  /** A parsed datetime: instant in seconds, and whether it is time-zone aware. */
  datatype Stamp = Stamp(seconds: int, aware: bool)

  /** The date parser; None stands for any exception it raises. */
  type Parser = string -> Option<Stamp>

  /** Python truthiness of a JSON value. */
  predicate Truthy(v: Json) {
    match v
    case JNull => false
    case JBool(b) => b
    case JNum(n) => n != 0
    case JStr(s) => s != ""
    case JArr(a) => a != []
    case JObj(m) => m != map[]
  }

  /** `a <= b` on datetimes: None when one is naive and the other aware (TypeError). */
  function NotAfter(a: Stamp, b: Stamp): (r: Option<bool>)
    ensures r.None? <==> a.aware != b.aware
    ensures r == Some(true) <==> a.aware == b.aware && a.seconds <= b.seconds
  {
    if a.aware != b.aware then None else Some(a.seconds <= b.seconds)
  }

  // ---------------------------------------------------------------- field path

  /** The value reached by following `parts` from `v`; JNull once a step finds no object or no key. */
  function Walk(v: Json, parts: seq<string>): Json
    decreases |parts|
  {
    if parts == [] then v
    else if v.JObj? && parts[0] in v.fields then Walk(v.fields[parts[0]], parts[1..])
    else JNull
  }

  /** The value of `field` in `item`: a dotted field is walked part by part, a plain one is looked up. */
  function FieldValue(item: Record, field: string): Json {
    if '.' in field then Walk(JObj(item), SplitOn(field, '.'))
    else if field in item then item[field]
    else JNull
  }

  /** The path walk with its loop and early exit, as the source performs it. */
  method Lookup(item: Record, field: string) returns (v: Json)
    ensures v == FieldValue(item, field)
  {
    if '.' in field {
      var parts := SplitOn(field, '.');
      v := JObj(item);
      var k := 0;
      while k < |parts|
        invariant 0 <= k <= |parts|
        invariant Walk(v, parts[k..]) == Walk(JObj(item), parts)
      {
        if v.JObj? && parts[k] in v.fields {
          assert parts[k..][1..] == parts[k + 1..];
          v := v.fields[parts[k]];
          k := k + 1;
        } else {
          v := JNull;
          break;
        }
      }
    } else {
      v := if field in item then item[field] else JNull;
    }
  }

  /** A plain field gives the same value as a one-step walk would. */
  lemma PlainFieldIsOneStep(item: Record, field: string)
    requires '.' !in field
    ensures FieldValue(item, field) == Walk(JObj(item), [field])
    ensures FieldValue(item, field) == if field in item then item[field] else JNull
  {
  }

  /** A walk that meets a missing key yields JNull, which the filter drops. */
  lemma {:induction false} WalkMissing(v: Json, parts: seq<string>, k: nat)
    requires k < |parts|
    requires !(Walk(v, parts[..k]).JObj? && parts[k] in Walk(v, parts[..k]).fields)
    ensures Walk(v, parts) == JNull
    decreases k
  {
    if k == 0 {
      assert parts[..0] == [];
    } else {
      assert parts[..k][0] == parts[0];
      assert parts[..k][1..] == parts[1..][..k - 1];
      if v.JObj? && parts[0] in v.fields {
        WalkMissing(v.fields[parts[0]], parts[1..], k - 1);
      }
    }
  }

  // ---------------------------------------------------------------- one item

  /**
   * The loop body for one item whose field value is `v`, with the resolved
   * ends `from` and `to`: true when the item is appended.  Every exception
   * inside the `try` (a non-string value, a parse failure of the value or of
   * an end, a naive/aware comparison) drops the item.
   */
  function Decide(v: Json, from: string, to: string, parse: Parser): bool {
    if !Truthy(v) then false
    else if !v.JStr? then false
    else match parse(v.s)
      case None => false
      case Some(t) =>
        if from != "" && parse(from).None? then false
        else if to != "" && parse(to).None? then false
        else if from != "" && to != "" then
          NotAfter(parse(from).value, t) == Some(true) && NotAfter(t, parse(to).value) == Some(true)
        else if from != "" then NotAfter(parse(from).value, t) == Some(true)
        else if to != "" then NotAfter(t, parse(to).value) == Some(true)
        else false
  }

  /** The item's date, when its field holds a string the parser accepts. */
  function ItemStamp(v: Json, parse: Parser): Option<Stamp> {
    if v.JStr? then parse(v.s) else None
  }

  /**
   * What keeping an item means: its field is a non-empty string that parses,
   * every given end parses, and the item's instant lies between the given
   * ends, both included, with the same time-zone awareness as each of them.
   */
  lemma DecideMeans(v: Json, from: string, to: string, parse: Parser)
    ensures Decide(v, from, to, parse) <==>
      (from != "" || to != "") &&
      v.JStr? && v.s != "" && ItemStamp(v, parse).Some? &&
      (from != "" ==>
         (parse(from).Some? &&
          parse(from).value.aware == ItemStamp(v, parse).value.aware &&
          parse(from).value.seconds <= ItemStamp(v, parse).value.seconds)) &&
      (to != "" ==>
         (parse(to).Some? &&
          parse(to).value.aware == ItemStamp(v, parse).value.aware &&
          ItemStamp(v, parse).value.seconds <= parse(to).value.seconds))
  {
  }

  /** Whether `item` survives the filter with ends `from` and `to`. */
  predicate Kept(item: Record, field: string, from: string, to: string, parse: Parser) {
    Decide(FieldValue(item, field), from, to, parse)
  }

  // ---------------------------------------------------------------- the filter

  /** The items that survive, in their original order. */
  function KeepAll(items: seq<Record>, field: string, from: string, to: string, parse: Parser): seq<Record>
    decreases |items|
  {
    if items == [] then []
    else
      var last := items[|items| - 1];
      KeepAll(items[..|items| - 1], field, from, to, parse) +
        (if Kept(last, field, from, to, parse) then [last] else [])
  }

  /**
   * `_filter_by_date`: resolve the filter text (its errors propagate), return
   * the items untouched when neither end is non-empty, otherwise keep the
   * items that survive.
   */
  function Filtered(items: seq<Record>, field: string, filter: string, today: Date, parse: Parser)
    : Result<seq<Record>, DateError>
    requires Valid(today)
  {
    match Resolve(filter, today)
    case Err(e) => Err(e)
    case Ok(iv) =>
      if iv.from == "" && iv.to == "" then Ok(items)
      else Ok(KeepAll(items, field, iv.from, iv.to, parse))
  }

  /** The filter with its early returns; the loop over the items is SelectItems. */
  method FilterByDate(items: seq<Record>, field: string, filter: string, today: Date, parse: Parser)
    returns (r: Result<seq<Record>, DateError>)
    requires Valid(today)
    ensures r == Filtered(items, field, filter, today, parse)
  {
    var ends := Resolve(filter, today);
    if ends.Err? {
      return Err(ends.error);
    }
    var from, to := ends.value.from, ends.value.to;
    if from == "" && to == "" {
      return Ok(items);
    }
    var kept := SelectItems(items, field, from, to, parse);
    return Ok(kept);
  }

  /** The loop over the items, appending each survivor in turn. */
  method SelectItems(items: seq<Record>, field: string, from: string, to: string, parse: Parser)
    returns (kept: seq<Record>)
    ensures kept == KeepAll(items, field, from, to, parse)
  {
    kept := [];
    var i := 0;
    while i < |items|
      invariant 0 <= i <= |items|
      invariant kept == KeepAll(items[..i], field, from, to, parse)
    {
      var v := Lookup(items[i], field);
      assert items[..i + 1][..i] == items[..i];
      if Decide(v, from, to, parse) {
        kept := kept + [items[i]];
      }
      i := i + 1;
    }
    assert items[..|items|] == items;
  }

  // ---------------------------------------------------------------- laws

  /** `xs` is `ys` with some elements removed, the rest in their order. */
  predicate IsSubsequence<T(==)>(xs: seq<T>, ys: seq<T>)
    decreases |ys|
  {
    if xs == [] then true
    else if ys == [] then false
    else if xs[|xs| - 1] == ys[|ys| - 1] then IsSubsequence(xs[..|xs| - 1], ys[..|ys| - 1])
    else IsSubsequence(xs, ys[..|ys| - 1])
  }

  /** Surviving items keep their relative order: the result is a subsequence of the input. */
  lemma {:induction false} KeepAllIsSubsequence(items: seq<Record>, field: string, from: string, to: string, parse: Parser)
    ensures IsSubsequence(KeepAll(items, field, from, to, parse), items)
    decreases |items|
  {
    if items != [] {
      var init := items[..|items| - 1];
      var last := items[|items| - 1];
      var r := KeepAll(init, field, from, to, parse);
      KeepAllIsSubsequence(init, field, from, to, parse);
      if Kept(last, field, from, to, parse) {
        assert (r + [last])[..|r|] == r;
      } else {
        assert r + [] == r;
        SubsequenceOfInit(r, items);
      }
    }
  }

  /** A subsequence of all but the last element is a subsequence of the whole. */
  lemma {:induction false} SubsequenceOfInit<T>(xs: seq<T>, ys: seq<T>)
    requires ys != [] && IsSubsequence(xs, ys[..|ys| - 1])
    ensures IsSubsequence(xs, ys)
    decreases |ys|
  {
    if xs != [] && xs[|xs| - 1] == ys[|ys| - 1] {
      var ys' := ys[..|ys| - 1];
      assert ys' != [];
      SubsequenceOfPrefix(xs, ys');
      assert ys'[..|ys'| - 1] == ys[..|ys| - 1][..|ys'| - 1];
      SubsequenceOfInit(xs[..|xs| - 1], ys');
    }
  }

  /** Dropping the last element of a subsequence keeps it a subsequence. */
  lemma {:induction false} SubsequenceOfPrefix<T>(xs: seq<T>, ys: seq<T>)
    requires xs != [] && IsSubsequence(xs, ys)
    ensures IsSubsequence(xs[..|xs| - 1], ys[..|ys| - 1])
    decreases |ys|
  {
    var ys' := ys[..|ys| - 1];
    if xs[|xs| - 1] != ys[|ys| - 1] {
      SubsequenceOfPrefix(xs, ys');
      SubsequenceOfInit(xs[..|xs| - 1], ys');
    }
  }

  /** An item is in the result exactly when it is an input item that survives. */
  lemma {:induction false} KeepAllMembers(items: seq<Record>, field: string, from: string, to: string, parse: Parser, x: Record)
    ensures x in KeepAll(items, field, from, to, parse) <==> x in items && Kept(x, field, from, to, parse)
    decreases |items|
  {
    if items != [] {
      var init := items[..|items| - 1];
      KeepAllMembers(init, field, from, to, parse, x);
      assert items == init + [items[|items| - 1]];
    }
  }

  /** Filtering survivors again changes nothing. */
  lemma {:induction false} KeepAllIdempotent(items: seq<Record>, field: string, from: string, to: string, parse: Parser)
    ensures KeepAll(KeepAll(items, field, from, to, parse), field, from, to, parse) == KeepAll(items, field, from, to, parse)
    decreases |items|
  {
    if items != [] {
      var init := items[..|items| - 1];
      var last := items[|items| - 1];
      var r := KeepAll(init, field, from, to, parse);
      KeepAllIdempotent(init, field, from, to, parse);
      if Kept(last, field, from, to, parse) {
        assert (r + [last])[..|r|] == r;
      } else {
        assert r + [] == r;
      }
    }
  }

  /** The resolver always produces two non-empty ends, so the early return of the input is never taken. */
  lemma FilterNeverSkips(items: seq<Record>, field: string, filter: string, today: Date, parse: Parser)
    requires Valid(today)
    ensures Filtered(items, field, filter, today, parse).Ok? <==> Resolve(filter, today).Ok?
    ensures Resolve(filter, today).Ok? ==>
      Filtered(items, field, filter, today, parse) ==
        Ok(KeepAll(items, field, Resolve(filter, today).value.from, Resolve(filter, today).value.to, parse))
  {
    if Resolve(filter, today).Ok? {
      ResolverLaws.ResolvedShape(filter, today);
    }
  }

  /** Filtering the filtered items again, on the same day, gives them back unchanged. */
  lemma FilterIdempotent(items: seq<Record>, field: string, filter: string, today: Date, parse: Parser)
    requires Valid(today) && Filtered(items, field, filter, today, parse).Ok?
    ensures Filtered(Filtered(items, field, filter, today, parse).value, field, filter, today, parse) ==
      Filtered(items, field, filter, today, parse)
  {
    var iv := Resolve(filter, today).value;
    if !(iv.from == "" && iv.to == "") {
      KeepAllIdempotent(items, field, iv.from, iv.to, parse);
    }
  }
}
