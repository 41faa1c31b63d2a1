/** The query-string decorators shared by the listing endpoints (`query_filter`,
    `query_order_by`, `query_page`) and the pipeline `filter_order_and_list` that applies
    their results to a query set. The ORM itself (which lookups exist, how a lookup tests a
    row, how rows are ordered) and Python's literal evaluation are parameters. */
module QueryUtil {
  import opened Wrappers
  import opened Text
  import opened Seqs
  import opened Util
  import opened Paginator

  /** `request.GET.dict()`: the query parameters in insertion order, one pair per distinct key. */
  type QueryDict = seq<(string, string)>

  /** `query_dict.get(key)`. */
  function Get(q: QueryDict, key: string): (r: Option<string>)
    ensures r.None? <==> forall i :: 0 <= i < |q| ==> q[i].0 != key
    ensures r.Some? ==> exists i :: 0 <= i < |q| && q[i] == (key, r.value)
  {
    if |q| == 0 then None
    else if q[0].0 == key then Some(q[0].1)
    else
      var r := Get(q[1..], key);
      assert forall i :: 0 < i < |q| ==> q[i] == q[1..][i - 1];
      r
  }

  /** What `.dict()` guarantees: no key occurs twice. */
  predicate DistinctKeys(q: QueryDict) {
    forall i, j :: 0 <= i < j < |q| ==> q[i].0 != q[j].0
  }

  /** In a dictionary, `get` finds the one value sent under the key. */
  lemma {:induction false} GetDistinct(q: QueryDict, key: string, value: string)
    requires DistinctKeys(q) && (key, value) in q
    ensures Get(q, key) == Some(value)
  {
    if q[0] != (key, value) {
      assert q[0].0 != key by {
        var i :| 0 <= i < |q| && q[i] == (key, value);
      }
      assert (key, value) in q[1..];
      assert DistinctKeys(q[1..]) by {
        assert forall i :: 0 <= i < |q| - 1 ==> q[1..][i] == q[i + 1];
      }
      GetDistinct(q[1..], key, value);
    }
  }

  // ---------------------------------------------------------------- query_filter

  /** The Python types a filtered field is declared with. */
  datatype FieldType = IntType | FloatType | StrType | BoolType

  /** `type_attr.__name__`. */
  function TypeName(t: FieldType): string {
    match t
    case IntType => "int"
    case FloatType => "float"
    case StrType => "str"
    case BoolType => "bool"
  }

  /** Result of `type_attr(ast.literal_eval(text))`: a value, a `ValueError` (which
      `query_filter` catches), or any other exception (a `SyntaxError` from malformed text,
      a `TypeError`), which it does not. */
  datatype Coercion<V> = Coerced(value: V) | ValueErr | OtherErr

  /** The value a lookup compares with: the raw text for `str` fields, the coerced value otherwise. */
  datatype Arg<V> = Raw(text: string) | Typed(value: V)

  /** One `Q(**{lookup: value})`, possibly negated (`~Q`). */
  datatype Clause<V> = Is(lookup: string, arg: Arg<V>) | IsNot(lookup: string, arg: Arg<V>)

  /** One query parameter selected for a declared field. */
  datatype Item = Item(field: string, fieldType: FieldType, key: string, raw: string)

  /** The combined filter, the field a `ValueError` was reported for, or an escaping exception. */
  datatype FilterResult<V> = Filter(clauses: seq<Clause<V>>) | FilterRejected(field: string, fieldType: FieldType) | FilterCrash

  const Separator: string := "__"

  /** The list comprehension selecting the parameters whose key starts with `name__`. */
  function FieldItems(name: string, t: FieldType, q: QueryDict): (r: seq<Item>)
    ensures |r| <= |q|
    ensures forall k :: 0 <= k < |r| ==> r[k].field == name && r[k].fieldType == t
    ensures forall k :: 0 <= k < |r| ==> StartsWith(r[k].key, name + Separator) && (r[k].key, r[k].raw) in q
    ensures r == [] <==> forall i :: 0 <= i < |q| ==> !StartsWith(q[i].0, name + Separator)
    decreases |q|
  {
    if |q| == 0 then []
    else
      var rest := FieldItems(name, t, q[1..]);
      assert forall i :: 0 < i < |q| ==> q[i] == q[1..][i - 1];
      (if StartsWith(q[0].0, name + Separator) then [Item(name, t, q[0].0, q[0].1)] else []) + rest
  }

  /** The parameters `query_filter` visits, field by field in declaration order. */
  function Items(fields: seq<(string, FieldType)>, q: QueryDict): seq<Item>
    decreases |fields|
  {
    if |fields| == 0 then [] else FieldItems(fields[0].0, fields[0].1, q) + Items(fields[1..], q)
  }

  /** The filter for one parameter: a key ending in `ne` becomes the negation of the
      `exact` lookup on the key without those two letters. */
  function ClauseFor<V>(key: string, arg: Arg<V>): (c: Clause<V>)
    ensures EndsWith(key, "ne") ==> c == IsNot(key[..|key| - 2] + "exact", arg)
    ensures !EndsWith(key, "ne") ==> c == Is(key, arg)
  {
    if EndsWith(key, "ne") then IsNot(key[..|key| - 2] + "exact", arg) else Is(key, arg)
  }

  /** Processes the remaining selected parameters after the filters in `acc`. */
  function BuildFrom<V>(acc: seq<Clause<V>>, items: seq<Item>, coerce: (FieldType, string) -> Coercion<V>): FilterResult<V>
    decreases |items|
  {
    if |items| == 0 then Filter(acc)
    else
      var it := items[0];
      if it.fieldType == StrType then BuildFrom(acc + [ClauseFor(it.key, Raw(it.raw))], items[1..], coerce)
      else
        match coerce(it.fieldType, it.raw)
        case ValueErr => FilterRejected(it.field, it.fieldType)
        case OtherErr => FilterCrash
        case Coerced(v) => BuildFrom(acc + [ClauseFor(it.key, Typed(v))], items[1..], coerce)
  }

  /** What `query_filter(fields)` produces for a query string. */
  function FilterSpec<V>(fields: seq<(string, FieldType)>, q: QueryDict, coerce: (FieldType, string) -> Coercion<V>): FilterResult<V> {
    BuildFrom([], Items(fields, q), coerce)
  }

  /** The message of a rejected parameter. */
  function FilterRejectMsg(field: string, t: FieldType): string {
    "Sorry, " + field + " should be " + TypeName(t) + "."
  }

  /** `query_filter(fields)`: the loop over the declared fields. */
  method QueryFilter<V>(fields: seq<(string, FieldType)>, q: QueryDict, coerce: (FieldType, string) -> Coercion<V>)
    returns (r: FilterResult<V>)
    ensures r == FilterSpec(fields, q, coerce)
  {
    var qNow: seq<Clause<V>> := [];
    var i := 0;
    while i < |fields|
      invariant 0 <= i <= |fields|
      invariant FilterSpec(fields, q, coerce) == BuildFrom(qNow, Items(fields[i..], q), coerce)
    {
      var querySet := FieldItems(fields[i].0, fields[i].1, q);
      ghost var rest := Items(fields[i + 1..], q);
      assert fields[i..][1..] == fields[i + 1..];
      var out := FieldClauses(qNow, querySet, rest, fields[i].0, fields[i].1, coerce);
      if !out.Filter? {
        return out;
      }
      qNow := out.clauses;
      i := i + 1;
    }
    assert fields[|fields|..] == [];
    return Filter(qNow);
  }

  /** The inner loop of `query_filter` over the parameters selected for one field, after the
      filters in `acc`; `rest` is what the later fields select. */
  method FieldClauses<V>(acc: seq<Clause<V>>, querySet: seq<Item>, ghost rest: seq<Item>, fieldName: string,
                         typeAttr: FieldType, coerce: (FieldType, string) -> Coercion<V>) returns (r: FilterResult<V>)
    requires forall k :: 0 <= k < |querySet| ==> querySet[k].field == fieldName
    requires forall k :: 0 <= k < |querySet| ==> querySet[k].fieldType == typeAttr
    ensures r.Filter? ==> BuildFrom(acc, querySet + rest, coerce) == BuildFrom(r.clauses, rest, coerce)
    ensures !r.Filter? ==> r == BuildFrom(acc, querySet + rest, coerce)
  {
    var qNow := acc;
    var j := 0;
    assert querySet[0..] == querySet;
    while j < |querySet|
      invariant 0 <= j <= |querySet|
      invariant BuildFrom(acc, querySet + rest, coerce) == BuildFrom(qNow, querySet[j..] + rest, coerce)
    {
      var query := querySet[j];
      assert (querySet[j..] + rest)[0] == query;
      assert (querySet[j..] + rest)[1..] == querySet[j + 1..] + rest;
      var value: Arg<V>;
      if typeAttr != StrType {
        var c := coerce(typeAttr, query.raw);
        if c.ValueErr? {
          return FilterRejected(fieldName, typeAttr);
        } else if c.OtherErr? {
          return FilterCrash;
        }
        value := Typed(c.value);
      } else {
        value := Raw(query.raw);
      }
      qNow := qNow + [ClauseFor(query.key, value)];
      j := j + 1;
    }
    assert querySet[|querySet|..] + rest == rest;
    return Filter(qNow);
  }

  /** The value a selected parameter contributes once it is accepted. */
  function ArgOf<V>(it: Item, coerce: (FieldType, string) -> Coercion<V>): Arg<V>
    requires it.fieldType == StrType || coerce(it.fieldType, it.raw).Coerced?
  {
    if it.fieldType == StrType then Raw(it.raw) else Typed(coerce(it.fieldType, it.raw).value)
  }

  predicate Accepted<V>(it: Item, coerce: (FieldType, string) -> Coercion<V>) {
    it.fieldType == StrType || coerce(it.fieldType, it.raw).Coerced?
  }

  /** The filter is built exactly when every selected parameter of a non-`str` field converts,
      and then it holds one clause per selected parameter, in order. */
  lemma {:induction false} BuildAccepts<V>(acc: seq<Clause<V>>, items: seq<Item>, coerce: (FieldType, string) -> Coercion<V>)
    ensures BuildFrom(acc, items, coerce).Filter? <==> forall k :: 0 <= k < |items| ==> Accepted(items[k], coerce)
    ensures BuildFrom(acc, items, coerce).Filter? ==>
      var cs := BuildFrom(acc, items, coerce).clauses;
      |cs| == |acc| + |items| && cs[..|acc|] == acc &&
      forall k :: 0 <= k < |items| ==> cs[|acc| + k] == ClauseFor(items[k].key, ArgOf(items[k], coerce))
    decreases |items|
  {
    if |items| > 0 {
      var it := items[0];
      assert forall k :: 0 < k < |items| ==> items[k] == items[1..][k - 1];
      if Accepted(it, coerce) {
        var acc' := acc + [ClauseFor(it.key, ArgOf(it, coerce))];
        BuildAccepts(acc', items[1..], coerce);
        assert BuildFrom(acc, items, coerce) == BuildFrom(acc', items[1..], coerce);
      }
    }
  }

  /** A rejection names the field of the first selected parameter whose conversion raised
      `ValueError`; every parameter before it converted. */
  lemma {:induction false} BuildRejects<V>(acc: seq<Clause<V>>, items: seq<Item>, coerce: (FieldType, string) -> Coercion<V>)
    requires BuildFrom(acc, items, coerce).FilterRejected?
    ensures exists k :: (0 <= k < |items| && items[k].fieldType != StrType && coerce(items[k].fieldType, items[k].raw).ValueErr?
      && BuildFrom(acc, items, coerce) == FilterRejected(items[k].field, items[k].fieldType)
      && forall j :: 0 <= j < k ==> Accepted(items[j], coerce))
    decreases |items|
  {
    var it := items[0];
    if Accepted(it, coerce) {
      var acc' := acc + [ClauseFor(it.key, ArgOf(it, coerce))];
      assert BuildFrom(acc, items, coerce) == BuildFrom(acc', items[1..], coerce);
      BuildRejects(acc', items[1..], coerce);
      var k :| 0 <= k < |items[1..]| && items[1..][k].fieldType != StrType && coerce(items[1..][k].fieldType, items[1..][k].raw).ValueErr?
        && BuildFrom(acc', items[1..], coerce) == FilterRejected(items[1..][k].field, items[1..][k].fieldType)
        && forall j :: 0 <= j < k ==> Accepted(items[1..][j], coerce);
      assert forall j :: 0 < j <= k + 1 ==> items[j] == items[1..][j - 1];
    } else {
      assert BuildFrom(acc, items, coerce) == FilterRejected(it.field, it.fieldType);
    }
  }

  /** Every selected parameter belongs to a declared field and its key extends that field's name. */
  lemma {:induction false} ItemsAreDeclared(fields: seq<(string, FieldType)>, q: QueryDict, k: int)
    requires 0 <= k < |Items(fields, q)|
    ensures var it := Items(fields, q)[k];
      (it.field, it.fieldType) in fields && StartsWith(it.key, it.field + Separator) && (it.key, it.raw) in q
    decreases |fields|
  {
    var head := FieldItems(fields[0].0, fields[0].1, q);
    if k >= |head| {
      ItemsAreDeclared(fields[1..], q, k - |head|);
      assert (Items(fields, q)[k]) == Items(fields[1..], q)[k - |head|];
    }
  }

  /** A query string with no key extending a declared field's name yields the empty filter,
      which matches every row. */
  lemma {:induction false} NoSelectedKeysMatchAll<V>(fields: seq<(string, FieldType)>, q: QueryDict, coerce: (FieldType, string) -> Coercion<V>)
    requires forall f, i :: 0 <= f < |fields| && 0 <= i < |q| ==> !StartsWith(q[i].0, fields[f].0 + Separator)
    ensures FilterSpec(fields, q, coerce) == Filter([])
  {
    NoItems(fields, q);
  }

  lemma {:induction false} NoItems(fields: seq<(string, FieldType)>, q: QueryDict)
    requires forall f, i :: 0 <= f < |fields| && 0 <= i < |q| ==> !StartsWith(q[i].0, fields[f].0 + Separator)
    ensures Items(fields, q) == []
    decreases |fields|
  {
    if |fields| > 0 {
      assert forall f :: 0 < f < |fields| ==> fields[f] == fields[1..][f - 1];
      NoItems(fields[1..], q);
    }
  }

  /** A parameter ending in `ne` excludes the rows its `exact` lookup matches. */
  lemma NeSuffixNegatesExact<V>(arg: Arg<V>)
    ensures ClauseFor("grade__ne", arg) == IsNot("grade__exact", arg)
    ensures ClauseFor("grade__gte", arg) == Is("grade__gte", arg)
  {
    assert EndsWith("grade__ne", "ne");
    assert "grade__ne"[..7] == "grade__";
    assert !EndsWith("grade__gte", "ne");
  }

  /** Whether a row passes one clause, given how the ORM evaluates a positive lookup. */
  predicate ClauseHolds<R, V>(row: R, c: Clause<V>, holds: (R, string, Arg<V>) -> bool) {
    match c
    case Is(l, a) => holds(row, l, a)
    case IsNot(l, a) => !holds(row, l, a)
  }

  /** Whether a row passes the combined filter `Q() & c1 & c2 ...`. */
  predicate Satisfies<R, V>(row: R, clauses: seq<Clause<V>>, holds: (R, string, Arg<V>) -> bool) {
    forall k :: 0 <= k < |clauses| ==> ClauseHolds(row, clauses[k], holds)
  }

  /** Adding clauses with `&=` narrows the filter: the combination holds exactly when both parts do. */
  lemma ConjoinClauses<R, V>(row: R, a: seq<Clause<V>>, b: seq<Clause<V>>, holds: (R, string, Arg<V>) -> bool)
    ensures Satisfies(row, a + b, holds) <==> Satisfies(row, a, holds) && Satisfies(row, b, holds)
  {
    assert forall k :: 0 <= k < |a| ==> (a + b)[k] == a[k];
    assert forall k :: 0 <= k < |b| ==> (a + b)[|a| + k] == b[k];
    if Satisfies(row, a + b, holds) {
      forall k | 0 <= k < |b|
        ensures ClauseHolds(row, b[k], holds)
      {
        assert ClauseHolds(row, (a + b)[|a| + k], holds);
      }
    }
  }

  // ---------------------------------------------------------------- query_order_by

  /** The accepted `order_by` tokens: the empty token, and every field with or without `-`. */
  function AllowedOrderKeys(fields: seq<string>): set<string>
    decreases |fields|
  {
    if |fields| == 0 then {""}
    else
      var f := fields[|fields| - 1];
      AllowedOrderKeys(fields[..|fields| - 1]) + {f, "-" + f}
  }

  lemma {:induction false} AllowedOrderKeysMembers(fields: seq<string>, t: string)
    ensures t in AllowedOrderKeys(fields) <==>
      t == "" || exists i :: 0 <= i < |fields| && (t == fields[i] || t == "-" + fields[i])
    decreases |fields|
  {
    if |fields| > 0 {
      var init := fields[..|fields| - 1];
      AllowedOrderKeysMembers(init, t);
      assert forall i :: 0 <= i < |init| ==> init[i] == fields[i];
      if exists i :: 0 <= i < |fields| && (t == fields[i] || t == "-" + fields[i]) {
        var i :| 0 <= i < |fields| && (t == fields[i] || t == "-" + fields[i]);
        if i < |init| {
          assert init[i] == fields[i];
        }
      }
    }
  }

  /** The first token not in `allowed`. */
  function FirstRefused(tokens: seq<string>, allowed: set<string>): (r: Option<string>)
    ensures r.None? <==> forall i :: 0 <= i < |tokens| ==> tokens[i] in allowed
    ensures r.Some? ==> exists i :: (0 <= i < |tokens| && tokens[i] == r.value && r.value !in allowed
      && forall j :: 0 <= j < i ==> tokens[j] in allowed)
    decreases |tokens|
  {
    if |tokens| == 0 then None
    else if tokens[0] !in allowed then Some(tokens[0])
    else
      var r := FirstRefused(tokens[1..], allowed);
      assert forall i :: 0 < i < |tokens| ==> tokens[i] == tokens[1..][i - 1];
      r
  }

  /** No `order_by` parameter, the tokens to order by, or the first token refused. */
  datatype OrderByResult = NoOrderBy | OrderBy(tokens: seq<string>) | OrderRejected(token: string)

  function OrderBySpec(fields: seq<string>, q: QueryDict): OrderByResult {
    match Get(q, "order_by")
    case None => NoOrderBy
    case Some(s) =>
      var tokens := Split(s, '*');
      match FirstRefused(tokens, AllowedOrderKeys(fields))
      case Some(t) => OrderRejected(t)
      case None => OrderBy(tokens)
  }

  function OrderRejectMsg(token: string): string {
    "Sorry, it is not valid to order by " + token + "."
  }

  /** `query_order_by(fields)`: builds the allowed set, then checks the `*`-separated tokens. */
  method QueryOrderBy(fields: seq<string>, q: QueryDict) returns (r: OrderByResult)
    ensures r == OrderBySpec(fields, q)
  {
    var allowedFields: set<string> := {""};
    for i := 0 to |fields|
      invariant allowedFields == AllowedOrderKeys(fields[..i])
    {
      assert fields[..i + 1][..i] == fields[..i];
      allowedFields := allowedFields + {fields[i], "-" + fields[i]};
    }
    assert fields[..|fields|] == fields;
    var orderBy := Get(q, "order_by");
    if orderBy.None? {
      return NoOrderBy;
    }
    var values := Split(orderBy.value, '*');
    for i := 0 to |values|
      invariant forall j :: 0 <= j < i ==> values[j] in allowedFields
    {
      if values[i] !in allowedFields {
        return OrderRejected(values[i]);
      }
    }
    return OrderBy(values);
  }

  /** Accepted tokens are exactly the split parameter, so joining them back gives the parameter. */
  lemma OrderByIsSplit(fields: seq<string>, q: QueryDict)
    requires OrderBySpec(fields, q).OrderBy?
    ensures Get(q, "order_by").Some?
    ensures var toks := OrderBySpec(fields, q).tokens;
      Join(toks, '*') == Get(q, "order_by").value
      && forall i :: 0 <= i < |toks| ==> toks[i] in AllowedOrderKeys(fields)
  {
    JoinSplit(Get(q, "order_by").value, '*');
  }

  /** Any non-empty list of allowed tokens, joined with `*`, is accepted back unchanged. */
  lemma OrderByRoundTrip(fields: seq<string>, q: QueryDict, tokens: seq<string>)
    requires |tokens| >= 1
    requires forall i :: 0 <= i < |tokens| ==> tokens[i] in AllowedOrderKeys(fields) && '*' !in tokens[i]
    requires Get(q, "order_by") == Some(Join(tokens, '*'))
    ensures OrderBySpec(fields, q) == OrderBy(tokens)
  {
    SplitJoin(tokens, '*');
  }

  /** A rejection reports a token of the parameter that is neither empty nor a declared field,
      plain or negated. */
  lemma OrderRejectionIsUndeclared(fields: seq<string>, q: QueryDict)
    requires OrderBySpec(fields, q).OrderRejected?
    ensures var t := OrderBySpec(fields, q).token;
      t != "" && forall i :: 0 <= i < |fields| ==> t != fields[i] && t != "-" + fields[i]
  {
    AllowedOrderKeysMembers(fields, OrderBySpec(fields, q).token);
  }

  // ---------------------------------------------------------------- query_page

  datatype PageResult = Paging(page: int, pageSize: int) | PageRejected(message: string)

  const NoPagingSize: int := 10000000

  /** `query_page(default)`, with `int(text)` as `parseInt` (`None` for a `ValueError`). Page 1
      and the default size apply to a missing parameter; with neither parameter the whole list
      is one page. */
  function QueryPage(q: QueryDict, default: int, parseInt: string -> Option<int>): (r: PageResult)
    requires default >= 1
    ensures r.Paging? ==> r.page >= 1 && r.pageSize >= 1
    ensures Get(q, "page").None? && Get(q, "page_size").None? ==> r == Paging(1, NoPagingSize)
    ensures Get(q, "page").None? && Get(q, "page_size").Some? ==> r.Paging? ==> r.page == 1
    ensures Get(q, "page").Some? && Get(q, "page_size").None? ==> r.Paging? ==> r.pageSize == default
    ensures r.Paging? && Get(q, "page").Some? ==> parseInt(Get(q, "page").value) == Some(r.page)
    ensures r.Paging? && Get(q, "page_size").Some? ==> parseInt(Get(q, "page_size").value) == Some(r.pageSize)
    ensures r.PageRejected? <==>
      (Get(q, "page").Some? && (parseInt(Get(q, "page").value).None? || parseInt(Get(q, "page").value).value <= 0)) ||
      (Get(q, "page_size").Some? && (parseInt(Get(q, "page_size").value).None? || parseInt(Get(q, "page_size").value).value <= 0))
  {
    var pageValue := Get(q, "page");
    var sizeValue := Get(q, "page_size");
    if pageValue.Some? && parseInt(pageValue.value).None? then PageRejected("Sorry, page should be integer.")
    else if pageValue.Some? && parseInt(pageValue.value).value <= 0 then PageRejected("Sorry, page should be positive.")
    else
      var page := if pageValue.Some? then parseInt(pageValue.value).value else 1;
      if sizeValue.Some? && parseInt(sizeValue.value).None? then PageRejected("Sorry, page_size should be integer.")
      else if sizeValue.Some? && parseInt(sizeValue.value).value <= 0 then PageRejected("Sorry, page_size should be positive.")
      else if sizeValue.Some? then Paging(page, parseInt(sizeValue.value).value)
      else if pageValue.None? then Paging(page, NoPagingSize)
      else Paging(page, default)
  }

  /** A bad `page` is reported before `page_size` is looked at. */
  lemma PageCheckedFirst(q: QueryDict, default: int, parseInt: string -> Option<int>)
    requires default >= 1
    requires Get(q, "page").Some? && parseInt(Get(q, "page").value).None?
    ensures QueryPage(q, default, parseInt) == PageRejected("Sorry, page should be integer.")
  {
  }

  // ---------------------------------------------------------------- filter_order_and_list

  /** The ORM behaviour the pipeline depends on: which lookups exist (an unknown one raises
      `FieldError`), how a lookup tests a row, and `order_by(*tokens)` (`None` for `FieldError`).
      Whether a lookup is accepted depends on its name only, not on the value it is given. */
  datatype Orm<!R, !V> = Orm(
    supported: string -> bool,
    holds: (R, string, Arg<V>) -> bool,
    order: (seq<R>, seq<string>) -> Option<seq<R>>)

  /** An `order_by` that rearranges the rows it is given and neither adds nor drops any. */
  ghost predicate IsReordering<R(!new)>(order: (seq<R>, seq<string>) -> Option<seq<R>>) {
    forall s: seq<R>, t: seq<string> :: order(s, t).Some? ==> multiset(order(s, t).value) == multiset(s)
  }

  ghost predicate Reorders<R(!new), V>(orm: Orm<R, V>) {
    IsReordering(orm.order)
  }

  function Lookup<V>(c: Clause<V>): string {
    match c
    case Is(l, _) => l
    case IsNot(l, _) => l
  }

  /** The pipeline's dictionary, or one of the two exceptions it raises. */
  datatype Listing<P> =
    | Listing(totCount: nat, filterCount: nat, pageAll: nat, page: int, data: seq<P>)
    | InvalidFilter
    | InvalidOrderBy

  /** The rows of a query set that pass the filter. */
  function Matching<R, V>(rows: seq<R>, clauses: seq<Clause<V>>, orm: Orm<R, V>): seq<R> {
    Where(rows, (x: R) => Satisfies(x, clauses, orm.holds))
  }

  /** The ordering tokens: those of `order_by`, otherwise newest first. */
  function Tokens(orderBy: Option<seq<string>>): seq<string> {
    if orderBy.Some? then orderBy.value else ["-id"]
  }

  /** `filter_order_and_list(query_set, model_to_dict, filter=..., order_by=..., page=..., page_size=...)`. */
  function FilterOrderAndList<R(!new), V, P>(rows: seq<R>, clauses: seq<Clause<V>>, orderBy: Option<seq<string>>,
                                              page: int, pageSize: int, orm: Orm<R, V>, project: R -> P): (r: Listing<P>)
    requires page >= 1 && pageSize >= 1
    requires Reorders(orm)
    ensures r.InvalidFilter? <==> exists k :: 0 <= k < |clauses| && !orm.supported(Lookup(clauses[k]))
    ensures r.InvalidOrderBy? <==> !r.InvalidFilter? && orm.order(Matching(rows, clauses, orm), Tokens(orderBy)).None?
    ensures r.Listing? ==>
      r.totCount == |rows| && r.filterCount == |Matching(rows, clauses, orm)| && r.filterCount <= r.totCount
      && r.page == page && r.pageAll == NumPages(r.filterCount, pageSize)
      && |r.data| <= pageSize && (page > r.pageAll ==> r.data == [])
      && (page <= r.pageAll && r.filterCount > 0 ==> |r.data| > 0)
    ensures r.Listing? ==>
      var ordered := orm.order(Matching(rows, clauses, orm), Tokens(orderBy)).value;
      && multiset(ordered) == multiset(Matching(rows, clauses, orm)) && |ordered| == r.filterCount
      && (page <= r.pageAll ==> r.data == MapSeq(project, PageSlice(ordered, page, pageSize)))
  {
    if exists k :: 0 <= k < |clauses| && !orm.supported(Lookup(clauses[k])) then InvalidFilter
    else
      var filtered := Matching(rows, clauses, orm);
      match orm.order(filtered, Tokens(orderBy))
      case None => InvalidOrderBy
      case Some(ordered) =>
        assert |ordered| == |multiset(ordered)| == |multiset(filtered)| == |filtered|;
        var pageAll := NumPages(|filtered|, pageSize);
        var data := if page > pageAll then [] else MapSeq(project, PageSlice(ordered, page, pageSize));
        Listing(|rows|, |filtered|, pageAll, page, data)
  }

  /** Every listed item is the projection of a row of the query set that passes the filter. */
  lemma ListedRowsMatch<R(!new), V, P>(rows: seq<R>, clauses: seq<Clause<V>>, orderBy: Option<seq<string>>,
                                         page: int, pageSize: int, orm: Orm<R, V>, project: R -> P, i: int)
    requires page >= 1 && pageSize >= 1
    requires Reorders(orm)
    requires FilterOrderAndList(rows, clauses, orderBy, page, pageSize, orm, project).Listing?
    requires 0 <= i < |FilterOrderAndList(rows, clauses, orderBy, page, pageSize, orm, project).data|
    ensures exists x :: (x in rows && Satisfies(x, clauses, orm.holds)
      && FilterOrderAndList(rows, clauses, orderBy, page, pageSize, orm, project).data[i] == project(x))
  {
    var filtered := Matching(rows, clauses, orm);
    var ordered := orm.order(filtered, Tokens(orderBy)).value;
    assert |ordered| == |multiset(ordered)| == |multiset(filtered)| == |filtered|;
    var slice := PageSlice(ordered, page, pageSize);
    var x := slice[i];
    SliceElement(ordered, page, pageSize, i);
    ReorderedElement(filtered, ordered, x);
    assert x in filtered;
  }

  /** An element of a page is an element of the list. */
  lemma SliceElement<T>(items: seq<T>, page: nat, perPage: nat, i: int)
    requires perPage >= 1 && 1 <= page <= NumPages(|items|, perPage)
    requires 0 <= i < |PageSlice(items, page, perPage)|
    ensures PageSlice(items, page, perPage)[i] in items
  {
    PageBounds(|items|, page, perPage);
    assert PageSlice(items, page, perPage)[i] == items[(page - 1) * perPage + i];
  }

  /** A reordering keeps every element of the rows it was given. */
  lemma ReorderedElement<R>(rows: seq<R>, ordered: seq<R>, x: R)
    requires multiset(ordered) == multiset(rows) && x in ordered
    ensures x in rows
  {
    assert x in multiset(ordered);
  }

  /** What the listing endpoints answer when the pipeline raises. */
  function CatchListErrors<P>(l: Listing<P>): (r: ApiResult<Listing<P>>)
    ensures l.Listing? <==> r == Success(l)
    ensures l.InvalidOrderBy? <==> r == Failure(InvalidRequestArgs, "不合法的order_by")
    ensures l.InvalidFilter? <==> r == Failure(InvalidRequestArgs, "不合法的filter")
  {
    match l
    case Listing(_, _, _, _, _) => Success(l)
    case InvalidOrderBy => Failure(InvalidRequestArgs, "不合法的order_by")
    case InvalidFilter => Failure(InvalidRequestArgs, "不合法的filter")
  }

  /** A listing endpoint decorated with `query_filter(filterFields)`,
      `query_order_by(orderFields)` and `query_page(default)`, in that order, whose body hands
      `rows` to `filter_order_and_list` and answers the two pipeline exceptions. */
  function ListEndpoint<R(!new), V, P>(q: QueryDict, filterFields: seq<(string, FieldType)>, orderFields: seq<string>,
                                         default: int, coerce: (FieldType, string) -> Coercion<V>, parseInt: string -> Option<int>,
                                         rows: seq<R>, orm: Orm<R, V>, project: R -> P): (r: ApiResult<Listing<P>>)
    requires default >= 1
    requires Reorders(orm)
    ensures FilterSpec(filterFields, q, coerce).FilterRejected? ==>
      r == Failure(InvalidRequestArgs, FilterRejectMsg(FilterSpec(filterFields, q, coerce).field, FilterSpec(filterFields, q, coerce).fieldType))
    ensures FilterSpec(filterFields, q, coerce).FilterCrash? ==> r == Uncaught
    ensures FilterSpec(filterFields, q, coerce).Filter? && OrderBySpec(orderFields, q).OrderRejected? ==>
      r == Failure(InvalidRequestArgs, OrderRejectMsg(OrderBySpec(orderFields, q).token))
    ensures (FilterSpec(filterFields, q, coerce).Filter? && !OrderBySpec(orderFields, q).OrderRejected?
             && QueryPage(q, default, parseInt).PageRejected?) ==>
      r == Failure(InvalidRequestArgs, QueryPage(q, default, parseInt).message)
    ensures (FilterSpec(filterFields, q, coerce).Filter? && !OrderBySpec(orderFields, q).OrderRejected?
             && QueryPage(q, default, parseInt).Paging?) ==>
      var listing := FilterOrderAndList(rows, FilterSpec(filterFields, q, coerce).clauses, OrderArg(OrderBySpec(orderFields, q)),
                                        QueryPage(q, default, parseInt).page, QueryPage(q, default, parseInt).pageSize, orm, project);
      (r.Success? <==> listing.Listing?) && (r.Success? ==> r.data == listing)
      && (listing.InvalidFilter? ==> r == Failure(InvalidRequestArgs, "不合法的filter"))
      && (listing.InvalidOrderBy? ==> r == Failure(InvalidRequestArgs, "不合法的order_by"))
    ensures r.Success? ==> r.data.Listing? && r.data.totCount == |rows|
  {
    match FilterSpec(filterFields, q, coerce)
    case FilterRejected(f, t) => Failure(InvalidRequestArgs, FilterRejectMsg(f, t))
    case FilterCrash => Uncaught
    case Filter(clauses) =>
      match OrderBySpec(orderFields, q)
      case OrderRejected(t) => Failure(InvalidRequestArgs, OrderRejectMsg(t))
      case _ => PagedList(q, default, parseInt, rows, clauses, OrderArg(OrderBySpec(orderFields, q)), orm, project)
  }

  /** The `order_by` keyword argument `query_order_by` passes on when it accepts the query. */
  function OrderArg(o: OrderByResult): Option<seq<string>> {
    if o.OrderBy? then Some(o.tokens) else None
  }

  /** The `query_page` step of a listing endpoint and the body after it. */
  function PagedList<R(!new), V, P>(q: QueryDict, default: int, parseInt: string -> Option<int>, rows: seq<R>,
                                     clauses: seq<Clause<V>>, orderBy: Option<seq<string>>, orm: Orm<R, V>, project: R -> P): ApiResult<Listing<P>>
    requires default >= 1
    requires Reorders(orm)
  {
    match QueryPage(q, default, parseInt)
    case PageRejected(m) => Failure(InvalidRequestArgs, m)
    case Paging(page, size) => CatchListErrors(FilterOrderAndList(rows, clauses, orderBy, page, size, orm, project))
  }

  /** Every item a listing endpoint returns is the projection of one of the rows it was given
      that passes the filter built from the query string. */
  lemma ListEndpointRowsMatch<R(!new), V, P>(q: QueryDict, filterFields: seq<(string, FieldType)>, orderFields: seq<string>,
                                                default: int, coerce: (FieldType, string) -> Coercion<V>, parseInt: string -> Option<int>,
                                                rows: seq<R>, orm: Orm<R, V>, project: R -> P, i: int)
    requires default >= 1
    requires Reorders(orm)
    requires ListEndpoint(q, filterFields, orderFields, default, coerce, parseInt, rows, orm, project).Success?
    requires 0 <= i < |ListEndpoint(q, filterFields, orderFields, default, coerce, parseInt, rows, orm, project).data.data|
    ensures FilterSpec(filterFields, q, coerce).Filter?
    ensures exists x :: (x in rows && Satisfies(x, FilterSpec(filterFields, q, coerce).clauses, orm.holds)
      && ListEndpoint(q, filterFields, orderFields, default, coerce, parseInt, rows, orm, project).data.data[i] == project(x))
  {
    var clauses := FilterSpec(filterFields, q, coerce).clauses;
    var orderBy := OrderArg(OrderBySpec(orderFields, q));
    var paging := QueryPage(q, default, parseInt);
    ListedRowsMatch(rows, clauses, orderBy, paging.page, paging.pageSize, orm, project, i);
  }
}
