/** The request helpers and the generic list query engine: bearer-token
    extraction, the lease-forms selection, the `Page` of a listing and
    `ModelFilter`, which turns untrusted query parameters into an ownership
    predicate, whitelisted filter predicates, a validated sort and a page
    window. The SQL query is a value rebuilt step by step; running it is a
    pair of functions supplied by the caller. */
module Utils {
  import opened Runtime
  import opened Json
  import Strings

  // ---------------------------------------------------------------------------
  // get_token

  const Bearer: string := "Bearer "

  /** `t` runs from the start of `rest` to the first "Bearer " in it, or to its end. */
  predicate RunsToNextBearer(rest: string, t: string) {
    && Strings.StartsWith(rest, t)
    && (|t| == |rest| || Strings.OccursAt(rest, Bearer, |t|))
    && forall k: nat :: k < |t| ==> !Strings.OccursAt(rest, Bearer, k)
  }

  /** get_token: `headers["Authorization"].split("Bearer ")[1]`, or None when
      the header is absent (KeyError) or holds no "Bearer " (IndexError).
      The token is the text after the first "Bearer ", up to the next one
      or to the end of the header. */
  function GetToken(authorization: Option<string>): (r: Option<string>)
    ensures authorization.None? ==> r.None?
    ensures authorization.Some? ==> (r.Some? <==> Strings.Contains(authorization.value, Bearer))
    ensures r.Some? ==> !Strings.Contains(r.value, Bearer)
    ensures r.Some? ==>
      && authorization.Some? && Strings.Contains(authorization.value, Bearer)
      && var i := Strings.Find(authorization.value, Bearer, 0).value;
         RunsToNextBearer(authorization.value[i + |Bearer|..], r.value)
  {
    match authorization
    case None => None
    case Some(h) =>
      var parts := Strings.Split(h, Bearer);
      Strings.SplitPiecesFree(h, Bearer);
      SplitSecond(h);
      if |parts| > 1 then Some(parts[1]) else None
  }

  /** The second piece of a split on "Bearer " exists exactly when the text
      holds a "Bearer ", and it is the text after it up to the next one. */
  lemma SplitSecond(h: string)
    ensures |Strings.Split(h, Bearer)| > 1 <==> Strings.Contains(h, Bearer)
    ensures |Strings.Split(h, Bearer)| > 1 ==>
      var i := Strings.Find(h, Bearer, 0).value;
      RunsToNextBearer(h[i + |Bearer|..], Strings.Split(h, Bearer)[1])
  {
    match Strings.Find(h, Bearer, 0)
    case None =>
    case Some(i) =>
      var rest := h[i + |Bearer|..];
      Strings.SplitUnfold(h, Bearer, i);
      Strings.SplitFirst(rest, Bearer);
      match Strings.Find(rest, Bearer, 0)
      case None =>
        assert rest[..|rest|] == rest;
      case Some(j) =>
        var t := rest[..j];
        assert rest[..|t|] == t;
        assert Strings.OccursAt(rest, Bearer, |t|);
  }

  /** A header "Bearer <t>" with no further "Bearer " in `t` yields `t`. */
  lemma GetTokenOfBearer(t: string)
    requires !Strings.Contains(t, Bearer)
    ensures GetToken(Some(Bearer + t)) == Some(t)
  {
    var h := Bearer + t;
    assert Strings.OccursAt(h, Bearer, 0) by { assert h[..|Bearer|] == Bearer; }
    assert Strings.Find(h, Bearer, 0) == Some(0);
    assert h[|Bearer|..] == t;
    Strings.NotContainsNowhere(t, Bearer);
    var r := GetToken(Some(h)).value;
    assert RunsToNextBearer(t, r);
    assert !Strings.OccursAt(t, Bearer, |r|);
    assert r == t[..|r|] && |r| == |t|;
    assert t[..|t|] == t;
  }

  // ---------------------------------------------------------------------------
  // forms_mapper

  /** One entry of the provider's lease-forms list. */
  datatype LeaseForm = LeaseForm(name: string, kind: string)

  /** The `{"standard_forms": ..., "custom_forms": ...}` result. */
  datatype FormSelection = FormSelection(standard: seq<Json>, custom: seq<Json>)

  /** `x` is the name of some offered form of type `kind`. */
  ghost predicate Offered(forms: seq<LeaseForm>, kind: string, x: Json) {
    exists f :: f in forms && f.kind == kind && x == Str(f.name)
  }

  /** `[f["name"] for f in forms if f["type"] == kind]` */
  function Selections(forms: seq<LeaseForm>, kind: string): (names: seq<Json>)
    decreases |forms|
    ensures forall x :: x in names <==> Offered(forms, kind, x)
  {
    if forms == [] then []
    else
      var f := forms[|forms| - 1];
      var init := forms[..|forms| - 1];
      assert forms == init + [f];
      Selections(init, kind) + (if f.kind == kind then [Str(f.name)] else [])
  }

  /** `[x for x in selected if x in names]` */
  function Keep(selected: seq<Json>, names: seq<Json>): (kept: seq<Json>)
    decreases |selected|
    ensures |kept| <= |selected|
    ensures forall x :: x in kept ==> x in selected && x in names
  {
    if selected == [] then []
    else Keep(selected[..|selected| - 1], names) + (if selected[|selected| - 1] in names then [selected[|selected| - 1]] else [])
  }

  /** Keeping takes every occurrence of a listed name and nothing else. */
  lemma {:induction false} KeepCounts(selected: seq<Json>, names: seq<Json>)
    ensures forall x :: multiset(Keep(selected, names))[x] == if x in names then multiset(selected)[x] else 0
    decreases |selected|
  {
    if selected != [] {
      var x := selected[|selected| - 1];
      var init := selected[..|selected| - 1];
      assert selected == init + [x];
      KeepCounts(init, names);
    }
  }

  /** Keeping preserves order: it distributes over concatenation. */
  lemma {:induction false} KeepConcat(a: seq<Json>, b: seq<Json>, names: seq<Json>)
    ensures Keep(a + b, names) == Keep(a, names) + Keep(b, names)
    decreases |b|
  {
    if b == [] {
      assert a + b == a;
    } else {
      var x := b[|b| - 1];
      var b' := b[..|b| - 1];
      var tail := if x in names then [x] else [];
      assert (a + b)[..|a + b| - 1] == a + b';
      assert (a + b)[|a + b| - 1] == x;
      assert Keep(a + b, names) == Keep(a + b', names) + tail;
      assert Keep(b, names) == Keep(b', names) + tail;
      KeepConcat(a, b', names);
    }
  }

  /** forms_mapper with the fetched forms list passed in: an empty list
      raises MissingLeaseForms before anything else; a missing selection
      (None) cannot be iterated; otherwise each output keeps, in order and
      with repetitions, the selected names offered with that type. */
  function FormsMapper(selected: Option<seq<Json>>, leaseForms: seq<LeaseForm>): (r: Result<FormSelection>)
    ensures leaseForms == [] ==> r == Raise(MissingLeaseForms)
    ensures leaseForms != [] && selected.None? ==> r == Raise(TypeError)
    ensures r.Ok? <==> selected.Some? && leaseForms != []
    ensures r.Ok? ==> forall x ::
      multiset(r.value.standard)[x] == if Offered(leaseForms, "standard", x) then multiset(selected.value)[x] else 0
    ensures r.Ok? ==> forall x ::
      multiset(r.value.custom)[x] == if Offered(leaseForms, "custom", x) then multiset(selected.value)[x] else 0
  {
    if leaseForms == [] then Raise(MissingLeaseForms)
    else
      var standardSelections := Selections(leaseForms, "standard");
      var customSelections := Selections(leaseForms, "custom");
      match selected
      case None => Raise(TypeError)
      case Some(names) =>
        KeepCounts(names, standardSelections);
        KeepCounts(names, customSelections);
        Ok(FormSelection(Keep(names, standardSelections), Keep(names, customSelections)))
  }

  /** A name offered with both types lands in both lists. */
  lemma FormOfBothTypes(selected: seq<Json>, leaseForms: seq<LeaseForm>, x: Json)
    requires leaseForms != [] && x in selected
    requires Offered(leaseForms, "standard", x) && Offered(leaseForms, "custom", x)
    ensures FormsMapper(Some(selected), leaseForms).Ok?
    ensures x in FormsMapper(Some(selected), leaseForms).value.standard
    ensures x in FormsMapper(Some(selected), leaseForms).value.custom
  {
    var r := FormsMapper(Some(selected), leaseForms).value;
    assert multiset(r.standard)[x] == multiset(selected)[x] > 0;
    assert multiset(r.custom)[x] == multiset(selected)[x] > 0;
  }

  // ---------------------------------------------------------------------------
  // Page

  /** `math.ceil(a / b)` computed on integers. */
  function CeilDiv(a: int, b: int): (q: int)
    requires b != 0
    decreases if b < 0 then 1 else 0
    ensures b > 0 ==> (q - 1) * b < a <= q * b
    ensures b < 0 ==> q * b <= a < (q - 1) * b
  {
    if b > 0 then
      var m := (-a) / b;
      MulNegate(m, b);
      MulPred(-m, b);
      -m
    else
      var q := CeilDiv(-a, -b);
      MulNegate(q, -b);
      MulNegate(q - 1, -b);
      q
  }

  lemma MulNegate(x: int, b: int)
    ensures (-x) * b == -(x * b) && x * (-b) == -(x * b)
  {
  }

  lemma MulPred(x: int, b: int)
    ensures (x - 1) * b == x * b - b
  {
  }

  lemma MulMono(x: int, y: int, b: int)
    requires b > 0
    ensures x <= y ==> x * b <= y * b
    ensures x < y ==> x * b < y * b
  {
  }

  /** No rows make no pages. */
  lemma NoRowsNoPages(pageSize: int)
    requires pageSize > 0
    ensures CeilDiv(0, pageSize) == 0
  {
    var q := CeilDiv(0, pageSize);
    MulMono(q, 0, pageSize);
    MulMono(0, q - 1, pageSize);
  }

  /** One page of a listing and its navigation data. */
  class Page<T> {
    const items: seq<T>
    const previousPage: Option<int>
    const nextPage: Option<int>
    const hasPrevious: bool
    const hasNext: bool
    const total: int
    const pages: int

    /** Page.__init__; a zero page size is Python's ZeroDivisionError, so the
        caller guards it. */
    constructor (items: seq<T>, page: int, pageSize: int, total: int)
      requires pageSize != 0
      ensures this.items == items && this.total == total
      ensures hasPrevious <==> page > 1
      ensures previousPage == if page > 1 then Some(page - 1) else None
      ensures hasNext <==> (page - 1) * pageSize + |items| < total
      ensures nextPage == if hasNext then Some(page + 1) else None
      ensures pages == CeilDiv(total, pageSize)
    {
      this.items := items;
      var hasPrevious := page > 1;
      this.hasPrevious := hasPrevious;
      this.previousPage := if hasPrevious then Some(page - 1) else None;
      var previousItems := (page - 1) * pageSize;
      var hasNext := previousItems + |items| < total;
      this.hasNext := hasNext;
      this.nextPage := if hasNext then Some(page + 1) else None;
      this.total := total;
      this.pages := CeilDiv(total, pageSize);
    }
  }

  /** `p` is the Page built from these items, page number, page size and
      total: every field as Page.__init__ sets it. */
  ghost predicate IsPage<T>(p: Page<T>, items: seq<T>, page: int, pageSize: int, total: int)
    requires pageSize != 0
    ensures IsPage(p, items, page, pageSize, total) ==>
      (p.previousPage.Some? <==> p.hasPrevious) && (p.nextPage.Some? <==> p.hasNext)
  {
    && p.items == items && p.total == total
    && (p.hasPrevious <==> page > 1)
    && p.previousPage == (if page > 1 then Some(page - 1) else None)
    && (p.hasNext <==> (page - 1) * pageSize + |items| < total)
    && p.nextPage == (if p.hasNext then Some(page + 1) else None)
    && p.pages == CeilDiv(total, pageSize)
  }

  /** The rows `LIMIT limit OFFSET offset` selects from `rows`. */
  function Window<T>(rows: seq<T>, limit: nat, offset: nat): (w: seq<T>)
    ensures |w| <= limit
    ensures offset <= |rows| ==> w == rows[offset..if offset + limit <= |rows| then offset + limit else |rows|]
    ensures offset >= |rows| ==> w == []
  {
    var lo := if offset <= |rows| then offset else |rows|;
    var hi := if offset + limit <= |rows| then offset + limit else |rows|;
    rows[lo..if lo <= hi then hi else lo]
  }

  /** When the items are the SQL window of page `page` over all `rows`,
      `has_next` holds exactly when the page comes before the last one. */
  lemma HasNextIffBeforeLastPage<T>(rows: seq<T>, page: int, pageSize: int, offset: nat)
    requires page >= 1 && pageSize > 0 && offset == (page - 1) * pageSize
    ensures offset + |Window(rows, pageSize, offset)| < |rows| <==> page < CeilDiv(|rows|, pageSize)
  {
    var last := CeilDiv(|rows|, pageSize);
    MulPred(page, pageSize);
    MulMono(page, last - 1, pageSize);
    MulMono(last, page, pageSize);
  }

  // ---------------------------------------------------------------------------
  // The query as data

  /** The `filters` dict a listing route passes to ModelFilter. */
  datatype FilterSpec = FilterSpec(fields: seq<string>, defaultPageSize: int, defaultOrder: string, defaultDir: string)

  /** The filters of the `/leases` listing (app.py). */
  const LeaseFilters := FilterSpec(["id", "bluemoon_id", "unit_number"], 25, "id", "desc")

  /** A mapped model: its table and the attributes `getattr` finds on it. */
  datatype Model = Model(name: string, attributes: set<string>)

  const LeaseModel := Model("leases", {"id", "bluemoon_id", "unit_number", "user_id", "user"})

  datatype Comparison = AtLeast | Above | AtMost | Below

  /** One `query.filter(...)` clause. */
  datatype Predicate =
    | Equals(field: string, value: Json)
    | NotEquals(field: string, text: string)
    | Like(field: string, pattern: string)
    | Compare(field: string, op: Comparison, bound: int)
    | OneOf(field: string, values: seq<string>)
    | IsNull(field: string)

  /** One `order_by` key. */
  datatype SortKey = SortKey(field: string, descending: bool)

  /** A SQLAlchemy query: the conjunction of its `where` clauses, then its sort. */
  datatype Query = Query(model: string, where: seq<Predicate>, orderBy: seq<SortKey>) {
    function Filter(p: Predicate): Query {
      this.(where := where + [p])
    }
  }

  /** `session.query(model)` */
  function QueryAll(m: Model): Query {
    Query(m.name, [], [])
  }

  /** `params.get(key)`: the value of the first pair with that key. */
  function Lookup(params: seq<(string, string)>, key: string): (r: Option<string>)
    ensures r.Some? <==> exists i :: 0 <= i < |params| && params[i].0 == key
    ensures r.Some? ==> exists i :: 0 <= i < |params| && params[i] == (key, r.value)
  {
    if params == [] then None
    else if params[0].0 == key then Some(params[0].1)
    else
      var r := Lookup(params[1..], key);
      assert forall i :: 0 <= i < |params| - 1 ==> params[1..][i] == params[i + 1];
      assert r.None? ==> forall i :: 1 <= i < |params| ==> params[1..][i - 1] == params[i];
      r
  }

  // ---------------------------------------------------------------------------
  // filtering

  /** What one query parameter does to the query: nothing, one more clause,
      or an exception that aborts the filtering. */
  datatype Step = Skip | Add(p: Predicate) | Fail(error: Exception)

  const ComparisonOperators: set<string> := {"ge", "gt", "le", "ls"}
  const Operators: set<string> := {"contains", "starts", "ends", "eq", "ne", "in", "is_null"} + ComparisonOperators

  /** The clause operator `op` builds on `field` from the text `value`.
      LIKE patterns embed the value unescaped; the four comparisons call
      `int(value)` unguarded; `in` splits on `|`; `is_null` ignores the value. */
  function OperatorStep(field: string, value: string, op: string): (r: Step)
    ensures r.Skip? <==> op !in Operators
    ensures r.Add? ==> r.p.field == field
    ensures r.Fail? <==> op in ComparisonOperators && Strings.ParseInt(value).None?
    ensures r.Fail? ==> r.error == ValueError
  {
    if op == "contains" then Add(Like(field, "%" + value + "%"))
    else if op == "starts" then Add(Like(field, value + "%"))
    else if op == "ends" then Add(Like(field, "%" + value))
    else if op == "eq" then Add(Equals(field, Str(value)))
    else if op == "ne" then Add(NotEquals(field, value))
    else if op in ComparisonOperators then
      match Strings.ParseInt(value)
      case None => Fail(ValueError)
      case Some(n) =>
        Add(Compare(field, if op == "ge" then AtLeast else if op == "gt" then Above else if op == "le" then AtMost else Below, n))
    else if op == "in" then Add(OneOf(field, Strings.Split(value, "|")))
    else if op == "is_null" then Add(IsNull(field))
    else Skip
  }

  /** One iteration of the filtering loop for the pair `(field, filterValue)`:
      a field outside the whitelist or a value that does not split on `:`
      into exactly two parts is skipped; a whitelisted field the model lacks
      raises AttributeError. */
  function ParamStep(spec: FilterSpec, model: Model, param: (string, string)): (r: Step)
    ensures param.0 !in spec.fields ==> r == Skip
    ensures r.Fail? ==> r.error in {AttributeError, ValueError}
    ensures r.Add? ==> r.p.field == param.0 && param.0 in spec.fields && param.0 in model.attributes
  {
    var (field, filterValue) := param;
    if field !in spec.fields then Skip
    else
      var parts := Strings.Split(filterValue, ":");
      if |parts| != 2 then Skip
      else if field !in model.attributes then Fail(AttributeError)
      else OperatorStep(field, parts[0], parts[1])
  }

  /** Apply one step to a query in progress; an exception stays in flight. */
  function Next(r: Result<Query>, s: Step): (r': Result<Query>)
    ensures r'.Ok? <==> r.Ok? && !s.Fail?
    ensures r'.Raise? ==> r'.error == if r.Raise? then r.error else s.error
    ensures r'.Ok? ==>
      && r'.value.model == r.value.model && r'.value.orderBy == r.value.orderBy
      && r'.value.where == r.value.where + (if s.Add? then [s.p] else [])
  {
    match r
    case Raise(e) => Raise(e)
    case Ok(q) =>
      match s
      case Skip => Ok(q)
      case Add(p) => Ok(q.Filter(p))
      case Fail(e) => Raise(e)
  }

  /** The loop over the parameters, in iteration order. */
  function ApplyParams(spec: FilterSpec, model: Model, params: seq<(string, string)>, q: Query): (r: Result<Query>)
    decreases |params|
    ensures r.Raise? ==> r.error in {AttributeError, ValueError}
  {
    if params == [] then Ok(q)
    else Next(ApplyParams(spec, model, params[..|params| - 1], q), ParamStep(spec, model, params[|params| - 1]))
  }

  /** The ownership clause `user_id == principal`, added when the model has a `user_id`. */
  function Owned(model: Model, userId: int, q: Query): (r: Query)
    ensures r.model == q.model && r.orderBy == q.orderBy && |q.where| <= |r.where| && r.where[..|q.where|] == q.where
    ensures "user_id" in model.attributes ==> |r.where| == |q.where| + 1 && r.where[|q.where|] == Equals("user_id", Num(userId))
    ensures "user_id" !in model.attributes ==> r == q
  {
    if "user_id" in model.attributes then q.Filter(Equals("user_id", Num(userId))) else q
  }

  /** ModelFilter.filtering on the query `q`. */
  function Filtered(spec: FilterSpec, model: Model, userId: int, params: seq<(string, string)>, q: Query): (r: Result<Query>)
    ensures r.Raise? ==> r.error in {AttributeError, ValueError}
  {
    ApplyParams(spec, model, params, Owned(model, userId, q))
  }

  lemma ApplyParamsStep(spec: FilterSpec, model: Model, params: seq<(string, string)>, i: nat, q: Query)
    requires i < |params|
    ensures ApplyParams(spec, model, params[..i + 1], q)
      == Next(ApplyParams(spec, model, params[..i], q), ParamStep(spec, model, params[i]))
  {
    assert params[..i + 1][..i] == params[..i];
  }

  /** Filtering in two runs is filtering once. */
  lemma {:induction false} ApplyParamsConcat(spec: FilterSpec, model: Model, a: seq<(string, string)>, b: seq<(string, string)>, q: Query)
    ensures ApplyParams(spec, model, a + b, q)
      == match ApplyParams(spec, model, a, q) case Ok(q') => ApplyParams(spec, model, b, q') case Raise(e) => Raise(e)
    decreases |b|
  {
    if b == [] {
      assert a + b == a;
    } else {
      var b' := b[..|b| - 1];
      assert (a + b)[..|a + b| - 1] == a + b';
      assert (a + b)[|a + b| - 1] == b[|b| - 1];
      ApplyParamsConcat(spec, model, a, b', q);
    }
  }

  /** Once a parameter raises, the whole filtering raises that exception. */
  lemma ApplyParamsStopsAt(spec: FilterSpec, model: Model, params: seq<(string, string)>, i: nat, q: Query)
    requires i < |params|
    requires ApplyParams(spec, model, params[..i], q).Ok? && ParamStep(spec, model, params[i]).Fail?
    ensures ApplyParams(spec, model, params, q) == Raise(ParamStep(spec, model, params[i]).error)
  {
    ApplyParamsStep(spec, model, params, i, q);
    ApplyParamsConcat(spec, model, params[..i + 1], params[i + 1..], q);
    assert params[..i + 1] + params[i + 1..] == params;
  }

  /** A parameter the step skips can be dropped, wherever it sits. */
  lemma SkippedParamIsInert(spec: FilterSpec, model: Model, a: seq<(string, string)>, p: (string, string), b: seq<(string, string)>, q: Query)
    requires ParamStep(spec, model, p) == Skip
    ensures ApplyParams(spec, model, a + [p] + b, q) == ApplyParams(spec, model, a + b, q)
  {
    ApplyParamsConcat(spec, model, a + [p], b, q);
    ApplyParamsConcat(spec, model, a, b, q);
    assert (a + [p])[..|a + [p]| - 1] == a;
  }

  /** Filtering only appends clauses, each built by an `Add` step of some
      parameter; it keeps the model and the sort, and succeeds exactly when
      no parameter's step fails. */
  lemma {:induction false} ApplyParamsShape(spec: FilterSpec, model: Model, params: seq<(string, string)>, q: Query)
    ensures ApplyParams(spec, model, params, q).Ok? <==> forall i :: 0 <= i < |params| ==> !ParamStep(spec, model, params[i]).Fail?
    ensures var r := ApplyParams(spec, model, params, q);
      r.Ok? ==>
        && r.value.model == q.model && r.value.orderBy == q.orderBy
        && |q.where| <= |r.value.where| && r.value.where[..|q.where|] == q.where
        && forall j :: |q.where| <= j < |r.value.where| ==>
             exists i :: 0 <= i < |params| && ParamStep(spec, model, params[i]) == Add(r.value.where[j])
  {
    ApplyParamsSucceeds(spec, model, params, q);
    ApplyParamsAppends(spec, model, params, q);
  }

  lemma {:induction false} ApplyParamsSucceeds(spec: FilterSpec, model: Model, params: seq<(string, string)>, q: Query)
    ensures ApplyParams(spec, model, params, q).Ok? <==> forall i :: 0 <= i < |params| ==> !ParamStep(spec, model, params[i]).Fail?
    decreases |params|
  {
    if params != [] {
      var init := params[..|params| - 1];
      ApplyParamsSucceeds(spec, model, init, q);
      assert forall i :: 0 <= i < |init| ==> init[i] == params[i];
    }
  }

  lemma {:induction false} ApplyParamsAppends(spec: FilterSpec, model: Model, params: seq<(string, string)>, q: Query)
    ensures var r := ApplyParams(spec, model, params, q);
      r.Ok? ==>
        && r.value.model == q.model && r.value.orderBy == q.orderBy
        && |q.where| <= |r.value.where| && r.value.where[..|q.where|] == q.where
        && forall j :: |q.where| <= j < |r.value.where| ==>
             exists i :: 0 <= i < |params| && ParamStep(spec, model, params[i]) == Add(r.value.where[j])
    decreases |params|
  {
    if params != [] {
      var init := params[..|params| - 1];
      var last := params[|params| - 1];
      ApplyParamsAppends(spec, model, init, q);
      var r0 := ApplyParams(spec, model, init, q);
      if r0.Ok? {
        var s := ParamStep(spec, model, last);
        if s.Add? {
          var w := r0.value.where + [s.p];
          assert w[..|q.where|] == r0.value.where[..|q.where|];
          forall j | |q.where| <= j < |w|
            ensures exists i :: 0 <= i < |params| && ParamStep(spec, model, params[i]) == Add(w[j])
          {
            if j == |w| - 1 {
              assert ParamStep(spec, model, params[|params| - 1]) == Add(w[j]);
            } else {
              assert w[j] == r0.value.where[j];
              var i :| 0 <= i < |init| && ParamStep(spec, model, init[i]) == Add(r0.value.where[j]);
              assert params[i] == init[i];
            }
          }
        }
      }
    }
  }

  /** The ownership clause is added before any parameter's clause, and no
      parameter can remove it. */
  lemma OwnerClauseFirst(spec: FilterSpec, model: Model, userId: int, params: seq<(string, string)>, q: Query)
    requires "user_id" in model.attributes
    requires Filtered(spec, model, userId, params, q).Ok?
    ensures var w := Filtered(spec, model, userId, params, q).value.where;
      |q.where| < |w| && w[|q.where|] == Equals("user_id", Num(userId))
  {
    var q0 := Owned(model, userId, q);
    ApplyParamsShape(spec, model, params, q0);
    var w := Filtered(spec, model, userId, params, q).value.where;
    assert w[..|q0.where|] == q0.where;
    assert w[|q.where|] == w[..|q0.where|][|q.where|];
  }

  /** A whitelisted field the model has, with a value `v:op` where neither
      part holds `:`, is handled by the operator table. */
  lemma OperatorTable(spec: FilterSpec, model: Model, field: string, v: string, op: string)
    requires field in spec.fields && field in model.attributes
    requires ':' !in v && ':' !in op
    ensures ParamStep(spec, model, (field, v + ":" + op)) == OperatorStep(field, v, op)
  {
    Strings.SplitCharPair(v, op, ':');
  }

  /** A value with no `:` or with more than one is skipped. */
  lemma ColonCountDecides(spec: FilterSpec, model: Model, field: string, value: string)
    requires multiset(value)[':'] != 1
    ensures ParamStep(spec, model, (field, value)) == Skip
  {
    Strings.SplitCharCount(value, ':');
  }

  /** There is no `lt`: the less-than operator is spelled `ls`. */
  lemma NoLtOperator(spec: FilterSpec, model: Model, field: string, v: string)
    requires field in spec.fields && field in model.attributes && ':' !in v
    ensures ParamStep(spec, model, (field, v + ":lt")) == Skip
    ensures Strings.ParseInt(v).Some? ==>
      ParamStep(spec, model, (field, v + ":ls")) == Add(Compare(field, Below, Strings.ParseInt(v).value))
  {
    Spelled(v);
    OperatorSpelling(spec, model, field, v, "lt");
    OperatorSpelling(spec, model, field, v, "ls");
    LtLs(field, v);
  }

  lemma LtLs(field: string, v: string)
    ensures OperatorStep(field, v, "lt") == Skip
    ensures Strings.ParseInt(v).Some? ==> OperatorStep(field, v, "ls") == Add(Compare(field, Below, Strings.ParseInt(v).value))
  {
  }

  lemma Spelled(v: string)
    ensures v + ":lt" == v + [':'] + "lt" && v + ":ls" == v + [':'] + "ls"
  {
    assert ":lt" == [':'] + "lt" && ":ls" == [':'] + "ls";
  }

  lemma OperatorSpelling(spec: FilterSpec, model: Model, field: string, v: string, op: string)
    requires field in spec.fields && field in model.attributes && ':' !in v && ':' !in op
    ensures ParamStep(spec, model, (field, v + [':'] + op)) == OperatorStep(field, v, op)
  {
    OperatorTable(spec, model, field, v, op);
  }

  // ---------------------------------------------------------------------------
  // ordering and paginate

  const SortDirections: seq<string> := ["asc", "desc"]

  /** `order_dir`, falling back to `default_dir` when absent or not asc/desc. */
  function SortDirection(spec: FilterSpec, params: seq<(string, string)>): (d: string)
    ensures d == spec.defaultDir || (d in SortDirections && Lookup(params, "order_dir") == Some(d))
    ensures (match Lookup(params, "order_dir") case Some(v) => v in SortDirections case None => false)
      ==> Some(d) == Lookup(params, "order_dir")
  {
    var d := Lookup(params, "order_dir").GetOr(spec.defaultDir);
    if d !in SortDirections then spec.defaultDir else d
  }

  /** `order_by`, falling back to `default_order` when absent or not whitelisted. */
  function SortField(spec: FilterSpec, params: seq<(string, string)>): (f: string)
    ensures f == spec.defaultOrder || (f in spec.fields && Lookup(params, "order_by") == Some(f))
    ensures (match Lookup(params, "order_by") case Some(v) => v in spec.fields case None => false)
      ==> Some(f) == Lookup(params, "order_by")
  {
    var f := Lookup(params, "order_by").GetOr(spec.defaultOrder);
    if f !in spec.fields then spec.defaultOrder else f
  }

  /** ModelFilter.ordering on the query `q`: one more sort key, descending
      only for `desc`, none when the model lacks the field. */
  function Ordered(spec: FilterSpec, model: Model, params: seq<(string, string)>, q: Query): (r: Query)
    ensures r.model == q.model && r.where == q.where
    ensures SortField(spec, params) !in model.attributes ==> r == q
    ensures SortField(spec, params) in model.attributes ==>
      r.orderBy == q.orderBy + [SortKey(SortField(spec, params), SortDirection(spec, params) == "desc")]
  {
    var field := SortField(spec, params);
    if field !in model.attributes then q
    else q.(orderBy := q.orderBy + [SortKey(field, SortDirection(spec, params) == "desc")])
  }

  /** The page size: `int(params.get("page_size", default))`, the default on ValueError. */
  function PageSize(spec: FilterSpec, params: seq<(string, string)>): (size: int)
    ensures size != spec.defaultPageSize ==>
      Lookup(params, "page_size").Some? && Strings.ParseInt(Lookup(params, "page_size").value) == Some(size)
  {
    match Lookup(params, "page_size")
    case None => spec.defaultPageSize
    case Some(s) => Strings.ParseInt(s).GetOr(spec.defaultPageSize)
  }

  /** The page number: `int(params.get("page", 1))`, 1 on ValueError. */
  function PageNumber(params: seq<(string, string)>): (page: int)
    ensures page != 1 ==> Lookup(params, "page").Some? && Strings.ParseInt(Lookup(params, "page").value) == Some(page)
  {
    match Lookup(params, "page")
    case None => 1
    case Some(s) => Strings.ParseInt(s).GetOr(1)
  }

  /** The `/leases` listing without parameters: only the principal's leases,
      the highest id first, 25 to a page, page 1. */
  lemma LeaseListingDefaults(userId: int)
    ensures var owned := Query("leases", [Equals("user_id", Num(userId))], []);
      && Filtered(LeaseFilters, LeaseModel, userId, [], QueryAll(LeaseModel)) == Ok(owned)
      && Ordered(LeaseFilters, LeaseModel, [], owned) == owned.(orderBy := [SortKey("id", true)])
    ensures PageSize(LeaseFilters, []) == 25 && PageNumber([]) == 1
  {
    assert "id" in LeaseFilters.fields && "desc" in SortDirections;
    assert "user_id" in LeaseModel.attributes;
    assert [] + [Equals("user_id", Num(userId))] == [Equals("user_id", Num(userId))];
    assert [] + [SortKey("id", true)] == [SortKey("id", true)];
  }

  /** A page size written as an integer is read back as that integer; one
      that is not an integer falls back to the default. */
  lemma PageSizeParam(spec: FilterSpec, params: seq<(string, string)>, n: int)
    ensures Lookup(params, "page_size") == Some(Strings.IntToString(n)) ==> PageSize(spec, params) == n
    ensures (match Lookup(params, "page_size") case Some(s) => Strings.ParseInt(s).None? case None => true)
      ==> PageSize(spec, params) == spec.defaultPageSize
  {
    Strings.ParseIntRoundTrip(n);
  }

  lemma PageNumberParam(params: seq<(string, string)>, n: int)
    ensures Lookup(params, "page") == Some(Strings.IntToString(n)) ==> PageNumber(params) == n
    ensures (match Lookup(params, "page") case Some(s) => Strings.ParseInt(s).None? case None => true)
      ==> PageNumber(params) == 1
  {
    Strings.ParseIntRoundTrip(n);
  }

  // ---------------------------------------------------------------------------
  // ModelFilter

  /** ModelFilter: the listing parameters and the query being built. */
  class ModelFilter {
    const filters: FilterSpec
    const model: Model
    const userId: int
    const params: seq<(string, string)>
    var query: Option<Query>

    /** Absent or empty parameters both become no parameters. */
    constructor (filters: FilterSpec, model: Model, userId: int, params: Option<seq<(string, string)>>)
      ensures this.filters == filters && this.model == model && this.userId == userId
      ensures this.params == params.GetOr([]) && query == None
    {
      this.filters := filters;
      this.model := model;
      this.userId := userId;
      this.params := params.GetOr([]);
      this.query := None;
    }

    /** ModelFilter.filtering: the ownership clause, then one clause per
        accepted parameter; on an exception the stored query is untouched. */
    method Filtering() returns (r: Result<()>)
      requires query.Some?
      modifies this`query
      ensures var f := Filtered(filters, model, userId, params, old(query.value));
        && (r.Raise? <==> f.Raise?)
        && (r.Raise? ==> r.error == f.error && query == old(query))
        && (r.Ok? ==> query == Some(f.value))
    {
      var q := query.value;
      if "user_id" in model.attributes {
        q := q.Filter(Equals("user_id", Num(userId)));
      }
      ghost var start := q;
      for i := 0 to |params|
        invariant ApplyParams(filters, model, params[..i], start) == Ok(q)
        invariant query == old(query)
      {
        ApplyParamsStep(filters, model, params, i, start);
        var (field, filterValue) := params[i];
        if field !in filters.fields {
          continue;
        }
        var parts := Strings.Split(filterValue, ":");
        if |parts| != 2 {
          continue;
        }
        if field !in model.attributes {
          ApplyParamsStopsAt(filters, model, params, i, start);
          return Raise(AttributeError);
        }
        var value, filterType := parts[0], parts[1];
        match OperatorStep(field, value, filterType)
        case Skip =>
        case Add(p) =>
          q := q.Filter(p);
        case Fail(e) =>
          ApplyParamsStopsAt(filters, model, params, i, start);
          return Raise(e);
      }
      assert params[..|params|] == params;
      query := Some(q);
      return Ok(());
    }

    /** ModelFilter.ordering */
    method Ordering()
      requires query.Some?
      modifies this`query
      ensures query == Some(Ordered(filters, model, params, old(query.value)))
    {
      var sortDir := Lookup(params, "order_dir").GetOr(filters.defaultDir);
      if sortDir !in SortDirections {
        sortDir := filters.defaultDir;
      }
      var sortField := Lookup(params, "order_by").GetOr(filters.defaultOrder);
      if sortField !in filters.fields {
        sortField := filters.defaultOrder;
      }
      if sortField in model.attributes {
        var q := query.value;
        query := Some(q.(orderBy := q.orderBy + [SortKey(sortField, sortDir == "desc")]));
      }
    }

    /** ModelFilter.paginate: `fetch(q, limit, offset)` runs the query with a
        limit and an offset, `count(q)` counts it, and either may be refused
        by the database (a negative LIMIT or OFFSET, say); the count drops
        the sort. A zero page size raises when the page is built. */
    method Paginate<T>(fetch: (Query, int, int) -> Result<seq<T>>, count: Query -> Result<int>)
      returns (r: Result<Page<T>>)
      requires query.Some?
      ensures var size := PageSize(filters, params);
        var items := fetch(query.value, size, (PageNumber(params) - 1) * size);
        var total := count(query.value.(orderBy := []));
        && (items.Raise? ==> r == Raise(items.error))
        && (items.Ok? && total.Raise? ==> r == Raise(total.error))
        && (items.Ok? && total.Ok? ==> (r.Raise? <==> size == 0))
        && (r.Raise? && items.Ok? && total.Ok? ==> r.error == ZeroDivisionError)
        && (r.Ok? ==>
              size != 0 && items.Ok? && total.Ok? && IsPage(r.value, items.value, PageNumber(params), size, total.value))
    {
      var pageSize := PageSize(filters, params);
      var page := PageNumber(params);
      var q := query.value;
      var items := fetch(q, pageSize, (page - 1) * pageSize);
      if items.Raise? {
        return Raise(items.error);
      }
      var total := count(q.(orderBy := []));
      if total.Raise? {
        return Raise(total.error);
      }
      if pageSize == 0 {
        return Raise(ZeroDivisionError);
      }
      var p := new Page(items.value, page, pageSize, total.value);
      return Ok(p);
    }

    /** ModelFilter.results: query the model, filter, order, paginate. */
    method Results<T>(fetch: (Query, int, int) -> Result<seq<T>>, count: Query -> Result<int>)
      returns (r: Result<Page<T>>)
      modifies this`query
      ensures var f := Filtered(filters, model, userId, params, QueryAll(model));
        && (f.Raise? ==> r == Raise(f.error) && query == Some(QueryAll(model)))
        && (f.Ok? ==> query == Some(Ordered(filters, model, params, f.value)))
      ensures query.Some? && Filtered(filters, model, userId, params, QueryAll(model)).Ok? ==>
        var size := PageSize(filters, params);
        var items := fetch(query.value, size, (PageNumber(params) - 1) * size);
        var total := count(query.value.(orderBy := []));
        && (items.Raise? ==> r == Raise(items.error))
        && (items.Ok? && total.Raise? ==> r == Raise(total.error))
        && (items.Ok? && total.Ok? ==> (r.Raise? <==> size == 0))
        && (r.Raise? && items.Ok? && total.Ok? ==> r.error == ZeroDivisionError)
        && (r.Ok? ==>
              size != 0 && items.Ok? && total.Ok? && IsPage(r.value, items.value, PageNumber(params), size, total.value))
    {
      query := Some(QueryAll(model));
      var filtered := Filtering();
      if filtered.Raise? {
        return Raise(filtered.error);
      }
      Ordering();
      r := Paginate(fetch, count);
    }
  }
}
