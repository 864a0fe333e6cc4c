/**
 The scan-to-SQL compiler: `TransformScan`, the scan transformers and `TransformStatement`
 (internal/coordinator_coordinator.go and internal/transformer_*.go), over the shared mutable context.
 */
module Compiler {
  import opened Wrappers
  import opened Decimal
  import opened SqlAst
  import opened SqlSemantics
  import opened Scans
  import opened Operators
  import opened ExpressionMeaning
  import opened CompiledColumns
  import opened ScanMeaning
  import opened NodeMeaning
  import opened JoinMeaning
  import opened SetWithMeaning
  import opened CompiledShape
  import opened ScopeAliasNames
  import opened TransformContexts
  import opened ExpressionTransformer

  /** What a scan transformer hands back to the coordinator. */
  ghost predicate Built(
    r: Result<FromItem>, list: seq<string>, s: Scan, names: Names, sig: Signature, lo: nat, hi: nat)
  {
    r.Ok? ==>
      && r.value.SubqueryItem?
      && BuiltFrom(r.value.query, s, names, sig)
      && Produces(r.value.query, list, s, sig)
      && |list| == Width(s)
      && SelectTables(r.value.query) <= Mentions(s)
      && Fresh(SelectAliases(r.value.query), lo, hi)
  }

  /** What the coordinator hands back: exactly the scan's columns, under an alias of its own. */
  ghost predicate ScanBuilt(
    r: Result<FromItem>, list: seq<string>, s: Scan, names: Names, sig: Signature, lo: nat, hi: nat)
  {
    r.Ok? ==>
      && r.value.SubqueryItem?
      && BuiltFrom(r.value.query, s, names, sig)
      && Produces(r.value.query, list, s, sig)
      && Lists(list, s.cols)
      && SelectTables(r.value.query) <= Mentions(s)
      && Fresh(FromAliases(r.value), lo, hi)
      && Minted(r.value.alias, lo, hi)
  }

  /** What a statement's transformer hands back. */
  ghost predicate StatementBuilt(
    r: Result<Select>, q: Query, names: Names, sig: Signature, lo: nat, hi: nat)
  {
    r.Ok? ==>
      && QueryBuilt(r.value, q, names, sig)
      && Answers(r.value, q, sig)
      && SelectTables(r.value) <= QueryMentions(q)
      && Fresh(SelectAliases(r.value), lo, hi)
  }

  /** What a WITH entry's transformer hands back. */
  ghost predicate EntryBuilt(
    r: Result<WithClause>, e: Entry, recursive: bool, sig: Signature, lo: nat, hi: nat)
  {
    r.Ok? ==>
      && r.value.name == e.name && r.value.recursive == recursive
      && Compiled(r.value.query, e.sub, sig)
      && SelectTables(r.value.query) <= Mentions(e.sub)
      && Fresh(SelectAliases(r.value.query), lo, hi)
  }

  function Kind(s: Scan): string {
    match s
    case TableScan(_, _, _) => "table_scan"
    case FilterScan(_, _, _) => "filter_scan"
    case ProjectScan(_, _, _) => "project_scan"
    case JoinScan(_, _, _, _, _) => "join_scan"
    case LimitScan(_, _, _, _) => "limit_scan"
    case SetOpScan(_, _, _, _) => "set_op_scan"
    case WithScan(_, _, _, _) => "with_scan"
    case WithRefScan(_, _) => "with_ref_scan"
  }

  /** `validateColumnData` on a subquery. */
  method ValidateColumnData(query: Select, cols: seq<Col>) returns (ok: bool)
    ensures ok <==> cols == [] || (SelectListOf(query).Some? && Accepted(ItemAliases(SelectListOf(query).value), cols))
  {
    if cols == [] {
      return true;
    }
    var list := SelectListOf(query);
    if list.None? || |list.value| != |cols| {
      return false;
    }
    var items := list.value;
    var expected := {};
    for i := 0 to |cols|
      invariant expected == set k | 0 <= k < i :: Alias(cols[k])
    {
      expected := expected + {Alias(cols[i])};
    }
    for i := 0 to |items|
      invariant forall k :: 0 <= k < i ==> items[k].alias != "" && items[k].alias in Aliases(cols)
    {
      assert items[i].alias in expected <==> items[i].alias in Aliases(cols) by {
        assert forall k :: 0 <= k < |cols| ==> Aliases(cols)[k] == Alias(cols[k]);
      }
      if items[i].alias == "" || items[i].alias !in expected {
        assert ItemAliases(items)[i] == items[i].alias;
        return false;
      }
    }
    return true;
  }

  // ----- the coordinator -----

  method TransformScan(s: Scan, ctx: TransformContext, ghost names: Names, ghost sig: Signature)
    returns (r: Result<FromItem>, ghost list: seq<string>)
    requires WellFormed(s, names, sig) && ctx.Ready(names, sig)
    modifies ctx, ctx.fragment
    ensures ctx.After(old(ctx.Now()), names, sig, Defines(s))
    ensures r.Ok? <==> Compilable(s)
    ensures ScanBuilt(r, list, s, names, sig, old(ctx.fragment.count), ctx.fragment.count)
    ensures r.Ok? ==> ctx.fragment.Knows(s.cols)
    decreases s, 3
  {
    hide Unwound, ScanBuilt, Compilable, WellFormed, Since;
    var token := ctx.fragment.EnterScope();
    r, list := TransformInScope(s, token, ctx, names, sig);
    ghost var inside := ctx.Now();
    ctx.fragment.ExitScope(token);
    ScopeLeft(old(ctx.Now()), inside, token, ctx.Now(), Defines(s));
  }

  /** The body of `TransformScan`: dispatch, alias, validate, register. */
  method TransformInScope(s: Scan, token: nat, ctx: TransformContext, ghost names: Names, ghost sig: Signature)
    returns (r: Result<FromItem>, ghost list: seq<string>)
    requires WellFormed(s, names, sig) && ctx.Ready(names, sig)
    requires ctx.fragment.scopes != [] && ctx.fragment.scopes[|ctx.fragment.scopes| - 1] == token == ctx.fragment.count
    requires token > 0
    modifies ctx, ctx.fragment
    ensures ctx.After(old(ctx.Now()), names, sig, Defines(s))
    ensures r.Ok? <==> Compilable(s)
    ensures ScanBuilt(r, list, s, names, sig, token - 1, ctx.fragment.count)
    ensures r.Ok? ==> ctx.fragment.Knows(s.cols)
    decreases s, 2
  {
    hide Built, ScanBuilt, InputsCompilable, WellFormed, Defines;
    ColumnsNamed(s, names, sig);
    var built;
    built, list := TransformNode(s, ctx, names, sig);
    r := NameAndRegister(s, built, token, ctx.fragment, list, names, sig);
  }

  /** What follows the dispatch: alias, validation and registration; an error is passed on. */
  method NameAndRegister(
    s: Scan, built: Result<FromItem>, token: nat, fc: FragmentContext, ghost list: seq<string>,
    ghost names: Names, ghost sig: Signature)
    returns (r: Result<FromItem>)
    requires s.cols != [] && DistinctIds(s.cols) && Named(s.cols, names) && fc.Resolves(names)
    requires fc.scopes != [] && fc.scopes[|fc.scopes| - 1] == token && 0 < token <= fc.count
    requires Built(built, list, s, names, sig, token, fc.count)
    modifies fc
    ensures fc.scopes == old(fc.scopes) && fc.count == old(fc.count)
    ensures fc.Resolves(names) && forall id :: id in old(fc.columnIDToScope) ==> id in fc.columnIDToScope
    ensures r.Ok? <==> built.Ok? && Width(s) == |s.cols|
    ensures ScanBuilt(r, list, s, names, sig, token - 1, fc.count)
    ensures r.Ok? ==> fc.Knows(s.cols)
  {
    hide BuiltFrom, Produces, Lists, Fresh, Minted, SelectAliases, FromAliases;
    if built.Err? {
      return built;
    }
    var alias := Kind(s) + "_" + fc.GetID();
    var item := SubqueryItem(built.value.query, alias);
    var ok := Validated(s, built.value, item, list, token, fc.count, names, sig);
    if !ok {
      return Err("column validation failed");
    }
    Register(fc, alias, s.cols, names);
    return Ok(item);
  }

  lemma ColumnsNamed(s: Scan, names: Names, sig: Signature)
    requires WellFormed(s, names, sig)
    ensures s.cols != [] && DistinctIds(s.cols) && Named(s.cols, names)
  {
  }

  method Validated(
    s: Scan, built: FromItem, item: FromItem, ghost list: seq<string>, token: nat,
    ghost hi: nat, ghost names: Names, ghost sig: Signature)
    returns (ok: bool)
    requires built.SubqueryItem? && item == SubqueryItem(built.query, ScopedAlias(Kind(s), token)) && 0 < token <= hi
    requires s.cols != [] && DistinctIds(s.cols)
    requires Built(Ok(built), list, s, names, sig, token, hi)
    ensures ok <==> Width(s) == |s.cols|
    ensures ok ==> ScanBuilt(Ok(item), list, s, names, sig, token - 1, hi)
  {
    hide BuiltFrom;
    ok := ValidateColumnData(item.query, s.cols);
    AcceptedIffLists(list, s.cols);
    FreshOwn(Kind(s), token, SelectAliases(item.query), hi);
    KindNotInner(s, token);
  }

  /** Makes a scan's output columns available, under their ID-based names, in the flat maps. */
  method Register(fc: FragmentContext, alias: string, cols: seq<Col>, ghost names: Names)
    requires Named(cols, names) && fc.Resolves(names)
    modifies fc
    ensures fc.Resolves(names) && fc.Knows(cols)
    ensures fc.scopes == old(fc.scopes) && fc.count == old(fc.count)
    ensures forall id :: id in old(fc.columnIDToScope) ==> id in fc.columnIDToScope
    ensures forall id :: id in fc.columnIDToScope ==> id in old(fc.columnIDToScope) || Ids(cols, id)
  {
    for i := 0 to |cols|
      invariant fc.scopes == old(fc.scopes) && fc.count == old(fc.count)
      invariant fc.columnIDToScope == old(fc.columnIDToScope)
      invariant forall id :: id in old(fc.availableColumns) ==> id in fc.availableColumns
      invariant forall id :: !Ids(cols, id) && id in old(fc.availableColumns) ==>
        fc.availableColumns[id] == old(fc.availableColumns)[id]
    {
      assert cols[i] in cols;
      fc.AddAvailableColumn(cols[i].id, ColumnInfo(cols[i].name, cols[i].id));
    }
    AliasInfosNames(fc.availableColumns, cols, names);
    ScopeAliasesKeys(fc.columnIDToScope, alias, cols);
    fc.RegisterColumnScopeMapping(alias, cols);
  }

  lemma KindNotInner(s: Scan, id: nat)
    ensures ScopedAlias(Kind(s), id) != SET_OP_INNER
  {
    var a := ScopedAlias(Kind(s), id);
    assert IsDigit(a[|a| - 1]) by {
      assert a[|a| - 1] == Digits(id)[|Digits(id)| - 1];
    }
    assert SET_OP_INNER[|SET_OP_INNER| - 1] == 'r';
  }

  method TransformNode(s: Scan, ctx: TransformContext, ghost names: Names, ghost sig: Signature)
    returns (r: Result<FromItem>, ghost list: seq<string>)
    requires WellFormed(s, names, sig) && ctx.Ready(names, sig)
    modifies ctx, ctx.fragment
    ensures ctx.After(old(ctx.Now()), names, sig, Defines(s))
    ensures r.Ok? <==> InputsCompilable(s)
    ensures Built(r, list, s, names, sig, old(ctx.fragment.count), ctx.fragment.count)
    decreases s, 1
  {
    match s
    case TableScan(_, _, _) => r, list := TransformTable(s, ctx, names, sig);
    case FilterScan(_, _, _) => r, list := TransformFilter(s, ctx, names, sig);
    case ProjectScan(_, _, _) => r, list := TransformProject(s, ctx, names, sig);
    case JoinScan(_, _, _, _, _) => r, list := TransformJoin(s, ctx, names, sig);
    case LimitScan(_, _, _, _) => r, list := TransformLimit(s, ctx, names, sig);
    case SetOpScan(_, _, _, _) => r, list := TransformSetOp(s, ctx, names, sig);
    case WithScan(_, _, _, _) => r, list := TransformWith(s, ctx, names, sig);
    case WithRefScan(_, _) => r, list := TransformWithRef(s, ctx, names, sig);
  }

  /**
   A statement compiled from a new context: it compiles exactly when conditionals are called properly and
   pass-through scans list all of their input, and then it returns the query's rows in every world whose
   functions agree with the operators that replace them.
   */
  method CompileStatement(q: Query, ghost names: Names) returns (r: Result<Select>)
    requires WellFormedQuery(q, |q.outs|, names, map[])
    ensures r.Ok? <==> QueryCompilable(q)
    ensures r.Ok? ==> DistinctStrings(SelectAliases(r.value))
    ensures r.Ok? ==> forall w: World :: OperatorsAgree(w) ==> ReturnsRowsOf(r.value, q, w)
  {
    var ctx := new TransformContext();
    r := TransformStatement(q, |q.outs|, ctx, names, map[]);
    if r.Ok? {
      AnswersEverywhere(r.value, q);
    }
  }

  ghost predicate ReturnsRowsOf(sel: Select, q: Query, w: World) {
    EvalSelect(sel, w) == Rel(OutAliases(q.outs), QueryRows(q, w, map[]))
  }

  lemma AnswersEverywhere(sel: Select, q: Query)
    requires Answers(sel, q, map[])
    ensures forall w: World :: OperatorsAgree(w) ==> ReturnsRowsOf(sel, q, w)
  {
    hide OperatorsAgree, QueryRows, EvalSelect;
    forall w: World | OperatorsAgree(w)
      ensures ReturnsRowsOf(sel, q, w)
    {
      assert SameOperators(w, w);
      assert InStep(w, map[], w, map[]);
      assert ColumnsIn(sel, OutAliases(q.outs), w) && TuplesIn(sel, q, w, map[], w);
    }
  }

  // ----- the scan transformers -----

  method TransformTable(s: Scan, ctx: TransformContext, ghost names: Names, ghost sig: Signature)
    returns (r: Result<FromItem>, ghost list: seq<string>)
    requires s.TableScan? && WellFormed(s, names, sig) && ctx.Ready(names, sig)
    modifies ctx, ctx.fragment
    ensures ctx.After(old(ctx.Now()), names, sig, Defines(s))
    ensures r.Ok? <==> InputsCompilable(s)
    ensures Built(r, list, s, names, sig, old(ctx.fragment.count), ctx.fragment.count)
    decreases s, 0
  {
    var items := [];
    for i := 0 to |s.cols|
      invariant |items| == i && forall k :: 0 <= k < i ==> items[k] == TableItems(s.cols)[k]
    {
      items := items + [Item(Column("", s.cols[i].name), Alias(s.cols[i]), false)];
    }
    assert items == TableItems(s.cols);
    TableTransformed(s, names, sig, ctx.fragment.count);
    list := Aliases(s.cols);
    r := Ok(SubqueryItem(EMPTY_SELECT.(items := items, from := Some(TableItem(s.table, s.alias))), s.alias));
  }

  lemma TableTransformed(s: Scan, names: Names, sig: Signature, at: nat)
    requires s.TableScan? && WellFormed(s, names, sig)
    ensures
      var q := TableSelect(s.cols, s.table, s.alias);
      Built(Ok(SubqueryItem(q, s.alias)), Aliases(s.cols), s, names, sig, at, at)
  {
    TableProduces(s, names, sig);
    TableBuilt(s, names, sig);
  }

  method TransformFilter(s: Scan, ctx: TransformContext, ghost names: Names, ghost sig: Signature)
    returns (r: Result<FromItem>, ghost list: seq<string>)
    requires s.FilterScan? && WellFormed(s, names, sig) && ctx.Ready(names, sig)
    modifies ctx, ctx.fragment
    ensures ctx.After(old(ctx.Now()), names, sig, Defines(s))
    ensures r.Ok? <==> InputsCompilable(s)
    ensures Built(r, list, s, names, sig, old(ctx.fragment.count), ctx.fragment.count)
    decreases s, 0
  {
    hide BuiltFrom, Produces, Lists, Fresh, Minted, FromAliases, SelectAliases, Compilable;
    r, list := TransformScan(s.input, ctx, names, sig);
    if r.Err? {
      return;
    }
    var inner := r.value;
    var cond := TransformExpression(s.cond, ctx.fragment, s.input.cols, names);
    if cond.Err? {
      r := Err(cond.error);
      return;
    }
    FilterTransformed(s, inner, list, names, sig, old(ctx.fragment.count), ctx.fragment.count);
    r := Ok(SubqueryItem(SelectStar(inner).(where := Some(cond.value)), ""));
  }

  lemma FilterTransformed(
    s: Scan, inner: FromItem, list: seq<string>, names: Names, sig: Signature, lo: nat, hi: nat)
    requires s.FilterScan? && WellFormed(s, names, sig) && ScanBuilt(Ok(inner), list, s.input, names, sig, lo, hi)
    ensures
      var q := SelectStar(inner).(where := Some(ToSql(s.cond, names)));
      Built(Ok(SubqueryItem(q, "")), list, s, names, sig, lo, hi)
  {
    FilterProduces(s, inner.query, list, inner.alias, names, sig);
    FilterBuilt(s, inner.query, inner.alias, names, sig);
  }

  method TransformProject(s: Scan, ctx: TransformContext, ghost names: Names, ghost sig: Signature)
    returns (r: Result<FromItem>, ghost list: seq<string>)
    requires s.ProjectScan? && WellFormed(s, names, sig) && ctx.Ready(names, sig)
    modifies ctx, ctx.fragment
    ensures ctx.After(old(ctx.Now()), names, sig, Defines(s))
    ensures r.Ok? <==> InputsCompilable(s)
    ensures Built(r, list, s, names, sig, old(ctx.fragment.count), ctx.fragment.count)
    decreases s, 0
  {
    hide BuiltFrom, Produces, Lists, Fresh, Minted, FromAliases, SelectAliases, Compilable;
    r, list := TransformScan(s.input, ctx, names, sig);
    if r.Err? {
      return;
    }
    var inner := r.value;
    var items := TransformComputed(s, ctx.fragment, names, sig);
    if items.Err? {
      r := Err(items.error);
      return;
    }
    ProjectTransformed(s, inner, list, names, sig, old(ctx.fragment.count), ctx.fragment.count);
    list := Aliases(s.cols);
    r := Ok(SubqueryItem(EMPTY_SELECT.(items := items.value, from := Some(inner)), ""));
  }

  lemma ProjectTransformed(
    s: Scan, inner: FromItem, list: seq<string>, names: Names, sig: Signature, lo: nat, hi: nat)
    requires s.ProjectScan? && WellFormed(s, names, sig) && ScanBuilt(Ok(inner), list, s.input, names, sig, lo, hi)
    ensures
      var q := EMPTY_SELECT.(items := ProjectItems(s.cols, s.computed, names), from := Some(inner));
      Built(Ok(SubqueryItem(q, "")), Aliases(s.cols), s, names, sig, lo, hi)
  {
    ProjectProduces(s, inner.query, list, inner.alias, names, sig);
    ProjectBuilt(s, inner.query, inner.alias, names, sig);
  }

  /** Looks each output column up among the computed ones, or passes it through. */
  method TransformComputed(s: Scan, fc: FragmentContext, ghost names: Names, ghost sig: Signature)
    returns (r: Result<seq<Item>>)
    requires s.ProjectScan? && WellFormed(s, names, sig) && fc.Resolves(names) && fc.Knows(s.input.cols)
    ensures r.Ok? <==> forall i :: 0 <= i < |s.cols| ==>
      ComputedFor(s.computed, s.cols[i].id).Some? ==> WellCalled(ComputedFor(s.computed, s.cols[i].id).value)
    ensures r.Ok? ==> r.value == ProjectItems(s.cols, s.computed, names)
  {
    var exprs: map<nat, ScanExpr> := map[];
    for i := 0 to |s.computed|
      invariant forall id: nat :: id in exprs <==> ComputedFor(s.computed[..i], id).Some?
      invariant forall id: nat :: id in exprs ==> ComputedFor(s.computed[..i], id) == Some(exprs[id])
    {
      assert s.computed[..i + 1][..i] == s.computed[..i];
      exprs := exprs[s.computed[i].id := s.computed[i].expr];
    }
    assert s.computed[..|s.computed|] == s.computed;
    var items := [];
    for i := 0 to |s.cols|
      modifies {}
      invariant |items| == i && forall k :: 0 <= k < i ==> items[k] == ProjectItems(s.cols, s.computed, names)[k]
      invariant forall k :: 0 <= k < i && ComputedFor(s.computed, s.cols[k].id).Some? ==>
        WellCalled(ComputedFor(s.computed, s.cols[k].id).value)
    {
      var c := s.cols[i];
      assert c in s.cols;
      var e := if c.id in exprs then exprs[c.id] else ColumnRef(c.id, OtherType);
      var x := TransformExpression(e, fc, s.input.cols, names);
      if x.Err? {
        return Err(x.error);
      }
      items := items + [Item(x.value, Alias(c), false)];
    }
    assert items == ProjectItems(s.cols, s.computed, names);
    return Ok(items);
  }

  method TransformJoin(s: Scan, ctx: TransformContext, ghost names: Names, ghost sig: Signature)
    returns (r: Result<FromItem>, ghost list: seq<string>)
    requires s.JoinScan? && WellFormed(s, names, sig) && ctx.Ready(names, sig)
    modifies ctx, ctx.fragment
    ensures ctx.After(old(ctx.Now()), names, sig, Defines(s))
    ensures r.Ok? <==> InputsCompilable(s)
    ensures Built(r, list, s, names, sig, old(ctx.fragment.count), ctx.fragment.count)
    decreases s, 0
  {
    hide BuiltFrom, Produces, Lists, Fresh, Minted, FromAliases, SelectAliases, Compilable;
    ghost var lo := ctx.fragment.count;
    r, list := TransformScan(s.left, ctx, names, sig);
    if r.Err? {
      return;
    }
    var left, leftList := r.value, list;
    ghost var mid := ctx.fragment.count;
    r, list := TransformScan(s.right, ctx, names, sig);
    if r.Err? {
      return;
    }
    var right := r.value;
    var cond: Option<Expr> := None;
    if s.on.Some? {
      var x := TransformExpression(s.on.value, ctx.fragment, s.left.cols + s.right.cols, names);
      if x.Err? {
        r := Err(x.error);
        return;
      }
      cond := Some(x.value);
    }
    JoinTransformed(s, left, leftList, right, list, cond, names, sig, lo, mid, ctx.fragment.count);
    list := leftList + list;
    r := Ok(SubqueryItem(
      EMPTY_SELECT.(items := [Item(Star(""), "", false)], from := Some(JoinItem(s.kind, left, right, cond, ""))), ""));
  }

  lemma JoinTransformed(
    s: Scan, left: FromItem, leftList: seq<string>, right: FromItem, list: seq<string>, cond: Option<Expr>,
    names: Names, sig: Signature, lo: nat, mid: nat, hi: nat)
    requires s.JoinScan? && WellFormed(s, names, sig) && left.SubqueryItem? && right.SubqueryItem? && lo <= mid <= hi
    requires ScanBuilt(Ok(left), leftList, s.left, names, sig, lo, mid)
    requires ScanBuilt(Ok(right), list, s.right, names, sig, mid, hi)
    requires cond == OnToSql(s.on, names)
    ensures
      var q := SelectStar(JoinItem(s.kind, left, right, cond, ""));
      Built(Ok(SubqueryItem(q, "")), leftList + list, s, names, sig, lo, hi)
  {
    hide BuiltFrom, Produces, WellFormed, Lists, Fresh, SelectTables;
    ListedAsMany(leftList, s.left.cols);
    ListedAsMany(list, s.right.cols);
    FreshAppend(FromAliases(left), FromAliases(right), lo, mid, hi);
    JoinProduces(s, left.query, leftList, left.alias, right.query, list, right.alias, names, sig);
    MintedApart(left.alias, right.alias, lo, mid, hi);
    JoinBuilt(s, left.query, left.alias, right.query, right.alias, names, sig);
    var q := SelectStar(JoinItem(s.kind, left, right, cond, ""));
    assert SelectAliases(q) == FromAliases(left) + FromAliases(right);
    TablesOfLayer(q);
  }

  method TransformLimit(s: Scan, ctx: TransformContext, ghost names: Names, ghost sig: Signature)
    returns (r: Result<FromItem>, ghost list: seq<string>)
    requires s.LimitScan? && WellFormed(s, names, sig) && ctx.Ready(names, sig)
    modifies ctx, ctx.fragment
    ensures ctx.After(old(ctx.Now()), names, sig, Defines(s))
    ensures r.Ok? <==> InputsCompilable(s)
    ensures Built(r, list, s, names, sig, old(ctx.fragment.count), ctx.fragment.count)
    decreases s, 0
  {
    hide BuiltFrom, Produces, Lists, Fresh, Minted, FromAliases, SelectAliases, Compilable;
    r, list := TransformScan(s.input, ctx, names, sig);
    if r.Err? {
      return;
    }
    var inner := r.value;
    var count := TransformExpression(s.count, ctx.fragment, [], names);
    if count.Err? {
      r := Err(count.error);
      return;
    }
    var limit := Limit(count.value, None);
    if s.offset.Some? {
      var offset := TransformExpression(s.offset.value, ctx.fragment, [], names);
      if offset.Err? {
        r := Err(offset.error);
        return;
      }
      limit := limit.(offset := Some(offset.value));
    }
    LimitTransformed(s, inner, list, names, sig, old(ctx.fragment.count), ctx.fragment.count);
    r := Ok(SubqueryItem(SelectStar(inner).(limit := Some(limit)), ""));
  }

  lemma LimitTransformed(
    s: Scan, inner: FromItem, list: seq<string>, names: Names, sig: Signature, lo: nat, hi: nat)
    requires s.LimitScan? && WellFormed(s, names, sig) && ScanBuilt(Ok(inner), list, s.input, names, sig, lo, hi)
    ensures
      var q := SelectStar(inner).(limit := Some(LimitToSql(s.count, s.offset, names)));
      Built(Ok(SubqueryItem(q, "")), list, s, names, sig, lo, hi)
  {
    LimitProduces(s, inner.query, list, inner.alias, names, sig);
    LimitBuilt(s, inner.query, inner.alias, names, sig);
  }

  method TransformSetOp(s: Scan, ctx: TransformContext, ghost names: Names, ghost sig: Signature)
    returns (r: Result<FromItem>, ghost list: seq<string>)
    requires s.SetOpScan? && WellFormed(s, names, sig) && ctx.Ready(names, sig)
    modifies ctx, ctx.fragment
    ensures ctx.After(old(ctx.Now()), names, sig, Defines(s))
    ensures r.Ok? <==> InputsCompilable(s)
    ensures Built(r, list, s, names, sig, old(ctx.fragment.count), ctx.fragment.count)
    decreases s, 0
  {
    hide Fresh, BuiltFrom;
    list := Aliases(s.cols);
    var sels := TransformQueries(s, ctx, names, sig);
    if sels.Err? {
      r := Err(sels.error);
      return;
    }
    SetOpProduces(s, sels.value, names, sig);
    SetOpBuilt(s, sels.value, names, sig);
    assert Answers(sels.value[0], s.items[0], sig);
    var outer := BuildSetOp(s, sels.value);
    r := Ok(SubqueryItem(outer, "set_op_scan_outer"));
  }

  method TransformQueries(s: Scan, ctx: TransformContext, ghost names: Names, ghost sig: Signature)
    returns (r: Result<seq<Select>>)
    requires s.SetOpScan? && WellFormedQueries(s.items, |s.cols|, names, sig) && ctx.Ready(names, sig)
    modifies ctx, ctx.fragment
    ensures ctx.After(old(ctx.Now()), names, sig, Defines(s))
    ensures r.Ok? <==> InputsCompilable(s)
    ensures r.Ok? ==> AllAnswer(r.value, s.items, sig) && UnionTables(r.value) <= Mentions(s)
    ensures r.Ok? ==> Fresh(UnionAliases(r.value), old(ctx.fragment.count), ctx.fragment.count)
    decreases s.items, 2
  {
    hide Answers, QueryCompilable, WellFormedQuery, SelectAliases, QueryBuilt, QueryDefines;
    ghost var lo := ctx.fragment.count;
    var sels: seq<Select> := [];
    for i := 0 to |s.items|
      invariant ctx.After(old(ctx.Now()), names, sig, Defines(s)) && lo <= ctx.fragment.count
      invariant |sels| == i
      invariant forall k :: 0 <= k < i ==> QueryCompilable(s.items[k])
      invariant forall k :: 0 <= k < i ==> Answers(sels[k], s.items[k], sig)
      invariant forall k :: 0 <= k < i ==> SelectTables(sels[k]) <= QueryMentions(s.items[k])
      invariant Fresh(UnionAliases(sels), lo, ctx.fragment.count)
    {
      assert WellFormedQuery(s.items[i], |s.cols|, names, sig);
      ghost var mid := ctx.fragment.count;
      var sel := TransformStatement(s.items[i], |s.cols|, ctx, names, sig);
      if sel.Err? {
        return Err(sel.error);
      }
      UnionAliasesSnoc(sels, sel.value);
      FreshAppend(UnionAliases(sels), SelectAliases(sel.value), lo, mid, ctx.fragment.count);
      sels := sels + [sel.value];
    }
    UnionReads(sels, s);
    return Ok(sels);
  }

  lemma UnionReads(sels: seq<Select>, s: Scan)
    requires s.SetOpScan? && |sels| == |s.items|
    requires forall k :: 0 <= k < |sels| ==> SelectTables(sels[k]) <= QueryMentions(s.items[k])
    ensures UnionTables(sels) <= Mentions(s)
  {
    hide SelectTables, QueryMentions;
    forall n | n in UnionTables(sels)
      ensures n in Mentions(s)
    {
      var k :| 0 <= k < |sels| && n in SelectTables(sels[k]);
      assert n in QueryMentions(s.items[k]);
    }
  }

  /** Moves the items' WITH clauses up, and renames the first item's columns by position. */
  method BuildSetOp(s: Scan, sels: seq<Select>) returns (outer: Select)
    requires s.SetOpScan? && sels != [] && |sels[0].items| == |s.cols|
    requires forall i :: 0 <= i < |sels| ==> sels[i].withs == []
    ensures outer == SetOpSelect(s.cols, s.op, s.modifier, ItemAliases(sels[0].items), sels)
    ensures SelectAliases(outer) == UnionAliases(sels)
  {
    var union := EMPTY_SELECT.(setOp := Some(SetOp(s.op, s.modifier, sels)));
    for i := 0 to |sels|
      invariant union == EMPTY_SELECT.(setOp := Some(SetOp(s.op, s.modifier, sels)))
    {
      union := union.(withs := union.withs + sels[i].withs);
    }
    ghost var first := ItemAliases(sels[0].items);
    var items := [];
    for i := 0 to |s.cols|
      invariant |items| == i && forall k :: 0 <= k < i ==> items[k] == RenameItems(first, s.cols)[k]
    {
      items := items + [Item(Column("", sels[0].items[i].alias), Alias(s.cols[i]), false)];
    }
    assert items == RenameItems(first, s.cols);
    outer := EMPTY_SELECT.(items := items, from := Some(SubqueryItem(union, SET_OP_INNER)));
    assert SelectAliases(union) == UnionAliases(sels);
    assert SelectAliases(outer) == FromAliases(outer.from.value);
  }

  method TransformStatement(q: Query, ghost width: nat, ctx: TransformContext, ghost names: Names, ghost sig: Signature)
    returns (r: Result<Select>)
    requires WellFormedQuery(q, width, names, sig) && ctx.Ready(names, sig)
    modifies ctx, ctx.fragment
    ensures ctx.After(old(ctx.Now()), names, sig, QueryDefines(q))
    ensures r.Ok? <==> QueryCompilable(q)
    ensures StatementBuilt(r, q, names, sig, old(ctx.fragment.count), ctx.fragment.count)
    decreases q, 1
  {
    hide Unwound, StatementBuilt, QueryCompilable, WellFormedQuery, Since, QueryDefines;
    var token := ctx.fragment.EnterScope();
    r := TransformQueryStmt(q, width, ctx, names, sig);
    ghost var inside := ctx.Now();
    ctx.fragment.ExitScope(token);
    ScopeLeft(old(ctx.Now()), inside, token, ctx.Now(), QueryDefines(q));
    StatementBuiltWiden(r, q, names, sig, token, ctx.fragment.count);
  }

  lemma StatementBuiltWiden(r: Result<Select>, q: Query, names: Names, sig: Signature, token: nat, hi: nat)
    requires 0 < token && StatementBuilt(r, q, names, sig, token, hi)
    ensures StatementBuilt(r, q, names, sig, token - 1, hi)
  {
    if r.Ok? {
      FreshWiden(SelectAliases(r.value), token, hi, token - 1, hi);
    }
  }

  method TransformQueryStmt(q: Query, ghost width: nat, ctx: TransformContext, ghost names: Names, ghost sig: Signature)
    returns (r: Result<Select>)
    requires WellFormedQuery(q, width, names, sig) && ctx.Ready(names, sig)
    modifies ctx, ctx.fragment
    ensures ctx.After(old(ctx.Now()), names, sig, QueryDefines(q))
    ensures r.Ok? <==> QueryCompilable(q)
    ensures StatementBuilt(r, q, names, sig, old(ctx.fragment.count), ctx.fragment.count)
    decreases q, 0
  {
    hide BuiltFrom, Produces, Lists, Fresh, Minted, FromAliases, SelectAliases, Answers, QueryBuilt, Compilable;
    var from, list := TransformScan(q.source, ctx, names, sig);
    if from.Err? {
      return Err(from.error);
    }
    var items := [];
    for i := 0 to |q.outs|
      modifies {}
      invariant |items| == i && forall k :: 0 <= k < i ==> items[k] == OutItems(q.outs, names)[k]
      invariant forall k :: 0 <= k < i ==> WellCalled(q.outs[k].expr)
    {
      var x := TransformExpression(q.outs[i].expr, ctx.fragment, q.source.cols, names);
      if x.Err? {
        return Err(x.error);
      }
      items := items + [Item(x.value, q.outs[i].alias, false)];
    }
    assert items == OutItems(q.outs, names);
    QueryTransformed(q, width, from.value, list, names, sig, old(ctx.fragment.count), ctx.fragment.count);
    r := Ok(EMPTY_SELECT.(items := items, from := Some(from.value)));
  }

  lemma QueryTransformed(
    q: Query, width: nat, from: FromItem, list: seq<string>, names: Names, sig: Signature, lo: nat, hi: nat)
    requires WellFormedQuery(q, width, names, sig) && ScanBuilt(Ok(from), list, q.source, names, sig, lo, hi)
    ensures
      var sel := EMPTY_SELECT.(items := OutItems(q.outs, names), from := Some(from));
      StatementBuilt(Ok(sel), q, names, sig, lo, hi)
  {
    QueryAnswers(q, width, from.query, list, from.alias, names, sig);
    var sel := EMPTY_SELECT.(items := OutItems(q.outs, names), from := Some(from));
    assert SelectAliases(sel) == FromAliases(from);
    TablesOfLayer(sel);
  }

  method TransformWith(s: Scan, ctx: TransformContext, ghost names: Names, ghost sig: Signature)
    returns (r: Result<FromItem>, ghost list: seq<string>)
    requires s.WithScan? && WellFormed(s, names, sig) && ctx.Ready(names, sig)
    modifies ctx, ctx.fragment
    ensures ctx.After(old(ctx.Now()), names, sig, Defines(s))
    ensures r.Ok? <==> InputsCompilable(s)
    ensures Built(r, list, s, names, sig, old(ctx.fragment.count), ctx.fragment.count)
    decreases s, 0
  {
    hide BuiltFrom, Produces, Lists, Fresh, Minted, FromAliases, SelectAliases, Compilable;
    hide ScanBuilt, Built, EntriesDone;
    ghost var lo := ctx.fragment.count;
    list := [];
    var clauses := TransformEntries(s, ctx, names, sig);
    if clauses.Err? {
      r := Err(clauses.error);
      NothingBuilt(clauses.error, list, s, names, sig, lo, ctx.fragment.count);
      return;
    }
    ghost var mid := ctx.fragment.count;
    ExtendKeeps(sig, s.entries, |s.entries|, names);
    assert s.entries[..|s.entries|] == s.entries;
    r, list := TransformScan(s.query, ctx, names, Extend(sig, s.entries));
    if r.Err? {
      NothingBuilt(r.error, list, s, names, sig, lo, ctx.fragment.count);
      return;
    }
    var inner := r.value;
    WithBuilt(s, clauses.value, inner, list, names, sig, lo, mid, ctx.fragment.count);
    r := Ok(SubqueryItem(SelectStar(inner).(withs := clauses.value), ""));
  }

  lemma NothingBuilt(e: string, list: seq<string>, s: Scan, names: Names, sig: Signature, lo: nat, hi: nat)
    ensures Built(Err(e), list, s, names, sig, lo, hi)
  {
  }

  lemma WithBuilt(
    s: Scan, clauses: seq<WithClause>, inner: FromItem, list: seq<string>, names: Names, sig: Signature,
    lo: nat, mid: nat, hi: nat)
    requires s.WithScan? && WellFormed(s, names, sig) && lo <= mid <= hi
    requires EntriesDone(clauses, s, |s.entries|, sig, lo, mid)
    requires ScanBuilt(Ok(inner), list, s.query, names, Extend(sig, s.entries), mid, hi)
    ensures Built(Ok(SubqueryItem(SelectStar(inner).(withs := clauses), "")), list, s, names, sig, lo, hi)
  {
    hide BuiltFrom, Produces, WellFormed, ClausesCompiled, ClausesRead, Lists, SelectTables, Mentions;
    assert s.entries[..|s.entries|] == s.entries;
    WithParts(s, names, sig);
    FreshAppend(WithAliases(clauses), FromAliases(inner), lo, mid, hi);
    ClausesInOrder(clauses, s.entries, names, sig);
    WithProduces(s, clauses, inner.query, list, inner.alias, names, sig);
    WithLayerBuilt(s, clauses, inner.query, inner.alias, names, sig);
    var q := SelectStar(inner).(withs := clauses);
    assert SelectAliases(q) == WithAliases(clauses) + FromAliases(inner);
    ListedAsMany(list, s.query.cols);
  }

  lemma WithParts(s: Scan, names: Names, sig: Signature)
    requires s.WithScan? && WellFormed(s, names, sig)
    ensures WellFormedEntries(s.entries, names, sig)
  {
  }

  lemma ListedAsMany(list: seq<string>, cols: seq<Col>)
    requires Lists(list, cols)
    ensures |list| == |cols|
  {
  }

  /** The WITH entries in scope before the i-th. */
  function ScopeAt(s: Scan, i: nat, sig: Signature): Signature
    requires s.WithScan? && i <= |s.entries|
  {
    Extend(sig, s.entries[..i])
  }

  ghost predicate EntriesDone(clauses: seq<WithClause>, s: Scan, i: nat, sig: Signature, lo: nat, hi: nat)
    requires s.WithScan? && i <= |s.entries|
  {
    && ClausesCompiled(clauses, s.entries[..i], sig) && ClausesRead(clauses, s.entries[..i])
    && Fresh(WithAliases(clauses), lo, hi)
    && (forall c :: c in clauses ==> c.recursive == s.recursive)
    && forall k :: 0 <= k < i ==> Compilable(s.entries[k].sub)
  }

  method TransformEntries(s: Scan, ctx: TransformContext, ghost names: Names, ghost sig: Signature)
    returns (r: Result<seq<WithClause>>)
    requires s.WithScan? && WellFormedEntries(s.entries, names, sig) && ctx.Ready(names, sig)
    modifies ctx, ctx.fragment
    ensures ctx.After(old(ctx.Now()), names, sig, Defines(s))
    ensures r.Err? ==> exists i :: 0 <= i < |s.entries| && !Compilable(s.entries[i].sub)
    ensures r.Ok? ==>
      && ctx.After(old(ctx.Now()), names, ScopeAt(s, |s.entries|, sig), Defines(s))
      && EntriesDone(r.value, s, |s.entries|, sig, old(ctx.fragment.count), ctx.fragment.count)
    decreases s.entries, 2
  {
    var clauses: seq<WithClause> := [];
    for i := 0 to |s.entries|
      invariant ctx.After(old(ctx.Now()), names, sig, Defines(s))
      invariant ctx.After(old(ctx.Now()), names, ScopeAt(s, i, sig), Defines(s))
      invariant EntriesDone(clauses, s, i, sig, old(ctx.fragment.count), ctx.fragment.count)
    {
      var next := AddEntry(s, i, clauses, ctx, names, sig, old(ctx.Now()));
      if next.Err? {
        return next;
      }
      clauses := next.value;
    }
    return Ok(clauses);
  }

  method AddEntry(s: Scan, i: nat, clauses: seq<WithClause>, ctx: TransformContext,
                  ghost names: Names, ghost sig: Signature, ghost start: Snapshot)
    returns (r: Result<seq<WithClause>>)
    requires s.WithScan? && i < |s.entries| && WellFormedEntries(s.entries, names, sig)
    requires ctx.After(start, names, ScopeAt(s, i, sig), Defines(s))
    requires EntriesDone(clauses, s, i, sig, start.count, ctx.fragment.count)
    modifies ctx, ctx.fragment
    ensures ctx.After(start, names, sig, Defines(s))
    ensures r.Err? ==> !Compilable(s.entries[i].sub)
    ensures r.Ok? ==>
      && ctx.After(start, names, ScopeAt(s, i + 1, sig), Defines(s))
      && EntriesDone(r.value, s, i + 1, sig, start.count, ctx.fragment.count)
    decreases s.entries, 1
  {
    EntryReady(s, i, names, sig);
    ghost var before := ctx.Now();
    var clause := TransformMarked(s.entries[i], s.recursive, ctx, names, ScopeAt(s, i, sig));
    SinceTransitive(start, before, ctx.Now(), EntryDefines(s.entries[i]), Defines(s));
    if clause.Err? {
      return Err(clause.error);
    }
    EntryAdded(s, i, clauses, clause.value, sig, start.count, before.count, ctx.fragment.count);
    return Ok(clauses + [clause.value]);
  }

  /** One turn of the WITH loop: the recursive name is set around the entry, and the clause marked. */
  method TransformMarked(e: Entry, recursive: bool, ctx: TransformContext, ghost names: Names, ghost sig: Signature)
    returns (r: Result<WithClause>)
    requires e.name !in sig && e.name !in Defines(e.sub) && e.cols == e.sub.cols && WellFormed(e.sub, names, sig)
    requires ctx.Ready(names, sig)
    modifies ctx, ctx.fragment
    ensures ctx.After(old(ctx.Now()), names, sig, EntryDefines(e))
    ensures r.Ok? ==> ctx.After(old(ctx.Now()), names, sig[e.name := e.cols], EntryDefines(e))
    ensures r.Ok? <==> Compilable(e.sub)
    ensures EntryBuilt(r, e, recursive, sig, old(ctx.fragment.count), ctx.fragment.count)
    ensures r.Ok? && recursive ==> ctx.recursiveCTEName == ""
    decreases e, 2
  {
    if recursive {
      ctx.recursiveCTEName := e.name;
    }
    r := TransformWithEntry(e, ctx, names, sig);
    if r.Ok? && recursive {
      r := Ok(r.value.(recursive := true));
      ctx.recursiveCTEName := "";
    }
  }

  method TransformWithEntry(e: Entry, ctx: TransformContext, ghost names: Names, ghost sig: Signature)
    returns (r: Result<WithClause>)
    requires e.name !in sig && e.name !in Defines(e.sub) && e.cols == e.sub.cols && WellFormed(e.sub, names, sig)
    requires ctx.Ready(names, sig)
    modifies ctx, ctx.fragment
    ensures ctx.After(old(ctx.Now()), names, sig, EntryDefines(e))
    ensures r.Ok? ==> ctx.After(old(ctx.Now()), names, sig[e.name := e.cols], EntryDefines(e))
    ensures r.Ok? <==> Compilable(e.sub)
    ensures EntryBuilt(r, e, false, sig, old(ctx.fragment.count), ctx.fragment.count)
    decreases e, 1
  {
    hide Unwound, EntryBuilt, Compilable, WellFormed, Defines, EntryDefines, Since;
    var token := ctx.fragment.EnterScope();
    r := TransformEntryBody(e, ctx, names, sig);
    EntryBuiltWiden(r, e, sig, token, ctx.fragment.count);
    ghost var inside := ctx.Now();
    ctx.fragment.ExitScope(token);
    ScopeLeft(old(ctx.Now()), inside, token, ctx.Now(), EntryDefines(e));
  }

  method TransformEntryBody(e: Entry, ctx: TransformContext, ghost names: Names, ghost sig: Signature)
    returns (r: Result<WithClause>)
    requires e.name !in sig && e.name !in Defines(e.sub) && e.cols == e.sub.cols && WellFormed(e.sub, names, sig)
    requires ctx.Ready(names, sig)
    modifies ctx, ctx.fragment
    ensures ctx.After(old(ctx.Now()), names, sig, EntryDefines(e))
    ensures r.Ok? ==> ctx.After(old(ctx.Now()), names, sig[e.name := e.cols], EntryDefines(e))
    ensures r.Ok? <==> Compilable(e.sub)
    ensures EntryBuilt(r, e, false, sig, old(ctx.fragment.count), ctx.fragment.count)
    decreases e, 0
  {
    hide BuiltFrom, Minted, FromAliases, SelectAliases, Compiled, Produces, Lists, Fresh;
    hide Compilable, WellFormed, Defines;
    var isRecursive := ctx.recursiveCTEName == e.name;
    if isRecursive {
      ctx.AddWithEntryColumnMapping(e.name, e.cols);
    }
    var sub, list := TransformScan(e.sub, ctx, names, sig);
    if sub.Err? {
      return Err(sub.error);
    }
    if !isRecursive {
      ctx.AddWithEntryColumnMapping(e.name, e.cols);
    }
    var query := if isRecursive then sub.value.query else SelectStar(sub.value);
    EntryClause(e, sub.value, query, list, names, sig, old(ctx.fragment.count), ctx.fragment.count);
    r := Ok(WithClause(e.name, false, query));
  }

  lemma EntryBuiltWiden(r: Result<WithClause>, e: Entry, sig: Signature, token: nat, hi: nat)
    requires 0 < token && EntryBuilt(r, e, false, sig, token, hi)
    ensures EntryBuilt(r, e, false, sig, token - 1, hi)
  {
    if r.Ok? {
      FreshWiden(SelectAliases(r.value.query), token, hi, token - 1, hi);
    }
  }

  lemma EntryClause(
    e: Entry, item: FromItem, query: Select, list: seq<string>, names: Names, sig: Signature, lo: nat, hi: nat)
    requires ScanBuilt(Ok(item), list, e.sub, names, sig, lo, hi)
    requires query == item.query || query == SelectStar(item)
    ensures EntryBuilt(Ok(WithClause(e.name, false, query)), e, false, sig, lo, hi)
  {
    StarCompiled(item.query, item.alias, e.sub, sig);
    TablesOfLayer(SelectStar(item));
    EntryAliases(item, query, lo, hi);
  }

  /** What the WITH loop's i-th turn may rely on. */
  lemma EntryReady(s: Scan, i: nat, names: Names, sig: Signature)
    requires s.WithScan? && i < |s.entries| && WellFormedEntries(s.entries, names, sig)
    ensures
      var e, scope := s.entries[i], ScopeAt(s, i, sig);
      && e.name !in scope && e.name !in Defines(e.sub) && e.cols == e.sub.cols && WellFormed(e.sub, names, scope)
    ensures EntryDefines(s.entries[i]) <= Defines(s)
    ensures forall n :: n in sig ==> n in ScopeAt(s, i, sig) && ScopeAt(s, i, sig)[n] == sig[n]
  {
    EntriesSplit(s.entries, i, names, sig);
    assert s.entries[i..][0] == s.entries[i];
    DefinesEntry(s, i);
    ExtendKeeps(sig, s.entries, i, names);
  }

  lemma EntryAdded(
    s: Scan, i: nat, clauses: seq<WithClause>, clause: WithClause, sig: Signature, lo: nat, mid: nat, hi: nat)
    requires s.WithScan? && i < |s.entries| && lo <= mid <= hi && s.entries[i].cols == s.entries[i].sub.cols
    requires EntriesDone(clauses, s, i, sig, lo, mid)
    requires EntryBuilt(Ok(clause), s.entries[i], s.recursive, ScopeAt(s, i, sig), mid, hi)
    requires Compilable(s.entries[i].sub)
    ensures ScopeAt(s, i + 1, sig) == ScopeAt(s, i, sig)[s.entries[i].name := s.entries[i].cols]
    ensures EntriesDone(clauses + [clause], s, i + 1, sig, lo, hi)
  {
    ClausesSnoc(clauses, s.entries[..i], sig, clause, s.entries[i]);
    assert s.entries[..i + 1] == s.entries[..i] + [s.entries[i]];
    WithAliasesSnoc(clauses, clause);
    FreshAppend(WithAliases(clauses), SelectAliases(clause.query), lo, mid, hi);
  }

  lemma DefinesEntry(s: Scan, i: nat)
    requires s.WithScan? && i < |s.entries|
    ensures EntryDefines(s.entries[i]) <= Defines(s)
  {
  }

  lemma EntryAliases(item: FromItem, query: Select, lo: nat, hi: nat)
    requires item.SubqueryItem? && (query == item.query || query == SelectStar(item))
    requires Fresh(FromAliases(item), lo, hi)
    ensures Fresh(SelectAliases(query), lo, hi)
  {
    FreshTail(if item.alias == SET_OP_INNER then [] else [item.alias], SelectAliases(item.query), lo, hi);
    assert SelectAliases(SelectStar(item)) == FromAliases(item);
  }

  /** Entries never rename an outer entry, so a context ready for the longer scope is ready for the shorter. */
  lemma {:induction false} ExtendKeeps(sig: Signature, es: seq<Entry>, i: nat, names: Names)
    requires WellFormedEntries(es, names, sig) && i <= |es|
    ensures forall n :: n in sig ==> n in Extend(sig, es[..i]) && Extend(sig, es[..i])[n] == sig[n]
    decreases i
  {
    if i > 0 {
      ExtendKeeps(sig[es[0].name := es[0].cols], es[1..], i - 1, names);
      assert es[..i][1..] == es[1..][..i - 1];
    }
  }

  method TransformWithRef(s: Scan, ctx: TransformContext, ghost names: Names, ghost sig: Signature)
    returns (r: Result<FromItem>, ghost list: seq<string>)
    requires s.WithRefScan? && WellFormed(s, names, sig) && ctx.Ready(names, sig)
    modifies ctx, ctx.fragment
    ensures ctx.After(old(ctx.Now()), names, sig, Defines(s))
    ensures r.Ok? <==> InputsCompilable(s)
    ensures Built(r, list, s, names, sig, old(ctx.fragment.count), ctx.fragment.count)
    decreases s, 0
  {
    list := Aliases(s.cols);
    var table := "wrs" + ctx.fragment.GetID();
    if s.name !in ctx.withMappings {
      r := Err("no entry mapping found");
      return;
    }
    var mapping := ctx.withMappings[s.name];
    if |mapping| != |s.cols| {
      r := Err("incorrect number of columns found");
      return;
    }
    var items := [];
    for i := 0 to |s.cols|
      invariant |items| == i && forall k :: 0 <= k < i ==> items[k] == RefItems(mapping, table, s.cols)[k]
    {
      items := items + [Item(Column(table, mapping[i]), Alias(s.cols[i]), false)];
    }
    assert items == RefItems(mapping, table, s.cols);
    RefTransformed(s, table, names, sig, ctx.fragment.count);
    r := Ok(SubqueryItem(EMPTY_SELECT.(items := items, from := Some(TableItem(s.name, table))), ""));
  }

  lemma RefTransformed(s: Scan, table: string, names: Names, sig: Signature, at: nat)
    requires s.WithRefScan? && WellFormed(s, names, sig) && table != ""
    ensures
      var q := RefSelect(s.name, Aliases(sig[s.name]), table, s.cols);
      Built(Ok(SubqueryItem(q, "")), Aliases(s.cols), s, names, sig, at, at)
  {
    RefProduces(s, table, names, sig);
    RefBuilt(s, table, names, sig);
  }
}
