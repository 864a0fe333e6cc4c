/**
 Flattening of a recursive CTE's recursive term (internal/sqlbuilder_flatten.go), as functions on statements:
 a chain of subqueries is collapsed by substituting inner definitions into outer expressions, and
 pass-through subqueries under joins are replaced by what they select from.
 */
module Flattening {
  import opened Wrappers
  import opened SqlAst

  type AliasMap = map<string, Expr>

  /** `buildColumnAliasMap`: a later item replaces an earlier one of the same alias. */
  function ColumnAliases(items: seq<Item>): AliasMap {
    if items == [] then map[]
    else
      var n := |items| - 1;
      AddAlias(ColumnAliases(items[..n]), items[n], items[n].expr)
  }

  function AddAlias(m: AliasMap, item: Item, e: Expr): AliasMap {
    if item.alias == "" then m else m[item.alias := e]
  }

  // ----- substitution -----

  const MAX_DEPTH := 100

  /** `substituteColumnRefsWithDepth`; below the maximal depth an expression is returned as it is. */
  function SubstituteAt(e: Expr, m: AliasMap, alias: string, depth: nat): Expr
    decreases e
  {
    if depth > MAX_DEPTH then e
    else
      match e
      case Column(table, name) => if (table == alias || table == "") && name in m then m[name] else e
      case Function(fn, args) =>
        SqlAst.Function(fn, seq(|args|, i requires 0 <= i < |args| => SubstituteAt(args[i], m, alias, depth + 1)))
      case List(items) =>
        List(seq(|items|, i requires 0 <= i < |items| => SubstituteAt(items[i], m, alias, depth + 1)))
      case Unary(op, arg) => Unary(op, SubstituteAt(arg, m, alias, depth + 1))
      case Binary(left, op, right) =>
        Binary(SubstituteAt(left, m, alias, depth + 1), op, SubstituteAt(right, m, alias, depth + 1))
      case Case(operand, whens, els) =>
        Case(if operand.Some? then Some(SubstituteAt(operand.value, m, alias, depth + 1)) else None,
             SubstituteWhensAt(whens, m, alias, depth + 1),
             if els.Some? then Some(SubstituteAt(els.value, m, alias, depth + 1)) else None)
      case _ => e
  }

  function SubstituteWhensAt(whens: Whens, m: AliasMap, alias: string, depth: nat): Whens
    decreases whens
  {
    match whens
    case NoWhen => NoWhen
    case When(cond, result, rest) =>
      When(SubstituteAt(cond, m, alias, depth), SubstituteAt(result, m, alias, depth),
           SubstituteWhensAt(rest, m, alias, depth))
  }

  function SubstituteOptionAt(e: Option<Expr>, m: AliasMap, alias: string, depth: nat): Option<Expr> {
    if e.Some? then Some(SubstituteAt(e.value, m, alias, depth)) else None
  }

  function SubstituteOption(e: Option<Expr>, m: AliasMap, alias: string): Option<Expr> {
    SubstituteOptionAt(e, m, alias, 0)
  }

  function SubstituteItem(item: Item, m: AliasMap, alias: string): Item {
    item.(expr := SubstituteAt(item.expr, m, alias, 0))
  }

  function SubstituteItems(items: seq<Item>, m: AliasMap, alias: string): (r: seq<Item>)
    ensures |r| == |items| && forall i :: 0 <= i < |r| ==> r[i] == SubstituteItem(items[i], m, alias)
  {
    seq(|items|, i requires 0 <= i < |items| => SubstituteItem(items[i], m, alias))
  }

  // ----- chains of subqueries -----

  predicate CanFlatten(s: Select) {
    s.groupBy == [] && s.having.None? && s.orderBy == [] && s.limit.None? && s.setOp.None?
  }

  predicate Flattenable(f: FromItem) {
    f.SubqueryItem? && CanFlatten(f.query)
  }

  predicate HasFlattenable(s: Select) {
    s.from.Some? && Flattenable(s.from.value)
  }

  predicate Defined(ws: seq<WithClause>, name: string) {
    exists i :: 0 <= i < |ws| && ws[i].name == name
  }

  function WithoutNames(ws: seq<WithClause>, inner: seq<WithClause>): seq<WithClause> {
    if ws == [] then []
    else
      var n := |ws| - 1;
      WithoutNames(ws[..n], inner) + (if Defined(inner, ws[n].name) then [] else [ws[n]])
  }

  /** `mergeWithClauses`: the inner clauses first, and an outer clause of the same name dropped. */
  function MergeWiths(outer: seq<WithClause>, inner: seq<WithClause>): seq<WithClause> {
    if outer == [] then inner else if inner == [] then outer else inner + WithoutNames(outer, inner)
  }

  lemma {:induction false} WithoutNamesMembers(ws: seq<WithClause>, inner: seq<WithClause>)
    ensures forall c :: c in WithoutNames(ws, inner) <==> c in ws && !Defined(inner, c.name)
  {
    if ws != [] {
      var n := |ws| - 1;
      WithoutNamesMembers(ws[..n], inner);
      assert ws == ws[..n] + [ws[n]];
    }
  }

  /** Merging loses no inner clause, and of the outer ones only those an inner clause shadows. */
  lemma MergedClauses(outer: seq<WithClause>, inner: seq<WithClause>)
    ensures inner <= MergeWiths(outer, inner)
    ensures forall c :: c in MergeWiths(outer, inner) <==> c in inner || (c in outer && !Defined(inner, c.name))
  {
    WithoutNamesMembers(outer, inner);
  }

  /** `mergeWhereConditions`, after the outer condition has been substituted. */
  function MergeWhere(outer: Option<Expr>, inner: Option<Expr>): Option<Expr> {
    if outer.Some? && inner.Some? then Some(Binary(inner.value, "AND", outer.value))
    else if outer.Some? then outer
    else inner
  }

  /** One collapse: the outer statement over the inner statement's FROM. */
  function Collapse(s: Select): Select
    requires HasFlattenable(s)
  {
    var inner, alias := s.from.value.query, s.from.value.alias;
    var m := ColumnAliases(inner.items);
    Select(
      MergeWiths(s.withs, inner.withs), s.distinct, SubstituteItems(s.items, m, alias), inner.from,
      MergeWhere(SubstituteOption(s.where, m, alias), inner.where),
      s.groupBy, s.having, s.orderBy, s.limit, None)
  }

  // ----- joins -----

  /** `canUnwrapSubquery`. */
  predicate CanUnwrap(s: Select) {
    && s.groupBy == [] && s.having.None? && s.orderBy == [] && s.limit.None? && s.setOp.None? && s.where.None?
    && s.items != []
    && forall i :: 0 <= i < |s.items| ==> s.items[i].isStarExpansion || s.items[i].expr.Column?
  }

  predicate Unwraps(f: FromItem) {
    f.SubqueryItem? && CanUnwrap(f.query) && f.query.from.Some?
  }

  /** `updateTableAlias`. */
  function Requalify(e: Expr, alias: string): Expr {
    match e
    case Column(_, name) => Column(alias, name)
    case Star(_) => Star(alias)
    case Function(fn, args) =>
      SqlAst.Function(fn, seq(|args|, i requires 0 <= i < |args| => Requalify(args[i], alias)))
    case List(items) => List(seq(|items|, i requires 0 <= i < |items| => Requalify(items[i], alias)))
    case Unary(op, arg) => Unary(op, Requalify(arg, alias))
    case Binary(left, op, right) => Binary(Requalify(left, alias), op, Requalify(right, alias))
    case Case(operand, whens, els) =>
      Case(if operand.Some? then Some(Requalify(operand.value, alias)) else None,
           RequalifyWhens(whens, alias),
           if els.Some? then Some(Requalify(els.value, alias)) else None)
    case _ => e
  }

  function RequalifyWhens(whens: Whens, alias: string): Whens {
    match whens
    case NoWhen => NoWhen
    case When(cond, result, rest) =>
      When(Requalify(cond, alias), Requalify(result, alias), RequalifyWhens(rest, alias))
  }

  function AddLeafAliases(m: AliasMap, items: seq<Item>, alias: string): AliasMap {
    if items == [] then m
    else
      var n := |items| - 1;
      AddAlias(AddLeafAliases(m, items[..n], alias), items[n], Requalify(items[n].expr, alias))
  }

  function Nesting(f: FromItem): nat {
    match f
    case TableItem(_, _) => 0
    case SubqueryItem(q, _) => 1 + if q.from.Some? then Nesting(q.from.value) else 0
    case JoinItem(_, left, right, _, _) => 1 + Nesting(left) + Nesting(right)
  }

  function Renamed(f: FromItem, alias: string): (r: FromItem)
    ensures Nesting(r) == Nesting(f)
  {
    f.(alias := alias)
  }

  /** The alias an unwrapped subquery's FROM takes. */
  function FinalAlias(f: FromItem): string
    requires Unwraps(f)
  {
    if f.alias == "" then f.query.from.value.alias else f.alias
  }

  /** `flattenFromItemInJoin`: the unwrapped item, and the map extended by the unwrapped columns. */
  function FlattenSide(f: FromItem, m: AliasMap): (FromItem, AliasMap)
    decreases Nesting(f)
  {
    if Unwraps(f) then
      var alias := FinalAlias(f);
      FlattenSide(Renamed(f.query.from.value, alias), AddLeafAliases(m, f.query.items, alias))
    else if f.JoinItem? then
      var l := FlattenSide(f.left, m);
      var r := FlattenSide(f.right, l.1);
      (f.(left := l.0, right := r.0), r.1)
    else (f, m)
  }

  /** `substituteInJoinConditions`. */
  function SubstituteInJoin(f: FromItem, m: AliasMap): FromItem {
    if f.JoinItem? then
      JoinItem(f.join, SubstituteInJoin(f.left, m), SubstituteInJoin(f.right, m), SubstituteOption(f.cond, m, ""),
               f.alias)
    else f
  }

  /** The statement after its joins are flattened. */
  function FlattenJoins(s: Select): Select
    requires s.from.Some? && s.from.value.JoinItem?
  {
    var flat := FlattenSide(s.from.value, map[]);
    if flat.1 == map[] then s.(from := Some(flat.0))
    else
      s.(items := SubstituteItems(s.items, flat.1, ""),
         where := SubstituteOption(s.where, flat.1, ""),
         from := Some(SubstituteInJoin(flat.0, flat.1)))
  }

  // ----- the whole -----

  /** `flattenSelectForRecursiveCTE`; it ends because FROM nests less deeply after each collapse. */
  function Flatten(s: Select): Select
    decreases s.from
  {
    if s.from.Some? && s.from.value.JoinItem? then FlattenJoins(s)
    else if HasFlattenable(s) then Flatten(Collapse(s))
    else s
  }

  // ----- normal form -----

  /** Nothing is left to unwrap in a tree of joins. */
  predicate JoinsUnwrapped(f: FromItem) {
    !Unwraps(f) && (f.JoinItem? ==> JoinsUnwrapped(f.left) && JoinsUnwrapped(f.right))
  }

  lemma {:induction false} FlattenSideUnwraps(f: FromItem, m: AliasMap)
    ensures JoinsUnwrapped(FlattenSide(f, m).0)
    ensures f.JoinItem? ==> FlattenSide(f, m).0.JoinItem?
    decreases Nesting(f)
  {
    if Unwraps(f) {
      FlattenSideUnwraps(Renamed(f.query.from.value, FinalAlias(f)), AddLeafAliases(m, f.query.items, FinalAlias(f)));
    } else if f.JoinItem? {
      FlattenSideUnwraps(f.left, m);
      FlattenSideUnwraps(f.right, FlattenSide(f.left, m).1);
    }
  }

  lemma {:induction false} UnwrappedStays(f: FromItem, m: AliasMap)
    requires JoinsUnwrapped(f)
    ensures FlattenSide(f, m) == (f, m)
    decreases Nesting(f)
  {
    if f.JoinItem? {
      UnwrappedStays(f.left, m);
      UnwrappedStays(f.right, m);
    }
  }

  lemma {:induction false} SubstitutionUnwraps(f: FromItem, m: AliasMap)
    requires JoinsUnwrapped(f)
    ensures JoinsUnwrapped(SubstituteInJoin(f, m))
  {
    if f.JoinItem? {
      SubstitutionUnwraps(f.left, m);
      SubstitutionUnwraps(f.right, m);
    }
  }

  predicate Flat(s: Select) {
    s.from.Some? ==> !Flattenable(s.from.value) && (s.from.value.JoinItem? ==> JoinsUnwrapped(s.from.value))
  }

  /** No collapsible subquery is left directly in FROM, and no pass-through one under a join. */
  lemma {:induction false} FlattenIsFlat(s: Select)
    ensures Flat(Flatten(s))
    decreases s.from
  {
    if s.from.Some? && s.from.value.JoinItem? {
      var flat := FlattenSide(s.from.value, map[]);
      FlattenSideUnwraps(s.from.value, map[]);
      SubstitutionUnwraps(flat.0, flat.1);
    } else if HasFlattenable(s) {
      FlattenIsFlat(Collapse(s));
    }
  }

  /** A statement is left alone exactly when it is flat. */
  lemma FlatIffUnchanged(s: Select)
    ensures Flat(s) <==> Flatten(s) == s
  {
    FlattenIsFlat(s);
    if Flat(s) && s.from.Some? && s.from.value.JoinItem? {
      UnwrappedStays(s.from.value, map[]);
    }
  }

  /** Flattening a second time changes nothing. */
  lemma FlattenIdempotent(s: Select)
    ensures Flatten(Flatten(s)) == Flatten(s)
  {
    FlattenIsFlat(s);
    FlatIffUnchanged(Flatten(s));
  }
}
