/**
 The flattening procedures as the original runs them (internal/sqlbuilder_flatten.go): loops over select lists,
 and one column map shared by all leaves of a join.
 */
module Flattener {
  import opened Wrappers
  import opened SqlAst
  import opened SqlSemantics
  import opened Flattening
  import opened ChainFlattening

  /** The map the join flattener fills as it goes. */
  class ColumnMap {
    var entries: AliasMap

    constructor ()
      ensures entries == map[]
    {
      entries := map[];
    }

    method AddLeaf(items: seq<Item>, alias: string)
      modifies this
      ensures entries == AddLeafAliases(old(entries), items, alias)
    {
      for i := 0 to |items|
        invariant entries == AddLeafAliases(old(entries), items[..i], alias)
      {
        assert items[..i + 1][..i] == items[..i];
        if items[i].alias != "" {
          entries := entries[items[i].alias := Requalify(items[i].expr, alias)];
        }
      }
      assert items[..|items|] == items;
    }
  }

  method BuildColumnAliasMap(items: seq<Item>) returns (m: AliasMap)
    ensures m == ColumnAliases(items)
  {
    m := map[];
    for i := 0 to |items|
      invariant m == ColumnAliases(items[..i])
    {
      assert items[..i + 1][..i] == items[..i];
      if items[i].alias != "" {
        m := m[items[i].alias := items[i].expr];
      }
    }
    assert items[..|items|] == items;
  }

  /** Inner clauses take precedence; outer ones follow unless their name is taken. */
  method MergeWithClauses(outer: seq<WithClause>, inner: seq<WithClause>) returns (ws: seq<WithClause>)
    ensures ws == MergeWiths(outer, inner)
  {
    if outer == [] {
      return inner;
    }
    if inner == [] {
      return outer;
    }
    var names: set<string> := {};
    for i := 0 to |inner|
      invariant forall n :: n in names <==> Defined(inner[..i], n)
    {
      assert inner[..i + 1] == inner[..i] + [inner[i]];
      names := names + {inner[i].name};
    }
    assert inner[..|inner|] == inner;
    ws := inner;
    for i := 0 to |outer|
      invariant ws == inner + WithoutNames(outer[..i], inner)
    {
      assert outer[..i + 1][..i] == outer[..i];
      if outer[i].name !in names {
        ws := ws + [outer[i]];
      }
    }
    assert outer[..|outer|] == outer;
  }

  method SubstituteSelectList(items: seq<Item>, m: AliasMap, alias: string) returns (r: seq<Item>)
    ensures r == SubstituteItems(items, m, alias)
  {
    r := [];
    for i := 0 to |items|
      invariant |r| == i && forall k :: 0 <= k < i ==> r[k] == SubstituteItem(items[k], m, alias)
    {
      r := r + [items[i].(expr := SubstituteAt(items[i].expr, m, alias, 0))];
    }
  }

  method FlattenFromItemInJoin(f: FromItem, columns: ColumnMap) returns (r: FromItem)
    modifies columns
    ensures (r, columns.entries) == FlattenSide(f, old(columns.entries))
    decreases Nesting(f), 1
  {
    if Unwraps(f) {
      var alias := FinalAlias(f);
      columns.AddLeaf(f.query.items, alias);
      r := FlattenFromItemInJoin(Renamed(f.query.from.value, alias), columns);
    } else if f.JoinItem? {
      r := FlattenJoinFromItem(f, columns);
    } else {
      r := f;
    }
  }

  method FlattenJoinFromItem(f: FromItem, columns: ColumnMap) returns (r: FromItem)
    requires f.JoinItem?
    modifies columns
    ensures (r, columns.entries) == FlattenSide(f, old(columns.entries))
    decreases Nesting(f), 0
  {
    var left := FlattenFromItemInJoin(f.left, columns);
    var right := FlattenFromItemInJoin(f.right, columns);
    r := f.(left := left, right := right);
  }

  /** The whole procedure: it leaves nothing to flatten, and keeps the rows of every chain. */
  method FlattenSelectForRecursiveCTE(stmt: Select) returns (r: Select)
    ensures r == Flatten(stmt) && Flat(r)
    ensures WithinLimit(stmt) && Outer(stmt) ==>
      forall w: World :: Chain(stmt, stmt.distinct, w) ==> EvalSelect(r, w).rows == EvalSelect(stmt, w).rows
    decreases stmt.from
  {
    FlattenIsFlat(stmt);
    if WithinLimit(stmt) && Outer(stmt) {
      forall w: World | Chain(stmt, stmt.distinct, w)
        ensures EvalSelect(Flatten(stmt), w).rows == EvalSelect(stmt, w).rows
      {
        FlattenKeepsRows(stmt, w);
      }
    }
    r := stmt;
    if r.from.Some? && r.from.value.JoinItem? {
      var columns := new ColumnMap();
      var from := FlattenJoinFromItem(r.from.value, columns);
      r := r.(from := Some(from));
      if columns.entries != map[] {
        var items := SubstituteSelectList(r.items, columns.entries, "");
        r := r.(items := items,
                where := SubstituteOption(r.where, columns.entries, ""),
                from := Some(SubstituteInJoin(from, columns.entries)));
      }
    }
    if !HasFlattenable(r) {
      return r;
    }
    var inner, alias := r.from.value.query, r.from.value.alias;
    var m := BuildColumnAliasMap(inner.items);
    var withs := MergeWithClauses(r.withs, inner.withs);
    var items := SubstituteSelectList(r.items, m, alias);
    var where := MergeWhere(SubstituteOption(r.where, m, alias), inner.where);
    r := FlattenSelectForRecursiveCTE(
      Select(withs, r.distinct, items, inner.from, where, r.groupBy, r.having, r.orderBy, r.limit, None));
  }
}
