/**
 The statements the transformers build, layer by layer: what a compiled scan looks like, besides what it means
 (internal/transformer_scan_*.go, internal/transformer_stmt_query.go).
 */
module CompiledShape {
  import opened Wrappers
  import opened SqlAst
  import opened SqlSemantics
  import opened Scans
  import opened ExpressionMeaning
  import opened ScanMeaning
  import opened NodeMeaning
  import opened JoinMeaning
  import opened SetWithMeaning
  import opened WithScoping

  predicate OverSubquery(q: Select) {
    q.from.Some? && q.from.value.SubqueryItem?
  }

  predicate OverJoin(q: Select) {
    && q.from.Some? && q.from.value.JoinItem?
    && q.from.value.left.SubqueryItem? && q.from.value.right.SubqueryItem?
  }

  function OnToSql(on: Option<ScanExpr>, names: Names): Option<Expr> {
    if on.Some? then Some(ToSql(on.value, names)) else None
  }

  /** The statement has the layers of the scan. */
  ghost predicate BuiltFrom(q: Select, s: Scan, names: Names, sig: Signature)
    decreases s
  {
    match s
    case TableScan(cols, table, alias) => q == TableSelect(cols, table, alias)
    case FilterScan(_, input, cond) =>
      && OverSubquery(q)
      && q == FilterSelect(q.from.value.query, q.from.value.alias, ToSql(cond, names))
      && BuiltFrom(q.from.value.query, input, names, sig)
    case ProjectScan(cols, input, computed) =>
      && OverSubquery(q)
      && q == ProjectSelect(q.from.value.query, q.from.value.alias, ProjectItems(cols, computed, names))
      && BuiltFrom(q.from.value.query, input, names, sig) && Compiled(q.from.value.query, input, sig)
    case JoinScan(_, kind, left, right, on) =>
      && OverJoin(q)
      && var l, r := q.from.value.left, q.from.value.right;
         && q == JoinSelect(kind, l.query, l.alias, r.query, r.alias, OnToSql(on, names))
         && l.alias != "" && r.alias != "" && l.alias != r.alias
         && BuiltFrom(l.query, left, names, sig) && Compiled(l.query, left, sig)
         && BuiltFrom(r.query, right, names, sig) && Compiled(r.query, right, sig)
    case LimitScan(_, input, count, offset) =>
      && OverSubquery(q)
      && q == LimitSelect(q.from.value.query, q.from.value.alias, LimitToSql(count, offset, names))
      && BuiltFrom(q.from.value.query, input, names, sig)
    case SetOpScan(cols, op, modifier, items) =>
      && OverSubquery(q) && q.from.value.query.setOp.Some?
      && items != [] && |items[0].outs| == |cols|
      && var sels := q.from.value.query.setOp.value.items;
         && AllAnswer(sels, items, sig)
         && q == SetOpSelect(cols, op, modifier, OutAliases(items[0].outs), sels)
    case WithScan(_, entries, query, _) =>
      && OverSubquery(q)
      && q == WithSelect(q.withs, q.from.value.query, q.from.value.alias)
      && ClausesCompiled(q.withs, entries, sig) && ClausesRead(q.withs, entries)
      && BuiltFrom(q.from.value.query, query, names, Extend(sig, entries))
    case WithRefScan(cols, name) =>
      && name in sig && |sig[name]| == |cols|
      && q.from.Some? && q.from.value.TableItem? && q.from.value.alias != ""
      && q == RefSelect(name, Aliases(sig[name]), q.from.value.alias, cols)
  }

  /** An output statement over its query's compiled scan. */
  ghost predicate QueryBuilt(sel: Select, q: Query, names: Names, sig: Signature) {
    && OverSubquery(sel)
    && sel == QuerySelect(q.outs, sel.from.value.query, sel.from.value.alias, names)
    && BuiltFrom(sel.from.value.query, q.source, names, sig)
  }

  // ----- one layer at a time -----

  /** A statement over one FROM item, without a WITH list, reads what that item reads. */
  lemma TablesOfLayer(q: Select)
    requires q.withs == [] && q.setOp.None? && q.from.Some?
    ensures SelectTables(q) == FromTables(q.from.value)
  {
    NoClauses();
  }

  lemma TableBuilt(s: Scan, names: Names, sig: Signature)
    requires s.TableScan?
    ensures BuiltFrom(TableSelect(s.cols, s.table, s.alias), s, names, sig)
    ensures SelectTables(TableSelect(s.cols, s.table, s.alias)) == {s.table}
  {
    TablesOfLayer(TableSelect(s.cols, s.table, s.alias));
  }

  lemma FilterBuilt(s: Scan, q: Select, alias: string, names: Names, sig: Signature)
    requires s.FilterScan? && BuiltFrom(q, s.input, names, sig)
    ensures BuiltFrom(FilterSelect(q, alias, ToSql(s.cond, names)), s, names, sig)
    ensures SelectTables(FilterSelect(q, alias, ToSql(s.cond, names))) == SelectTables(q)
  {
    TablesOfLayer(FilterSelect(q, alias, ToSql(s.cond, names)));
  }

  lemma ProjectBuilt(s: Scan, q: Select, alias: string, names: Names, sig: Signature)
    requires s.ProjectScan? && BuiltFrom(q, s.input, names, sig) && Compiled(q, s.input, sig)
    ensures BuiltFrom(ProjectSelect(q, alias, ProjectItems(s.cols, s.computed, names)), s, names, sig)
    ensures SelectTables(ProjectSelect(q, alias, ProjectItems(s.cols, s.computed, names))) == SelectTables(q)
  {
    TablesOfLayer(ProjectSelect(q, alias, ProjectItems(s.cols, s.computed, names)));
  }

  lemma JoinBuilt(s: Scan, q: Select, alias: string, q': Select, alias': string, names: Names, sig: Signature)
    requires s.JoinScan? && alias != "" && alias' != "" && alias != alias'
    requires BuiltFrom(q, s.left, names, sig) && Compiled(q, s.left, sig)
    requires BuiltFrom(q', s.right, names, sig) && Compiled(q', s.right, sig)
    ensures BuiltFrom(JoinSelect(s.kind, q, alias, q', alias', OnToSql(s.on, names)), s, names, sig)
    ensures SelectTables(JoinSelect(s.kind, q, alias, q', alias', OnToSql(s.on, names)))
         == SelectTables(q) + SelectTables(q')
  {
    TablesOfLayer(JoinSelect(s.kind, q, alias, q', alias', OnToSql(s.on, names)));
  }

  lemma LimitBuilt(s: Scan, q: Select, alias: string, names: Names, sig: Signature)
    requires s.LimitScan? && BuiltFrom(q, s.input, names, sig)
    ensures BuiltFrom(LimitSelect(q, alias, LimitToSql(s.count, s.offset, names)), s, names, sig)
    ensures SelectTables(LimitSelect(q, alias, LimitToSql(s.count, s.offset, names))) == SelectTables(q)
  {
    TablesOfLayer(LimitSelect(q, alias, LimitToSql(s.count, s.offset, names)));
  }

  lemma SetOpBuilt(s: Scan, sels: seq<Select>, names: Names, sig: Signature)
    requires s.SetOpScan? && s.items != [] && |s.items[0].outs| == |s.cols| && AllAnswer(sels, s.items, sig)
    ensures BuiltFrom(SetOpSelect(s.cols, s.op, s.modifier, OutAliases(s.items[0].outs), sels), s, names, sig)
    ensures SelectTables(SetOpSelect(s.cols, s.op, s.modifier, OutAliases(s.items[0].outs), sels)) == UnionTables(sels)
  {
    TablesOfLayer(SetOpSelect(s.cols, s.op, s.modifier, OutAliases(s.items[0].outs), sels));
    NoClauses();
    assert BodyTables(UnionSelect(s.op, s.modifier, sels)) == UnionTables(sels);
  }

  lemma WithLayerBuilt(s: Scan, clauses: seq<WithClause>, q: Select, alias: string, names: Names, sig: Signature)
    requires s.WithScan? && BuiltFrom(q, s.query, names, Extend(sig, s.entries))
    requires ClausesCompiled(clauses, s.entries, sig) && ClausesRead(clauses, s.entries)
    requires SelectTables(q) <= Mentions(s.query)
    ensures BuiltFrom(WithSelect(clauses, q, alias), s, names, sig)
    ensures SelectTables(WithSelect(clauses, q, alias)) <= Mentions(s)
  {
    var made := WithSelect(clauses, q, alias);
    assert BodyTables(made) == SelectTables(q);
    ClausesNamed(clauses, s.entries);
  }

  lemma ClausesNamed(clauses: seq<WithClause>, entries: seq<Entry>)
    requires ClausesRead(clauses, entries)
    ensures ClauseNames(clauses) == EntryNames(entries) && WithTables(clauses) <= EntriesMention(entries)
  {
    hide SelectTables, Mentions;
    forall i | 0 <= i < |clauses|
      ensures clauses[i].name in EntryNames(entries) && entries[i].name in ClauseNames(clauses)
    {
      assert clauses[i].name == entries[i].name;
    }
    forall n | n in WithTables(clauses)
      ensures n in EntriesMention(entries)
    {
      var i :| 0 <= i < |clauses| && n in SelectTables(clauses[i].query);
      assert n in Mentions(entries[i].sub);
    }
  }

  lemma RefBuilt(s: Scan, table: string, names: Names, sig: Signature)
    requires s.WithRefScan? && s.name in sig && |sig[s.name]| == |s.cols| && table != ""
    ensures BuiltFrom(RefSelect(s.name, Aliases(sig[s.name]), table, s.cols), s, names, sig)
    ensures SelectTables(RefSelect(s.name, Aliases(sig[s.name]), table, s.cols)) == {s.name}
  {
    TablesOfLayer(RefSelect(s.name, Aliases(sig[s.name]), table, s.cols));
  }
}
