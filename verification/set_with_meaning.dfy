/**
 Output statements, UNION ALL and WITH: positional renaming, and common table expressions that stay in
 step with the scan's own (internal/transformer_stmt_query.go, internal/transformer_scan_setop.go,
 internal/transformer_scan_with.go, internal/transformer_with_entry.go, internal/transformer_scan_with_ref.go).
 */
module SetWithMeaning {
  import opened Wrappers
  import opened SqlAst
  import opened SqlSemantics
  import opened Scans
  import opened ExpressionMeaning
  import opened CompiledColumns
  import opened ScanMeaning
  import opened NodeMeaning
  import opened WithScoping

  // ----- statements -----

  function OutItems(outs: seq<OutData>, names: Names): (items: seq<Item>)
    ensures ItemAliases(items) == OutAliases(outs)
    ensures (forall k :: 0 <= k < |outs| ==> outs[k].alias != "") ==> AllAliased(items)
  {
    seq(|outs|, k requires 0 <= k < |outs| => Item(ToSql(outs[k].expr, names), outs[k].alias, false))
  }

  function QuerySelect(outs: seq<OutData>, q: Select, alias: string, names: Names): Select {
    EMPTY_SELECT.(items := OutItems(outs, names), from := Some(SubqueryItem(q, alias)))
  }

  ghost predicate TuplesIn(sel: Select, qd: Query, w: World, ctes: Ctes, v: World) {
    EvalSelect(sel, v).rows == QueryRows(qd, w, ctes)
  }

  /** The statement returns exactly the query's tuples, in every world. */
  ghost predicate Answers(sel: Select, qd: Query, sig: Signature) {
    && sel.withs == []
    && ItemAliases(sel.items) == OutAliases(qd.outs)
    && (forall v: World :: ColumnsIn(sel, OutAliases(qd.outs), v))
    && forall w: World, ctes: Ctes, v: World :: InStep(w, ctes, v, sig) ==> TuplesIn(sel, qd, w, ctes, v)
  }

  lemma OutTupleAgrees(
    qd: Query, list: seq<string>, alias: string, t: Tuple, names: Names, row: IdRow, w: World, v: World)
    requires forall k :: 0 <= k < |qd.outs| ==> Reads(qd.outs[k].expr, qd.source.cols)
    requires Named(qd.source.cols, names) && SameOperators(w, v)
    requires Covers(list, qd.source.cols) && Shows(list, t, qd.source.cols, row)
    ensures EvalItems(OutItems(qd.outs, names), Relabel(list, alias), t, v) == OutTuple(qd.outs, row, w)
  {
    ShownIsReadable(list, alias, t, qd.source.cols, row);
    forall k | 0 <= k < |qd.outs|
      ensures Eval(ToSql(qd.outs[k].expr, names), Relabel(list, alias), t, v) == ExprValue(qd.outs[k].expr, row, w)
    {
      ExpressionAgrees(qd.outs[k].expr, qd.source.cols, names, Relabel(list, alias), t, row, w, v);
    }
  }

  lemma QueryTuples(
    qd: Query, q: Select, list: seq<string>, alias: string, names: Names, rows: seq<IdRow>, w: World, v: World)
    requires forall k :: 0 <= k < |qd.outs| ==> Reads(qd.outs[k].expr, qd.source.cols) && qd.outs[k].alias != ""
    requires Named(qd.source.cols, names) && SameOperators(w, v)
    requires EvalSelect(q, v).cols == list && Covers(list, qd.source.cols)
    requires RowsShow(list, EvalSelect(q, v).rows, qd.source.cols, rows)
    ensures EvalSelect(QuerySelect(qd.outs, q, alias, names), v).rows
         == seq(|rows|, i requires 0 <= i < |rows| => OutTuple(qd.outs, rows[i], w))
  {
    var items := OutItems(qd.outs, names);
    PlainSelect(QuerySelect(qd.outs, q, alias, names), items, SubqueryItem(q, alias), v);
    forall i | 0 <= i < |rows|
      ensures EvalItems(items, Relabel(list, alias), EvalSelect(q, v).rows[i], v) == OutTuple(qd.outs, rows[i], w)
    {
      OutTupleAgrees(qd, list, alias, EvalSelect(q, v).rows[i], names, rows[i], w, v);
    }
  }

  lemma QueryAnswers(
    qd: Query, width: nat, q: Select, list: seq<string>, alias: string, names: Names, sig: Signature)
    requires WellFormedQuery(qd, width, names, sig) && Produces(q, list, qd.source, sig)
    ensures Answers(QuerySelect(qd.outs, q, alias, names), qd, sig)
  {
    var sel := QuerySelect(qd.outs, q, alias, names);
    forall v: World
      ensures ColumnsIn(sel, OutAliases(qd.outs), v)
    {
      PlainSelect(sel, OutItems(qd.outs, names), SubqueryItem(q, alias), v);
    }
    forall w: World, ctes: Ctes, v: World | InStep(w, ctes, v, sig)
      ensures TuplesIn(sel, qd, w, ctes, v)
    {
      InWorld(q, list, qd.source, sig, w, ctes, v);
      QueryTuples(qd, q, list, alias, names, ScanRows(qd.source, w, ctes), w, v);
    }
  }

  // ----- UNION ALL -----

  function UnionSelect(op: string, modifier: string, sels: seq<Select>): Select {
    EMPTY_SELECT.(setOp := Some(SetOp(op, modifier, sels)))
  }

  function RenameItems(from: seq<string>, cols: seq<Col>): (items: seq<Item>)
    requires |from| == |cols|
    ensures ItemAliases(items) == Aliases(cols) && AllAliased(items)
  {
    seq(|cols|, i requires 0 <= i < |cols| => Item(Column("", from[i]), Alias(cols[i]), false))
  }

  function SetOpSelect(cols: seq<Col>, op: string, modifier: string, first: seq<string>, sels: seq<Select>): Select
    requires |first| == |cols|
  {
    EMPTY_SELECT.(
      items := RenameItems(first, cols),
      from := Some(SubqueryItem(UnionSelect(op, modifier, sels), "set_op_scan_inner")))
  }

  ghost predicate AllAnswer(sels: seq<Select>, qs: seq<Query>, sig: Signature) {
    |sels| == |qs| && forall i :: 0 <= i < |qs| ==> Answers(sels[i], qs[i], sig)
  }

  lemma {:induction false} UnionRows(
    sels: seq<Select>, qs: seq<Query>, sig: Signature, w: World, ctes: Ctes, v: World)
    requires AllAnswer(sels, qs, sig) && InStep(w, ctes, v, sig)
    ensures EvalAll(sels, v) == QueriesRows(qs, w, ctes)
  {
    if qs != [] {
      assert Answers(sels[0], qs[0], sig) && TuplesIn(sels[0], qs[0], w, ctes, v);
      UnionRows(sels[1..], qs[1..], sig, w, ctes, v);
    }
  }

  lemma {:induction false} UnionWidth(qs: seq<Query>, width: nat, w: World, ctes: Ctes)
    requires forall i :: 0 <= i < |qs| ==> |qs[i].outs| == width
    ensures forall i :: 0 <= i < |QueriesRows(qs, w, ctes)| ==> |QueriesRows(qs, w, ctes)[i]| == width
  {
    if qs != [] {
      UnionWidth(qs[1..], width, w, ctes);
    }
  }

  lemma RenamedTuple(first: seq<string>, cols: seq<Col>, alias: string, t: Tuple, v: World)
    requires |first| == |cols| == |t| && DistinctStrings(first)
    ensures EvalItems(RenameItems(first, cols), Relabel(first, alias), t, v) == t
  {
    forall k | 0 <= k < |cols|
      ensures Lookup(Relabel(first, alias), t, "", first[k]) == t[k]
    {
      LookupHit(first, alias, "", t, k);
    }
  }

  lemma SetOpMeans(
    cols: seq<Col>, first: seq<string>, sels: seq<Select>, tuples: seq<Tuple>, v: World)
    requires |first| == |cols| && DistinctStrings(first) && DistinctIds(cols) && sels != []
    requires EvalSelect(sels[0], v).cols == first && EvalAll(sels, v) == tuples
    requires forall i :: 0 <= i < |tuples| ==> |tuples[i]| == |cols|
    ensures RowsShow(Aliases(cols), EvalSelect(SetOpSelect(cols, "UNION", "ALL", first, sels), v).rows, cols,
      seq(|tuples|, i requires 0 <= i < |tuples| => MakeRow(cols, Resized(tuples[i], |cols|))))
  {
    var u := UnionSelect("UNION", "ALL", sels);
    assert EvalWiths(u.withs, v) == v;
    assert EvalSelect(u, v) == Rel(first, tuples);
    var f := SubqueryItem(u, "set_op_scan_inner");
    PlainSelect(SetOpSelect(cols, "UNION", "ALL", first, sels), RenameItems(first, cols), f, v);
    forall i | 0 <= i < |tuples|
      ensures
        var t := EvalItems(RenameItems(first, cols), Relabel(first, "set_op_scan_inner"), tuples[i], v);
        Shows(Aliases(cols), t, cols, MakeRow(cols, Resized(tuples[i], |cols|)))
    {
      RenamedTuple(first, cols, "set_op_scan_inner", tuples[i], v);
      MadeRowShown(cols, tuples[i]);
    }
  }

  lemma SetOpRowsShow(s: Scan, sels: seq<Select>, sig: Signature, w: World, ctes: Ctes, v: World)
    requires s.SetOpScan? && s.op == "UNION" && s.modifier == "ALL" && s.items != [] && DistinctIds(s.cols)
    requires forall i :: 0 <= i < |s.items| ==> |s.items[i].outs| == |s.cols|
    requires DistinctStrings(OutAliases(s.items[0].outs))
    requires AllAnswer(sels, s.items, sig) && InStep(w, ctes, v, sig)
    ensures RowsShow(Aliases(s.cols),
      EvalSelect(SetOpSelect(s.cols, s.op, s.modifier, OutAliases(s.items[0].outs), sels), v).rows,
      s.cols, ScanRows(s, w, ctes))
  {
    assert Answers(sels[0], s.items[0], sig) && ColumnsIn(sels[0], OutAliases(s.items[0].outs), v);
    UnionRows(sels, s.items, sig, w, ctes, v);
    UnionWidth(s.items, |s.cols|, w, ctes);
    SetOpMeans(s.cols, OutAliases(s.items[0].outs), sels, QueriesRows(s.items, w, ctes), v);
  }

  lemma SetOpProduces(s: Scan, sels: seq<Select>, names: Names, sig: Signature)
    requires s.SetOpScan? && WellFormed(s, names, sig) && AllAnswer(sels, s.items, sig)
    ensures
      var first := OutAliases(s.items[0].outs);
      && |first| == |s.cols|
      && Produces(SetOpSelect(s.cols, s.op, s.modifier, first, sels), Aliases(s.cols), s, sig)
  {
    var first := OutAliases(s.items[0].outs);
    forall i | 0 <= i < |s.items|
      ensures |s.items[i].outs| == |s.cols|
    {
      assert WellFormedQuery(s.items[i], |s.cols|, names, sig);
    }
    var q := SetOpSelect(s.cols, s.op, s.modifier, first, sels);
    OwnAliasesCover(s.cols);
    PlainHasColumns(q, RenameItems(first, s.cols), q.from.value);
    forall w: World, ctes: Ctes, v: World | InStep(w, ctes, v, sig)
      ensures RowsIn(q, Aliases(s.cols), s, w, ctes, v)
    {
      SetOpRowsShow(s, sels, sig, w, ctes, v);
    }
  }

  // ----- references to a common table expression -----

  function RefItems(mapping: seq<string>, table: string, cols: seq<Col>): (items: seq<Item>)
    requires |mapping| == |cols|
    ensures ItemAliases(items) == Aliases(cols) && AllAliased(items)
  {
    seq(|cols|, i requires 0 <= i < |cols| => Item(Column(table, mapping[i]), Alias(cols[i]), false))
  }

  function RefSelect(name: string, mapping: seq<string>, table: string, cols: seq<Col>): Select
    requires |mapping| == |cols|
  {
    EMPTY_SELECT.(items := RefItems(mapping, table, cols), from := Some(TableItem(name, table)))
  }

  lemma RefTuple(cte: seq<Col>, rel: Rel, table: string, cols: seq<Col>, t: Tuple, row: IdRow, v: World)
    requires |cte| == |cols| && Lists(rel.cols, cte) && Shows(rel.cols, t, cte, row)
    ensures EvalItems(RefItems(Aliases(cte), table, cols), Relabel(rel.cols, table), t, v) == RowTuple(cte, row)
  {
    forall k | 0 <= k < |cols|
      ensures Lookup(Relabel(rel.cols, table), t, table, Alias(cte[k])) == Get(row, cte[k].id)
    {
      assert cte[k] in cte;
      var p :| 0 <= p < |rel.cols| && rel.cols[p] == Alias(cte[k]);
      LookupHit(rel.cols, table, table, t, p);
    }
  }

  lemma RefMeans(s: Scan, table: string, w: World, ctes: Ctes, v: World)
    requires s.WithRefScan? && s.name in ctes && |ctes[s.name].cols| == |s.cols| && DistinctIds(s.cols)
    requires table != "" && Simulates(w, ctes, v)
    ensures RowsShow(Aliases(s.cols),
      EvalSelect(RefSelect(s.name, Aliases(ctes[s.name].cols), table, s.cols), v).rows, s.cols, ScanRows(s, w, ctes))
  {
    hide Shows, Lists;
    var cte, rel := ctes[s.name], v.tables[s.name];
    var items := RefItems(Aliases(cte.cols), table, s.cols);
    PlainSelect(RefSelect(s.name, Aliases(cte.cols), table, s.cols), items, TableItem(s.name, table), v);
    forall i | 0 <= i < |cte.rows|
      ensures Shows(Aliases(s.cols), EvalItems(items, Relabel(rel.cols, table), rel.rows[i], v), s.cols,
                    MakeRow(s.cols, Resized(RowTuple(cte.cols, cte.rows[i]), |s.cols|)))
    {
      RefTuple(cte.cols, rel, table, s.cols, rel.rows[i], cte.rows[i], v);
      MadeRowShown(s.cols, RowTuple(cte.cols, cte.rows[i]));
    }
  }

  lemma RefProduces(s: Scan, table: string, names: Names, sig: Signature)
    requires s.WithRefScan? && WellFormed(s, names, sig) && table != ""
    ensures Produces(RefSelect(s.name, Aliases(sig[s.name]), table, s.cols), Aliases(s.cols), s, sig)
  {
    var q := RefSelect(s.name, Aliases(sig[s.name]), table, s.cols);
    OwnAliasesCover(s.cols);
    PlainHasColumns(q, RefItems(Aliases(sig[s.name]), table, s.cols), TableItem(s.name, table));
    forall w: World, ctes: Ctes, v: World | InStep(w, ctes, v, sig)
      ensures RowsIn(q, Aliases(s.cols), s, w, ctes, v)
    {
      RefMeans(s, table, w, ctes, v);
    }
  }

  // ----- WITH -----

  /** Each clause is its entry's compiled statement, in the scope of the entries before it. */
  ghost predicate ClausesCompiled(clauses: seq<WithClause>, entries: seq<Entry>, sig: Signature)
    decreases entries
  {
    if entries == [] || clauses == [] then entries == [] && clauses == []
    else
      && clauses[0].name == entries[0].name
      && entries[0].cols == entries[0].sub.cols
      && Compiled(clauses[0].query, entries[0].sub, sig)
      && ClausesCompiled(clauses[1..], entries[1..], sig[entries[0].name := entries[0].cols])
  }

  lemma {:induction false} ClausesSnoc(
    clauses: seq<WithClause>, entries: seq<Entry>, sig: Signature, clause: WithClause, entry: Entry)
    requires ClausesCompiled(clauses, entries, sig)
    requires clause.name == entry.name && entry.cols == entry.sub.cols
    requires Compiled(clause.query, entry.sub, Extend(sig, entries))
    ensures ClausesCompiled(clauses + [clause], entries + [entry], sig)
    ensures Extend(sig, entries + [entry]) == Extend(sig, entries)[entry.name := entry.cols]
    decreases entries
  {
    if entries == [] {
      assert [clause][1..] == [] && [entry][1..] == [];
      assert clauses + [clause] == [clause] && entries + [entry] == [entry];
      assert Extend(sig[entry.name := entry.cols], []) == sig[entry.name := entry.cols];
    } else {
      ClausesSnoc(clauses[1..], entries[1..], sig[entries[0].name := entries[0].cols], clause, entry);
      assert (clauses + [clause])[1..] == clauses[1..] + [clause];
      assert (entries + [entry])[1..] == entries[1..] + [entry];
    }
  }

  lemma {:induction false} EntriesSplit(entries: seq<Entry>, i: nat, names: Names, sig: Signature)
    requires i <= |entries| && WellFormedEntries(entries, names, sig)
    ensures WellFormedEntries(entries[i..], names, Extend(sig, entries[..i]))
    decreases i
  {
    hide WellFormed, Defines;
    if i > 0 {
      EntriesSplit(entries[1..], i - 1, names, sig[entries[0].name := entries[0].cols]);
      assert entries[1..][i - 1..] == entries[i..];
      assert entries[..i][1..] == entries[1..][..i - 1];
    } else {
      assert entries[0..] == entries && entries[..0] == [];
    }
  }

  /** Adding one entry to both worlds keeps them in step. */
  lemma EntryStep(clause: WithClause, entry: Entry, w: World, ctes: Ctes, v: World, sig: Signature)
    requires InStep(w, ctes, v, sig)
    requires clause.name == entry.name && entry.cols == entry.sub.cols && Compiled(clause.query, entry.sub, sig)
    ensures
      var ctes' := ctes[entry.name := Cte(entry.cols, ScanRows(entry.sub, w, ctes))];
      var v' := v.(tables := v.tables[clause.name := EvalSelect(clause.query, v)]);
      InStep(w, ctes', v', sig[entry.name := entry.cols])
  {
    var list :| Produces(clause.query, list, entry.sub, sig) && Lists(list, entry.sub.cols);
    InWorld(clause.query, list, entry.sub, sig, w, ctes, v);
  }

  /** Each clause is named after its entry and reads no more than that does. */
  predicate ClausesRead(clauses: seq<WithClause>, entries: seq<Entry>) {
    && |clauses| == |entries|
    && forall i :: 0 <= i < |clauses| ==>
         clauses[i].name == entries[i].name && SelectTables(clauses[i].query) <= Mentions(entries[i].sub)
  }

  lemma {:induction false} EntriesApart(entries: seq<Entry>, names: Names, sig: Signature, i: nat, j: nat)
    requires WellFormedEntries(entries, names, sig) && i <= j < |entries|
    ensures entries[j].name !in Mentions(entries[i].sub) && entries[j].name !in sig
    ensures i < j ==> entries[i].name != entries[j].name
    decreases j
  {
    hide WellFormed, Defines, Mentions;
    if i > 0 {
      EntriesApart(entries[1..], names, sig[entries[0].name := entries[0].cols], i - 1, j - 1);
    } else if j > 0 {
      EntriesApart(entries[1..], names, sig[entries[0].name := entries[0].cols], j - 1, j - 1);
    }
  }

  /** So the list can be read one clause after the other. */
  lemma ClausesInOrder(clauses: seq<WithClause>, entries: seq<Entry>, names: Names, sig: Signature)
    requires ClausesRead(clauses, entries) && WellFormedEntries(entries, names, sig)
    ensures InOrder(clauses)
  {
    hide SelectTables, WellFormedEntries, Mentions;
    forall i, j | 0 <= i <= j < |clauses|
      ensures clauses[j].name !in SelectTables(clauses[i].query) && (i < j ==> clauses[i].name != clauses[j].name)
    {
      EntriesApart(entries, names, sig, i, j);
    }
  }

  lemma {:induction false} EntriesInTurn(
    clauses: seq<WithClause>, entries: seq<Entry>, w: World, ctes: Ctes, v: World, sig: Signature)
    requires ClausesCompiled(clauses, entries, sig) && InStep(w, ctes, v, sig)
    ensures InStep(w, EntriesRows(entries, w, ctes), InTurn(clauses, v), Extend(sig, entries))
    decreases entries
  {
    if entries != [] {
      EntryStep(clauses[0], entries[0], w, ctes, v, sig);
      TurnsFromFront(clauses, v);
      EntriesInTurn(
        clauses[1..], entries[1..], w,
        ctes[entries[0].name := Cte(entries[0].cols, ScanRows(entries[0].sub, w, ctes))],
        v.(tables := v.tables[clauses[0].name := EvalSelect(clauses[0].query, v)]),
        sig[entries[0].name := entries[0].cols]);
    }
  }

  /** After all entries, the SQL world holds every common table expression the scan can refer to. */
  lemma EntriesSimulate(
    clauses: seq<WithClause>, entries: seq<Entry>, w: World, ctes: Ctes, v: World, sig: Signature)
    requires ClausesCompiled(clauses, entries, sig) && InOrder(clauses) && InStep(w, ctes, v, sig)
    ensures InStep(w, EntriesRows(entries, w, ctes), EvalWiths(clauses, v), Extend(sig, entries))
  {
    hide InStep, ClausesCompiled, InOrder;
    InOrderInTurn(clauses, v);
    EntriesInTurn(clauses, entries, w, ctes, v, sig);
  }

  function WithSelect(clauses: seq<WithClause>, q: Select, alias: string): Select {
    SelectStar(SubqueryItem(q, alias)).(withs := clauses)
  }

  lemma WithSelectEval(clauses: seq<WithClause>, q: Select, alias: string, v: World)
    ensures EvalSelect(WithSelect(clauses, q, alias), v) == EvalSelect(q, EvalWiths(clauses, v))
  {
    var v' := EvalWiths(clauses, v);
    StarSelect(q, alias, None, None, v');
    var r := EvalSelect(q, v');
    FilterNothing(Rows(Relabel(r.cols, alias), r.rows), v');
    assert EvalWiths([], v') == v';
    assert EvalSelect(SelectStar(SubqueryItem(q, alias)), v') == r;
  }

  lemma WithProduces(
    s: Scan, clauses: seq<WithClause>, q: Select, list: seq<string>, alias: string, names: Names, sig: Signature)
    requires s.WithScan? && WellFormed(s, names, sig)
    requires ClausesCompiled(clauses, s.entries, sig) && InOrder(clauses)
    requires Produces(q, list, s.query, Extend(sig, s.entries))
    ensures Produces(WithSelect(clauses, q, alias), list, s, sig)
  {
    var q' := WithSelect(clauses, q, alias);
    SubsetCovered(list, s.query.cols, s.cols);
    forall v: World
      ensures ColumnsIn(q', list, v)
    {
      WithSelectEval(clauses, q, alias, v);
      assert ColumnsIn(q, list, EvalWiths(clauses, v));
    }
    forall w: World, ctes: Ctes, v: World | InStep(w, ctes, v, sig)
      ensures RowsIn(q', list, s, w, ctes, v)
    {
      WithSelectEval(clauses, q, alias, v);
      EntriesSimulate(clauses, s.entries, w, ctes, v, sig);
      var v' := EvalWiths(clauses, v);
      InWorld(q, list, s.query, Extend(sig, s.entries), w, EntriesRows(s.entries, w, ctes), v');
      NarrowAllShown(list, EvalSelect(q, v').rows, s.query.cols, s.cols,
                     ScanRows(s.query, w, EntriesRows(s.entries, w, ctes)));
    }
  }

  /** The `SELECT *` wrapped around an entry's subquery changes nothing. */
  lemma StarCompiled(q: Select, alias: string, s: Scan, sig: Signature)
    requires Compiled(q, s, sig)
    ensures Compiled(SelectStar(SubqueryItem(q, alias)), s, sig)
  {
    var list :| Produces(q, list, s, sig) && Lists(list, s.cols);
    var q' := SelectStar(SubqueryItem(q, alias));
    assert q' == WithSelect([], q, alias);
    forall v: World
      ensures ColumnsIn(q', list, v)
    {
      WithSelectEval([], q, alias, v);
      assert ColumnsIn(q, list, v);
    }
    forall w: World, ctes: Ctes, v: World | InStep(w, ctes, v, sig)
      ensures RowsIn(q', list, s, w, ctes, v)
    {
      WithSelectEval([], q, alias, v);
      InWorld(q, list, s, sig, w, ctes, v);
    }
    assert Produces(q', list, s, sig);
  }
}
