/** One lemma for each scan transformer: what it wraps around its input means what the scan means. */
module NodeMeaning {
  import opened Wrappers
  import opened SqlAst
  import opened SqlSemantics
  import opened Scans
  import opened ExpressionMeaning
  import opened CompiledColumns
  import opened ScanMeaning

  // ----- table scan -----

  function TableItems(cols: seq<Col>): (items: seq<Item>)
    ensures ItemAliases(items) == Aliases(cols) && AllAliased(items)
  {
    seq(|cols|, i requires 0 <= i < |cols| => Item(Column("", cols[i].name), Alias(cols[i]), false))
  }

  function TableSelect(cols: seq<Col>, table: string, alias: string): Select {
    EMPTY_SELECT.(items := TableItems(cols), from := Some(TableItem(table, alias)))
  }

  lemma TableTuple(cols: seq<Col>, alias: string, rel: Rel, t: Tuple, v: World)
    ensures EvalItems(TableItems(cols), Relabel(rel.cols, alias), t, v) == ReadTuple(cols, rel, t)
  {
    forall k | 0 <= k < |cols|
      ensures Lookup(Relabel(rel.cols, alias), t, "", cols[k].name)
           == Lookup(Relabel(rel.cols, ""), t, "", cols[k].name)
    {
      ResolveSame(Relabel(rel.cols, alias), "", Relabel(rel.cols, ""), "", cols[k].name);
    }
  }

  lemma TableMeans(s: Scan, w: World, ctes: Ctes, v: World)
    requires s.TableScan? && DistinctIds(s.cols) && s.table !in ctes && Simulates(w, ctes, v)
    ensures RowsShow(Aliases(s.cols), EvalSelect(TableSelect(s.cols, s.table, s.alias), v).rows, s.cols,
                     ScanRows(s, w, ctes))
  {
    var q := TableSelect(s.cols, s.table, s.alias);
    var rel := if s.table in w.tables then w.tables[s.table] else Rel([], []);
    PlainSelect(q, TableItems(s.cols), TableItem(s.table, s.alias), v);
    forall i | 0 <= i < |rel.rows|
      ensures Shows(Aliases(s.cols), EvalSelect(q, v).rows[i], s.cols, ScanRows(s, w, ctes)[i])
    {
      TableTuple(s.cols, if s.alias == "" then s.table else s.alias, rel, rel.rows[i], v);
      MadeRowShown(s.cols, ReadTuple(s.cols, rel, rel.rows[i]));
    }
  }

  lemma PlainHasColumns(q: Select, items: seq<Item>, f: FromItem)
    requires AllAliased(items) && items != []
    requires q == EMPTY_SELECT.(items := items, from := Some(f))
    ensures HasColumns(q, ItemAliases(items))
  {
    forall v: World
      ensures ColumnsIn(q, ItemAliases(items), v)
    {
      PlainSelect(q, items, f, v);
    }
  }

  lemma TableProduces(s: Scan, names: Names, sig: Signature)
    requires s.TableScan? && WellFormed(s, names, sig)
    ensures Produces(TableSelect(s.cols, s.table, s.alias), Aliases(s.cols), s, sig)
  {
    var q := TableSelect(s.cols, s.table, s.alias);
    OwnAliasesCover(s.cols);
    PlainHasColumns(q, TableItems(s.cols), TableItem(s.table, s.alias));
    forall w: World, ctes: Ctes, v: World | InStep(w, ctes, v, sig)
      ensures RowsIn(q, Aliases(s.cols), s, w, ctes, v)
    {
      TableMeans(s, w, ctes, v);
    }
  }

  // ----- filter scan -----

  function FilterSelect(q: Select, alias: string, cond: Expr): Select {
    SelectStar(SubqueryItem(q, alias)).(where := Some(cond))
  }

  /** Two conditions that agree on every row keep the same positions. */
  lemma SameMask(
    list: seq<string>, alias: string, tuples: seq<Tuple>, input: seq<Col>, rows: seq<IdRow>,
    cond: ScanExpr, names: Names, w: World, v: World)
    requires RowsShow(list, tuples, input, rows) && Covers(list, input)
    requires Reads(cond, input) && Named(input, names) && SameOperators(w, v)
    ensures Mask(Some(ToSql(cond, names)), Rows(Relabel(list, alias), tuples), v) == PassMask(cond, rows, w)
  {
    forall i | 0 <= i < |rows|
      ensures Holds(Some(ToSql(cond, names)), Relabel(list, alias), tuples[i], v) == Passes(Some(cond), rows[i], w)
    {
      ShownIsReadable(list, alias, tuples[i], input, rows[i]);
      ExpressionAgrees(cond, input, names, Relabel(list, alias), tuples[i], rows[i], w, v);
    }
  }

  lemma NarrowAllShown(names: seq<string>, tuples: seq<Tuple>, wide: seq<Col>, cols: seq<Col>, rows: seq<IdRow>)
    requires RowsShow(names, tuples, wide, rows) && Subset(cols, wide) && DistinctIds(cols)
    ensures RowsShow(names, tuples, cols, NarrowAll(cols, rows))
  {
    forall i | 0 <= i < |rows|
      ensures Shows(names, tuples[i], cols, NarrowAll(cols, rows)[i])
    {
      NarrowShown(names, tuples[i], wide, cols, rows[i]);
    }
  }

  lemma FilterMeans(
    s: Scan, q: Select, list: seq<string>, alias: string, names: Names, rows: seq<IdRow>, w: World, v: World)
    requires s.FilterScan? && Subset(s.cols, s.input.cols) && DistinctIds(s.cols)
    requires Reads(s.cond, s.input.cols) && Named(s.input.cols, names) && SameOperators(w, v)
    requires EvalSelect(q, v).cols == list && Covers(list, s.input.cols)
    requires RowsShow(list, EvalSelect(q, v).rows, s.input.cols, rows)
    ensures RowsShow(list, EvalSelect(FilterSelect(q, alias, ToSql(s.cond, names)), v).rows, s.cols,
                     NarrowAll(s.cols, At(rows, Kept(PassMask(s.cond, rows, w)))))
  {
    StarSelect(q, alias, Some(ToSql(s.cond, names)), None, v);
    var tuples := EvalSelect(q, v).rows;
    SameMask(list, alias, tuples, s.input.cols, rows, s.cond, names, w, v);
    var ks := Kept(PassMask(s.cond, rows, w));
    NarrowAllShown(list, At(tuples, ks), s.input.cols, s.cols, At(rows, ks));
  }

  lemma StarHasColumns(q: Select, list: seq<string>, alias: string, where: Option<Expr>, limit: Option<Limit>)
    requires HasColumns(q, list)
    ensures HasColumns(SelectStar(SubqueryItem(q, alias)).(where := where, limit := limit), list)
  {
    var q' := SelectStar(SubqueryItem(q, alias)).(where := where, limit := limit);
    forall v: World
      ensures ColumnsIn(q', list, v)
    {
      assert ColumnsIn(q, list, v);
      StarSelect(q, alias, where, limit, v);
    }
  }

  lemma SubsetCovered(list: seq<string>, wide: seq<Col>, cols: seq<Col>)
    requires Covers(list, wide) && Subset(cols, wide)
    ensures Covers(list, cols)
  {
  }

  lemma FilterProduces(
    s: Scan, q: Select, list: seq<string>, alias: string, names: Names, sig: Signature)
    requires s.FilterScan? && WellFormed(s, names, sig) && Produces(q, list, s.input, sig)
    ensures Produces(FilterSelect(q, alias, ToSql(s.cond, names)), list, s, sig)
  {
    var q' := FilterSelect(q, alias, ToSql(s.cond, names));
    StarHasColumns(q, list, alias, Some(ToSql(s.cond, names)), None);
    SubsetCovered(list, s.input.cols, s.cols);
    forall w: World, ctes: Ctes, v: World | InStep(w, ctes, v, sig)
      ensures RowsIn(q', list, s, w, ctes, v)
    {
      InWorld(q, list, s.input, sig, w, ctes, v);
      FilterMeans(s, q, list, alias, names, ScanRows(s.input, w, ctes), w, v);
    }
  }

  // ----- project scan -----

  function ProjectedExpr(c: Col, computed: seq<Computed>, names: Names): Expr {
    var e := ComputedFor(computed, c.id);
    ToSql(if e.Some? then e.value else ColumnRef(c.id, OtherType), names)
  }

  function ProjectItems(cols: seq<Col>, computed: seq<Computed>, names: Names): (items: seq<Item>)
    ensures ItemAliases(items) == Aliases(cols) && AllAliased(items)
  {
    seq(|cols|, i requires 0 <= i < |cols| => Item(ProjectedExpr(cols[i], computed, names), Alias(cols[i]), false))
  }

  function ProjectSelect(q: Select, alias: string, items: seq<Item>): Select {
    EMPTY_SELECT.(items := items, from := Some(SubqueryItem(q, alias)))
  }

  ghost predicate ProjectReads(s: Scan)
    requires s.ProjectScan?
  {
    forall c :: c in s.cols ==>
      var e := ComputedFor(s.computed, c.id);
      if e.Some? then Reads(e.value, s.input.cols) else c in s.input.cols
  }

  lemma ProjectTupleShown(
    s: Scan, list: seq<string>, alias: string, t: Tuple, names: Names, row: IdRow, w: World, v: World)
    requires s.ProjectScan? && DistinctIds(s.cols) && ProjectReads(s)
    requires Named(s.input.cols, names) && SameOperators(w, v)
    requires Covers(list, s.input.cols) && Shows(list, t, s.input.cols, row)
    ensures EvalItems(ProjectItems(s.cols, s.computed, names), Relabel(list, alias), t, v)
         == ProjectedTuple(s.cols, s.computed, row, w)
  {
    ShownIsReadable(list, alias, t, s.input.cols, row);
    forall k | 0 <= k < |s.cols|
      ensures Eval(ProjectedExpr(s.cols[k], s.computed, names), Relabel(list, alias), t, v)
           == ProjectedValue(s.cols[k], s.computed, row, w)
    {
      var c := s.cols[k];
      assert c in s.cols;
      var e := ComputedFor(s.computed, c.id);
      ExpressionAgrees(if e.Some? then e.value else ColumnRef(c.id, OtherType), s.input.cols, names,
                       Relabel(list, alias), t, row, w, v);
    }
  }

  lemma ProjectMeans(
    s: Scan, q: Select, list: seq<string>, alias: string, names: Names, rows: seq<IdRow>, w: World, v: World)
    requires s.ProjectScan? && DistinctIds(s.cols) && ProjectReads(s)
    requires Named(s.input.cols, names) && SameOperators(w, v)
    requires EvalSelect(q, v).cols == list && Covers(list, s.input.cols)
    requires RowsShow(list, EvalSelect(q, v).rows, s.input.cols, rows)
    ensures RowsShow(Aliases(s.cols),
                     EvalSelect(ProjectSelect(q, alias, ProjectItems(s.cols, s.computed, names)), v).rows, s.cols,
                     seq(|rows|, i requires 0 <= i < |rows| =>
                       MakeRow(s.cols, ProjectedTuple(s.cols, s.computed, rows[i], w))))
  {
    var items := ProjectItems(s.cols, s.computed, names);
    var q' := ProjectSelect(q, alias, items);
    PlainSelect(q', items, SubqueryItem(q, alias), v);
    forall i | 0 <= i < |rows|
      ensures Shows(Aliases(s.cols), EvalSelect(q', v).rows[i], s.cols,
                    MakeRow(s.cols, ProjectedTuple(s.cols, s.computed, rows[i], w)))
    {
      ProjectTupleShown(s, list, alias, EvalSelect(q, v).rows[i], names, rows[i], w, v);
      MadeRowShown(s.cols, ProjectedTuple(s.cols, s.computed, rows[i], w));
    }
  }

  lemma ProjectProduces(
    s: Scan, q: Select, list: seq<string>, alias: string, names: Names, sig: Signature)
    requires s.ProjectScan? && WellFormed(s, names, sig) && Produces(q, list, s.input, sig)
    ensures Produces(ProjectSelect(q, alias, ProjectItems(s.cols, s.computed, names)), Aliases(s.cols), s, sig)
  {
    var items := ProjectItems(s.cols, s.computed, names);
    OwnAliasesCover(s.cols);
    PlainHasColumns(ProjectSelect(q, alias, items), items, SubqueryItem(q, alias));
    forall w: World, ctes: Ctes, v: World | InStep(w, ctes, v, sig)
      ensures RowsIn(ProjectSelect(q, alias, items), Aliases(s.cols), s, w, ctes, v)
    {
      InWorld(q, list, s.input, sig, w, ctes, v);
      ProjectMeans(s, q, list, alias, names, ScanRows(s.input, w, ctes), w, v);
    }
  }

  // ----- limit scan -----

  function LimitToSql(count: ScanExpr, offset: Option<ScanExpr>, names: Names): Limit {
    Limit(ToSql(count, names), if offset.Some? then Some(ToSql(offset.value, names)) else None)
  }

  function LimitSelect(q: Select, alias: string, limit: Limit): Select {
    SelectStar(SubqueryItem(q, alias)).(limit := Some(limit))
  }

  /** Count and offset are computed without a row, so both languages cut the same window. */
  lemma SameWindow(r: Rel, count: ScanExpr, offset: Option<ScanExpr>, names: Names, w: World, v: World)
    requires Reads(count, []) && (offset.Some? ==> Reads(offset.value, [])) && SameOperators(w, v)
    ensures
      var win := LimitWindow(count, offset, |r.rows|, w);
      LimitRel(r, Some(LimitToSql(count, offset, names)), v) == r.(rows := r.rows[win.0..win.0 + win.1])
  {
    ExpressionAgrees(count, [], names, [], [], map[], w, v);
    if offset.Some? {
      ExpressionAgrees(offset.value, [], names, [], [], map[], w, v);
    }
  }

  lemma LimitSelectRows(
    q: Select, alias: string, count: ScanExpr, offset: Option<ScanExpr>, names: Names,
    w: World, v: World)
    requires Reads(count, []) && (offset.Some? ==> Reads(offset.value, [])) && SameOperators(w, v)
    ensures
      var tuples := EvalSelect(q, v).rows;
      var win := LimitWindow(count, offset, |tuples|, w);
      EvalSelect(LimitSelect(q, alias, LimitToSql(count, offset, names)), v).rows == tuples[win.0..win.0 + win.1]
  {
    hide EvalSelect, Reads, SameOperators, Relabel, LimitRel, LimitWindow;
    var r := EvalSelect(q, v);
    StarSelect(q, alias, None, Some(LimitToSql(count, offset, names)), v);
    FilterNothing(Rows(Relabel(r.cols, alias), r.rows), v);
    SameWindow(r, count, offset, names, w, v);
  }

  lemma SliceShown(
    list: seq<string>, tuples: seq<Tuple>, wide: seq<Col>, cols: seq<Col>, rows: seq<IdRow>, lo: nat, hi: nat)
    requires RowsShow(list, tuples, wide, rows) && Subset(cols, wide) && DistinctIds(cols) && lo <= hi <= |rows|
    ensures RowsShow(list, tuples[lo..hi], cols, NarrowAll(cols, rows[lo..hi]))
  {
    forall i | 0 <= i < hi - lo
      ensures Shows(list, tuples[lo..hi][i], cols, NarrowAll(cols, rows[lo..hi])[i])
    {
      NarrowShown(list, tuples[lo + i], wide, cols, rows[lo + i]);
    }
  }

  lemma LimitMeans(
    s: Scan, q: Select, list: seq<string>, alias: string, names: Names, rows: seq<IdRow>, w: World, v: World)
    requires s.LimitScan? && Subset(s.cols, s.input.cols) && DistinctIds(s.cols)
    requires Reads(s.count, []) && (s.offset.Some? ==> Reads(s.offset.value, [])) && SameOperators(w, v)
    requires RowsShow(list, EvalSelect(q, v).rows, s.input.cols, rows)
    ensures
      var win := LimitWindow(s.count, s.offset, |rows|, w);
      RowsShow(list, EvalSelect(LimitSelect(q, alias, LimitToSql(s.count, s.offset, names)), v).rows, s.cols,
               NarrowAll(s.cols, rows[win.0..win.0 + win.1]))
  {
    hide Reads, SameOperators, EvalSelect, Shows;
    LimitSelectRows(q, alias, s.count, s.offset, names, w, v);
    var win := LimitWindow(s.count, s.offset, |rows|, w);
    SliceShown(list, EvalSelect(q, v).rows, s.input.cols, s.cols, rows, win.0, win.0 + win.1);
  }

  lemma LimitRowsIn(
    s: Scan, q: Select, list: seq<string>, alias: string, names: Names, sig: Signature,
    w: World, ctes: Ctes, v: World)
    requires s.LimitScan? && Subset(s.cols, s.input.cols) && DistinctIds(s.cols)
    requires Reads(s.count, []) && (s.offset.Some? ==> Reads(s.offset.value, []))
    requires Produces(q, list, s.input, sig) && InStep(w, ctes, v, sig)
    ensures RowsIn(LimitSelect(q, alias, LimitToSql(s.count, s.offset, names)), list, s, w, ctes, v)
  {
    hide Produces, EvalSelect, Reads, RowsShow;
    InWorld(q, list, s.input, sig, w, ctes, v);
    LimitMeans(s, q, list, alias, names, ScanRows(s.input, w, ctes), w, v);
  }

  lemma LimitProduces(
    s: Scan, q: Select, list: seq<string>, alias: string, names: Names, sig: Signature)
    requires s.LimitScan? && WellFormed(s, names, sig) && Produces(q, list, s.input, sig)
    ensures Produces(LimitSelect(q, alias, LimitToSql(s.count, s.offset, names)), list, s, sig)
  {
    var limit := LimitToSql(s.count, s.offset, names);
    StarHasColumns(q, list, alias, None, Some(limit));
    SubsetCovered(list, s.input.cols, s.cols);
    forall w: World, ctes: Ctes, v: World | InStep(w, ctes, v, sig)
      ensures RowsIn(LimitSelect(q, alias, limit), list, s, w, ctes, v)
    {
      LimitRowsIn(s, q, list, alias, names, sig, w, ctes, v);
    }
  }
}
