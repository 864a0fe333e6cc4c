/**
 For each kind of scan, the statement its transformer builds means what the scan means.
 The statement's rows are tuples; a tuple shows a row when it holds, under each column's own name,
 the value the row gives that column's ID.
 */
module ScanMeaning {
  import opened Wrappers
  import opened SqlAst
  import opened SqlSemantics
  import opened Scans
  import opened ExpressionMeaning
  import opened CompiledColumns

  ghost predicate Shows(names: seq<string>, t: Tuple, cols: seq<Col>, row: IdRow) {
    && |t| == |names|
    && forall i, p :: 0 <= i < |cols| && 0 <= p < |names| && names[p] == Alias(cols[i]) ==>
         t[p] == Get(row, cols[i].id)
  }

  ghost predicate RowsShow(names: seq<string>, tuples: seq<Tuple>, cols: seq<Col>, rows: seq<IdRow>) {
    |tuples| == |rows| && forall i :: 0 <= i < |rows| ==> Shows(names, tuples[i], cols, rows[i])
  }

  /** The SQL world holds the base tables unchanged and, for each CTE in scope, a table showing its rows. */
  ghost predicate Simulates(w: World, ctes: Ctes, v: World) {
    && SameOperators(w, v)
    && (forall t :: t !in ctes ==> (t in w.tables <==> t in v.tables))
    && (forall t :: t !in ctes && t in w.tables ==> v.tables[t] == w.tables[t])
    && (forall n :: n in ctes ==>
          && n in v.tables
          && Lists(v.tables[n].cols, ctes[n].cols)
          && RowsShow(v.tables[n].cols, v.tables[n].rows, ctes[n].cols, ctes[n].rows))
  }

  ghost predicate Provides(sig: Signature, ctes: Ctes) {
    ctes.Keys == sig.Keys && forall n :: n in sig ==> ctes[n].cols == sig[n]
  }

  ghost predicate ColumnsIn(q: Select, names: seq<string>, v: World) {
    EvalSelect(q, v).cols == names
  }

  /** The statement's columns are the given names, in every world. */
  ghost predicate HasColumns(q: Select, names: seq<string>) {
    && SelectListOf(q).Some?
    && ItemAliases(SelectListOf(q).value) == names
    && forall v: World :: ColumnsIn(q, names, v)
  }

  /** The SQL world runs the same query as the scan's world, for the same common table expressions. */
  ghost predicate InStep(w: World, ctes: Ctes, v: World, sig: Signature) {
    Simulates(w, ctes, v) && Provides(sig, ctes)
  }

  ghost predicate RowsIn(q: Select, names: seq<string>, s: Scan, w: World, ctes: Ctes, v: World) {
    RowsShow(names, EvalSelect(q, v).rows, s.cols, ScanRows(s, w, ctes))
  }

  /** In every world, the statement's rows show the scan's rows, in order. */
  ghost predicate Means(q: Select, names: seq<string>, s: Scan, sig: Signature) {
    forall w: World, ctes: Ctes, v: World :: InStep(w, ctes, v, sig) ==> RowsIn(q, names, s, w, ctes, v)
  }

  ghost predicate Produces(q: Select, names: seq<string>, s: Scan, sig: Signature) {
    HasColumns(q, names) && Covers(names, s.cols) && Means(q, names, s, sig)
  }

  lemma InWorld(q: Select, names: seq<string>, s: Scan, sig: Signature, w: World, ctes: Ctes, v: World)
    requires Produces(q, names, s, sig) && InStep(w, ctes, v, sig)
    ensures EvalSelect(q, v).cols == names
    ensures RowsShow(names, EvalSelect(q, v).rows, s.cols, ScanRows(s, w, ctes))
  {
    assert ColumnsIn(q, names, v) && RowsIn(q, names, s, w, ctes, v);
  }

  /** What `TransformScan` returns after validation: exactly the scan's columns, with the scan's rows. */
  ghost predicate Compiled(q: Select, s: Scan, sig: Signature) {
    exists names :: Produces(q, names, s, sig) && Lists(names, s.cols)
  }

  // ----- tuples and rows -----

  lemma LookupHit(names: seq<string>, alias: string, table: string, t: Tuple, p: nat)
    requires DistinctStrings(names) && p < |names| == |t|
    requires table == "" || table == alias
    ensures Lookup(Relabel(names, alias), t, table, names[p]) == t[p]
  {
    assert ResolvesTo(Relabel(names, alias), p, table, names[p]);
    ResolveUnique(Relabel(names, alias), p, table, names[p]);
  }

  lemma ShownIsReadable(names: seq<string>, alias: string, t: Tuple, cols: seq<Col>, row: IdRow)
    requires Shows(names, t, cols, row) && Covers(names, cols)
    ensures Readable(Relabel(names, alias), t, cols, row)
  {
    forall c | c in cols
      ensures Lookup(Relabel(names, alias), t, "", Alias(c)) == Get(row, c.id)
    {
      var p :| 0 <= p < |names| && names[p] == Alias(c);
      LookupHit(names, alias, "", t, p);
    }
  }

  /** A tuple whose positions are named after the columns shows the row made of its values. */
  lemma MadeRowShown(cols: seq<Col>, t: Tuple)
    requires |t| == |cols| && DistinctIds(cols)
    ensures Shows(Aliases(cols), t, cols, MakeRow(cols, t))
  {
    DistinctAliases(cols);
    forall i, p | 0 <= i < |cols| && 0 <= p < |cols| && Aliases(cols)[p] == Alias(cols[i])
      ensures t[p] == Get(MakeRow(cols, t), cols[i].id)
    {
      assert Aliases(cols)[i] == Alias(cols[i]);
      assert p == i;
      MakeRowGet(cols, t, i);
    }
  }

  lemma NarrowShown(names: seq<string>, t: Tuple, wide: seq<Col>, cols: seq<Col>, row: IdRow)
    requires Shows(names, t, wide, row) && Subset(cols, wide) && DistinctIds(cols)
    ensures Shows(names, t, cols, Narrow(cols, row))
  {
    forall i, p | 0 <= i < |cols| && 0 <= p < |names| && names[p] == Alias(cols[i])
      ensures t[p] == Get(Narrow(cols, row), cols[i].id)
    {
      assert cols[i] in wide;
      var k :| 0 <= k < |wide| && wide[k] == cols[i];
      MakeRowGet(cols, RowTuple(cols, row), i);
    }
  }

  lemma OwnAliasesCover(cols: seq<Col>)
    requires DistinctIds(cols)
    ensures Covers(Aliases(cols), cols) && Lists(Aliases(cols), cols)
  {
    DistinctAliases(cols);
    forall c | c in cols
      ensures Alias(c) in Aliases(cols)
    {
      var i :| 0 <= i < |cols| && cols[i] == c;
      assert Aliases(cols)[i] == Alias(c);
    }
  }

  // ----- statements -----

  lemma StarKeepsTuples(b: bool, rows: Rows, w: World)
    ensures Project([Item(Star(""), "", b)], rows, w) == Rel(SlotNames(rows.shape), rows.tuples)
  {
    var items := [Item(Star(""), "", b)];
    assert items[1..] == [];
    assert OutCols(items, rows.shape) == SlotNames(rows.shape);
    forall i | 0 <= i < |rows.tuples|
      ensures ProjectTuple(items, rows.shape, rows.tuples[i], w) == rows.tuples[i]
    {
      assert ProjectTuple([], rows.shape, rows.tuples[i], w) == [];
    }
    assert ProjectAll(items, rows, w) == rows.tuples;
  }

  predicate StarFree(items: seq<Item>) {
    forall i :: 0 <= i < |items| ==> !IsStarItem(items[i])
  }

  predicate AllAliased(items: seq<Item>) {
    forall i :: 0 <= i < |items| ==> items[i].alias != "" && !IsStarItem(items[i]) && !items[i].isStarExpansion
  }

  lemma {:induction false} AliasedOutCols(items: seq<Item>, shape: seq<Slot>)
    requires AllAliased(items)
    ensures OutCols(items, shape) == ItemAliases(items)
  {
    if items != [] {
      AliasedOutCols(items[1..], shape);
    }
  }

  ghost function EvalItems(items: seq<Item>, shape: seq<Slot>, t: Tuple, w: World): (r: Tuple)
    ensures |r| == |items| && forall k :: 0 <= k < |r| ==> r[k] == Eval(items[k].expr, shape, t, w)
  {
    seq(|items|, i requires 0 <= i < |items| => Eval(items[i].expr, shape, t, w))
  }

  lemma {:induction false} AliasedTuple(items: seq<Item>, shape: seq<Slot>, t: Tuple, w: World)
    requires StarFree(items)
    ensures ProjectTuple(items, shape, t, w) == EvalItems(items, shape, t, w)
  {
    if items != [] {
      AliasedTuple(items[1..], shape, t, w);
      assert EvalItems(items, shape, t, w)
          == [Eval(items[0].expr, shape, t, w)] + EvalItems(items[1..], shape, t, w);
    }
  }

  /** `SELECT <aliased items> FROM f`: one tuple per tuple of f, position by position. */
  lemma PlainSelect(q: Select, items: seq<Item>, f: FromItem, v: World)
    requires AllAliased(items)
    requires q == EMPTY_SELECT.(items := items, from := Some(f))
    ensures EvalSelect(q, v).cols == ItemAliases(items)
    ensures |EvalSelect(q, v).rows| == |EvalFrom(f, v).tuples|
    ensures forall i :: 0 <= i < |EvalSelect(q, v).rows| ==>
      EvalSelect(q, v).rows[i] == EvalItems(items, EvalFrom(f, v).shape, EvalFrom(f, v).tuples[i], v)
  {
    var rows := EvalFrom(f, v);
    FilterNothing(rows, v);
    AliasedOutCols(items, rows.shape);
    forall i | 0 <= i < |rows.tuples|
      ensures ProjectTuple(items, rows.shape, rows.tuples[i], v) == EvalItems(items, rows.shape, rows.tuples[i], v)
    {
      AliasedTuple(items, rows.shape, rows.tuples[i], v);
    }
  }

  lemma {:induction false} KeptAll(mask: seq<bool>)
    requires forall i :: 0 <= i < |mask| ==> mask[i]
    ensures Kept(mask) == seq(|mask|, i requires 0 <= i < |mask| => i)
  {
    if mask != [] {
      KeptAll(mask[..|mask| - 1]);
    }
  }

  lemma FilterNothing(rows: Rows, w: World)
    ensures Filter(rows, None, w) == rows
  {
    KeptAll(Mask(None, rows, w));
    assert Filter(rows, None, w).tuples == rows.tuples;
  }

  lemma RelabelNames(names: seq<string>, alias: string)
    ensures SlotNames(Relabel(names, alias)) == names
  {
  }

  /** `SELECT * FROM (q) AS alias WHERE cond LIMIT ...` filters and cuts the rows of q. */
  lemma StarSelect(q: Select, alias: string, where: Option<Expr>, limit: Option<Limit>, v: World)
    ensures
      var r := EvalSelect(SelectStar(SubqueryItem(q, alias)).(where := where, limit := limit), v);
      var rows := Filter(Rows(Relabel(EvalSelect(q, v).cols, alias), EvalSelect(q, v).rows), where, v);
      r == LimitRel(Rel(EvalSelect(q, v).cols, rows.tuples), limit, v)
  {
    var s := SelectStar(SubqueryItem(q, alias)).(where := where, limit := limit);
    assert EvalWiths(s.withs, v) == v;
    var from := EvalFrom(SubqueryItem(q, alias), v);
    var rows := Filter(from, where, v);
    StarKeepsTuples(false, rows, v);
    RelabelNames(EvalSelect(q, v).cols, alias);
  }
}
