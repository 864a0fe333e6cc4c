/** The join transformer (internal/transformer_scan_join.go): columns of both sides, rows by pairing. */
module JoinMeaning {
  import opened Wrappers
  import opened SqlAst
  import opened SqlSemantics
  import opened Scans
  import opened ExpressionMeaning
  import opened CompiledColumns
  import opened ScanMeaning

  function JoinSelect(
    kind: JoinType, q: Select, alias: string, q': Select, alias': string, cond: Option<Expr>): Select
  {
    EMPTY_SELECT.(
      items := [Item(Star(""), "", false)],
      from := Some(JoinItem(kind, SubqueryItem(q, alias), SubqueryItem(q', alias'), cond, "")))
  }

  ghost predicate KeysIn(row: IdRow, cols: seq<Col>) {
    forall id :: id in row ==> Ids(cols, id)
  }

  lemma ScanRowsKeys(s: Scan, w: World, ctes: Ctes)
    ensures forall i :: 0 <= i < |ScanRows(s, w, ctes)| ==> KeysIn(ScanRows(s, w, ctes)[i], s.cols)
  {
    var rows := ScanRows(s, w, ctes);
    forall i | 0 <= i < |rows|
      ensures KeysIn(rows[i], s.cols)
    {
      MadeRowKeys(s, w, ctes, i);
    }
  }

  lemma MadeRowKeys(s: Scan, w: World, ctes: Ctes, i: nat)
    requires i < |ScanRows(s, w, ctes)|
    ensures KeysIn(ScanRows(s, w, ctes)[i], s.cols)
  {
    match s
    case TableScan(cols, table, _) =>
      MakeRowKeys(cols, ReadTuple(cols, w.tables[table], w.tables[table].rows[i]));
    case FilterScan(cols, input, cond) =>
      var rows := ScanRows(input, w, ctes);
      MakeRowKeys(cols, RowTuple(cols, At(rows, Kept(PassMask(cond, rows, w)))[i]));
    case ProjectScan(cols, input, computed) =>
      MakeRowKeys(cols, ProjectedTuple(cols, computed, ScanRows(input, w, ctes)[i], w));
    case JoinScan(cols, kind, left, right, on) =>
      var ls, rs := ScanRows(left, w, ctes), ScanRows(right, w, ctes);
      var ps := Pairings(kind, PassMatrix(ls, rs, on, w), |rs|);
      MakeRowKeys(cols, RowTuple(cols, PairRows(ps, ls, left.cols, rs, right.cols)[i]));
    case LimitScan(cols, input, count, offset) =>
      var rows := ScanRows(input, w, ctes);
      var win := LimitWindow(count, offset, |rows|, w);
      MakeRowKeys(cols, RowTuple(cols, rows[win.0..win.0 + win.1][i]));
    case SetOpScan(cols, _, _, items) =>
      MakeRowKeys(cols, Resized(QueriesRows(items, w, ctes)[i], |cols|));
    case WithScan(cols, entries, query, _) =>
      MakeRowKeys(cols, RowTuple(cols, ScanRows(query, w, EntriesRows(entries, w, ctes))[i]));
    case WithRefScan(cols, name) =>
      MakeRowKeys(cols, Resized(RowTuple(ctes[name].cols, ctes[name].rows[i]), |cols|));
  }

  lemma ListedNames(names: seq<string>, cols: seq<Col>)
    requires Lists(names, cols) && DistinctIds(cols)
    ensures forall n :: n in names ==> n in Aliases(cols)
  {
    AcceptedIffLists(names, cols);
  }

  /** Columns with different IDs have different names, so the two sides never share a name. */
  lemma SidesDisjoint(names: seq<string>, cols: seq<Col>, names': seq<string>, cols': seq<Col>)
    requires Lists(names, cols) && Lists(names', cols') && DistinctIds(cols + cols')
    ensures forall n :: n in names ==> n !in names'
    ensures DistinctIds(cols) && DistinctIds(cols')
    ensures forall i :: 0 <= i < |cols| ==> Alias(cols[i]) !in names'
    ensures forall i :: 0 <= i < |cols'| ==> Alias(cols'[i]) !in names
  {
    DistinctParts(cols, cols');
    ListedNames(names, cols);
    ListedNames(names', cols');
    forall i, j | 0 <= i < |cols| && 0 <= j < |cols'|
      ensures Alias(cols[i]) != Alias(cols'[j])
    {
      assert (cols + cols')[i] == cols[i] && (cols + cols')[|cols| + j] == cols'[j];
      if Alias(cols[i]) == Alias(cols'[j]) {
        AliasInjective(cols[i], cols'[j]);
      }
    }
  }

  lemma DistinctParts(cols: seq<Col>, cols': seq<Col>)
    requires DistinctIds(cols + cols')
    ensures DistinctIds(cols) && DistinctIds(cols')
    ensures forall i, j :: 0 <= i < |cols| && 0 <= j < |cols'| ==> cols[i].id != cols'[j].id
  {
    forall i, j | 0 <= i < |cols| && 0 <= j < |cols'|
      ensures cols[i].id != cols'[j].id
    {
      assert (cols + cols')[i] == cols[i] && (cols + cols')[|cols| + j] == cols'[j];
    }
    forall i, j | 0 <= i < j < |cols|
      ensures cols[i].id != cols[j].id
    {
      assert (cols + cols')[i] == cols[i] && (cols + cols')[j] == cols[j];
    }
    forall i, j | 0 <= i < j < |cols'|
      ensures cols'[i].id != cols'[j].id
    {
      assert (cols + cols')[|cols| + i] == cols'[i] && (cols + cols')[|cols| + j] == cols'[j];
    }
  }

  lemma JoinCovers(names: seq<string>, cols: seq<Col>, names': seq<string>, cols': seq<Col>)
    requires Lists(names, cols) && Lists(names', cols') && DistinctIds(cols + cols')
    ensures Covers(names + names', cols + cols')
  {
    SidesDisjoint(names, cols, names', cols');
    forall i, j | 0 <= i < j < |names + names'|
      ensures (names + names')[i] != (names + names')[j]
    {
      if i < |names| <= j {
        assert names[i] in names;
        assert names'[j - |names|] in names';
      }
    }
  }

  lemma GetMerged(row: IdRow, cols: seq<Col>, row': IdRow, cols': seq<Col>, i: nat)
    requires KeysIn(row, cols) && KeysIn(row', cols') && DistinctIds(cols + cols') && i < |cols + cols'|
    ensures Get(row + row', (cols + cols')[i].id)
         == if i < |cols| then Get(row, cols[i].id) else Get(row', cols'[i - |cols|].id)
  {
    DistinctParts(cols, cols');
    if i < |cols| {
      assert !Ids(cols', cols[i].id);
    } else {
      assert !Ids(cols, cols'[i - |cols|].id);
    }
  }

  /** Concatenated tuples show merged rows. */
  lemma MergedShown(
    names: seq<string>, t: Tuple, cols: seq<Col>, row: IdRow,
    names': seq<string>, t': Tuple, cols': seq<Col>, row': IdRow)
    requires Lists(names, cols) && Lists(names', cols') && DistinctIds(cols + cols')
    requires KeysIn(row, cols) && KeysIn(row', cols')
    requires Shows(names, t, cols, row) && Shows(names', t', cols', row')
    ensures Shows(names + names', t + t', cols + cols', row + row')
  {
    SidesDisjoint(names, cols, names', cols');
    forall i, p | 0 <= i < |cols + cols'| && 0 <= p < |names + names'|
                  && (names + names')[p] == Alias((cols + cols')[i])
      ensures (t + t')[p] == Get(row + row', (cols + cols')[i].id)
    {
      GetMerged(row, cols, row', cols', i);
      if p < |names| {
        assert names[p] in names && (t + t')[p] == t[p];
      } else {
        assert names'[p - |names|] in names' && (t + t')[p] == t'[p - |names|];
      }
    }
  }

  lemma ConcatReadable(shape: seq<Slot>, t: Tuple, cols: seq<Col>, row: IdRow)
    requires Shows(SlotNames(shape), t, cols, row) && Covers(SlotNames(shape), cols)
    ensures Readable(shape, t, cols, row)
  {
    var names := SlotNames(shape);
    forall c | c in cols
      ensures Lookup(shape, t, "", Alias(c)) == Get(row, c.id)
    {
      var p: nat :| p < |names| && names[p] == Alias(c);
      forall k: nat | Matches(shape, k, "", Alias(c))
        ensures k == p
      {
        assert names[k] == names[p];
      }
      ResolveUnique(shape, p, "", Alias(c));
    }
  }

  lemma NullShown(names: seq<string>, cols: seq<Col>)
    requires DistinctIds(cols)
    ensures Shows(names, NullTuple(|names|), cols, MakeRow(cols, NullTuple(|cols|)))
    ensures KeysIn(MakeRow(cols, NullTuple(|cols|)), cols)
  {
    MakeRowKeys(cols, NullTuple(|cols|));
    forall i | 0 <= i < |cols|
      ensures Get(MakeRow(cols, NullTuple(|cols|)), cols[i].id) == Null
    {
      MakeRowGet(cols, NullTuple(|cols|), i);
    }
  }

  lemma PickShown(p: Option<nat>, names: seq<string>, tuples: seq<Tuple>, cols: seq<Col>, rows: seq<IdRow>)
    requires RowsShow(names, tuples, cols, rows) && DistinctIds(cols)
    requires forall i :: 0 <= i < |rows| ==> KeysIn(rows[i], cols)
    ensures Shows(names, Pick(p, tuples, |names|), cols, PickRow(p, rows, cols))
    ensures KeysIn(PickRow(p, rows, cols), cols)
  {
    NullShown(names, cols);
  }

  /** One side of a join: a compiled statement's rows beside the scan's. */
  datatype Side = Side(names: seq<string>, alias: string, tuples: seq<Tuple>, cols: seq<Col>, rows: seq<IdRow>)

  ghost predicate Agree(x: Side) {
    && Lists(x.names, x.cols)
    && RowsShow(x.names, x.tuples, x.cols, x.rows)
    && forall i :: 0 <= i < |x.rows| ==> KeysIn(x.rows[i], x.cols)
  }

  function SideRows(x: Side): Rows {
    Rows(Relabel(x.names, x.alias), x.tuples)
  }

  lemma SameMatrix(x: Side, y: Side, on: Option<ScanExpr>, cond: Option<Expr>, names: Names, w: World, v: World)
    requires Agree(x) && Agree(y) && DistinctIds(x.cols + y.cols)
    requires Named(x.cols + y.cols, names) && SameOperators(w, v)
    requires on.Some? ==> Reads(on.value, x.cols + y.cols)
    requires cond == if on.Some? then Some(ToSql(on.value, names)) else None
    ensures MatchMatrix(SideRows(x), SideRows(y), cond, v) == PassMatrix(x.rows, y.rows, on, w)
  {
    var m, m' := MatchMatrix(SideRows(x), SideRows(y), cond, v), PassMatrix(x.rows, y.rows, on, w);
    forall i | 0 <= i < |x.rows|
      ensures m[i] == m'[i]
    {
      forall j | 0 <= j < |y.rows|
        ensures m[i][j] == m'[i][j]
      {
        SameCondition(x, y, i, j, on, cond, names, w, v);
      }
    }
  }

  lemma SameCondition(
    x: Side, y: Side, i: nat, j: nat, on: Option<ScanExpr>, cond: Option<Expr>, names: Names, w: World, v: World)
    requires Agree(x) && Agree(y) && DistinctIds(x.cols + y.cols) && i < |x.rows| && j < |y.rows|
    requires Named(x.cols + y.cols, names) && SameOperators(w, v)
    requires on.Some? ==> Reads(on.value, x.cols + y.cols)
    requires cond == if on.Some? then Some(ToSql(on.value, names)) else None
    ensures Holds(cond, SideRows(x).shape + SideRows(y).shape, x.tuples[i] + y.tuples[j], v)
        <==> Passes(on, x.rows[i] + y.rows[j], w)
  {
    if on.Some? {
      var shape := SideRows(x).shape + SideRows(y).shape;
      assert SlotNames(shape) == x.names + y.names;
      JoinCovers(x.names, x.cols, y.names, y.cols);
      MergedShown(x.names, x.tuples[i], x.cols, x.rows[i], y.names, y.tuples[j], y.cols, y.rows[j]);
      ConcatReadable(shape, x.tuples[i] + y.tuples[j], x.cols + y.cols, x.rows[i] + y.rows[j]);
      ExpressionAgrees(on.value, x.cols + y.cols, names, shape, x.tuples[i] + y.tuples[j],
                       x.rows[i] + y.rows[j], w, v);
    }
  }

  lemma PairsShown(ps: seq<Pairing>, x: Side, y: Side)
    requires Agree(x) && Agree(y) && DistinctIds(x.cols + y.cols)
    ensures RowsShow(x.names + y.names, PairTuples(ps, SideRows(x), SideRows(y)),
                     x.cols + y.cols, PairRows(ps, x.rows, x.cols, y.rows, y.cols))
  {
    DistinctParts(x.cols, y.cols);
    forall k | 0 <= k < |ps|
      ensures Shows(x.names + y.names, PairTuples(ps, SideRows(x), SideRows(y))[k],
                    x.cols + y.cols, PairRows(ps, x.rows, x.cols, y.rows, y.cols)[k])
    {
      PickShown(ps[k].l, x.names, x.tuples, x.cols, x.rows);
      PickShown(ps[k].r, y.names, y.tuples, y.cols, y.rows);
      MergedShown(x.names, Pick(ps[k].l, x.tuples, |x.names|), x.cols, PickRow(ps[k].l, x.rows, x.cols),
                  y.names, Pick(ps[k].r, y.tuples, |y.names|), y.cols, PickRow(ps[k].r, y.rows, y.cols));
    }
  }

  lemma JoinSelectEval(
    kind: JoinType, q: Select, alias: string, q': Select, alias': string, cond: Option<Expr>, v: World)
    ensures
      var r, r' := EvalSelect(q, v), EvalSelect(q', v);
      var left, right := Rows(Relabel(r.cols, alias), r.rows), Rows(Relabel(r'.cols, alias'), r'.rows);
      var rows := JoinRows(kind, left, right, cond, v);
      EvalSelect(JoinSelect(kind, q, alias, q', alias', cond), v) == Rel(r.cols + r'.cols, rows.tuples)
  {
    var s := JoinSelect(kind, q, alias, q', alias', cond);
    assert EvalWiths(s.withs, v) == v;
    var rows := EvalFrom(s.from.value, v);
    FilterNothing(rows, v);
    StarKeepsTuples(false, rows, v);
    var cols, cols' := EvalSelect(q, v).cols, EvalSelect(q', v).cols;
    assert EvalFrom(SubqueryItem(q, alias), v).shape == Relabel(cols, alias);
    assert EvalFrom(SubqueryItem(q', alias'), v).shape == Relabel(cols', alias');
    assert rows.shape == Relabel(cols, alias) + Relabel(cols', alias');
    assert SlotNames(rows.shape) == cols + cols';
  }

  lemma JoinHasColumns(
    kind: JoinType, q: Select, names: seq<string>, alias: string,
    q': Select, names': seq<string>, alias': string, cond: Option<Expr>)
    requires HasColumns(q, names) && HasColumns(q', names')
    ensures HasColumns(JoinSelect(kind, q, alias, q', alias', cond), names + names')
  {
    var s := JoinSelect(kind, q, alias, q', alias', cond);
    assert ItemAliases(SelectListOf(s).value) == names + names';
    forall v: World
      ensures ColumnsIn(s, names + names', v)
    {
      assert ColumnsIn(q, names, v) && ColumnsIn(q', names', v);
      JoinSelectEval(kind, q, alias, q', alias', cond, v);
    }
  }

  lemma JoinMeans(
    s: Scan, q: Select, x: Side, q': Select, y: Side, names: Names, w: World, v: World)
    requires s.JoinScan? && DistinctIds(s.cols) && Subset(s.cols, x.cols + y.cols)
    requires EvalSelect(q, v) == Rel(x.names, x.tuples) && EvalSelect(q', v) == Rel(y.names, y.tuples)
    requires Agree(x) && Agree(y) && DistinctIds(x.cols + y.cols)
    requires Named(x.cols + y.cols, names) && SameOperators(w, v)
    requires s.on.Some? ==> Reads(s.on.value, x.cols + y.cols)
    ensures
      var cond := if s.on.Some? then Some(ToSql(s.on.value, names)) else None;
      var ps := Pairings(s.kind, PassMatrix(x.rows, y.rows, s.on, w), |y.rows|);
      RowsShow(x.names + y.names, EvalSelect(JoinSelect(s.kind, q, x.alias, q', y.alias, cond), v).rows, s.cols,
               NarrowAll(s.cols, PairRows(ps, x.rows, x.cols, y.rows, y.cols)))
  {
    var cond := if s.on.Some? then Some(ToSql(s.on.value, names)) else None;
    JoinSelectEval(s.kind, q, x.alias, q', y.alias, cond, v);
    SameMatrix(x, y, s.on, cond, names, w, v);
    var ps := Pairings(s.kind, PassMatrix(x.rows, y.rows, s.on, w), |y.rows|);
    PairsShown(ps, x, y);
    var tuples, rows := PairTuples(ps, SideRows(x), SideRows(y)), PairRows(ps, x.rows, x.cols, y.rows, y.cols);
    forall i | 0 <= i < |rows|
      ensures Shows(x.names + y.names, tuples[i], s.cols, NarrowAll(s.cols, rows)[i])
    {
      NarrowShown(x.names + y.names, tuples[i], x.cols + y.cols, s.cols, rows[i]);
    }
  }

  lemma JoinProduces(
    s: Scan, q: Select, list: seq<string>, alias: string, q': Select, list': seq<string>, alias': string,
    names: Names, sig: Signature)
    requires s.JoinScan? && WellFormed(s, names, sig)
    requires Produces(q, list, s.left, sig) && Lists(list, s.left.cols)
    requires Produces(q', list', s.right, sig) && Lists(list', s.right.cols)
    ensures
      var cond := if s.on.Some? then Some(ToSql(s.on.value, names)) else None;
      Produces(JoinSelect(s.kind, q, alias, q', alias', cond), list + list', s, sig)
  {
    var cond := if s.on.Some? then Some(ToSql(s.on.value, names)) else None;
    var j := JoinSelect(s.kind, q, alias, q', alias', cond);
    JoinHasColumns(s.kind, q, list, alias, q', list', alias', cond);
    JoinCovers(list, s.left.cols, list', s.right.cols);
    forall w: World, ctes: Ctes, v: World | InStep(w, ctes, v, sig)
      ensures RowsIn(j, list + list', s, w, ctes, v)
    {
      InWorld(q, list, s.left, sig, w, ctes, v);
      InWorld(q', list', s.right, sig, w, ctes, v);
      ScanRowsKeys(s.left, w, ctes);
      ScanRowsKeys(s.right, w, ctes);
      var x := Side(list, alias, EvalSelect(q, v).rows, s.left.cols, ScanRows(s.left, w, ctes));
      var y := Side(list', alias', EvalSelect(q', v).rows, s.right.cols, ScanRows(s.right, w, ctes));
      JoinMeans(s, q, x, q', y, names, w, v);
    }
  }
}
