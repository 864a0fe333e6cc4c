/**
 The sides of a compiled join, as flattening sees them: which are unwrapped (canUnwrapSubquery,
 internal/sqlbuilder_flatten.go:226-256), what they come down to, and that their columns are still read right.
 */
module CompiledLeaves {
  import opened SqlAst
  import opened SqlSemantics
  import opened Scans
  import opened Operators
  import opened ExpressionMeaning
  import opened CompiledColumns
  import opened ScanMeaning
  import opened NodeMeaning
  import opened JoinMeaning
  import opened SetWithMeaning
  import opened CompiledShape
  import opened CompiledExpressions
  import opened Flattening
  import opened SelectAlgebra
  import opened JoinFlattening

  // ----- which sides are unwrapped -----

  /** The scan's statement only lists columns. */
  predicate Unwrapped(s: Scan) {
    match s
    case TableScan(_, _, _) => true
    case WithRefScan(_, _) => true
    case SetOpScan(_, _, _, _) => true
    case ProjectScan(cols, _, computed) =>
      forall i :: 0 <= i < |cols| ==>
        ComputedFor(computed, cols[i].id).Some? ==> ComputedFor(computed, cols[i].id).value.ColumnRef?
    case _ => false
  }

  lemma ColumnIffReference(e: ScanExpr, names: Names)
    ensures ToSql(e, names).Column? <==> e.ColumnRef?
  {
  }

  lemma ListUnwraps(q: Select, alias: string)
    requires q == EMPTY_SELECT.(items := q.items, from := q.from) && q.from.Some?
    requires q.items != [] && AllAliased(q.items)
    ensures Unwraps(SubqueryItem(q, alias)) <==> forall i :: 0 <= i < |q.items| ==> q.items[i].expr.Column?
  {
  }

  lemma StarStays(q: Select, alias: string)
    requires q.items == [Item(Star(""), "", false)]
    ensures !Unwraps(SubqueryItem(q, alias))
  {
    assert !q.items[0].isStarExpansion && !q.items[0].expr.Column?;
  }

  lemma ProjectUnwrapsIff(q: Select, s: Scan, alias: string, names: Names, sig: Signature)
    requires s.ProjectScan? && BuiltFrom(q, s, names, sig) && s.cols != []
    ensures Unwraps(SubqueryItem(q, alias)) <==> Unwrapped(s)
  {
    assert |q.items| == |ItemAliases(q.items)| == |Aliases(s.cols)|;
    ListUnwraps(q, alias);
    forall i | 0 <= i < |s.cols|
      ensures q.items[i].expr.Column? <==>
        (ComputedFor(s.computed, s.cols[i].id).Some? ==> ComputedFor(s.computed, s.cols[i].id).value.ColumnRef?)
    {
      var e := ComputedFor(s.computed, s.cols[i].id);
      ColumnIffReference(if e.Some? then e.value else ColumnRef(s.cols[i].id, OtherType), names);
    }
  }

  lemma UnwrapsIff(q: Select, s: Scan, alias: string, names: Names, sig: Signature)
    requires BuiltFrom(q, s, names, sig) && s.cols != []
    ensures Unwraps(SubqueryItem(q, alias)) <==> Unwrapped(s)
  {
    hide Unwraps, AllAnswer;
    match s
    case TableScan(cols, table, _) =>
      assert |q.items| == |ItemAliases(q.items)| == |Aliases(cols)|;
      ListUnwraps(q, alias);
    case WithRefScan(cols, _) =>
      assert |q.items| == |ItemAliases(q.items)| == |Aliases(cols)|;
      ListUnwraps(q, alias);
    case SetOpScan(cols, _, _, _) =>
      assert |q.items| == |ItemAliases(q.items)| == |Aliases(cols)|;
      ListUnwraps(q, alias);
    case ProjectScan(_, _, _) => ProjectUnwrapsIff(q, s, alias, names, sig);
    case _ => StarStays(q, alias);
  }

  // ----- when a side is ready -----

  /** The table exists, with columns of different names, the scan's among them, and whole rows. */
  ghost predicate TableFits(table: string, cols: seq<Col>, w: World) {
    && table in w.tables
    && DistinctStrings(w.tables[table].cols) && Wide(w.tables[table].rows, |w.tables[table].cols|)
    && forall c :: c in cols ==> c.name in w.tables[table].cols
  }

  /** Output columns that are computed at all are their own input columns. */
  predicate KeepsIds(cols: seq<Col>, computed: seq<Computed>) {
    forall i :: 0 <= i < |cols| ==>
      var e := ComputedFor(computed, cols[i].id);
      e.Some? ==> e.value.ColumnRef? && e.value.id == cols[i].id
  }

  /** What a side of a join needs to be read right once it is unwrapped. */
  ghost predicate SideReady(s: Scan, w: World, sig: Signature) {
    Unwrapped(s) ==>
      match s
      case TableScan(cols, table, _) => TableFits(table, cols, w)
      case WithRefScan(_, name) => name in sig && DistinctIds(sig[name])
      case ProjectScan(cols, input, computed) =>
        Unwrapped(input) ==> KeepsIds(cols, computed) && SideReady(input, w, sig)
      case _ => true
  }

  /** The names that the unwrapped layers of a side defined. */
  function MappedNames(s: Scan): set<string> {
    if !Unwrapped(s) then {}
    else AliasSet(s.cols) + (if s.ProjectScan? then MappedNames(s.input) else {})
  }

  /** The columns of what an unwrapped side comes down to. */
  function BottomNames(s: Scan, w: World, sig: Signature): set<string> {
    match s
    case TableScan(_, table, _) => if table in w.tables then ToSet(w.tables[table].cols) else {}
    case WithRefScan(_, name) => if name in sig then AliasSet(sig[name]) else {}
    case SetOpScan(_, _, _, items) => if items == [] then {} else ToSet(OutAliases(items[0].outs))
    case ProjectScan(_, input, _) => if Unwrapped(input) then BottomNames(input, w, sig) else AliasSet(input.cols)
    case _ => {}
  }

  /** A side's item: its columns, whether it is unwrapped, and what is then left of it. */
  ghost predicate LeafOf(f: FromItem, s: Scan, sig: Signature, w: World, v: World) {
    && LeafReady(f, v)
    && (Unwraps(f) <==> Unwrapped(s))
    && UnwrapMap(f).Keys <= MappedNames(s)
    && (Unwraps(f) ==> NamesOf(EvalFrom(UnwrapTree(f), v).shape) <= BottomNames(s, w, sig))
  }

  // ----- the rows of a compiled scan -----

  lemma AliasSetIs(cols: seq<Col>)
    ensures AliasSet(cols) == ToSet(Aliases(cols))
  {
    forall c | c in cols
      ensures Alias(c) in Aliases(cols)
    {
      var i :| 0 <= i < |cols| && cols[i] == c;
      assert Aliases(cols)[i] == Alias(c);
    }
  }

  lemma ListedSet(names: seq<string>, cols: seq<Col>)
    requires Lists(names, cols) && DistinctIds(cols)
    ensures ToSet(names) == AliasSet(cols)
  {
    AliasSetIs(cols);
    ListedNames(names, cols);
  }

  lemma CompiledRows(q: Select, s: Scan, alias: string, sig: Signature, w: World, ctes: Ctes, v: World)
    requires Compiled(q, s, sig) && InStep(w, ctes, v, sig) && DistinctIds(s.cols)
    ensures
      var b := EvalFrom(SubqueryItem(q, alias), v);
      && Even(b) && DistinctStrings(SlotNames(b.shape)) && b.shape == Relabel(SlotNames(b.shape), alias)
      && NamesOf(b.shape) == AliasSet(s.cols) && TablesOf(b.shape) <= {alias}
  {
    var list :| Produces(q, list, s, sig) && Lists(list, s.cols);
    InWorld(q, list, s, sig, w, ctes, v);
    RelabelNames(list, alias);
    RelabelColumns(list, alias);
    ListedSet(list, s.cols);
  }

  lemma ResolvesAmongDistinct(cols: seq<string>, own: string, table: string, name: string)
    requires DistinctStrings(cols) && name in cols && (table == "" || table == own)
    ensures Resolvable(Relabel(cols, own), table, name)
  {
    var k :| 0 <= k < |cols| && cols[k] == name;
    assert ResolvesTo(Relabel(cols, own), k, table, name);
  }

  // ----- one layer -----

  lemma RenamedShape(f: FromItem, alias: string, v: World)
    requires !f.JoinItem? && alias != ""
    ensures EvalFrom(Renamed(f, alias), v).shape == Relabel(SlotNames(EvalFrom(f, v).shape), alias)
  {
  }

  /** A list of columns over a table or subquery that is not itself unwrapped. */
  lemma OneLayer(f: FromItem, cols: seq<Col>, own: string, names: seq<string>, v: World)
    requires f.SubqueryItem? && f.alias != "" && cols != [] && DistinctIds(cols)
    requires f.query == EMPTY_SELECT.(items := f.query.items, from := f.query.from) && f.query.from.Some?
    requires !f.query.from.value.JoinItem? && !Unwraps(f.query.from.value)
    requires AllAliased(f.query.items) && ItemAliases(f.query.items) == Aliases(cols)
    requires forall i :: 0 <= i < |f.query.items| ==> f.query.items[i].expr.Column?
    requires
      var base := EvalFrom(f.query.from.value, v);
      && Even(base) && base.shape == Relabel(names, own)
      && forall i :: 0 <= i < |f.query.items| ==>
           Resolvable(base.shape, f.query.items[i].expr.table, f.query.items[i].expr.name)
    ensures LeafReady(f, v) && Unwraps(f) && UnwrapMap(f).Keys <= AliasSet(cols)
    ensures NamesOf(EvalFrom(UnwrapTree(f), v).shape) == ToSet(names)
  {
    assert |f.query.items| == |ItemAliases(f.query.items)| == |Aliases(cols)|;
    ListUnwraps(f.query, f.alias);
    DistinctAliases(cols);
    LeafMapKeys(f.query.items, f.alias);
    AliasSetIs(cols);
    RenamedShape(f.query.from.value, f.alias, v);
    RelabelNames(names, own);
    RelabelColumns(names, f.alias);
  }

  lemma TableLeaf(s: Scan, alias: string, sig: Signature, w: World, v: World)
    requires s.TableScan? && s.cols != [] && DistinctIds(s.cols) && alias != ""
    requires TableFits(s.table, s.cols, w) && s.table in v.tables && v.tables[s.table] == w.tables[s.table]
    ensures LeafOf(SubqueryItem(TableSelect(s.cols, s.table, s.alias), alias), s, sig, w, v)
  {
    var q, have := TableSelect(s.cols, s.table, s.alias), w.tables[s.table].cols;
    var own := if s.alias == "" then s.table else s.alias;
    forall i | 0 <= i < |s.cols|
      ensures Resolvable(Relabel(have, own), "", s.cols[i].name)
    {
      assert s.cols[i] in s.cols;
      ResolvesAmongDistinct(have, own, "", s.cols[i].name);
    }
    OneLayer(SubqueryItem(q, alias), s.cols, own, have, v);
  }

  /** The reference to a CTE, whatever rows its table holds. */
  lemma RefLeaf(s: Scan, table: string, alias: string, sig: Signature, w: World, ctes: Ctes, v: World)
    requires s.WithRefScan? && s.cols != [] && DistinctIds(s.cols) && alias != "" && table != ""
    requires s.name in sig && |sig[s.name]| == |s.cols| && DistinctIds(sig[s.name]) && InStep(w, ctes, v, sig)
    ensures LeafOf(SubqueryItem(RefSelect(s.name, Aliases(sig[s.name]), table, s.cols), alias), s, sig, w, v)
  {
    var cte, have := sig[s.name], v.tables[s.name].cols;
    var q := RefSelect(s.name, Aliases(cte), table, s.cols);
    ListedSet(have, cte);
    AliasSetIs(cte);
    forall i | 0 <= i < |cte|
      ensures Resolvable(Relabel(have, table), table, Aliases(cte)[i])
    {
      assert Aliases(cte)[i] in ToSet(Aliases(cte));
      assert Aliases(cte)[i] in ToSet(have);
      ResolvesAmongDistinct(have, table, table, Aliases(cte)[i]);
    }
    assert Even(EvalFrom(q.from.value, v)) by {
      assert RowsShow(have, v.tables[s.name].rows, ctes[s.name].cols, ctes[s.name].rows);
    }
    OneLayer(SubqueryItem(q, alias), s.cols, table, have, v);
  }

  lemma UnionRowsEven(s: Scan, sels: seq<Select>, sig: Signature, w: World, ctes: Ctes, v: World)
    requires s.SetOpScan? && s.op == "UNION" && s.modifier == "ALL" && s.items != []
    requires forall i :: 0 <= i < |s.items| ==> |s.items[i].outs| == |s.cols|
    requires AllAnswer(sels, s.items, sig) && InStep(w, ctes, v, sig)
    ensures
      var b := EvalFrom(SubqueryItem(UnionSelect(s.op, s.modifier, sels), "set_op_scan_inner"), v);
      Even(b) && b.shape == Relabel(OutAliases(s.items[0].outs), "set_op_scan_inner")
  {
    assert Answers(sels[0], s.items[0], sig) && ColumnsIn(sels[0], OutAliases(s.items[0].outs), v);
    UnionRows(sels, s.items, sig, w, ctes, v);
    UnionWidth(s.items, |s.cols|, w, ctes);
    var u := UnionSelect(s.op, s.modifier, sels);
    assert EvalWiths(u.withs, v) == v;
  }

  lemma SetOpLeaf(
    q: Select, s: Scan, alias: string, names: Names, sig: Signature, w: World, ctes: Ctes, v: World)
    requires s.SetOpScan? && WellFormed(s, names, sig) && BuiltFrom(q, s, names, sig)
    requires alias != "" && InStep(w, ctes, v, sig)
    ensures LeafOf(SubqueryItem(q, alias), s, sig, w, v)
  {
    hide AllAnswer, WellFormed, InStep;
    var first, sels := OutAliases(s.items[0].outs), q.from.value.query.setOp.value.items;
    SetOpWellFormed(s, names, sig);
    UnionRowsEven(s, sels, sig, w, ctes, v);
    forall i | 0 <= i < |first|
      ensures Resolvable(Relabel(first, "set_op_scan_inner"), "", first[i])
    {
      ResolvesAmongDistinct(first, "set_op_scan_inner", "", first[i]);
    }
    OneLayer(SubqueryItem(q, alias), s.cols, "set_op_scan_inner", first, v);
  }

  lemma SetOpWellFormed(s: Scan, names: Names, sig: Signature)
    requires s.SetOpScan? && WellFormed(s, names, sig)
    ensures s.op == "UNION" && s.modifier == "ALL" && s.items != [] && s.cols != [] && DistinctIds(s.cols)
    ensures DistinctStrings(OutAliases(s.items[0].outs))
    ensures forall i :: 0 <= i < |s.items| ==> |s.items[i].outs| == |s.cols|
  {
    forall i | 0 <= i < |s.items|
      ensures |s.items[i].outs| == |s.cols|
    {
      assert WellFormedQuery(s.items[i], |s.cols|, names, sig);
    }
  }

  // ----- projections -----

  lemma ProjectedColumn(s: Scan, i: nat, names: Names, sig: Signature)
    requires s.ProjectScan? && WellFormed(s, names, sig) && Unwrapped(s) && i < |s.cols|
    ensures
      var x := ProjectedExpr(s.cols[i], s.computed, names);
      && x.Column? && x.table == "" && x.name in AliasSet(s.input.cols)
      && (KeepsIds(s.cols, s.computed) ==> x.name == Alias(s.cols[i]))
  {
    hide BuiltFrom;
    var c := s.cols[i];
    assert c in s.cols;
    var e := ComputedFor(s.computed, c.id);
    var id := if e.Some? then e.value.id else c.id;
    assert Ids(s.input.cols, id);
    assert Named(s.input.cols, names) && Named(s.cols, names);
    var d :| d in s.input.cols && d.id == id;
    assert NameOf(names, id) == Alias(d);
    assert NameOf(names, c.id) == Alias(c);
  }

  lemma ProjectedResolves(s: Scan, i: nat, names: Names, sig: Signature, shape: seq<Slot>, own: string)
    requires s.ProjectScan? && WellFormed(s, names, sig) && Unwrapped(s) && i < |s.cols|
    requires DistinctStrings(SlotNames(shape)) && shape == Relabel(SlotNames(shape), own)
    requires NamesOf(shape) == AliasSet(s.input.cols)
    ensures Resolvable(shape, "", ProjectedExpr(s.cols[i], s.computed, names).name)
  {
    hide WellFormed;
    ProjectedColumn(s, i, names, sig);
    var n := ProjectedExpr(s.cols[i], s.computed, names).name;
    assert n in NamesOf(shape);
    var p :| 0 <= p < |shape| && shape[p].name == n;
    assert SlotNames(shape)[p] == n;
    ResolvesAmongDistinct(SlotNames(shape), own, "", n);
  }

  lemma ProjectParts(q: Select, s: Scan, names: Names, sig: Signature)
    requires s.ProjectScan? && WellFormed(s, names, sig) && BuiltFrom(q, s, names, sig)
    ensures s.cols != [] && DistinctIds(s.cols) && s.input.cols != [] && DistinctIds(s.input.cols)
    ensures OverSubquery(q) && q == EMPTY_SELECT.(items := q.items, from := q.from)
    ensures q.items == ProjectItems(s.cols, s.computed, names) && Compiled(q.from.value.query, s.input, sig)
    ensures BuiltFrom(q.from.value.query, s.input, names, sig) && WellFormed(s.input, names, sig)
  {
  }

  /** A projection over something that stays a subquery. */
  lemma ProjectOverKept(
    q: Select, s: Scan, alias: string, names: Names, sig: Signature, w: World, ctes: Ctes, v: World)
    requires s.ProjectScan? && WellFormed(s, names, sig) && BuiltFrom(q, s, names, sig) && Unwrapped(s)
    requires !Unwrapped(s.input) && alias != "" && InStep(w, ctes, v, sig)
    ensures LeafOf(SubqueryItem(q, alias), s, sig, w, v)
  {
    hide WellFormed, BuiltFrom, Compiled, InStep, LeafReady, Even;
    ProjectParts(q, s, names, sig);
    var inner := q.from.value;
    var base := EvalFrom(inner, v);
    CompiledRows(inner.query, s.input, inner.alias, sig, w, ctes, v);
    UnwrapsIff(inner.query, s.input, inner.alias, names, sig);
    forall i | 0 <= i < |s.cols|
      ensures q.items[i].expr.Column? && Resolvable(base.shape, q.items[i].expr.table, q.items[i].expr.name)
    {
      ProjectedColumn(s, i, names, sig);
      ProjectedResolves(s, i, names, sig, base.shape, inner.alias);
    }
    OneLayer(SubqueryItem(q, alias), s.cols, inner.alias, SlotNames(base.shape), v);
    assert ToSet(SlotNames(base.shape)) <= NamesOf(base.shape);
  }

  /** A projection over something that is unwrapped in its turn. */
  lemma ProjectOverUnwrapped(
    q: Select, s: Scan, alias: string, names: Names, sig: Signature, w: World, ctes: Ctes, v: World)
    requires s.ProjectScan? && WellFormed(s, names, sig) && BuiltFrom(q, s, names, sig) && Unwrapped(s)
    requires Unwrapped(s.input) && KeepsIds(s.cols, s.computed) && alias != "" && InStep(w, ctes, v, sig)
    requires LeafOf(SubqueryItem(q.from.value.query, alias), s.input, sig, w, v)
    ensures LeafOf(SubqueryItem(q, alias), s, sig, w, v)
  {
    hide WellFormed, BuiltFrom, Compiled, InStep;
    ProjectParts(q, s, names, sig);
    var f, inner := SubqueryItem(q, alias), q.from.value;
    var base := EvalFrom(inner, v);
    CompiledRows(inner.query, s.input, inner.alias, sig, w, ctes, v);
    UnwrapsIff(q, s, alias, names, sig);
    forall i | 0 <= i < |q.items|
      ensures q.items[i].expr.Column? && q.items[i].expr.name == q.items[i].alias
      ensures Resolvable(base.shape, q.items[i].expr.table, q.items[i].expr.name)
    {
      ProjectedColumn(s, i, names, sig);
      ProjectedResolves(s, i, names, sig, base.shape, inner.alias);
    }
    assert OneLess(f) == SubqueryItem(inner.query, alias);
    DistinctAliases(s.cols);
    LeafMapKeys(q.items, alias);
    AliasSetIs(s.cols);
    assert PassThrough(f) && KeepsNames(q.items);
  }

  lemma KeptLeaf(q: Select, s: Scan, alias: string, names: Names, sig: Signature, w: World, ctes: Ctes, v: World)
    requires !Unwrapped(s) && BuiltFrom(q, s, names, sig) && s.cols != [] && DistinctIds(s.cols)
    requires Compiled(q, s, sig) && InStep(w, ctes, v, sig)
    ensures LeafOf(SubqueryItem(q, alias), s, sig, w, v)
  {
    UnwrapsIff(q, s, alias, names, sig);
    CompiledRows(q, s, alias, sig, w, ctes, v);
  }

  /** Any compiled scan can be the side of a flattened join. */
  lemma {:induction false} SideIsLeaf(
    q: Select, s: Scan, alias: string, names: Names, sig: Signature, w: World, ctes: Ctes, v: World)
    requires WellFormed(s, names, sig) && BuiltFrom(q, s, names, sig) && Compiled(q, s, sig)
    requires SideReady(s, w, sig) && alias != "" && InStep(w, ctes, v, sig)
    ensures LeafOf(SubqueryItem(q, alias), s, sig, w, v)
    decreases s
  {
    hide LeafOf, LeafReady, Compiled;
    if !Unwrapped(s) {
      KeptLeaf(q, s, alias, names, sig, w, ctes, v);
    } else {
      match s
      case TableScan(_, _, _) => TableLeaf(s, alias, sig, w, v);
      case WithRefScan(_, _) => RefLeaf(s, q.from.value.alias, alias, sig, w, ctes, v);
      case SetOpScan(_, _, _, _) => SetOpLeaf(q, s, alias, names, sig, w, ctes, v);
      case ProjectScan(_, input, _) =>
        if Unwrapped(input) {
          SideIsLeaf(q.from.value.query, input, alias, names, sig, w, ctes, v);
          ProjectOverUnwrapped(q, s, alias, names, sig, w, ctes, v);
        } else {
          ProjectOverKept(q, s, alias, names, sig, w, ctes, v);
        }
    }
  }

  // ----- a projection that computes a reference -----

  /** Every column of the item is read, after unwrapping, as it was before. */
  ghost predicate ReadRight(f: FromItem, v: World) {
    forall n :: n in NamesOf(EvalFrom(f, v).shape) ==>
      n in UnwrapMap(f) && Mirrored(EvalFrom(f, v), EvalFrom(UnwrapTree(f), v), n, UnwrapMap(f)[n])
  }

  lemma LeafReadRight(f: FromItem, v: World)
    requires Unwraps(f) && LeafReady(f, v)
    ensures ReadRight(f, v)
  {
    LeafRows(f, v);
    forall n | n in NamesOf(EvalFrom(f, v).shape)
      ensures n in UnwrapMap(f) && Mirrored(EvalFrom(f, v), EvalFrom(UnwrapTree(f), v), n, UnwrapMap(f)[n])
    {
      var k :| 0 <= k < |f.query.items| && f.query.items[k].alias == n;
      LeafReads(f, v, k);
    }
  }

  predicate ComputesNothing(s: Scan)
    requires s.ProjectScan?
  {
    forall i :: 0 <= i < |s.cols| ==> ComputedFor(s.computed, s.cols[i].id).None?
  }

  lemma NotResolved(shape: seq<Slot>, table: string, name: string)
    requires name !in NamesOf(shape)
    ensures !Resolvable(shape, table, name)
  {
  }

  lemma ItemShown(f: FromItem, k: nat, v: World)
    requires Unwraps(f) && PassThrough(f) && k < |f.query.items|
    ensures f.query.items[k].alias in NamesOf(EvalFrom(f, v).shape)
  {
    LeafRows(f, v);
    assert EvalFrom(f, v).shape[k].name == f.query.items[k].alias;
  }

  /** Only the item's own layer has an entry for a new name, and it names a column of the layer below. */
  lemma NewNameMapped(f: FromItem, k: nat)
    requires Unwraps(f) && f.alias != "" && AllAliased(f.query.items) && DistinctStrings(ItemAliases(f.query.items))
    requires k < |f.query.items| && f.query.items[k].expr.Column?
    requires f.query.items[k].alias !in UnwrapMap(OneLess(f))
    ensures
      var n := f.query.items[k].alias;
      n in UnwrapMap(f) && UnwrapMap(f)[n] == Column(f.alias, f.query.items[k].expr.name)
  {
    LeafMapAt(f.query.items, f.alias, k);
  }

  /** A column that is computed, over a side that is unwrapped in its turn, is looked for where it no longer is. */
  lemma ComputedIsLost(
    q: Select, s: Scan, i: nat, alias: string, names: Names, sig: Signature, w: World, v: World)
    requires s.ProjectScan? && WellFormed(s, names, sig) && BuiltFrom(q, s, names, sig) && Unwrapped(s)
    requires Unwrapped(s.input) && alias != "" && LeafOf(SubqueryItem(q.from.value.query, alias), s.input, sig, w, v)
    requires BottomNames(s.input, w, sig) !! AliasSet(s.input.cols)
    requires i < |s.cols| && Alias(s.cols[i]) !in MappedNames(s.input)
    ensures !ReadRight(SubqueryItem(q, alias), v)
  {
    hide WellFormed, BuiltFrom, Compiled, LeafReady, Unwraps, UnwrapMap, EvalFrom, EvalSelect, NamesOf;
    ProjectParts(q, s, names, sig);
    ProjectedColumn(s, i, names, sig);
    UnwrapsIff(q, s, alias, names, sig);
    UnwrapsIff(q.from.value.query, s.input, alias, names, sig);
    DistinctAliases(s.cols);
    var f := SubqueryItem(q, alias);
    assert OneLess(f) == SubqueryItem(q.from.value.query, alias);
    ProjectIsPass(q, s, alias, names, sig);
    ItemShown(f, i, v);
    NewNameMapped(f, i);
    NotResolved(EvalFrom(UnwrapTree(f), v).shape, alias, q.items[i].expr.name);
  }

  lemma ProjectIsPass(q: Select, s: Scan, alias: string, names: Names, sig: Signature)
    requires s.ProjectScan? && WellFormed(s, names, sig) && BuiltFrom(q, s, names, sig) && Unwrapped(s) && alias != ""
    ensures PassThrough(SubqueryItem(q, alias))
  {
    hide WellFormed, BuiltFrom, Compiled;
    ProjectParts(q, s, names, sig);
    ListUnwraps(q, alias);
    forall i | 0 <= i < |q.items|
      ensures q.items[i].expr.Column?
    {
      ProjectedColumn(s, i, names, sig);
    }
  }

  /** The columns the projection computes are new: no layer below defines them. */
  predicate ComputesNew(s: Scan)
    requires s.ProjectScan?
  {
    forall i :: 0 <= i < |s.cols| && ComputedFor(s.computed, s.cols[i].id).Some? ==>
      Alias(s.cols[i]) !in MappedNames(s.input)
  }

  /**
   Unwrapping two layers at once reads a projection's columns right exactly when the projection computes none of them.
   (A computed column of an unwrapped projection is a bare reference to another column.)
   */
  lemma UnwrappedTwiceIff(
    q: Select, s: Scan, alias: string, names: Names, sig: Signature, w: World, ctes: Ctes, v: World)
    requires s.ProjectScan? && WellFormed(s, names, sig) && BuiltFrom(q, s, names, sig) && Unwrapped(s)
    requires Unwrapped(s.input) && SideReady(s.input, w, sig) && alias != "" && InStep(w, ctes, v, sig)
    requires ComputesNew(s) && BottomNames(s.input, w, sig) !! AliasSet(s.input.cols)
    ensures ReadRight(SubqueryItem(q, alias), v) <==> ComputesNothing(s)
  {
    hide WellFormed, BuiltFrom, Compiled, InStep, SideReady, ReadRight;
    ProjectParts(q, s, names, sig);
    SideIsLeaf(q.from.value.query, s.input, alias, names, sig, w, ctes, v);
    if ComputesNothing(s) {
      ProjectOverUnwrapped(q, s, alias, names, sig, w, ctes, v);
      LeafReadRight(SubqueryItem(q, alias), v);
    } else {
      var i :| 0 <= i < |s.cols| && ComputedFor(s.computed, s.cols[i].id).Some?;
      ComputedIsLost(q, s, i, alias, names, sig, w, v);
    }
  }

  const COLUMN_A := Col(1, "a")
  const COLUMN_B := Col(2, "b")

  /** A projection that computes a column as a bare reference, over a table. */
  const RENAMING := ProjectScan([COLUMN_B], TableScan([COLUMN_A], "t", ""), [Computed(2, ColumnRef(1, IntType))])

  const RENAMING_NAMES: Names := map[1 := "a", 2 := "b"]

  /** Its statement, as compiled. */
  const RENAMING_SELECT :=
    ProjectSelect(TableSelect([COLUMN_A], "t", ""), "s", ProjectItems([COLUMN_B], RENAMING.computed, RENAMING_NAMES))

  lemma RenamingIsCompiled()
    ensures WellFormed(RENAMING, RENAMING_NAMES, map[])
    ensures BuiltFrom(RENAMING_SELECT, RENAMING, RENAMING_NAMES, map[])
  {
    TableProduces(RENAMING.input, RENAMING_NAMES, map[]);
    OwnAliasesCover([COLUMN_A]);
  }

  lemma RenamedAliases()
    ensures Alias(COLUMN_A) != Alias(COLUMN_B) && Alias(COLUMN_A) != "a"
  {
    if Alias(COLUMN_A) == Alias(COLUMN_B) {
      AliasInjective(COLUMN_A, COLUMN_B);
    }
    assert |Alias(COLUMN_A)| > |"a"|;
  }

  lemma RenamingComputes()
    ensures RENAMING.ProjectScan? && RENAMING.input.TableScan? && RENAMING.cols != []
    ensures Unwrapped(RENAMING) && Unwrapped(RENAMING.input) && ComputesNew(RENAMING) && !ComputesNothing(RENAMING)
  {
    RenamedAliases();
    assert ComputedFor(RENAMING.computed, 2).value == ColumnRef(1, IntType);
    assert ComputedFor(RENAMING.computed, RENAMING.cols[0].id).Some?;
    assert MappedNames(RENAMING.input) == {Alias(COLUMN_A)};
  }

  lemma NoCtesInStep(v: World, ctes: Ctes, sig: Signature)
    requires OperatorsAgree(v) && ctes.Keys == {} && sig.Keys == {}
    ensures InStep(v, ctes, v, sig)
  {
  }

  lemma TableIsReady(s: Scan, w: World, sig: Signature)
    requires s.TableScan? && TableFits(s.table, s.cols, w)
    ensures SideReady(s, w, sig)
  {
  }

  lemma RenamingFits(v: World)
    requires "t" in v.tables && v.tables["t"] == Rel(["a"], [[Int(5)]])
    ensures TableFits(RENAMING.input.table, RENAMING.input.cols, v)
  {
    hide Alias;
    assert COLUMN_A.name == "a" && "a" in ["a"];
  }

  lemma RenamingBottom(v: World)
    requires "t" in v.tables && v.tables["t"] == Rel(["a"], [[Int(5)]])
    ensures BottomNames(RENAMING.input, v, map[]) !! AliasSet(RENAMING.input.cols)
  {
    RenamedAliases();
    hide Alias;
    assert AliasSet(RENAMING.input.cols) == {Alias(COLUMN_A)};
    assert BottomNames(RENAMING.input, v, map[]) == {"a"};
  }

  /** It is read wrong: the column is looked for under its alias, in a table that has it under its name. */
  lemma RenamingIsLost(v: World)
    requires OperatorsAgree(v) && "t" in v.tables && v.tables["t"] == Rel(["a"], [[Int(5)]])
    ensures Unwraps(SubqueryItem(RENAMING_SELECT, "x")) && !ReadRight(SubqueryItem(RENAMING_SELECT, "x"), v)
  {
    hide *;
    RenamingIsCompiled();
    RenamingComputes();
    NoCtesInStep(v, map[], map[]);
    RenamingFits(v);
    TableIsReady(RENAMING.input, v, map[]);
    RenamingBottom(v);
    UnwrapsIff(RENAMING_SELECT, RENAMING, "x", RENAMING_NAMES, map[]);
    UnwrappedTwiceIff(RENAMING_SELECT, RENAMING, "x", RENAMING_NAMES, map[], v, map[], v);
  }
}
