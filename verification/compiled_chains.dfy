/**
 What the transformers build is what flattening can handle: a statement over Project and Filter scans that end in a
 table, a CTE, a set operation, a limit or a join of any two scans is a chain (internal/transformer_scan_*.go,
 internal/transformer_stmt_query.go, internal/sqlbuilder_flatten.go:23-95).
 */
module CompiledChains {
  import opened Wrappers
  import opened SqlAst
  import opened SqlSemantics
  import opened Scans
  import opened ExpressionMeaning
  import opened CompiledColumns
  import opened ScanMeaning
  import opened NodeMeaning
  import opened JoinMeaning
  import opened SetWithMeaning
  import opened CompiledShape
  import opened CompiledExpressions
  import opened CompiledLeaves
  import opened Flattening
  import opened Substitution
  import opened WithScoping
  import opened JoinFlattening
  import opened ChainFlattening

  // ----- joins -----

  /** No name that unwrapping maps or uncovers on one side is a column of the other. */
  ghost predicate SidesApart(left: Scan, right: Scan, w: World, sig: Signature) {
    && MappedNames(left) !! AliasSet(right.cols) && MappedNames(right) !! AliasSet(left.cols)
    && (!Unwrapped(left) && Unwrapped(right) ==> AliasSet(left.cols) !! BottomNames(right, w, sig))
    && (!Unwrapped(right) && Unwrapped(left) ==> AliasSet(right.cols) !! BottomNames(left, w, sig))
  }

  lemma AliasSetsDisjoint(cols: seq<Col>, cols': seq<Col>)
    requires DistinctIds(cols + cols')
    ensures AliasSet(cols) !! AliasSet(cols') && AliasSet(cols + cols') == AliasSet(cols) + AliasSet(cols')
  {
    DistinctParts(cols, cols');
    forall c, d | c in cols && d in cols'
      ensures Alias(c) != Alias(d)
    {
      var i :| 0 <= i < |cols| && cols[i] == c;
      var j :| 0 <= j < |cols'| && cols'[j] == d;
      assert cols[i].id != cols'[j].id;
      if Alias(c) == Alias(d) {
        AliasInjective(c, d);
      }
    }
  }

  /** A compiled side: a leaf with the scan's columns, under its own alias. */
  ghost predicate SideOf(f: FromItem, s: Scan, sig: Signature, w: World, v: World) {
    && f.SubqueryItem? && LeafOf(f, s, sig, w, v)
    && NamesOf(EvalFrom(f, v).shape) == AliasSet(s.cols) && TablesOf(EvalFrom(f, v).shape) <= {f.alias}
  }

  lemma CompiledSide(
    q: Select, s: Scan, alias: string, names: Names, sig: Signature, w: World, ctes: Ctes, v: World)
    requires WellFormed(s, names, sig) && BuiltFrom(q, s, names, sig) && Compiled(q, s, sig)
    requires SideReady(s, w, sig) && alias != "" && InStep(w, ctes, v, sig)
    ensures SideOf(SubqueryItem(q, alias), s, sig, w, v)
  {
    SideIsLeaf(q, s, alias, names, sig, w, ctes, v);
    CompiledRows(q, s, alias, sig, w, ctes, v);
  }

  lemma SideNames(f: FromItem, s: Scan, sig: Signature, w: World, v: World)
    requires SideOf(f, s, sig, w, v)
    ensures f.SubqueryItem? && JoinReady(f, v) && NamesOf(EvalFrom(f, v).shape) == AliasSet(s.cols)
    ensures Qualifiers(f, v) <= {f.alias} && UnwrapMap(f).Keys <= MappedNames(s)
    ensures KeptNames(f, v) <= (if Unwrapped(s) then {} else AliasSet(s.cols))
    ensures BaseNames(f, v) <= (if Unwrapped(s) then BottomNames(s, w, sig) else {})
  {
    hide EvalSelect, EvalFrom, LeafReady, UnwrapMap, UnwrapTree, Unwraps, MappedNames, BottomNames, AliasSet, Unwrapped;
  }

  lemma SidesMakeJoin(
    f: FromItem, left: Scan, right: Scan, sig: Signature, w: World, v: World)
    requires f.JoinItem? && SideOf(f.left, left, sig, w, v) && SideOf(f.right, right, sig, w, v)
    requires DistinctIds(left.cols + right.cols) && f.left.alias != f.right.alias && SidesApart(left, right, w, sig)
    requires f.cond.Some? ==>
      Transparent(f.cond.value, AliasSet(left.cols + right.cols)) && Height(f.cond.value) <= MAX_DEPTH
    ensures JoinReady(f, v) && NamesOf(EvalFrom(f, v).shape) == AliasSet(left.cols + right.cols)
  {
    hide SideOf, EvalSelect, LeafReady, UnwrapMap, UnwrapTree, Unwraps, Qualifiers, KeptNames, BaseNames;
    hide MappedNames, BottomNames, AliasSet, Unwrapped;
    SideNames(f.left, left, sig, w, v);
    SideNames(f.right, right, sig, w, v);
    AliasSetsDisjoint(left.cols, right.cols);
    NamesOfJoin(EvalFrom(f.left, v).shape, EvalFrom(f.right, v).shape);
  }

  lemma JoinIsReady(q: Select, s: Scan, names: Names, sig: Signature, w: World, ctes: Ctes, v: World)
    requires s.JoinScan? && WellFormed(s, names, sig) && BuiltFrom(q, s, names, sig) && InStep(w, ctes, v, sig)
    requires SideReady(s.left, w, sig) && SideReady(s.right, w, sig) && SidesApart(s.left, s.right, w, sig)
    requires HeightOption(OnToSql(s.on, names)) <= MAX_DEPTH
    ensures
      var f := q.from.value;
      JoinReady(f, v) && NamesOf(EvalFrom(f, v).shape) == AliasSet(s.left.cols + s.right.cols)
  {
    hide SideReady, SidesApart, InStep, Compiled, JoinReady, EvalFrom, EvalSelect, SideOf;
    var f := q.from.value;
    CompiledSide(f.left.query, s.left, f.left.alias, names, sig, w, ctes, v);
    CompiledSide(f.right.query, s.right, f.right.alias, names, sig, w, ctes, v);
    if s.on.Some? {
      ToSqlTransparent(s.on.value, s.left.cols + s.right.cols, names);
    }
    SidesMakeJoin(f, s.left, s.right, sig, w, v);
  }

  // ----- layers -----

  /** The WITH entries whose lists are merged into the statement above. */
  function SpineNames(s: Scan): set<string> {
    match s
    case FilterScan(_, input, _) => SpineNames(input)
    case ProjectScan(_, input, _) => SpineNames(input)
    case WithScan(_, entries, query, _) => EntryNames(entries) + SpineNames(query)
    case _ => {}
  }

  /** What those entries read. */
  function SpineMentions(s: Scan): set<string> {
    match s
    case FilterScan(_, input, _) => SpineMentions(input)
    case ProjectScan(_, input, _) => SpineMentions(input)
    case WithScan(_, entries, query, _) => EntriesMention(entries) + SpineMentions(query)
    case _ => {}
  }

  /**
   The scan's statement can be collapsed into a statement whose expressions, after all substitutions so far, are h deep:
   below Project and Filter scans the depths add up within the limit, and what a join brings together can be told apart
   after unwrapping.  A LIMIT ends the chain.  No entry of a WITH scan reads a table that an entry further down is named
   after.
   */
  ghost predicate SpineReady(s: Scan, h: nat, names: Names, sig: Signature, w: World)
    decreases s
  {
    match s
    case FilterScan(_, input, cond) =>
      h <= MAX_DEPTH && SpineReady(input, h + Height(ToSql(cond, names)) + 1, names, sig, w)
    case ProjectScan(cols, input, computed) =>
      h <= MAX_DEPTH && SpineReady(input, h + ItemsDepth(ProjectItems(cols, computed, names)) + 1, names, sig, w)
    case JoinScan(_, _, left, right, on) =>
      && h < MAX_DEPTH && HeightOption(OnToSql(on, names)) <= MAX_DEPTH
      && SideReady(left, w, sig) && SideReady(right, w, sig) && SidesApart(left, right, w, sig)
    case LimitScan(_, _, _, _) => true
    case WithScan(_, entries, query, _) =>
      && h <= MAX_DEPTH && EntriesMention(entries) !! SpineNames(query)
      && SpineReady(query, h + 1, names, Extend(sig, entries), w)
    case _ => h <= MAX_DEPTH
  }

  lemma StarIsLayer(q: Select)
    requires q.items == [Item(Star(""), "", false)] && q.from.Some?
    ensures StarLayer(q) && Layer(q) && Depth(q) == HeightOption(q.where) && LayerRefs(q) == RefsOption(q.where)
  {
    assert q.items[1..] == [];
    assert ItemsDepth([]) == 0;
    assert ItemsRefs(q.items) == {};
  }

  predicate Listed(s: Scan) {
    s.TableScan? || s.ProjectScan? || s.SetOpScan? || s.WithRefScan?
  }

  lemma ListBuilt(q: Select, s: Scan, names: Names, sig: Signature)
    requires Listed(s) && BuiltFrom(q, s, names, sig) && s.cols != []
    ensures q == EMPTY_SELECT.(items := q.items, from := q.from) && q.from.Some? && !q.from.value.JoinItem?
    ensures AllAliased(q.items) && ItemAliases(q.items) == Aliases(s.cols) && !StarLayer(q)
  {
    hide AllAnswer, Compiled;
    assert |q.items| == |ItemAliases(q.items)| == |Aliases(s.cols)|;
    assert !IsStarItem(q.items[0]);
  }

  /** A column of the scan, by its own name, is a column of the layer that its statement is. */
  lemma {:induction false} ColumnFits(
    q: Select, s: Scan, alias: string, c: Col, h: nat, names: Names, sig: Signature, w: World, ctes: Ctes, v: World)
    requires WellFormed(s, names, sig) && BuiltFrom(q, s, names, sig) && InStep(w, ctes, v, sig)
    requires SpineReady(s, h, names, sig, w) && c in s.cols
    ensures ChainFlattening.Fits(("", Alias(c)), SubqueryItem(q, alias), v)
    decreases s
  {
    hide EvalFrom, EvalSelect, Compiled, SideReady, SidesApart, InStep, AllAnswer, ToSql, Height;
    hide ClausesCompiled, ClausesRead, ProjectItems, OnToSql, LimitToSql, SetOpSelect, EntriesRows, Mentions;
    match s
    case FilterScan(_, input, cond) =>
      StarIsLayer(q);
      assert EvalWiths([], v) == v;
      ColumnFits(q.from.value.query, input, q.from.value.alias, c, h + Height(ToSql(cond, names)) + 1, names, sig,
                 w, ctes, v);
    case JoinScan(_, _, _, _, _) => JoinFits(q, s, alias, c, h, names, sig, w, ctes, v);
    case LimitScan(_, _, _, _) =>
    case WithScan(_, entries, query, _) =>
      StarIsLayer(q);
      ListInStep(q, s, names, sig, w, ctes, v);
      ColumnFits(q.from.value.query, query, q.from.value.alias, c, h + 1, names, Extend(sig, entries),
                 w, EntriesRows(entries, w, ctes), EvalWiths(q.withs, v));
    case _ => ListedFits(q, s, alias, c, names, sig, v);
  }

  /** Below its own list, a WITH scan's statement is in step with the scan. */
  lemma ListInStep(q: Select, s: Scan, names: Names, sig: Signature, w: World, ctes: Ctes, v: World)
    requires s.WithScan? && WellFormed(s, names, sig) && BuiltFrom(q, s, names, sig) && InStep(w, ctes, v, sig)
    ensures Acyclic(q.withs) && WithTables(q.withs) <= EntriesMention(s.entries)
    ensures ClauseNames(q.withs) == EntryNames(s.entries)
    ensures InStep(w, EntriesRows(s.entries, w, ctes), EvalWiths(q.withs, v), Extend(sig, s.entries))
  {
    hide InStep, ClausesCompiled;
    ClausesNamed(q.withs, s.entries);
    ClausesInOrder(q.withs, s.entries, names, sig);
    InOrderIsAcyclic(q.withs);
    EntriesSimulate(q.withs, s.entries, w, ctes, v, sig);
  }

  lemma JoinFits(
    q: Select, s: Scan, alias: string, c: Col, h: nat, names: Names, sig: Signature, w: World, ctes: Ctes, v: World)
    requires s.JoinScan? && WellFormed(s, names, sig) && BuiltFrom(q, s, names, sig) && InStep(w, ctes, v, sig)
    requires SpineReady(s, h, names, sig, w) && c in s.cols
    ensures ChainFlattening.Fits(("", Alias(c)), SubqueryItem(q, alias), v)
  {
    hide EvalFrom, EvalSelect, Compiled, SideReady, SidesApart, InStep;
    StarIsLayer(q);
    assert EvalWiths([], v) == v;
    JoinIsReady(q, s, names, sig, w, ctes, v);
    assert Alias(c) in AliasSet(s.left.cols + s.right.cols);
  }

  lemma ListedFits(q: Select, s: Scan, alias: string, c: Col, names: Names, sig: Signature, v: World)
    requires Listed(s) && BuiltFrom(q, s, names, sig) && c in s.cols
    ensures ChainFlattening.Fits(("", Alias(c)), SubqueryItem(q, alias), v)
  {
    ListBuilt(q, s, names, sig);
    AliasSetIs(s.cols);
    assert Alias(c) in AliasSet(s.cols);
  }

  lemma TransparentFits(
    e: Expr, q: Select, s: Scan, alias: string, h: nat, names: Names, sig: Signature, w: World, ctes: Ctes, v: World)
    requires WellFormed(s, names, sig) && BuiltFrom(q, s, names, sig) && InStep(w, ctes, v, sig)
    requires SpineReady(s, h, names, sig, w) && Transparent(e, AliasSet(s.cols))
    ensures forall r :: r in Refs(e) ==> ChainFlattening.Fits(r, SubqueryItem(q, alias), v)
  {
    hide WellFormed, BuiltFrom, InStep, SpineReady, ChainFlattening.Fits;
    forall r | r in Refs(e)
      ensures ChainFlattening.Fits(r, SubqueryItem(q, alias), v)
    {
      var c :| c in s.cols && Alias(c) == r.1;
      ColumnFits(q, s, alias, c, h, names, sig, w, ctes, v);
    }
  }

  /** A layer that the one above it can be substituted into, h deep. */
  ghost predicate Collapsible(q: Select, h: nat, d: bool, v: World) {
    Layer(q) && !q.distinct && Chain(q, d, v) && LayersWithin(q, h + Depth(q) + 1)
  }

  lemma {:induction false} NothingCaptured(q: Select)
    ensures NoCaptureBelow([], q)
  {
    NoClauses();
    assert WithoutNames([], q.withs) == [];
    if HasFlattenable(q) {
      NothingCaptured(q.from.value.query);
    }
  }

  /** A list that mentions none of the entries further down. */
  lemma {:induction false} SpineCaptures(
    ws: seq<WithClause>, q: Select, s: Scan, names: Names, sig: Signature)
    requires BuiltFrom(q, s, names, sig) && CanFlatten(q) && WithTables(ws) !! SpineNames(s)
    ensures NoCaptureBelow(ws, q)
    decreases s
  {
    hide Compiled, AllAnswer, ClausesCompiled, ToSql, SelectTables;
    KeptTables(ws, q.withs);
    NoClauses();
    match s
    case FilterScan(_, input, _) =>
      if HasFlattenable(q) {
        SpineCaptures(ws, q.from.value.query, input, names, sig);
      }
    case ProjectScan(_, input, _) =>
      if HasFlattenable(q) {
        SpineCaptures(ws, q.from.value.query, input, names, sig);
      }
    case WithScan(_, entries, query, _) =>
      ClausesNamed(q.withs, entries);
      if HasFlattenable(q) {
        SpineCaptures(ws, q.from.value.query, query, names, Extend(sig, entries));
      }
    case _ =>
  }

  lemma KeptTables(ws: seq<WithClause>, inner: seq<WithClause>)
    ensures WithTables(WithoutNames(ws, inner)) <= WithTables(ws)
  {
    hide SelectTables;
    var kept := WithoutNames(ws, inner);
    WithoutNamesMembers(ws, inner);
    forall n | n in WithTables(kept)
      ensures n in WithTables(ws)
    {
      var i :| 0 <= i < |kept| && n in SelectTables(kept[i].query);
      assert kept[i] in ws;
      var j :| 0 <= j < |ws| && ws[j] == kept[i];
    }
  }

  lemma OverLayer(sel: Select, q: Select, alias: string, h: nat, d: bool, v: World)
    requires sel.from == Some(SubqueryItem(q, alias)) && Acyclic(sel.withs)
    requires CanFlatten(q) ==> NoCaptureBelow(sel.withs, q)
    requires StarLayer(sel) || (StarFree(sel.items) && forall i :: 0 <= i < |sel.items| ==> Plain(sel.items[i].expr))
    requires PlainOption(sel.where) && Depth(sel) <= h
    requires forall r :: r in LayerRefs(sel) ==>
      ChainFlattening.Fits(r, SubqueryItem(q, alias), EvalWiths(sel.withs, v))
    requires CanFlatten(q) ==> h <= MAX_DEPTH && Collapsible(q, h, d, EvalWiths(sel.withs, v))
    ensures Chain(sel, d, v) && LayersWithin(sel, h)
  {
  }

  lemma NoListAcyclic()
    ensures Acyclic([])
  {
    NoClauses();
    assert Ranks([], map[]);
  }

  /** ... without a list of its own. */
  lemma OverPlainLayer(sel: Select, q: Select, alias: string, h: nat, d: bool, v: World)
    requires sel.withs == [] && sel.from == Some(SubqueryItem(q, alias))
    requires StarLayer(sel) || (StarFree(sel.items) && forall i :: 0 <= i < |sel.items| ==> Plain(sel.items[i].expr))
    requires PlainOption(sel.where) && Depth(sel) <= h
    requires forall r :: r in LayerRefs(sel) ==> ChainFlattening.Fits(r, SubqueryItem(q, alias), v)
    requires CanFlatten(q) ==> h <= MAX_DEPTH && Collapsible(q, h, d, v)
    ensures Chain(sel, d, v) && LayersWithin(sel, h)
  {
    hide Collapsible, Chain, LayersWithin, Acyclic;
    assert EvalWiths([], v) == v;
    NoListAcyclic();
    NothingCaptured(q);
    OverLayer(sel, q, alias, h, d, v);
  }

  lemma {:induction false} TransparentItems(items: seq<Item>, names: set<string>)
    requires forall i :: 0 <= i < |items| ==> Transparent(items[i].expr, names)
    ensures StarFree(items) && forall i :: 0 <= i < |items| ==> Plain(items[i].expr)
    ensures forall r :: r in ItemsRefs(items) ==> r.0 == "" && r.1 in names
  {
  }

  /** A list of expressions over the scan's columns, over the scan's statement. */
  lemma ListOverScan(
    sel: Select, q: Select, s: Scan, alias: string, h: nat, d: bool, names: Names, sig: Signature,
    w: World, ctes: Ctes, v: World)
    requires WellFormed(s, names, sig) && BuiltFrom(q, s, names, sig) && InStep(w, ctes, v, sig)
    requires sel == EMPTY_SELECT.(items := sel.items, from := Some(SubqueryItem(q, alias)))
    requires forall i :: 0 <= i < |sel.items| ==> Transparent(sel.items[i].expr, AliasSet(s.cols))
    requires ItemsDepth(sel.items) <= h && SpineReady(s, h, names, sig, w)
    requires CanFlatten(q) ==> h <= MAX_DEPTH && Collapsible(q, h, d, v)
    ensures Chain(sel, d, v) && LayersWithin(sel, h)
  {
    hide WellFormed, BuiltFrom, InStep, SpineReady, Collapsible, Transparent, Chain, CanFlatten;
    TransparentItems(sel.items, AliasSet(s.cols));
    forall r | r in LayerRefs(sel)
      ensures ChainFlattening.Fits(r, SubqueryItem(q, alias), v)
    {
      assert r in ItemsRefs(sel.items);
      var c :| c in s.cols && Alias(c) == r.1;
      ColumnFits(q, s, alias, c, h, names, sig, w, ctes, v);
    }
    OverPlainLayer(sel, q, alias, h, d, v);
  }

  lemma FilterParts(q: Select, s: Scan, names: Names, sig: Signature)
    requires s.FilterScan? && WellFormed(s, names, sig) && BuiltFrom(q, s, names, sig)
    ensures OverSubquery(q) && q == FilterSelect(q.from.value.query, q.from.value.alias, ToSql(s.cond, names))
    ensures BuiltFrom(q.from.value.query, s.input, names, sig) && WellFormed(s.input, names, sig)
    ensures Scans.Reads(s.cond, s.input.cols) && Named(s.input.cols, names)
  {
  }

  lemma TransparentIs(e: Expr, names: set<string>)
    requires Transparent(e, names)
    ensures Plain(e)
  {
  }

  lemma FilterCollapsible(
    q: Select, s: Scan, h: nat, d: bool, names: Names, sig: Signature, w: World, ctes: Ctes, v: World)
    requires s.FilterScan? && WellFormed(s, names, sig) && BuiltFrom(q, s, names, sig) && InStep(w, ctes, v, sig)
    requires SpineReady(s, h, names, sig, w)
    requires
      var at := h + Height(ToSql(s.cond, names)) + 1;
      CanFlatten(q.from.value.query) ==> at <= MAX_DEPTH && Collapsible(q.from.value.query, at, d, v)
    ensures Collapsible(q, h, d, v)
  {
    hide InStep, Collapsible, CanFlatten, ToSql, Chain, LayersWithin, WellFormed, BuiltFrom, Transparent;
    FilterParts(q, s, names, sig);
    var inner, e := q.from.value, ToSql(s.cond, names);
    StarIsLayer(q);
    ToSqlTransparent(s.cond, s.input.cols, names);
    TransparentIs(e, AliasSet(s.input.cols));
    TransparentFits(e, inner.query, s.input, inner.alias, h + Height(e) + 1, names, sig, w, ctes, v);
    OverPlainLayer(q, inner.query, inner.alias, h + Height(e) + 1, d, v);
    CollapsibleIs(q, h, d, v);
  }

  lemma CollapsibleIs(q: Select, h: nat, d: bool, v: World)
    requires Layer(q) && !q.distinct && Chain(q, d, v) && LayersWithin(q, h + Depth(q) + 1)
    ensures Collapsible(q, h, d, v)
  {
  }

  lemma ProjectTransparent(s: Scan, names: Names, sig: Signature)
    requires s.ProjectScan? && WellFormed(s, names, sig)
    ensures
      var items := ProjectItems(s.cols, s.computed, names);
      forall i :: 0 <= i < |items| ==> Transparent(items[i].expr, AliasSet(s.input.cols))
  {
    forall i | 0 <= i < |s.cols|
      ensures Transparent(ProjectItems(s.cols, s.computed, names)[i].expr, AliasSet(s.input.cols))
    {
      var c := s.cols[i];
      assert c in s.cols;
      var e := ComputedFor(s.computed, c.id);
      ToSqlTransparent(if e.Some? then e.value else ColumnRef(c.id, OtherType), s.input.cols, names);
    }
  }

  lemma ProjectCollapsible(
    q: Select, s: Scan, h: nat, d: bool, names: Names, sig: Signature, w: World, ctes: Ctes, v: World)
    requires s.ProjectScan? && WellFormed(s, names, sig) && BuiltFrom(q, s, names, sig) && InStep(w, ctes, v, sig)
    requires SpineReady(s, h, names, sig, w)
    requires
      var at := h + ItemsDepth(ProjectItems(s.cols, s.computed, names)) + 1;
      CanFlatten(q.from.value.query) ==> at <= MAX_DEPTH && Collapsible(q.from.value.query, at, d, v)
    ensures Collapsible(q, h, d, v)
  {
    hide InStep, Collapsible, CanFlatten, Compiled, Chain, LayersWithin, Transparent, WellFormed, BuiltFrom;
    hide ProjectedExpr;
    ProjectParts(q, s, names, sig);
    var inner := q.from.value;
    ProjectTransparent(s, names, sig);
    ListOverScan(q, inner.query, s.input, inner.alias, h + ItemsDepth(q.items) + 1, d, names, sig, w, ctes, v);
    ListedLayer(q, s, names, sig);
    CollapsibleIs(q, h, d, v);
  }

  lemma ListedLayer(q: Select, s: Scan, names: Names, sig: Signature)
    requires Listed(s) && WellFormed(s, names, sig) && BuiltFrom(q, s, names, sig)
    ensures Layer(q) && !q.distinct
  {
    ListBuilt(q, s, names, sig);
    DistinctAliases(s.cols);
    if s.ProjectScan? {
      ProjectTransparent(s, names, sig);
    }
  }

  lemma PlainColumns(items: seq<Item>)
    requires forall i :: 0 <= i < |items| ==> items[i].expr.Column?
    ensures ItemsDepth(items) == 0 && StarFree(items) && forall i :: 0 <= i < |items| ==> Plain(items[i].expr)
  {
    ItemsDepthBound(items, 0);
  }

  /** A list of columns of a table, or of something that is not collapsed. */
  lemma BottomCollapsible(q: Select, s: Scan, h: nat, d: bool, names: Names, sig: Signature, v: World)
    requires Listed(s) && !s.ProjectScan? && WellFormed(s, names, sig) && BuiltFrom(q, s, names, sig)
    ensures Collapsible(q, h, d, v)
  {
    hide AllAnswer, WellFormed, EvalFrom, EvalSelect, Acyclic, NoCaptureBelow, EvalWiths;
    ListedLayer(q, s, names, sig);
    assert forall i :: 0 <= i < |q.items| ==> q.items[i].expr.Column?;
    PlainColumns(q.items);
    assert !HasFlattenable(q);
    NoListAcyclic();
  }

  lemma JoinCollapsible(
    q: Select, s: Scan, h: nat, d: bool, names: Names, sig: Signature, w: World, ctes: Ctes, v: World)
    requires s.JoinScan? && WellFormed(s, names, sig) && BuiltFrom(q, s, names, sig) && InStep(w, ctes, v, sig)
    requires SpineReady(s, h, names, sig, w)
    ensures Collapsible(q, h, d, v)
  {
    hide InStep, Compiled, SideReady, SidesApart, WellFormed, JoinReady, EvalFrom, EvalSelect;
    JoinIsReady(q, s, names, sig, w, ctes, v);
    StarIsLayer(q);
    NoListAcyclic();
    assert EvalWiths([], v) == v;
  }

  lemma WithCollapsible(
    q: Select, s: Scan, h: nat, d: bool, names: Names, sig: Signature, w: World, ctes: Ctes, v: World)
    requires s.WithScan? && WellFormed(s, names, sig) && BuiltFrom(q, s, names, sig) && InStep(w, ctes, v, sig)
    requires SpineReady(s, h, names, sig, w)
    requires CanFlatten(q.from.value.query) ==>
      h + 1 <= MAX_DEPTH && Collapsible(q.from.value.query, h + 1, d, EvalWiths(q.withs, v))
    ensures Collapsible(q, h, d, v)
  {
    hide InStep, Collapsible, CanFlatten, Chain, LayersWithin, WellFormed, Acyclic, EvalWiths, ClausesCompiled;
    var inner := q.from.value;
    StarIsLayer(q);
    ListInStep(q, s, names, sig, w, ctes, v);
    if CanFlatten(inner.query) {
      SpineCaptures(q.withs, inner.query, s.query, names, Extend(sig, s.entries));
    }
    OverLayer(q, inner.query, inner.alias, h + 1, d, v);
    CollapsibleIs(q, h, d, v);
  }

  lemma LimitEndsChain(q: Select, s: Scan, names: Names, sig: Signature)
    requires s.LimitScan? && BuiltFrom(q, s, names, sig)
    ensures !CanFlatten(q)
  {
  }

  /** What the transformers build for the scan can be collapsed into the statement above it. */
  lemma {:induction false} SpineIsCollapsible(
    q: Select, s: Scan, h: nat, d: bool, names: Names, sig: Signature, w: World, ctes: Ctes, v: World)
    requires WellFormed(s, names, sig) && BuiltFrom(q, s, names, sig) && InStep(w, ctes, v, sig)
    requires SpineReady(s, h, names, sig, w)
    ensures CanFlatten(q) ==> h <= MAX_DEPTH && Collapsible(q, h, d, v)
    decreases s
  {
    hide InStep, Collapsible, Compiled, AllAnswer, SideReady, SidesApart, CanFlatten, ToSql, Height, ItemsDepth;
    hide ClausesCompiled, ClausesRead, OnToSql, LimitToSql, SetOpSelect, EntriesRows, Mentions, EvalWiths;
    match s
    case FilterScan(_, input, cond) =>
      SpineIsCollapsible(q.from.value.query, input, h + Height(ToSql(cond, names)) + 1, d, names, sig, w, ctes, v);
      FilterCollapsible(q, s, h, d, names, sig, w, ctes, v);
    case ProjectScan(cols, input, computed) =>
      SpineIsCollapsible(q.from.value.query, input, h + ItemsDepth(ProjectItems(cols, computed, names)) + 1, d,
                         names, sig, w, ctes, v);
      ProjectCollapsible(q, s, h, d, names, sig, w, ctes, v);
    case JoinScan(_, _, _, _, _) => JoinCollapsible(q, s, h, d, names, sig, w, ctes, v);
    case LimitScan(_, _, _, _) => LimitEndsChain(q, s, names, sig);
    case WithScan(_, entries, query, _) =>
      ListInStep(q, s, names, sig, w, ctes, v);
      SpineIsCollapsible(q.from.value.query, query, h + 1, d, names, Extend(sig, entries),
                         w, EntriesRows(entries, w, ctes), EvalWiths(q.withs, v));
      WithCollapsible(q, s, h, d, names, sig, w, ctes, v);
    case _ => BottomCollapsible(q, s, h, d, names, sig, v);
  }

  // ----- a whole statement -----

  ghost predicate QueryReady(q: Query, names: Names, sig: Signature, w: World) {
    SpineReady(q.source, ItemsDepth(OutItems(q.outs, names)), names, sig, w)
  }

  /** The statement built for such a query is a chain, so flattening changes nothing of its result. */
  lemma CompiledIsChain(
    sel: Select, q: Query, width: nat, names: Names, sig: Signature, w: World, ctes: Ctes, v: World)
    requires WellFormedQuery(q, width, names, sig) && QueryBuilt(sel, q, names, sig) && InStep(w, ctes, v, sig)
    requires QueryReady(q, names, sig, w)
    ensures Outer(sel) && !sel.distinct && Chain(sel, false, v) && WithinLimit(sel)
    ensures EvalSelect(Flatten(sel), v) == EvalSelect(sel, v)
  {
    hide InStep, BuiltFrom, WellFormed, SpineReady, Chain, LayersWithin, EvalSelect, Transparent;
    var inner, h := sel.from.value, ItemsDepth(OutItems(q.outs, names));
    forall i | 0 <= i < |q.outs|
      ensures Transparent(sel.items[i].expr, AliasSet(q.source.cols))
    {
      SourceNamed(q.source, names, sig);
      ToSqlTransparent(q.outs[i].expr, q.source.cols, names);
    }
    SpineIsCollapsible(inner.query, q.source, h, false, names, sig, w, ctes, v);
    ListOverScan(sel, inner.query, q.source, inner.alias, h, false, names, sig, w, ctes, v);
    TransparentItems(sel.items, AliasSet(q.source.cols));
    LayersStayWithin(sel, h, false, v);
    FlattenKeepsResult(sel, v);
  }

  /** The WITH list of the flattened statement is made of the lists merged into it. */
  lemma FlatList(sel: Select, q: Query, names: Names, sig: Signature)
    requires QueryBuilt(sel, q, names, sig)
    ensures ClauseNames(Flatten(sel).withs) <= SpineNames(q.source)
    ensures WithTables(Flatten(sel).withs) <= SpineMentions(q.source)
  {
    hide SelectTables;
    FlatClauses(sel);
    SpineClauses(sel.from.value.query, q.source, names, sig);
    var ws := Flatten(sel).withs;
    forall n | n in WithTables(ws)
      ensures n in SpineMentions(q.source)
    {
      var i :| 0 <= i < |ws| && n in SelectTables(ws[i].query);
      assert ws[i] in AllClauses(sel);
    }
    forall i | 0 <= i < |ws|
      ensures ws[i].name in SpineNames(q.source)
    {
      assert ws[i] in AllClauses(sel);
    }
  }

  lemma {:induction false} SpineClauses(q: Select, s: Scan, names: Names, sig: Signature)
    requires BuiltFrom(q, s, names, sig)
    ensures CanFlatten(q) ==>
      forall c :: c in AllClauses(q) ==> c.name in SpineNames(s) && SelectTables(c.query) <= SpineMentions(s)
    decreases s
  {
    hide Compiled, AllAnswer, ClausesCompiled, ToSql, SelectTables;
    match s
    case FilterScan(_, input, _) => SpineClauses(q.from.value.query, input, names, sig);
    case ProjectScan(_, input, _) => SpineClauses(q.from.value.query, input, names, sig);
    case WithScan(_, entries, query, _) =>
      SpineClauses(q.from.value.query, query, names, Extend(sig, entries));
      ClausesNamed(q.withs, entries);
      forall c | c in q.withs
        ensures c.name in SpineNames(s) && SelectTables(c.query) <= SpineMentions(s)
      {
        var i :| 0 <= i < |q.withs| && q.withs[i] == c;
        assert c.name in ClauseNames(q.withs);
        assert forall n :: n in SelectTables(c.query) ==> n in WithTables(q.withs);
      }
    case LimitScan(_, _, _, _) => LimitEndsChain(q, s, names, sig);
    case _ => assert !HasFlattenable(q) && q.withs == [];
  }

  lemma SourceNamed(s: Scan, names: Names, sig: Signature)
    requires WellFormed(s, names, sig)
    ensures Named(s.cols, names)
  {
  }

  /** The textbook term SELECT n + 1 FROM cte WHERE n < 10, over any columns and names, is such a query. */
  lemma CountingIsReady(cte: string, n: Col, next: Col, alias: string, names: Names, sig: Signature, w: World)
    ensures
      var less := Call("zetasqlite_less", [ColumnRef(n.id, IntType), Constant(Int(10), IntType)]);
      var add := Call("zetasqlite_add", [ColumnRef(n.id, IntType), Constant(Int(1), IntType)]);
      var rows := FilterScan([n], WithRefScan([n], cte), less);
      var source := ProjectScan([next], rows, [Computed(next.id, add)]);
      QueryReady(Query([OutData(ColumnRef(next.id, IntType), alias)], source), names, sig, w)
  {
    hide ToSql, Height, ItemsDepth;
    var args := [ColumnRef(n.id, IntType), Constant(Int(10), IntType)];
    var terms := [ColumnRef(n.id, IntType), Constant(Int(1), IntType)];
    ShallowCall("zetasqlite_less", args, names);
    ShallowCall("zetasqlite_add", terms, names);
    OneComputed(next, Call("zetasqlite_add", terms), names);
    OneReference(next.id, alias, names);
    var less, ref := Call("zetasqlite_less", args), WithRefScan([n], cte);
    var h := ItemsDepth(ProjectItems([next], [Computed(next.id, Call("zetasqlite_add", terms))], names)) + 1;
    assert SpineReady(ref, h + Height(ToSql(less, names)) + 1, names, sig, w);
    assert SpineReady(FilterScan([n], ref, less), h, names, sig, w);
  }

  lemma OneComputed(c: Col, e: ScanExpr, names: Names)
    requires Height(ToSql(e, names)) <= 1
    ensures ItemsDepth(ProjectItems([c], [Computed(c.id, e)], names)) <= 1
  {
    ItemsDepthBound(ProjectItems([c], [Computed(c.id, e)], names), 1);
  }

  lemma OneReference(id: nat, alias: string, names: Names)
    ensures ItemsDepth(OutItems([OutData(ColumnRef(id, IntType), alias)], names)) == 0
  {
    ItemsDepthBound(OutItems([OutData(ColumnRef(id, IntType), alias)], names), 0);
  }

  lemma ShallowCall(fn: string, args: seq<ScanExpr>, names: Names)
    requires fn == "zetasqlite_less" || fn == "zetasqlite_add"
    requires |args| == 2 && forall i :: 0 <= i < 2 ==> args[i].ColumnRef? || args[i].Constant?
    ensures Height(ToSql(Call(fn, args), names)) <= 1
  {
    var xs := seq(2, i requires 0 <= i < 2 => ToSql(args[i], names));
    HeightAllBound(xs, 0);
  }
}
