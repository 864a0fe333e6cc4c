/**
 Flattening a chain of subqueries (internal/sqlbuilder_flatten.go:23-95): the outermost layer has an explicit
 list, inner layers are lists of aliased scalars or `SELECT *`, and the chain may end in a tree of joins.
 Rows, and their order, are what they were.
 */
module ChainFlattening {
  import opened Wrappers
  import opened SqlAst
  import opened SqlSemantics
  import opened ExpressionMeaning
  import opened CompiledColumns
  import opened Scans
  import opened ScanMeaning
  import opened Flattening
  import opened Substitution
  import opened SelectAlgebra
  import opened WithScoping
  import opened WithMerging
  import opened DistinctLayers
  import opened JoinFlattening

  // ----- layers -----

  predicate StarLayer(s: Select) {
    s.items == [Item(Star(""), "", false)] && s.from.Some?
  }

  ghost predicate ListLayer(s: Select) {
    && AllAliased(s.items) && DistinctStrings(ItemAliases(s.items))
    && forall i :: 0 <= i < |s.items| ==> Plain(s.items[i].expr)
  }

  ghost predicate Layer(s: Select) {
    StarLayer(s) || ListLayer(s)
  }

  /** A reference that means something over the given FROM: one of its columns, named as a layer may name it. */
  ghost predicate Fits(r: Ref, f: FromItem, w: World)
    decreases f
  {
    if Flattenable(f) then
      if StarLayer(f.query) then r.0 == "" && Fits(r, f.query.from.value, EvalWiths(f.query.withs, w))
      else (r.0 == "" || r.0 == f.alias) && r.1 in ItemAliases(f.query.items)
    else if f.JoinItem? then r.0 == "" && r.1 in NamesOf(EvalFrom(f, w).shape)
    else true
  }

  ghost predicate FitsFrom(r: Ref, from: Option<FromItem>, w: World) {
    from.Some? ==> Fits(r, from.value, w)
  }

  function ItemsDepth(items: seq<Item>): nat {
    if items == [] then 0 else Max(Height(items[0].expr), ItemsDepth(items[1..]))
  }

  /** How deep a layer's expressions are. */
  function Depth(s: Select): nat {
    Max(ItemsDepth(s.items), HeightOption(s.where))
  }

  function ItemsRefs(items: seq<Item>): set<Ref> {
    set i, r | 0 <= i < |items| && r in Refs(items[i].expr) :: r
  }

  function LayerRefs(s: Select): set<Ref> {
    ItemsRefs(s.items) + RefsOption(s.where)
  }

  /** No layer below defines a name that the clauses mention from outside it. */
  predicate NoCaptureBelow(ws: seq<WithClause>, s: Select) {
    NoCapture(ws, s.withs) && (HasFlattenable(s) ==> NoCaptureBelow(ws, s.from.value.query))
  }

  /**
   A chain: every reference fits the FROM below it, no WITH list depends on itself or mentions a name that a layer below
   defines, and an inner layer is DISTINCT only if the outermost one is (d).
   */
  ghost predicate Chain(s: Select, d: bool, w: World)
    decreases s
  {
    var v := EvalWiths(s.withs, w);
    && (StarLayer(s) || (StarFree(s.items) && forall i :: 0 <= i < |s.items| ==> Plain(s.items[i].expr)))
    && PlainOption(s.where) && Acyclic(s.withs)
    && (forall r :: r in LayerRefs(s) ==> FitsFrom(r, s.from, v))
    && (HasFlattenable(s) ==>
          && Layer(s.from.value.query)
          && (s.from.value.query.distinct ==> d)
          && NoCaptureBelow(s.withs, s.from.value.query)
          && Chain(s.from.value.query, d, v))
    && (s.from.Some? && s.from.value.JoinItem? ==> JoinReady(s.from.value, v))
  }

  /** No expression is deeper than the rewriter looks into at the moment it is rewritten. */
  predicate WithinLimit(s: Select)
    decreases s.from
  {
    && (HasFlattenable(s) || (s.from.Some? && s.from.value.JoinItem?) ==> Depth(s) <= MAX_DEPTH)
    && (HasFlattenable(s) ==> WithinLimit(Collapse(s)))
  }

  /** The depths of the layers, added up on the way down; h is what the layers above add. */
  predicate LayersWithin(s: Select, h: nat)
    decreases s
  {
    && Depth(s) <= h
    && (HasFlattenable(s) ==> h <= MAX_DEPTH && LayersWithin(s.from.value.query, h + Depth(s.from.value.query) + 1))
    && (s.from.Some? && s.from.value.JoinItem? ==> h <= MAX_DEPTH)
  }

  /** The outermost layer. */
  ghost predicate Outer(s: Select) {
    Ungrouped(s) && StarFree(s.items)
  }

  // ----- one layer's columns -----

  lemma {:induction false} ColumnAliasesAt(items: seq<Item>, i: nat)
    requires AllAliased(items) && DistinctStrings(ItemAliases(items)) && i < |items|
    ensures items[i].alias in ColumnAliases(items) && ColumnAliases(items)[items[i].alias] == items[i].expr
  {
    var n := |items| - 1;
    if i < n {
      assert ItemAliases(items[..n]) == ItemAliases(items)[..n];
      ColumnAliasesAt(items[..n], i);
      assert ItemAliases(items)[i] != ItemAliases(items)[n];
    }
  }

  lemma StarAliases(s: Select)
    requires StarLayer(s)
    ensures ColumnAliases(s.items) == map[]
  {
    assert s.items[..0] == [];
  }

  /** The rows of a list layer, seen from outside under its aliases. */
  lemma ListLayerReads(f: FromItem, w: World, v: World, r: Ref, i: nat)
    requires Flattenable(f) && ListLayer(f.query) && !f.query.distinct && v == EvalWiths(f.query.withs, w)
    requires (r.0 == "" || r.0 == f.alias) && r.1 in ItemAliases(f.query.items)
    ensures
      var b, a := EvalFrom(f, w), Filter(FromRows(f.query.from, v), f.query.where, v);
      && |b.tuples| == |a.tuples|
      && (i < |b.tuples| ==>
            Eval(Definition(r, ColumnAliases(f.query.items), f.alias), a.shape, a.tuples[i], v)
            == Lookup(b.shape, b.tuples[i], r.0, r.1))
  {
    var items := f.query.items;
    var b, a := EvalFrom(f, w), Filter(FromRows(f.query.from, v), f.query.where, v);
    AliasedOutCols(items, a.shape);
    SelectRows(f.query, w);
    SelectCols(f.query, w);
    assert b.tuples == ProjectAll(items, a, v);
    var k :| 0 <= k < |items| && ItemAliases(items)[k] == r.1;
    ColumnAliasesAt(items, k);
    if i < |b.tuples| {
      AliasedTuple(items, a.shape, a.tuples[i], v);
      LookupHit(ItemAliases(items), f.alias, r.0, b.tuples[i], k);
    }
  }

  lemma StarLayerRows(f: FromItem, w: World, v: World)
    requires Flattenable(f) && StarLayer(f.query) && !f.query.distinct && v == EvalWiths(f.query.withs, w)
    ensures
      var b, a := EvalFrom(f, w), Filter(FromRows(f.query.from, v), f.query.where, v);
      b.tuples == a.tuples && b.shape == Relabel(SlotNames(a.shape), f.alias)
  {
    var a := Filter(FromRows(f.query.from, v), f.query.where, v);
    StarKeepsTuples(false, a, v);
    SelectRows(f.query, w);
    SelectCols(f.query, w);
  }

  /** The rows of a star layer, seen from outside by unqualified names. */
  lemma StarLayerReads(f: FromItem, w: World, v: World, r: Ref, i: nat)
    requires Flattenable(f) && StarLayer(f.query) && !f.query.distinct && v == EvalWiths(f.query.withs, w) && r.0 == ""
    ensures
      var b, a := EvalFrom(f, w), Filter(FromRows(f.query.from, v), f.query.where, v);
      && |b.tuples| == |a.tuples|
      && (i < |b.tuples| ==>
            Eval(Definition(r, ColumnAliases(f.query.items), f.alias), a.shape, a.tuples[i], v)
            == Lookup(b.shape, b.tuples[i], r.0, r.1))
  {
    var b, a := EvalFrom(f, w), Filter(FromRows(f.query.from, v), f.query.where, v);
    StarLayerRows(f, w, v);
    StarAliases(f.query);
    assert Definition(r, map[], f.alias) == Column("", r.1);
    forall p: nat
      ensures Matches(b.shape, p, "", r.1) <==> Matches(a.shape, p, "", r.1)
    {
    }
    ResolveSame(b.shape, "", a.shape, "", r.1);
  }

  lemma LayerReads(f: FromItem, w: World, v: World, r: Ref, i: nat)
    requires Flattenable(f) && Layer(f.query) && !f.query.distinct && v == EvalWiths(f.query.withs, w) && Fits(r, f, w)
    ensures
      var b, a := EvalFrom(f, w), Filter(FromRows(f.query.from, v), f.query.where, v);
      && |b.tuples| == |a.tuples|
      && (i < |b.tuples| ==>
            Eval(Definition(r, ColumnAliases(f.query.items), f.alias), a.shape, a.tuples[i], v)
            == Lookup(b.shape, b.tuples[i], r.0, r.1))
  {
    if StarLayer(f.query) {
      StarLayerReads(f, w, v, r, i);
    } else {
      ListLayerReads(f, w, v, r, i);
    }
  }

  lemma LayerCount(f: FromItem, w: World, v: World)
    requires Flattenable(f) && Layer(f.query) && !f.query.distinct && v == EvalWiths(f.query.withs, w)
    ensures |EvalFrom(f, w).tuples| == |Filter(FromRows(f.query.from, v), f.query.where, v).tuples|
  {
    if StarLayer(f.query) {
      StarLayerRows(f, w, v);
    } else {
      SelectRows(f.query, w);
    }
  }

  // ----- one collapse -----

  /** An expression over a layer computes, substituted, the same over what the layer selects from. */
  lemma LayerCorresponds(e: Expr, f: FromItem, w: World, v: World)
    requires Flattenable(f) && Layer(f.query) && !f.query.distinct && v == EvalWiths(f.query.withs, w)
    requires Plain(e) && Height(e) <= MAX_DEPTH && forall r :: r in Refs(e) ==> Fits(r, f, w)
    ensures Corresponds(e, EvalFrom(f, w), w, SubstituteAt(e, ColumnAliases(f.query.items), f.alias, 0),
                        Filter(FromRows(f.query.from, v), f.query.where, v), v)
  {
    var b, a := EvalFrom(f, w), Filter(FromRows(f.query.from, v), f.query.where, v);
    var m := ColumnAliases(f.query.items);
    LayerCount(f, w, v);
    WithsKeepFunctions(f.query.withs, w);
    forall i | 0 <= i < |b.tuples|
      ensures Eval(SubstituteAt(e, m, f.alias, 0), a.shape, a.tuples[i], v) == Eval(e, b.shape, b.tuples[i], w)
    {
      forall r | r in Refs(e)
        ensures Eval(Definition(r, m, f.alias), a.shape, a.tuples[i], v) == Lookup(b.shape, b.tuples[i], r.0, r.1)
      {
        LayerReads(f, w, v, r, i);
      }
      SubstitutionKeepsValue(e, m, f.alias, 0, b.shape, b.tuples[i], w, a.shape, a.tuples[i], v);
    }
  }

  lemma {:induction false} ItemHeight(items: seq<Item>, i: nat)
    requires i < |items|
    ensures Height(items[i].expr) <= ItemsDepth(items)
  {
    if i > 0 {
      ItemHeight(items[1..], i - 1);
    }
  }

  /** Substituting definitions that are not stars leaves no star. */
  lemma {:induction false} SubstitutedNotStar(e: Expr, s: Select, alias: string)
    requires Plain(e) && Layer(s)
    ensures !SubstituteAt(e, ColumnAliases(s.items), alias, 0).Star?
  {
    if StarLayer(s) {
      StarAliases(s);
    } else {
      DefinitionsNotStar(s.items);
    }
  }

  lemma {:induction false} DefinitionsNotStar(items: seq<Item>)
    requires StarFree(items)
    ensures forall n :: n in ColumnAliases(items) ==> !ColumnAliases(items)[n].Star?
  {
    if items != [] {
      DefinitionsNotStar(items[..|items| - 1]);
    }
  }

  lemma CollapsedItems(s: Select, d: bool, w: World, v: World)
    requires Chain(s, d, w) && HasFlattenable(s) && Depth(s) <= MAX_DEPTH
    requires StarFree(s.items) && !s.from.value.query.distinct
    requires v == EvalWiths(s.from.value.query.withs, EvalWiths(s.withs, w))
    ensures
      var f, u := s.from.value, EvalWiths(s.withs, w);
      ItemsCorrespond(s.items, EvalFrom(f, u), u, Collapse(s).items,
                      Filter(FromRows(f.query.from, v), f.query.where, v), v)
  {
    var f, u := s.from.value, EvalWiths(s.withs, w);
    forall k | 0 <= k < |s.items|
      ensures Corresponds(s.items[k].expr, EvalFrom(f, u), u, Collapse(s).items[k].expr,
                          Filter(FromRows(f.query.from, v), f.query.where, v), v)
      ensures !IsStarItem(Collapse(s).items[k])
    {
      ItemHeight(s.items, k);
      assert Refs(s.items[k].expr) <= LayerRefs(s);
      LayerCorresponds(s.items[k].expr, f, u, v);
      SubstitutedNotStar(s.items[k].expr, f.query, f.alias);
    }
  }

  lemma CollapsedWhere(s: Select, d: bool, w: World, v: World)
    requires Chain(s, d, w) && HasFlattenable(s) && Depth(s) <= MAX_DEPTH && !s.from.value.query.distinct
    requires v == EvalWiths(s.from.value.query.withs, EvalWiths(s.withs, w))
    ensures
      var f, u := s.from.value, EvalWiths(s.withs, w);
      OptionCorresponds(s.where, EvalFrom(f, u), u, SubstituteOption(s.where, ColumnAliases(f.query.items), f.alias),
                        Filter(FromRows(f.query.from, v), f.query.where, v), v)
  {
    var f, u := s.from.value, EvalWiths(s.withs, w);
    LayerCount(f, u, v);
    if s.where.Some? {
      assert Refs(s.where.value) <= LayerRefs(s);
      forall r | r in Refs(s.where.value)
        ensures Fits(r, f, u)
      {
        assert FitsFrom(r, s.from, u);
      }
      LayerCorresponds(s.where.value, f, u, v);
    }
  }

  lemma CollapsedWorld(s: Select, d: bool, w: World)
    requires Chain(s, d, w) && HasFlattenable(s)
    ensures EvalWiths(Collapse(s).withs, w) == EvalWiths(s.from.value.query.withs, EvalWiths(s.withs, w))
    ensures Acyclic(Collapse(s).withs)
  {
    assert Chain(s.from.value.query, d, EvalWiths(s.withs, w));
    MergedWorld(s.withs, s.from.value.query.withs, w);
  }

  lemma CollapsePlainLayer(s: Select, d: bool, w: World)
    requires Chain(s, d, w) && HasFlattenable(s) && Depth(s) <= MAX_DEPTH && Outer(s) && !s.from.value.query.distinct
    ensures EvalSelect(Collapse(s), w).rows == EvalSelect(s, w).rows
  {
    var f, u := s.from.value, EvalWiths(s.withs, w);
    var v := EvalWiths(f.query.withs, u);
    var b, base := EvalFrom(f, u), FromRows(f.query.from, v);
    var a := Filter(base, f.query.where, v);
    var c := Collapse(s);
    var where := SubstituteOption(s.where, ColumnAliases(f.query.items), f.alias);
    CollapsedWorld(s, d, w);
    WithsKeepFunctions(f.query.withs, u);
    LayerCount(f, u, v);
    CollapsedItems(s, d, w, v);
    CollapsedWhere(s, d, w, v);
    SameOutput(s.items, s.where, b, u, c.items, where, a, v);
    FilterTwice(base, f.query.where, where, v);
    SelectRows(s, w);
    SelectRows(c, w);
    FinishFrame(s, c, ProjectAll(s.items, Filter(b, s.where, u), u), u, v);
  }

  lemma {:induction false} FitsUndistinct(r: Ref, f: FromItem, w: World)
    requires Flattenable(f)
    ensures Fits(r, SubqueryItem(f.query.(distinct := false), f.alias), w) == Fits(r, f, w)
  {
  }

  lemma UndistinctChain(s: Select, d: bool, w: World)
    requires Chain(s, d, w) && HasFlattenable(s)
    ensures Chain(Undistinct(s), d, w)
  {
    var v := EvalWiths(s.withs, w);
    forall r | r in LayerRefs(s)
      ensures FitsFrom(r, Undistinct(s).from, v)
    {
      assert FitsFrom(r, s.from, v);
      FitsUndistinct(r, s.from.value, v);
    }
    assert Chain(s.from.value.query, d, v);
    assert Chain(s.from.value.query.(distinct := false), d, v);
  }

  /** One collapse keeps the rows. */
  lemma CollapseKeepsRows(s: Select, w: World)
    requires Chain(s, s.distinct, w) && HasFlattenable(s) && Depth(s) <= MAX_DEPTH && Outer(s)
    ensures EvalSelect(Collapse(s), w).rows == EvalSelect(s, w).rows
  {
    if s.from.value.query.distinct {
      OuterDistinctAbsorbs(s, w);
      UndistinctChain(s, s.distinct, w);
      assert Collapse(Undistinct(s)) == Collapse(s);
      CollapsePlainLayer(Undistinct(s), s.distinct, w);
    } else {
      CollapsePlainLayer(s, s.distinct, w);
    }
  }

  // ----- a collapsed chain is a chain -----

  /** The references of a layer's definitions: its own, or those above it when it is a star. */
  function RefsBelow(s: Select, inner: Select): set<Ref> {
    if StarLayer(inner) then LayerRefs(s) + LayerRefs(inner) else LayerRefs(inner)
  }

  lemma LayerDefinitions(s: Select, inner: Select, alias: string, w: World)
    requires Layer(inner)
    requires !StarLayer(inner) ==>
      forall r :: r in LayerRefs(s) ==> (r.0 == "" || r.0 == alias) && r.1 in ItemAliases(inner.items)
    ensures DefinitionsWithin(LayerRefs(s), ColumnAliases(inner.items), alias, Depth(inner), RefsBelow(s, inner))
  {
    if StarLayer(inner) {
      StarAliases(inner);
      forall r | r in LayerRefs(s)
        ensures Within(Definition(r, map[], alias), Depth(inner), RefsBelow(s, inner))
      {
        assert Refs(Column(r.0, r.1)) == {r};
      }
    } else {
      forall r | r in LayerRefs(s)
        ensures Within(Definition(r, ColumnAliases(inner.items), alias), Depth(inner), RefsBelow(s, inner))
      {
        var k :| 0 <= k < |inner.items| && ItemAliases(inner.items)[k] == r.1;
        ColumnAliasesAt(inner.items, k);
        ItemHeight(inner.items, k);
        assert Refs(inner.items[k].expr) <= LayerRefs(inner);
      }
    }
  }

  lemma {:induction false} ItemsDepthBound(items: seq<Item>, h: nat)
    requires forall i :: 0 <= i < |items| ==> Height(items[i].expr) <= h
    ensures ItemsDepth(items) <= h
  {
    if items != [] {
      ItemsDepthBound(items[1..], h);
    }
  }

  ghost predicate ItemsWithin(items: seq<Item>, h: int, refs: set<Ref>) {
    forall i :: 0 <= i < |items| ==> Within(items[i].expr, h, refs)
  }

  lemma CollapsedItemsWithin(s: Select, inner: Select, alias: string)
    requires Layer(inner) && Depth(s) <= MAX_DEPTH
    requires forall i :: 0 <= i < |s.items| ==> Plain(s.items[i].expr)
    requires DefinitionsWithin(LayerRefs(s), ColumnAliases(inner.items), alias, Depth(inner), RefsBelow(s, inner))
    ensures ItemsWithin(SubstituteItems(s.items, ColumnAliases(inner.items), alias), Depth(s) + Depth(inner),
                        RefsBelow(s, inner))
  {
    var m := ColumnAliases(inner.items);
    forall i | 0 <= i < |s.items|
      ensures Within(SubstituteItems(s.items, m, alias)[i].expr, Depth(s) + Depth(inner), RefsBelow(s, inner))
    {
      ItemHeight(s.items, i);
      assert Refs(s.items[i].expr) <= LayerRefs(s);
      SubstitutedWithin(s.items[i].expr, m, alias, 0, Depth(inner), RefsBelow(s, inner));
    }
  }

  lemma CollapsedWhereWithin(s: Select, inner: Select, alias: string)
    requires Layer(inner) && Depth(s) <= MAX_DEPTH && PlainOption(s.where) && PlainOption(inner.where)
    requires DefinitionsWithin(LayerRefs(s), ColumnAliases(inner.items), alias, Depth(inner), RefsBelow(s, inner))
    ensures WithinOption(MergeWhere(SubstituteOption(s.where, ColumnAliases(inner.items), alias), inner.where),
                         Depth(s) + Depth(inner) + 1, RefsBelow(s, inner))
  {
    if s.where.Some? {
      assert Refs(s.where.value) <= LayerRefs(s);
      SubstitutedWithin(s.where.value, ColumnAliases(inner.items), alias, 0, Depth(inner), RefsBelow(s, inner));
    }
  }

  lemma ItemsRefsWithin(items: seq<Item>, h: int, refs: set<Ref>)
    requires ItemsWithin(items, h, refs)
    ensures ItemsRefs(items) <= refs
  {
  }

  lemma CollapsedWithin(s: Select, d: bool, w: World)
    requires Chain(s, d, w) && HasFlattenable(s) && Depth(s) <= MAX_DEPTH && Outer(s)
    ensures
      var c, inner := Collapse(s), s.from.value.query;
      && ItemsWithin(c.items, Depth(s) + Depth(inner) + 1, RefsBelow(s, inner))
      && WithinOption(c.where, Depth(s) + Depth(inner) + 1, RefsBelow(s, inner))
  {
    var f, inner := s.from.value, s.from.value.query;
    forall r | r in LayerRefs(s)
      ensures Fits(r, f, EvalWiths(s.withs, w))
    {
      assert FitsFrom(r, s.from, EvalWiths(s.withs, w));
    }
    LayerDefinitions(s, inner, f.alias, w);
    CollapsedItemsWithin(s, inner, f.alias);
    CollapsedWhereWithin(s, inner, f.alias);
  }

  lemma CollapsedRefsFit(s: Select, d: bool, w: World, r: Ref)
    requires Chain(s, d, w) && HasFlattenable(s) && r in RefsBelow(s, s.from.value.query)
    ensures FitsFrom(r, s.from.value.query.from, EvalWiths(s.from.value.query.withs, EvalWiths(s.withs, w)))
  {
    var f, inner := s.from.value, s.from.value.query;
    if r in LayerRefs(inner) {
      assert Chain(inner, d, EvalWiths(s.withs, w));
    } else {
      assert FitsFrom(r, s.from, EvalWiths(s.withs, w));
    }
  }

  lemma CollapsedFits(s: Select, d: bool, w: World)
    requires Chain(s, d, w) && HasFlattenable(s) && Depth(s) <= MAX_DEPTH && Outer(s)
    ensures
      var v := EvalWiths(s.from.value.query.withs, EvalWiths(s.withs, w));
      forall r :: r in LayerRefs(Collapse(s)) ==> FitsFrom(r, s.from.value.query.from, v)
  {
    var inner := s.from.value.query;
    CollapsedWithin(s, d, w);
    ItemsRefsWithin(Collapse(s).items, Depth(s) + Depth(inner) + 1, RefsBelow(s, inner));
    forall r | r in LayerRefs(Collapse(s))
      ensures FitsFrom(r, inner.from, EvalWiths(inner.withs, EvalWiths(s.withs, w)))
    {
      CollapsedRefsFit(s, d, w, r);
    }
  }

  lemma WithinStarFree(items: seq<Item>, h: int, refs: set<Ref>)
    requires ItemsWithin(items, h, refs)
    ensures StarFree(items)
  {
    forall i | 0 <= i < |items|
      ensures !IsStarItem(items[i])
    {
      assert Within(items[i].expr, h, refs);
    }
  }

  lemma {:induction false} BelowMerged(outer: seq<WithClause>, inner: seq<WithClause>, s: Select)
    requires NoCaptureBelow(outer, s) && NoCaptureBelow(inner, s)
    ensures NoCaptureBelow(MergeWiths(outer, inner), s)
  {
    MergeCapturesNoMore(outer, inner, s.withs);
    if HasFlattenable(s) {
      BelowMerged(outer, inner, s.from.value.query);
    }
  }

  lemma CollapsedCaptures(s: Select, d: bool, w: World)
    requires Chain(s, d, w) && HasFlattenable(s)
    ensures HasFlattenable(Collapse(s)) ==> NoCaptureBelow(Collapse(s).withs, Collapse(s).from.value.query)
  {
    var inner := s.from.value.query;
    assert Chain(inner, d, EvalWiths(s.withs, w));
    if HasFlattenable(inner) {
      BelowMerged(s.withs, inner.withs, inner.from.value.query);
    }
  }

  lemma CollapsedChain(s: Select, d: bool, w: World)
    requires Chain(s, d, w) && HasFlattenable(s) && Depth(s) <= MAX_DEPTH && Outer(s)
    ensures Outer(Collapse(s)) && Chain(Collapse(s), d, w)
  {
    hide EvalFrom, EvalSelect, Fits, JoinReady, Acyclic, EvalWiths;
    var c, inner, u := Collapse(s), s.from.value.query, EvalWiths(s.withs, w);
    CollapsedWorld(s, d, w);
    CollapsedCaptures(s, d, w);
    CollapsedWithin(s, d, w);
    CollapsedFits(s, d, w);
    WithinStarFree(c.items, Depth(s) + Depth(inner) + 1, RefsBelow(s, inner));
    assert Chain(inner, d, u);
  }

  // ----- the whole chain -----

  /**
   Flattening keeps what a statement of the chain fragment returns: the same rows in the same order, whatever
   the tables hold and the functions compute.
   */
  lemma {:induction false} FlattenKeepsRows(s: Select, w: World)
    requires Chain(s, s.distinct, w) && Outer(s) && WithinLimit(s)
    ensures EvalSelect(Flatten(s), w).rows == EvalSelect(s, w).rows && Outer(Flatten(s))
    ensures Acyclic(Flatten(s).withs)
    decreases s.from
  {
    hide Outer, EvalSelect;
    if s.from.Some? && s.from.value.JoinItem? {
      ChainOverJoin(s, s.distinct, w);
    } else if HasFlattenable(s) {
      CollapseKeepsRows(s, w);
      CollapsedChain(s, s.distinct, w);
      FlattenKeepsRows(Collapse(s), w);
    }
  }

  lemma CollapsedDepth(s: Select, d: bool, w: World)
    requires Chain(s, d, w) && HasFlattenable(s) && Depth(s) <= MAX_DEPTH && Outer(s)
    ensures Depth(Collapse(s)) <= Depth(s) + Depth(s.from.value.query) + 1
  {
    CollapsedWithin(s, d, w);
    ItemsDepthBound(Collapse(s).items, Depth(s) + Depth(s.from.value.query) + 1);
  }

  lemma CollapsedLayers(s: Select, h: nat)
    requires HasFlattenable(s) && LayersWithin(s, h)
    requires Depth(Collapse(s)) <= Depth(s) + Depth(s.from.value.query) + 1
    ensures LayersWithin(Collapse(s), h + Depth(s.from.value.query) + 1)
  {
    hide Depth, SubstituteItems, MergeWhere, MergeWiths;
    assert LayersWithin(s.from.value.query, h + Depth(s.from.value.query) + 1);
  }

  /** Depths that add up to no more than the limit stay within it as layers are collapsed. */
  lemma {:induction false} LayersStayWithin(s: Select, h: nat, d: bool, w: World)
    requires Chain(s, d, w) && Outer(s) && LayersWithin(s, h)
    ensures WithinLimit(s)
    decreases s.from
  {
    hide Chain, Outer, Depth;
    if HasFlattenable(s) {
      CollapsedChain(s, d, w);
      CollapsedDepth(s, d, w);
      CollapsedLayers(s, h);
      LayersStayWithin(Collapse(s), h + Depth(s.from.value.query) + 1, d, w);
    }
  }

  lemma ChainOverJoin(s: Select, d: bool, w: World)
    requires Chain(s, d, w) && Outer(s) && s.from.Some? && s.from.value.JoinItem? && Depth(s) <= MAX_DEPTH
    ensures EvalSelect(FlattenJoins(s), w).rows == EvalSelect(s, w).rows && Outer(FlattenJoins(s))
  {
    var names := NamesOf(EvalFrom(s.from.value, EvalWiths(s.withs, w)).shape);
    forall i | 0 <= i < |s.items|
      ensures ReadsNames(s.items[i].expr, names)
    {
      ItemHeight(s.items, i);
      RefsRead(s, s.items[i].expr, w);
    }
    if s.where.Some? {
      RefsRead(s, s.where.value, w);
    }
    JoinsKeepRows(s, w);
  }

  lemma RefsRead(s: Select, e: Expr, w: World)
    requires s.from.Some? && s.from.value.JoinItem? && Plain(e) && Height(e) <= MAX_DEPTH && Refs(e) <= LayerRefs(s)
    requires forall r :: r in LayerRefs(s) ==> FitsFrom(r, s.from, EvalWiths(s.withs, w))
    ensures ReadsNames(e, NamesOf(EvalFrom(s.from.value, EvalWiths(s.withs, w)).shape))
  {
  }

  /** The clauses of all layers that are collapsed. */
  function AllClauses(s: Select): seq<WithClause>
    decreases s
  {
    s.withs + if HasFlattenable(s) then AllClauses(s.from.value.query) else []
  }

  /** Flattening makes up no clause. */
  lemma {:induction false} FlatClauses(s: Select)
    ensures forall c :: c in Flatten(s).withs ==> c in AllClauses(s)
    decreases s.from
  {
    if HasFlattenable(s) && !s.from.value.JoinItem? {
      FlatClauses(Collapse(s));
      MergedClauses(s.withs, s.from.value.query.withs);
    }
  }

  ghost predicate SameHeadings(items: seq<Item>, items': seq<Item>) {
    |items| == |items'| && forall i :: 0 <= i < |items| ==>
      items'[i].alias == items[i].alias && items'[i].isStarExpansion == items[i].isStarExpansion
  }

  /** Flattening rewrites expressions only: each item keeps its alias. */
  lemma {:induction false} FlattenKeepsHeadings(s: Select)
    ensures SameHeadings(s.items, Flatten(s).items)
    decreases s.from
  {
    if HasFlattenable(s) {
      FlattenKeepsHeadings(Collapse(s));
      assert SameHeadings(s.items, Collapse(s).items);
    }
  }

  /** With every output column named, the whole result is the same. */
  lemma FlattenKeepsResult(s: Select, w: World)
    requires Chain(s, s.distinct, w) && Outer(s) && WithinLimit(s) && AllAliased(s.items)
    ensures EvalSelect(Flatten(s), w) == EvalSelect(s, w)
  {
    FlattenKeepsRows(s, w);
    FlattenKeepsHeadings(s);
    assert ItemAliases(Flatten(s).items) == ItemAliases(s.items);
    NamedCols(s, w);
    NamedCols(Flatten(s), w);
  }

  lemma NamedCols(s: Select, w: World)
    requires Ungrouped(s) && AllAliased(s.items)
    ensures EvalSelect(s, w).cols == ItemAliases(s.items)
  {
    SelectCols(s, w);
    AliasedOutCols(s.items, FromRows(s.from, EvalWiths(s.withs, w)).shape);
  }

  // ----- chains without joins, on every database -----

  predicate JoinFree(s: Select) {
    s.from.Some? ==> !s.from.value.JoinItem? && (s.from.value.SubqueryItem? ==> JoinFree(s.from.value.query))
  }

  lemma {:induction false} FitsAnywhere(r: Ref, f: FromItem, w: World, v: World)
    requires !f.JoinItem? && (f.SubqueryItem? ==> JoinFree(f.query)) && Fits(r, f, w)
    ensures Fits(r, f, v)
    decreases f
  {
    if Flattenable(f) && StarLayer(f.query) {
      FitsAnywhere(r, f.query.from.value, EvalWiths(f.query.withs, w), EvalWiths(f.query.withs, v));
    }
  }

  /** Whether a statement without joins is such a chain does not depend on the database. */
  lemma {:induction false} ChainAnywhere(s: Select, d: bool, w: World, v: World)
    requires JoinFree(s) && Chain(s, d, w)
    ensures Chain(s, d, v)
    decreases s
  {
    var w', v' := EvalWiths(s.withs, w), EvalWiths(s.withs, v);
    forall r | r in LayerRefs(s)
      ensures FitsFrom(r, s.from, v')
    {
      assert FitsFrom(r, s.from, w');
      if s.from.Some? {
        FitsAnywhere(r, s.from.value, w', v');
      }
    }
    if HasFlattenable(s) {
      ChainAnywhere(s.from.value.query, d, w', v');
    }
  }

  // ----- one DISTINCT layer -----

  /** A chain, but for the DISTINCT of the layer directly below. */
  ghost predicate ChainButDistinct(s: Select, w: World) {
    && HasFlattenable(s) && s.from.value.query.distinct && Outer(s)
    && Chain(Undistinct(s), s.distinct, w) && WithinLimit(Undistinct(s))
  }

  /**
   `canFlattenSelect` does not look at DISTINCT, so a DISTINCT layer is collapsed and its DISTINCT lost.  In a given
   world the rows are kept exactly when the statement is itself DISTINCT, or no two of the layer's rows that pass the
   statement's WHERE are equal.  No compiled recursive term is such a statement: DISTINCT is set for MERGE alone.
   */
  lemma DistinctLayerKeptIff(s: Select, w: World)
    requires ChainButDistinct(s, w) && s.limit.None?
    ensures EvalSelect(Flatten(s), w).rows == EvalSelect(s, w).rows <==> s.distinct || NoRepeats(PassingRows(s, w))
  {
    assert Collapse(Undistinct(s)) == Collapse(s);
    assert Flatten(s) == Flatten(Undistinct(s));
    FlattenKeepsRows(Undistinct(s), w);
    InnerDistinctMatters(s, w);
  }

  /** Lists over a DISTINCT list over a base table, with no WHERE and no LIMIT. */
  ghost predicate DistinctOverTable(s: Select) {
    && HasFlattenable(s) && s.from.value.query.distinct && Outer(s) && s.limit.None? && s.where.None?
    && s.withs == [] && s.from.value.query.withs == []
    && s.from.value.query.where.None? && s.from.value.query.from.Some? && s.from.value.query.from.value.TableItem?
    && StarFree(s.from.value.query.items)
  }

  ghost predicate RowsKept(s: Select, w: World) {
    EvalSelect(Flatten(s), w).rows == EvalSelect(s, w).rows
  }

  /** Over a table whose rows may repeat, the rows are kept in every world exactly when the statement is DISTINCT. */
  lemma DistinctLayerKeptEverywhereIff(s: Select)
    requires DistinctOverTable(s) && forall w: World :: ChainButDistinct(s, w)
    ensures (forall w: World :: RowsKept(s, w)) <==> s.distinct
  {
    if s.distinct {
      forall w: World
        ensures RowsKept(s, w)
      {
        assert ChainButDistinct(s, w);
        DistinctLayerKeptIff(s, w);
      }
    } else {
      var twice := RepeatingWorld(s.from.value.query.from.value.name, ["c"], [Int(1)]);
      RepeatedRows(s, ["c"], [Int(1)], twice);
      assert ChainButDistinct(s, twice);
      DistinctLayerKeptIff(s, twice);
      assert !RowsKept(s, twice);
    }
  }

  /** A world in which the table has the same row twice. */
  function RepeatingWorld(table: string, cols: seq<string>, row: Tuple): World {
    World(map[table := Rel(cols, [row, row])],
          (fn, vs) => Null, text => false, p => Null, (q, tables) => Rel([], []))
  }

  lemma RepeatedRows(s: Select, cols: seq<string>, row: Tuple, w: World)
    requires DistinctOverTable(s) && w == RepeatingWorld(s.from.value.query.from.value.name, cols, row)
    ensures !NoRepeats(PassingRows(s, w))
  {
    var q := s.from.value.query.(distinct := false);
    var base := EvalFrom(q.from.value, w);
    var rows := EvalFrom(Undistinct(s).from.value, w);
    SelectRows(q, w);
    FilterNothing(base, w);
    FilterNothing(rows, w);
    AliasedTuple(q.items, base.shape, base.tuples[0], w);
    AliasedTuple(q.items, base.shape, base.tuples[1], w);
    assert Rows(rows.shape, rows.tuples) == rows;
    assert PassingRows(s, w) == rows.tuples == ProjectAll(q.items, base, w);
    assert PassingRows(s, w)[0] == PassingRows(s, w)[1];
  }
}
