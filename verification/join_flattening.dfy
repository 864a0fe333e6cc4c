/**
 Unwrapping the leaves of a join (internal/sqlbuilder_flatten.go:98-161 and 557-581): the select list, WHERE and
 every nested ON condition read the same leaf columns afterwards.
 */
module JoinFlattening {
  import opened Wrappers
  import opened SqlAst
  import opened SqlSemantics
  import opened ExpressionMeaning
  import opened CompiledColumns
  import opened Scans
  import opened ScanMeaning
  import opened Flattening
  import opened Substitution
  import opened SelectAlgebra

  function NamesOf(shape: seq<Slot>): set<string> {
    set p | 0 <= p < |shape| :: shape[p].name
  }

  function TablesOf(shape: seq<Slot>): set<string> {
    set p | 0 <= p < |shape| :: shape[p].table
  }

  ghost predicate Even(rows: Rows) {
    forall i :: 0 <= i < |rows.tuples| ==> |rows.tuples[i]| == |rows.shape|
  }

  // ----- the joins considered -----

  /** A projection layer: distinct aliases for columns of a table or a subquery, and nothing else. */
  predicate PassThrough(f: FromItem) {
    && Unwraps(f) && f.alias != "" && !f.query.from.value.JoinItem?
    && f.query == EMPTY_SELECT.(items := f.query.items, from := f.query.from)
    && AllAliased(f.query.items)
    && forall i :: 0 <= i < |f.query.items| ==> f.query.items[i].expr.Column?
  }

  ghost predicate Resolvable(shape: seq<Slot>, table: string, name: string) {
    Resolve(shape, table, name).Some?
  }

  /** What an unwrapped leaf is replaced by, before it is unwrapped itself. */
  function OneLess(f: FromItem): (r: FromItem)
    requires Unwraps(f)
    ensures Nesting(r) < Nesting(f) && (Unwraps(r) <==> Unwraps(f.query.from.value))
  {
    Renamed(f.query.from.value, FinalAlias(f))
  }

  /** Only the names of columns survive the unwrapping of a second layer, so that layer may not rename. */
  predicate KeepsNames(items: seq<Item>) {
    forall i :: 0 <= i < |items| ==> items[i].expr.Column? && items[i].expr.name == items[i].alias
  }

  ghost predicate LeafReady(f: FromItem, w: World)
    decreases Nesting(f)
  {
    if Unwraps(f) then
      var base := EvalFrom(f.query.from.value, w);
      && PassThrough(f) && DistinctStrings(ItemAliases(f.query.items))
      && (forall i :: 0 <= i < |f.query.items| ==>
            Resolvable(base.shape, f.query.items[i].expr.table, f.query.items[i].expr.name))
      && if Unwraps(OneLess(f)) then LeafReady(OneLess(f), w) && KeepsNames(f.query.items) else Even(base)
    else
      Even(EvalFrom(f, w)) && DistinctStrings(SlotNames(EvalFrom(f, w).shape))
  }

  /** The columns of the leaves that stay as they are. */
  ghost function KeptNames(f: FromItem, w: World): set<string> {
    if f.JoinItem? then KeptNames(f.left, w) + KeptNames(f.right, w)
    else if Unwraps(f) then {}
    else NamesOf(EvalFrom(f, w).shape)
  }

  /** The columns of what the unwrapped leaves come down to. */
  ghost function BaseNames(f: FromItem, w: World): set<string> {
    if f.JoinItem? then BaseNames(f.left, w) + BaseNames(f.right, w)
    else if Unwraps(f) then NamesOf(EvalFrom(UnwrapTree(f), w).shape)
    else {}
  }

  ghost function Qualifiers(f: FromItem, w: World): set<string> {
    if f.JoinItem? then Qualifiers(f.left, w) + Qualifiers(f.right, w)
    else if Unwraps(f) then {f.alias}
    else TablesOf(EvalFrom(f, w).shape)
  }

  /** An expression that reads only the given columns, unqualified. */
  ghost predicate ReadsNames(e: Expr, names: set<string>) {
    Plain(e) && Height(e) <= MAX_DEPTH && forall r :: r in Refs(e) ==> r.0 == "" && r.1 in names
  }

  ghost predicate JoinReady(f: FromItem, w: World) {
    if f.JoinItem? then
      && JoinReady(f.left, w) && JoinReady(f.right, w)
      && NamesOf(EvalFrom(f.left, w).shape) !! NamesOf(EvalFrom(f.right, w).shape)
      && Qualifiers(f.left, w) !! Qualifiers(f.right, w)
      && KeptNames(f.left, w) !! BaseNames(f.right, w)
      && KeptNames(f.right, w) !! BaseNames(f.left, w)
      && UnwrapMap(f.left).Keys !! NamesOf(EvalFrom(f.right, w).shape)
      && UnwrapMap(f.right).Keys !! NamesOf(EvalFrom(f.left, w).shape)
      && (f.cond.Some? ==> ReadsNames(f.cond.value, NamesOf(EvalFrom(f, w).shape)))
    else LeafReady(f, w)
  }

  // ----- what flattening does to such a join -----

  function UnwrapTree(f: FromItem): FromItem
    decreases Nesting(f)
  {
    if f.JoinItem? then f.(left := UnwrapTree(f.left), right := UnwrapTree(f.right))
    else if Unwraps(f) then UnwrapTree(OneLess(f))
    else f
  }

  function UnwrapMap(f: FromItem): AliasMap
    decreases Nesting(f)
  {
    if f.JoinItem? then UnwrapMap(f.left) + UnwrapMap(f.right)
    else if Unwraps(f) then AddLeafAliases(map[], f.query.items, FinalAlias(f)) + UnwrapMap(OneLess(f))
    else map[]
  }

  lemma {:induction false} AddLeafAliasesAbove(m: AliasMap, items: seq<Item>, alias: string)
    ensures AddLeafAliases(m, items, alias) == m + AddLeafAliases(map[], items, alias)
  {
    if items != [] {
      AddLeafAliasesAbove(m, items[..|items| - 1], alias);
    }
  }

  lemma AddedInTurn(m: AliasMap, a: AliasMap, b: AliasMap)
    ensures m + a + b == m + (a + b)
  {
  }

  /** The shared map is filled as if each leaf had a map of its own. */
  lemma {:induction false} LeavesFlattened(f: FromItem, m: AliasMap)
    ensures FlattenSide(f, m) == (UnwrapTree(f), m + UnwrapMap(f))
    decreases Nesting(f)
  {
    hide AddLeafAliases, AddAlias, CanUnwrap;
    if f.JoinItem? {
      LeavesFlattened(f.left, m);
      LeavesFlattened(f.right, m + UnwrapMap(f.left));
      AddedInTurn(m, UnwrapMap(f.left), UnwrapMap(f.right));
    } else if Unwraps(f) {
      var own := AddLeafAliases(map[], f.query.items, FinalAlias(f));
      AddLeafAliasesAbove(m, f.query.items, FinalAlias(f));
      LeavesFlattened(OneLess(f), m + own);
      AddedInTurn(m, own, UnwrapMap(OneLess(f)));
    } else {
      assert m + map[] == m;
    }
  }

  // ----- reading a column before and after -----

  /** The definition reads, from each row after, what the name reads from the same row before. */
  ghost predicate Mirrored(b: Rows, a: Rows, n: string, d: Expr) {
    && d.Column?
    && |b.tuples| == |a.tuples|
    && Resolvable(b.shape, "", n) && Resolvable(a.shape, d.table, d.name)
    && forall i :: 0 <= i < |b.tuples| ==>
         Lookup(a.shape, a.tuples[i], d.table, d.name) == Lookup(b.shape, b.tuples[i], "", n)
  }

  function DefinitionOf(n: string, m: AliasMap): Expr {
    Definition(("", n), m, "")
  }

  ghost predicate Mirrors(b: Rows, a: Rows, m: AliasMap) {
    && Even(b) && Even(a) && |b.tuples| == |a.tuples|
    && forall n :: n in NamesOf(b.shape) ==> Mirrored(b, a, n, DefinitionOf(n, m))
  }

  ghost predicate NoMatch(shape: seq<Slot>, d: Expr) {
    d.Column? && forall p: nat :: !Matches(shape, p, d.table, d.name)
  }

  lemma ResolveLeft(l: seq<Slot>, r: seq<Slot>, table: string, name: string)
    requires forall p: nat :: !Matches(r, p, table, name)
    ensures Resolve(l + r, table, name) == Resolve(l, table, name)
  {
    forall p: nat
      ensures Matches(l + r, p, table, name) <==> Matches(l, p, table, name)
    {
      if |l| <= p < |l| + |r| {
        assert !Matches(r, p - |l|, table, name);
      }
    }
    ResolveSame(l + r, table, l, table, name);
  }

  lemma ResolveRight(l: seq<Slot>, r: seq<Slot>, table: string, name: string)
    requires forall p: nat :: !Matches(l, p, table, name)
    requires Resolvable(r, table, name)
    ensures Resolve(l + r, table, name) == Some(|l| + Resolve(r, table, name).value)
  {
    var q: nat :| ResolvesTo(r, q, table, name);
    ResolveUnique(r, q, table, name);
    forall p: nat
      ensures Matches(l + r, p, table, name) <==> p >= |l| && Matches(r, p - |l|, table, name)
    {
      if p < |l| {
        assert !Matches(l, p, table, name);
      }
    }
    assert Matches(l + r, |l| + q, table, name);
    assert ResolvesTo(l + r, |l| + q, table, name);
    ResolveUnique(l + r, |l| + q, table, name);
  }

  lemma ResolvedAt(shape: seq<Slot>, table: string, name: string)
    requires Resolvable(shape, table, name)
    ensures Resolve(shape, table, name).value < |shape|
  {
    var p: nat :| ResolvesTo(shape, p, table, name);
    ResolveUnique(shape, p, table, name);
  }

  lemma LookupLeft(l: seq<Slot>, r: seq<Slot>, t: Tuple, u: Tuple, d: Expr)
    requires NoMatch(r, d) && |t| == |l| && Resolvable(l, d.table, d.name)
    ensures Lookup(l + r, t + u, d.table, d.name) == Lookup(l, t, d.table, d.name)
    ensures Resolvable(l + r, d.table, d.name)
  {
    ResolveLeft(l, r, d.table, d.name);
    ResolvedAt(l, d.table, d.name);
  }

  lemma LookupRight(l: seq<Slot>, r: seq<Slot>, t: Tuple, u: Tuple, d: Expr)
    requires NoMatch(l, d) && |t| == |l| && |u| == |r| && Resolvable(r, d.table, d.name)
    ensures Lookup(l + r, t + u, d.table, d.name) == Lookup(r, u, d.table, d.name)
    ensures Resolvable(l + r, d.table, d.name)
  {
    ResolveRight(l, r, d.table, d.name);
    ResolvedAt(r, d.table, d.name);
  }

  /** A padded row reads NULL wherever a real one reads a column. */
  lemma LookupNull(shape: seq<Slot>, table: string, name: string)
    requires Resolvable(shape, table, name)
    ensures Lookup(shape, NullTuple(|shape|), table, name) == Null
  {
    ResolvedAt(shape, table, name);
  }

  lemma PickMirrored(b: Rows, a: Rows, n: string, d: Expr, p: Option<nat>)
    requires Mirrored(b, a, n, d)
    ensures Lookup(a.shape, Pick(p, a.tuples, |a.shape|), d.table, d.name)
         == Lookup(b.shape, Pick(p, b.tuples, |b.shape|), "", n)
  {
    LookupNull(b.shape, "", n);
    LookupNull(a.shape, d.table, d.name);
  }

  // ----- one join -----

  /** A side of a join before and after, and that its columns cannot be confused with the other side's. */
  datatype SideChange = SideChange(b: Rows, a: Rows)

  ghost predicate Apart(x: SideChange, y: SideChange, m: AliasMap) {
    forall n :: n in NamesOf(x.b.shape) ==>
      NoMatch(y.b.shape, Column("", n)) && NoMatch(y.a.shape, DefinitionOf(n, m))
  }

  ghost predicate SidesReady(x: SideChange, y: SideChange, m: AliasMap) {
    Mirrors(x.b, x.a, m) && Mirrors(y.b, y.a, m) && Apart(x, y, m) && Apart(y, x, m)
  }

  ghost predicate SameRead(
    n: string, d: Expr, shape: seq<Slot>, t: Tuple, shape': seq<Slot>, t': Tuple)
  {
    && d.Column? && Resolvable(shape, "", n) && Resolvable(shape', d.table, d.name)
    && Lookup(shape', t', d.table, d.name) == Lookup(shape, t, "", n)
  }

  lemma SidesRead(x: SideChange, y: SideChange, m: AliasMap, p: Option<nat>, q: Option<nat>, n: string)
    requires SidesReady(x, y, m) && n in NamesOf(x.b.shape + y.b.shape)
    ensures SameRead(n, DefinitionOf(n, m),
      x.b.shape + y.b.shape, Pick(p, x.b.tuples, |x.b.shape|) + Pick(q, y.b.tuples, |y.b.shape|),
      x.a.shape + y.a.shape, Pick(p, x.a.tuples, |x.a.shape|) + Pick(q, y.a.tuples, |y.a.shape|))
  {
    var d := DefinitionOf(n, m);
    var t, u := Pick(p, x.b.tuples, |x.b.shape|), Pick(q, y.b.tuples, |y.b.shape|);
    var t', u' := Pick(p, x.a.tuples, |x.a.shape|), Pick(q, y.a.tuples, |y.a.shape|);
    var k :| 0 <= k < |x.b.shape + y.b.shape| && (x.b.shape + y.b.shape)[k].name == n;
    if k < |x.b.shape| {
      assert n in NamesOf(x.b.shape);
      PickMirrored(x.b, x.a, n, d, p);
      LookupLeft(x.b.shape, y.b.shape, t, u, Column("", n));
      LookupLeft(x.a.shape, y.a.shape, t', u', d);
    } else {
      assert n in NamesOf(y.b.shape);
      PickMirrored(y.b, y.a, n, d, q);
      LookupRight(x.b.shape, y.b.shape, t, u, Column("", n));
      LookupRight(x.a.shape, y.a.shape, t', u', d);
    }
  }

  lemma SameMatches(x: SideChange, y: SideChange, m: AliasMap, cond: Option<Expr>, w: World)
    requires SidesReady(x, y, m)
    requires cond.Some? ==> ReadsNames(cond.value, NamesOf(x.b.shape + y.b.shape))
    ensures MatchMatrix(x.b, y.b, cond, w) == MatchMatrix(x.a, y.a, SubstituteOption(cond, m, ""), w)
  {
    forall i, j | 0 <= i < |x.b.tuples| && 0 <= j < |y.b.tuples|
      ensures Holds(cond, x.b.shape + y.b.shape, x.b.tuples[i] + y.b.tuples[j], w)
          <==> Holds(SubstituteOption(cond, m, ""), x.a.shape + y.a.shape, x.a.tuples[i] + y.a.tuples[j], w)
    {
      if cond.Some? {
        ConditionReads(x, y, m, cond.value, i, j, w);
        SubstitutionKeepsValue(cond.value, m, "", 0, x.b.shape + y.b.shape, x.b.tuples[i] + y.b.tuples[j], w,
                               x.a.shape + y.a.shape, x.a.tuples[i] + y.a.tuples[j], w);
      }
    }
    SameMatrices(MatchMatrix(x.b, y.b, cond, w), MatchMatrix(x.a, y.a, SubstituteOption(cond, m, ""), w), |y.b.tuples|);
  }

  lemma SameMatrices(m: seq<seq<bool>>, m': seq<seq<bool>>, width: nat)
    requires |m| == |m'| && Rectangular(m, width) && Rectangular(m', width)
    requires forall i, j :: 0 <= i < |m| && 0 <= j < width ==> m[i][j] == m'[i][j]
    ensures m == m'
  {
    forall i | 0 <= i < |m|
      ensures m[i] == m'[i]
    {
    }
  }

  lemma ConditionReads(x: SideChange, y: SideChange, m: AliasMap, cond: Expr, i: nat, j: nat, w: World)
    requires SidesReady(x, y, m) && i < |x.b.tuples| && j < |y.b.tuples|
    requires ReadsNames(cond, NamesOf(x.b.shape + y.b.shape))
    ensures DefinitionsRead(Refs(cond), m, "", x.b.shape + y.b.shape, x.b.tuples[i] + y.b.tuples[j], w,
                  x.a.shape + y.a.shape, x.a.tuples[i] + y.a.tuples[j], w)
  {
    forall r | r in Refs(cond)
      ensures Eval(Definition(r, m, ""), x.a.shape + y.a.shape, x.a.tuples[i] + y.a.tuples[j], w)
           == Lookup(x.b.shape + y.b.shape, x.b.tuples[i] + y.b.tuples[j], r.0, r.1)
    {
      SidesRead(x, y, m, Some(i), Some(j), r.1);
    }
  }

  /** Joining sides that mirror each other, under the substituted condition, gives rows that do. */
  lemma MirrorsJoin(kind: JoinType, x: SideChange, y: SideChange, m: AliasMap, cond: Option<Expr>, w: World)
    requires SidesReady(x, y, m)
    requires cond.Some? ==> ReadsNames(cond.value, NamesOf(x.b.shape + y.b.shape))
    ensures Mirrors(JoinRows(kind, x.b, y.b, cond, w), JoinRows(kind, x.a, y.a, SubstituteOption(cond, m, ""), w), m)
  {
    SameMatches(x, y, m, cond, w);
    var b, a := JoinRows(kind, x.b, y.b, cond, w), JoinRows(kind, x.a, y.a, SubstituteOption(cond, m, ""), w);
    var ps := Pairings(kind, MatchMatrix(x.b, y.b, cond, w), |y.b.tuples|);
    assert Even(b) && Even(a);
    forall n | n in NamesOf(b.shape)
      ensures Mirrored(b, a, n, DefinitionOf(n, m))
    {
      forall k | 0 <= k < |ps|
        ensures SameRead(n, DefinitionOf(n, m), b.shape, b.tuples[k], a.shape, a.tuples[k])
      {
        SidesRead(x, y, m, ps[k].l, ps[k].r, n);
      }
      SidesRead(x, y, m, None, None, n);
    }
  }

  // ----- a leaf -----

  lemma {:induction false} LeafMapAt(items: seq<Item>, alias: string, i: nat)
    requires AllAliased(items) && DistinctStrings(ItemAliases(items)) && i < |items|
    ensures items[i].alias in AddLeafAliases(map[], items, alias)
    ensures AddLeafAliases(map[], items, alias)[items[i].alias] == Requalify(items[i].expr, alias)
  {
    var n := |items| - 1;
    if i < n {
      assert ItemAliases(items[..n]) == ItemAliases(items)[..n];
      LeafMapAt(items[..n], alias, i);
      assert ItemAliases(items)[i] != ItemAliases(items)[n];
    }
  }

  lemma {:induction false} LeafMapKeys(items: seq<Item>, alias: string)
    ensures forall n :: n in AddLeafAliases(map[], items, alias) ==> n in ItemAliases(items)
  {
    if items != [] {
      var k := |items| - 1;
      LeafMapKeys(items[..k], alias);
      assert ItemAliases(items) == ItemAliases(items[..k]) + [items[k].alias];
    }
  }

  /** Relabelling a table does not change which column a reference resolves to. */
  lemma RelabelledResolves(cols: seq<string>, own: string, table: string, name: string, alias: string)
    requires Resolvable(Relabel(cols, own), table, name)
    ensures Resolve(Relabel(cols, alias), alias, name) == Resolve(Relabel(cols, own), table, name)
  {
    var p: nat :| ResolvesTo(Relabel(cols, own), p, table, name);
    assert Matches(Relabel(cols, own), p, table, name);
    assert table == "" || table == own;
    forall q: nat
      ensures Matches(Relabel(cols, alias), q, alias, name) <==> Matches(Relabel(cols, own), q, table, name)
    {
    }
    ResolveSame(Relabel(cols, alias), alias, Relabel(cols, own), table, name);
  }

  /** The rows of a pass-through subquery: each item reads its base column. */
  lemma LeafRows(f: FromItem, w: World)
    requires Unwraps(f) && PassThrough(f)
    ensures
      var base := EvalFrom(f.query.from.value, w);
      var b := EvalFrom(f, w);
      && b.shape == Relabel(ItemAliases(f.query.items), f.alias)
      && |b.tuples| == |base.tuples|
      && forall i :: 0 <= i < |b.tuples| ==> b.tuples[i] == EvalItems(f.query.items, base.shape, base.tuples[i], w)
  {
    PlainSelect(f.query, f.query.items, f.query.from.value, w);
  }

  /** A leaf's column is read, one layer less, from the column it names. */
  lemma LeafColumn(f: FromItem, w: World, k: nat)
    requires Unwraps(f) && LeafReady(f, w) && k < |f.query.items|
    ensures Mirrored(EvalFrom(f, w), EvalFrom(OneLess(f), w), f.query.items[k].alias,
                     Column(f.alias, f.query.items[k].expr.name))
  {
    var items, base := f.query.items, EvalFrom(f.query.from.value, w);
    var table, name := items[k].expr.table, items[k].expr.name;
    var b, a := EvalFrom(f, w), EvalFrom(OneLess(f), w);
    LeafRows(f, w);
    var cols := SlotNames(base.shape);
    var own := OwnAlias(f.query.from.value);
    assert base.shape == Relabel(cols, own) && a.shape == Relabel(cols, f.alias) && a.tuples == base.tuples;
    assert Resolvable(base.shape, table, name);
    RelabelledResolves(cols, own, table, name, f.alias);
    forall i | 0 <= i < |b.tuples|
      ensures Lookup(b.shape, b.tuples[i], "", items[k].alias) == Lookup(a.shape, a.tuples[i], f.alias, name)
    {
      LookupHit(ItemAliases(items), f.alias, "", b.tuples[i], k);
    }
    forall q: nat | Matches(b.shape, q, "", items[k].alias)
      ensures q == k
    {
      assert ItemAliases(items)[q] == ItemAliases(items)[k];
    }
    assert ResolvesTo(b.shape, k, "", items[k].alias);
  }

  /** The qualifier of a table's or subquery's columns. */
  function OwnAlias(f: FromItem): string {
    if f.TableItem? && f.alias == "" then f.name else f.alias
  }

  /** In a shape with one qualifier, qualified and unqualified references read alike. */
  lemma QualifierNeedless(cols: seq<string>, alias: string, name: string)
    ensures Resolve(Relabel(cols, alias), alias, name) == Resolve(Relabel(cols, alias), "", name)
  {
    ResolveSame(Relabel(cols, alias), alias, Relabel(cols, alias), "", name);
  }

  /** Through all its layers, a leaf's column is read from what the leaf comes down to. */
  lemma {:induction false} LeafReads(f: FromItem, w: World, k: nat)
    requires Unwraps(f) && LeafReady(f, w) && k < |f.query.items|
    ensures
      var n := f.query.items[k].alias;
      n in UnwrapMap(f) && Mirrored(EvalFrom(f, w), EvalFrom(UnwrapTree(f), w), n, UnwrapMap(f)[n])
    decreases Nesting(f)
  {
    var n, g := f.query.items[k].alias, OneLess(f);
    LeafColumn(f, w, k);
    LeafMapAt(f.query.items, f.alias, k);
    if Unwraps(g) {
      LeafRows(g, w);
      QualifierNeedless(ItemAliases(g.query.items), f.alias, n);
      var p := Resolve(EvalFrom(g, w).shape, "", n).value;
      ResolvedAt(EvalFrom(g, w).shape, "", n);
      assert g.query.items[p].alias == n by {
        ResolvedName(EvalFrom(g, w).shape, "", n);
      }
      LeafReads(g, w, p);
    } else {
      assert UnwrapMap(g) == map[];
    }
  }

  lemma ResolvedName(shape: seq<Slot>, table: string, name: string)
    requires Resolvable(shape, table, name)
    ensures Resolve(shape, table, name).value < |shape| && shape[Resolve(shape, table, name).value].name == name
  {
    var p: nat :| ResolvesTo(shape, p, table, name);
    ResolveUnique(shape, p, table, name);
  }

  /** What a leaf comes down to: no join, under the leaf's alias, with whole rows. */
  lemma {:induction false} LeafBottom(f: FromItem, w: World)
    requires Unwraps(f) && LeafReady(f, w)
    ensures !UnwrapTree(f).JoinItem? && UnwrapTree(f).alias == f.alias && Even(EvalFrom(UnwrapTree(f), w))
    decreases Nesting(f)
  {
    if Unwraps(OneLess(f)) {
      LeafBottom(OneLess(f), w);
    }
  }

  lemma LeafMirrors(f: FromItem, m: AliasMap, w: World)
    requires Unwraps(f) && LeafReady(f, w) && Agrees(f, m, w)
    ensures Mirrors(EvalFrom(f, w), EvalFrom(UnwrapTree(f), w), m)
  {
    var b, items := EvalFrom(f, w), f.query.items;
    LeafRows(f, w);
    LeafBottom(f, w);
    forall n | n in NamesOf(b.shape)
      ensures Mirrored(b, EvalFrom(UnwrapTree(f), w), n, DefinitionOf(n, m))
    {
      var k :| 0 <= k < |items| && items[k].alias == n;
      LeafReads(f, w, k);
    }
    LeafReads(f, w, 0);
  }

  lemma KeptMirrors(f: FromItem, m: AliasMap, w: World)
    requires !f.JoinItem? && !Unwraps(f) && LeafReady(f, w) && Agrees(f, m, w)
    ensures Mirrors(EvalFrom(f, w), EvalFrom(f, w), m)
  {
    var b := EvalFrom(f, w);
    forall n | n in NamesOf(b.shape)
      ensures Mirrored(b, b, n, DefinitionOf(n, m))
    {
      var p :| 0 <= p < |b.shape| && b.shape[p].name == n;
      assert SlotNames(b.shape)[p] == n;
      forall q: nat | Matches(b.shape, q, "", n)
        ensures q == p
      {
        assert SlotNames(b.shape)[q] == n;
      }
      assert ResolvesTo(b.shape, p, "", n);
    }
  }

  // ----- a tree of joins -----

  /** The whole query's map says of the item's columns what the item's own map says. */
  ghost predicate Agrees(f: FromItem, m: AliasMap, w: World) {
    forall n :: n in NamesOf(EvalFrom(f, w).shape) ==> DefinitionOf(n, m) == DefinitionOf(n, UnwrapMap(f))
  }

  ghost function AfterRows(f: FromItem, m: AliasMap, w: World): Rows {
    EvalFrom(SubstituteInJoin(UnwrapTree(f), m), w)
  }

  lemma NamesOfJoin(l: seq<Slot>, r: seq<Slot>)
    ensures NamesOf(l + r) == NamesOf(l) + NamesOf(r) && TablesOf(l + r) == TablesOf(l) + TablesOf(r)
  {
    forall p | 0 <= p < |l|
      ensures l[p].name in NamesOf(l + r) && l[p].table in TablesOf(l + r)
    {
      assert (l + r)[p] == l[p];
    }
    forall p | 0 <= p < |r|
      ensures r[p].name in NamesOf(l + r) && r[p].table in TablesOf(l + r)
    {
      assert (l + r)[|l| + p] == r[p];
    }
  }

  /** Before: every column comes from a kept leaf or is mapped; the map leads to columns of the unwrapped leaves. */
  lemma {:induction false} TreeColumns(f: FromItem, w: World)
    requires JoinReady(f, w)
    ensures KeptNames(f, w) <= NamesOf(EvalFrom(f, w).shape) <= KeptNames(f, w) + UnwrapMap(f).Keys
    ensures forall n :: n in UnwrapMap(f) ==>
      UnwrapMap(f)[n].Column? && UnwrapMap(f)[n].table in Qualifiers(f, w) - {""}
  {
    if f.JoinItem? {
      TreeColumns(f.left, w);
      TreeColumns(f.right, w);
      NamesOfJoin(EvalFrom(f.left, w).shape, EvalFrom(f.right, w).shape);
    } else if Unwraps(f) {
      LeafColumns(f, w);
    }
  }

  lemma RelabelColumns(names: seq<string>, alias: string)
    ensures NamesOf(Relabel(names, alias)) == (set n | n in names) && TablesOf(Relabel(names, alias)) <= {alias}
  {
    forall n | n in names
      ensures n in NamesOf(Relabel(names, alias))
    {
      var k :| 0 <= k < |names| && names[k] == n;
      assert Relabel(names, alias)[k].name == n;
    }
  }

  lemma {:induction false} LeafColumns(f: FromItem, w: World)
    requires Unwraps(f) && LeafReady(f, w)
    ensures NamesOf(EvalFrom(f, w).shape) <= UnwrapMap(f).Keys
    ensures forall n :: n in UnwrapMap(f) ==> UnwrapMap(f)[n].Column? && UnwrapMap(f)[n].table == f.alias
    decreases Nesting(f)
  {
    var items := f.query.items;
    LeafRows(f, w);
    LeafMapKeys(items, f.alias);
    RelabelColumns(ItemAliases(items), f.alias);
    if Unwraps(OneLess(f)) {
      LeafColumns(OneLess(f), w);
    }
    OwnColumns(items, f.alias);
  }

  lemma OwnColumns(items: seq<Item>, alias: string)
    requires alias != "" && AllAliased(items) && DistinctStrings(ItemAliases(items))
    requires forall k :: 0 <= k < |items| ==> items[k].expr.Column?
    ensures forall n :: n in ItemAliases(items) ==>
      var m := AddLeafAliases(map[], items, alias);
      n in m && m[n].Column? && m[n].table == alias
  {
    forall n | n in ItemAliases(items)
      ensures
        var m := AddLeafAliases(map[], items, alias);
        n in m && m[n].Column? && m[n].table == alias
    {
      var k :| 0 <= k < |items| && items[k].alias == n;
      LeafMapAt(items, alias, k);
    }
  }

  /** After: every column is a kept leaf's or that of an unwrapped leaf's bottom, under a qualifier of the tree. */
  lemma {:induction false} TreeShape(f: FromItem, m: AliasMap, w: World)
    requires JoinReady(f, w)
    ensures TablesOf(AfterRows(f, m, w).shape) <= Qualifiers(f, w)
    ensures NamesOf(AfterRows(f, m, w).shape) <= KeptNames(f, w) + BaseNames(f, w)
  {
    if f.JoinItem? {
      TreeShape(f.left, m, w);
      TreeShape(f.right, m, w);
      NamesOfJoin(AfterRows(f.left, m, w).shape, AfterRows(f.right, m, w).shape);
    } else if Unwraps(f) {
      LeafBottom(f, w);
      var a := EvalFrom(UnwrapTree(f), w);
      assert a.shape == Relabel(SlotNames(a.shape), f.alias);
      RelabelColumns(SlotNames(a.shape), f.alias);
    }
  }

  lemma NotMatched(shape: seq<Slot>, d: Expr)
    requires d.Column? && if d.table == "" then d.name !in NamesOf(shape) else d.table !in TablesOf(shape)
    ensures NoMatch(shape, d)
  {
  }

  lemma ColumnApart(f: FromItem, g: FromItem, m: AliasMap, w: World, n: string)
    requires JoinReady(f, w) && Agrees(f, m, w) && n in NamesOf(EvalFrom(f, w).shape)
    requires NamesOf(EvalFrom(f, w).shape) !! NamesOf(EvalFrom(g, w).shape)
    requires Qualifiers(f, w) !! Qualifiers(g, w) && KeptNames(f, w) !! BaseNames(g, w)
    requires KeptNames(g, w) <= NamesOf(EvalFrom(g, w).shape)
    requires TablesOf(AfterRows(g, m, w).shape) <= Qualifiers(g, w)
    requires NamesOf(AfterRows(g, m, w).shape) <= KeptNames(g, w) + BaseNames(g, w)
    ensures NoMatch(EvalFrom(g, w).shape, Column("", n)) && NoMatch(AfterRows(g, m, w).shape, DefinitionOf(n, m))
  {
    TreeColumns(f, w);
    NotMatched(EvalFrom(g, w).shape, Column("", n));
    assert DefinitionOf(n, m) == DefinitionOf(n, UnwrapMap(f));
    NotMatched(AfterRows(g, m, w).shape, DefinitionOf(n, m));
  }

  lemma TreesApart(f: FromItem, g: FromItem, m: AliasMap, w: World)
    requires JoinReady(f, w) && JoinReady(g, w) && Agrees(f, m, w)
    requires NamesOf(EvalFrom(f, w).shape) !! NamesOf(EvalFrom(g, w).shape)
    requires Qualifiers(f, w) !! Qualifiers(g, w) && KeptNames(f, w) !! BaseNames(g, w)
    ensures Apart(SideChange(EvalFrom(f, w), AfterRows(f, m, w)), SideChange(EvalFrom(g, w), AfterRows(g, m, w)), m)
  {
    TreeColumns(g, w);
    TreeShape(g, m, w);
    forall n | n in NamesOf(EvalFrom(f, w).shape)
      ensures NoMatch(EvalFrom(g, w).shape, Column("", n)) && NoMatch(AfterRows(g, m, w).shape, DefinitionOf(n, m))
    {
      ColumnApart(f, g, m, w, n);
    }
  }

  lemma JoinShape(f: FromItem, w: World)
    requires f.JoinItem?
    ensures NamesOf(EvalFrom(f, w).shape) == NamesOf(EvalFrom(f.left, w).shape) + NamesOf(EvalFrom(f.right, w).shape)
    ensures UnwrapMap(f) == UnwrapMap(f.left) + UnwrapMap(f.right)
    ensures !Unwraps(f)
  {
    NamesOfJoin(EvalFrom(f.left, w).shape, EvalFrom(f.right, w).shape);
  }

  lemma AgreesBelow(f: FromItem, m: AliasMap, w: World)
    requires f.JoinItem? && JoinReady(f, w) && Agrees(f, m, w)
    ensures Agrees(f.left, m, w) && Agrees(f.right, m, w)
  {
    hide EvalFrom, EvalSelect, UnwrapMap, Unwraps;
    TreeColumns(f.left, w);
    TreeColumns(f.right, w);
    JoinShape(f, w);
  }

  /** Over the whole tree, each leaf column is read after unwrapping as it was before. */
  lemma {:induction false} TreeMirrors(f: FromItem, m: AliasMap, w: World)
    requires JoinReady(f, w) && Agrees(f, m, w)
    ensures Mirrors(EvalFrom(f, w), AfterRows(f, m, w), m)
  {
    hide EvalSelect, EvalFrom, Mirrors, Agrees, Unwraps;
    if f.JoinItem? {
      AgreesBelow(f, m, w);
      TreeMirrors(f.left, m, w);
      TreeMirrors(f.right, m, w);
      JoinMirrors(f, m, w);
    } else {
      LeafTreeMirrors(f, m, w);
    }
  }

  lemma JoinMirrors(f: FromItem, m: AliasMap, w: World)
    requires f.JoinItem? && JoinReady(f, w) && Agrees(f.left, m, w) && Agrees(f.right, m, w)
    requires Mirrors(EvalFrom(f.left, w), AfterRows(f.left, m, w), m)
    requires Mirrors(EvalFrom(f.right, w), AfterRows(f.right, m, w), m)
    ensures Mirrors(EvalFrom(f, w), AfterRows(f, m, w), m)
  {
    hide Mirrors, Agrees, Apart;
    TreesApart(f.left, f.right, m, w);
    TreesApart(f.right, f.left, m, w);
    MirrorsJoin(f.join, SideChange(EvalFrom(f.left, w), AfterRows(f.left, m, w)),
                SideChange(EvalFrom(f.right, w), AfterRows(f.right, m, w)), m, f.cond, w);
  }

  lemma LeafTreeMirrors(f: FromItem, m: AliasMap, w: World)
    requires !f.JoinItem? && JoinReady(f, w) && Agrees(f, m, w)
    ensures Mirrors(EvalFrom(f, w), AfterRows(f, m, w), m)
  {
    hide EvalSelect, EvalFrom, Mirrors, Agrees, Unwraps;
    if Unwraps(f) {
      LeafBottom(f, w);
      LeafMirrors(f, m, w);
    } else {
      KeptMirrors(f, m, w);
    }
  }

  // ----- a SELECT over a tree of joins -----

  lemma {:induction false} SubstituteNothingInJoin(f: FromItem)
    ensures SubstituteInJoin(f, map[]) == f
  {
    if f.JoinItem? {
      SubstituteNothingInJoin(f.left);
      SubstituteNothingInJoin(f.right);
      if f.cond.Some? {
        SubstituteNothing(f.cond.value, "", 0);
      }
    }
  }

  /** Select list and WHERE read only columns of the leaves, unqualified. */
  ghost predicate SelectReads(s: Select, names: set<string>) {
    && StarFree(s.items)
    && (forall i :: 0 <= i < |s.items| ==> ReadsNames(s.items[i].expr, names))
    && (s.where.Some? ==> ReadsNames(s.where.value, names))
  }

  lemma FlattenJoinsIs(s: Select, w: World)
    requires s.from.Some? && s.from.value.JoinItem? && JoinReady(s.from.value, w)
    ensures
      var m := UnwrapMap(s.from.value);
      FlattenJoins(s)
      == s.(items := SubstituteItems(s.items, m, ""), where := SubstituteOption(s.where, m, ""),
            from := Some(SubstituteInJoin(UnwrapTree(s.from.value), m)))
  {
    hide UnwrapMap, UnwrapTree, FlattenSide, JoinReady, SubstituteAt;
    var m := UnwrapMap(s.from.value);
    LeavesFlattened(s.from.value, map[]);
    assert map[] + m == m;
    if m == map[] {
      SubstituteNothingInJoin(UnwrapTree(s.from.value));
      forall i | 0 <= i < |s.items|
        ensures SubstituteItem(s.items[i], m, "") == s.items[i]
      {
        SubstituteNothing(s.items[i].expr, "", 0);
      }
      if s.where.Some? {
        SubstituteNothing(s.where.value, "", 0);
      }
    }
  }

  lemma ReadCorresponds(e: Expr, b: Rows, a: Rows, m: AliasMap, w: World)
    requires Mirrors(b, a, m) && ReadsNames(e, NamesOf(b.shape))
    ensures Corresponds(e, b, w, SubstituteAt(e, m, "", 0), a, w)
  {
    forall i | 0 <= i < |b.tuples|
      ensures Eval(SubstituteAt(e, m, "", 0), a.shape, a.tuples[i], w) == Eval(e, b.shape, b.tuples[i], w)
    {
      forall r | r in Refs(e)
        ensures Eval(Definition(r, m, ""), a.shape, a.tuples[i], w) == Lookup(b.shape, b.tuples[i], r.0, r.1)
      {
        assert Mirrored(b, a, r.1, DefinitionOf(r.1, m));
      }
      SubstitutionKeepsValue(e, m, "", 0, b.shape, b.tuples[i], w, a.shape, a.tuples[i], w);
    }
  }

  lemma {:induction false} SubstitutedPlain(e: Expr, m: AliasMap)
    requires Plain(e) && forall n :: n in m ==> m[n].Column?
    ensures !SubstituteAt(e, m, "", 0).Star?
  {
  }

  lemma ItemsRead(items: seq<Item>, b: Rows, a: Rows, m: AliasMap, w: World)
    requires Mirrors(b, a, m) && forall n :: n in m ==> m[n].Column?
    requires StarFree(items) && forall i :: 0 <= i < |items| ==> ReadsNames(items[i].expr, NamesOf(b.shape))
    ensures ItemsCorrespond(items, b, w, SubstituteItems(items, m, ""), a, w)
  {
    forall k | 0 <= k < |items|
      ensures Corresponds(items[k].expr, b, w, SubstituteItems(items, m, "")[k].expr, a, w)
      ensures !IsStarItem(SubstituteItems(items, m, "")[k])
    {
      ReadCorresponds(items[k].expr, b, a, m, w);
      SubstitutedPlain(items[k].expr, m);
    }
  }

  /** A SELECT over a tree of joins returns the same rows, in the same order, after its leaves are unwrapped. */
  lemma JoinsKeepRows(s: Select, w: World)
    requires Ungrouped(s) && s.from.Some? && s.from.value.JoinItem?
    requires JoinReady(s.from.value, EvalWiths(s.withs, w))
    requires SelectReads(s, NamesOf(EvalFrom(s.from.value, EvalWiths(s.withs, w)).shape))
    ensures EvalSelect(FlattenJoins(s), w).rows == EvalSelect(s, w).rows && StarFree(FlattenJoins(s).items)
  {
    var f, v := s.from.value, EvalWiths(s.withs, w);
    var m := UnwrapMap(f);
    var b, a := EvalFrom(f, v), AfterRows(f, m, v);
    FlattenJoinsIs(s, v);
    TreeMirrors(f, m, v);
    TreeColumns(f, v);
    ItemsRead(s.items, b, a, m, v);
    if s.where.Some? {
      ReadCorresponds(s.where.value, b, a, m, v);
    }
    SameOutput(s.items, s.where, b, v, SubstituteItems(s.items, m, ""), SubstituteOption(s.where, m, ""), a, v);
    SelectRows(s, w);
    SelectRows(FlattenJoins(s), w);
    FinishFrame(s, FlattenJoins(s), ProjectAll(s.items, Filter(b, s.where, v), v), v, v);
  }
}
