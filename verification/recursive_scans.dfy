/**
 A recursive CTE, from scan to SQL (internal/transformer_scan_recursive.go, internal/transformer_with_entry.go): after
 any number of rounds the definition that is built has accumulated the rows the scan's own rounds have.
 */
module RecursiveScans {
  import opened Wrappers
  import opened SqlAst
  import opened SqlSemantics
  import opened Scans
  import opened CompiledColumns
  import opened ScanMeaning
  import opened NodeMeaning
  import opened SetWithMeaning
  import opened CompiledShape
  import opened TransformContexts
  import opened Compiler
  import opened Flattening
  import opened SelectAlgebra
  import opened ChainFlattening
  import opened CompiledChains
  import opened ExposedReferences
  import opened RecursiveCte

  /** A recursive scan, and the WITH entry it defines; the term refers to the entry by name. */
  datatype Recursion = Recursion(name: string, cols: seq<Col>, base: Query, term: Query, opType: string)

  /** The scope of the recursive term. */
  function TermScope(r: Recursion, sig: Signature): Signature {
    sig[r.name := r.cols]
  }

  /** In either term the entry's name means the entry, and only the recursive term refers to it. */
  ghost predicate WellFormedRecursion(r: Recursion, names: Names, sig: Signature) {
    && r.cols != [] && DistinctIds(r.cols) && Named(r.cols, names)
    && r.name !in sig && r.name !in QueryDefines(r.base) && r.name !in QueryDefines(r.term)
    && r.name !in QueryMentions(r.base)
    && WellFormedQuery(r.base, |r.cols|, names, sig)
    && WellFormedQuery(r.term, |r.cols|, names, TermScope(r, sig))
  }

  ghost predicate RecursionCompilable(r: Recursion) {
    QueryCompilable(r.base) && QueryCompilable(r.term) && (r.opType == "UNION ALL" || r.opType == "UNION")
  }

  // ----- rounds of scans -----

  function CteOf(cols: seq<Col>, tuples: seq<Tuple>): Cte {
    Cte(cols, seq(|tuples|, i requires 0 <= i < |tuples| => MakeRow(cols, Resized(tuples[i], |cols|))))
  }

  /** Each round runs the recursive term over the rows of the last one. */
  ghost function ScanRounds(r: Recursion, w: World, ctes: Ctes, n: nat): Progress {
    if n == 0 then
      var base := QueryRows(r.base, w, ctes);
      var start := if r.opType == "UNION" then NewRows(base, []) else base;
      Progress(start, start)
    else
      var p := ScanRounds(r, w, ctes, n - 1);
      var next := QueryRows(r.term, w, ctes[r.name := CteOf(r.cols, p.last)]);
      var added := if r.opType == "UNION" then NewRows(next, p.all) else next;
      Progress(p.all + added, added)
  }

  /** Binding the CTE's name to the rows of a round, in both worlds, keeps them in step. */
  lemma RoundInStep(r: Recursion, rows: seq<Tuple>, w: World, ctes: Ctes, v: World, sig: Signature)
    requires InStep(w, ctes, v, sig) && r.name !in sig && DistinctIds(r.cols) && Wide(rows, |r.cols|)
    ensures InStep(w, ctes[r.name := CteOf(r.cols, rows)], Bind(v, r.name, Aliases(r.cols), rows), TermScope(r, sig))
  {
    OwnAliasesCover(r.cols);
    forall i | 0 <= i < |rows|
      ensures Shows(Aliases(r.cols), rows[i], r.cols, CteOf(r.cols, rows).rows[i])
    {
      MadeRowShown(r.cols, rows[i]);
    }
  }

  // ----- both terms, compiled -----

  /**
   The recursive term can be flattened without harm, over the base tables of the world: the WITH entries that move up
   do not read the CTE, nor are they named after tables of the base term.
   */
  ghost predicate TermReady(r: Recursion, names: Names, sig: Signature, w: World) {
    && QueryReady(r.term, names, TermScope(r, sig), w)
    && r.name !in SpineNames(r.term.source) + SpineMentions(r.term.source)
    && QueryMentions(r.base) !! SpineNames(r.term.source)
  }

  ghost predicate TermsBuilt(base: Select, term: Select, r: Recursion, names: Names, sig: Signature) {
    && QueryBuilt(base, r.base, names, sig) && Answers(base, r.base, sig)
    && SelectTables(base) <= QueryMentions(r.base)
    && QueryBuilt(term, r.term, names, TermScope(r, sig)) && Answers(term, r.term, TermScope(r, sig))
  }

  lemma TermIsRecursiveChain(
    base: Select, term: Select, r: Recursion, names: Names, sig: Signature, w: World, ctes: Ctes, v: World)
    requires WellFormedRecursion(r, names, sig) && TermsBuilt(base, term, r, names, sig)
    requires InStep(w, ctes, v, sig) && TermReady(r, names, sig, w)
    ensures |term.items| == |r.cols|
    ensures RecursiveChain(term, r.name, Aliases(r.cols), v)
    ensures SelectTables(AsTerm(base, r.cols)) !! ClauseNames(Flatten(term).withs)
  {
    hide InStep, QueryReady, Answers, Chain, WithinLimit, Flatten, BuiltFrom;
    FlatList(term, r.term, names, TermScope(r, sig));
    assert SelectTables(AsTerm(base, r.cols)) == SelectTables(base);
    forall rows: seq<Tuple> | Wide(rows, |r.cols|)
      ensures Outer(term) && !term.distinct && WithinLimit(term)
      ensures Chain(term, false, Bind(v, r.name, Aliases(r.cols), rows))
    {
      RoundInStep(r, rows, w, ctes, v, sig);
      CompiledIsChain(term, r.term, |r.cols|, names, TermScope(r, sig), w, ctes[r.name := CteOf(r.cols, rows)],
                      Bind(v, r.name, Aliases(r.cols), rows));
    }
    assert Wide([], |r.cols|);
  }

  /** One term, renamed: it returns the query's rows, of the right width. */
  lemma RenamedAnswers(
    sel: Select, q: Query, cols: seq<Col>, names: Names, sig: Signature, w: World, ctes: Ctes, v: World)
    requires QueryBuilt(sel, q, names, sig) && Answers(sel, q, sig) && InStep(w, ctes, v, sig)
    requires |q.outs| == |cols| && forall k :: 0 <= k < |q.outs| ==> q.outs[k].alias != ""
    ensures EvalSelect(AsTerm(sel, cols), v) == Rel(Aliases(cols), QueryRows(q, w, ctes))
    ensures Wide(QueryRows(q, w, ctes), |cols|)
  {
    hide InStep, BuiltFrom, QueryRows;
    assert TuplesIn(sel, q, w, ctes, v);
    RenamedRows(sel, cols, v);
    NoList(v);
    SelectWide(sel, v);
    NamedTerm(sel, cols, v);
  }

  lemma NamedTerm(sel: Select, cols: seq<Col>, v: World)
    requires Outer(sel) && |sel.items| == |cols| && AllAliased(sel.items)
    ensures EvalSelect(AsTerm(sel, cols), v).cols == Aliases(cols)
  {
    var t := AsTerm(sel, cols);
    forall i | 0 <= i < |t.items|
      ensures t.items[i].alias != "" && !IsStarItem(t.items[i]) && !t.items[i].isStarExpansion
    {
      assert |Alias(cols[i])| > 0;
    }
    NamedCols(t, v);
    assert ItemAliases(t.items) == Aliases(cols);
  }

  /** Round by round, the compiled term adds what the scan's term adds. */
  lemma {:induction false} RoundsAgree(
    base: Select, term: Select, r: Recursion, names: Names, sig: Signature, w: World, ctes: Ctes, v: World, n: nat)
    requires WellFormedRecursion(r, names, sig) && TermsBuilt(base, term, r, names, sig) && InStep(w, ctes, v, sig)
    requires r.opType == "UNION" || r.opType == "UNION ALL"
    ensures Rounds(AsTerm(term, r.cols), r.name, Aliases(r.cols), r.opType == "UNION", QueryRows(r.base, w, ctes), v, n)
         == ScanRounds(r, w, ctes, n)
    ensures Wide(ScanRounds(r, w, ctes, n).last, |r.cols|)
    decreases n
  {
    hide InStep, Answers, QueryBuilt, WellFormed, EvalSelect, AsTerm, QueryRows, NewRows;
    if n == 0 {
      RenamedAnswers(base, r.base, r.cols, names, sig, w, ctes, v);
      NewRowsWide(QueryRows(r.base, w, ctes), [], |r.cols|);
    } else {
      RoundsAgree(base, term, r, names, sig, w, ctes, v, n - 1);
      var p := ScanRounds(r, w, ctes, n - 1);
      var ctes' := ctes[r.name := CteOf(r.cols, p.last)];
      var v' := Bind(v, r.name, Aliases(r.cols), p.last);
      RoundInStep(r, p.last, w, ctes, v, sig);
      RenamedAnswers(term, r.term, r.cols, names, TermScope(r, sig), w, ctes', v');
      NewRowsWide(QueryRows(r.term, w, ctes'), p.all, |r.cols|);
    }
  }

  /**
   The definition, with its recursive term flattened, accumulates after any number of rounds what the scan does, in
   every world.
   */
  lemma DefinitionAccumulates(
    base: Select, term: Select, r: Recursion, names: Names, sig: Signature, w: World, ctes: Ctes, v: World, n: nat)
    requires WellFormedRecursion(r, names, sig) && TermsBuilt(base, term, r, names, sig) && InStep(w, ctes, v, sig)
    requires TermReady(r, names, sig, w) && (r.opType == "UNION" || r.opType == "UNION ALL")
    ensures Accumulated(CteDefinition(base, Flatten(term), Modifier(r.opType), r.cols), r.name, v, n)
         == ScanRounds(r, w, ctes, n)
  {
    hide InStep, QueryBuilt, WellFormed, EvalSelect, AsTerm, QueryRows, NewRows, RecursiveChain, TermReady;
    assert EvalWiths([], v) == v;
    assert base.withs == [] && term.withs == [];
    RenamedAnswers(base, r.base, r.cols, names, sig, w, ctes, v);
    TermIsRecursiveChain(base, term, r, names, sig, w, ctes, v);
    FlatteningKeepsRecursion(base, term, Modifier(r.opType), r.cols, r.name, v, n);
    RoundsAgree(base, term, r, names, sig, w, ctes, v, n);
  }

  // ----- the transformers -----

  ghost predicate AccumulatesIn(def: Select, r: Recursion, w: World, ctes: Ctes, v: World, n: nat)
    requires def.setOp.Some? && |def.setOp.value.items| == 2
  {
    Accumulated(def, r.name, v, n) == ScanRounds(r, w, ctes, n)
  }

  /**
   The definition runs the recursion, in every world whose tables the recursive term can be flattened over, and its
   recursive term has the CTE directly in FROM exactly when the term's scan leads there.
   */
  ghost predicate RunsRecursion(def: Select, r: Recursion, names: Names, sig: Signature) {
    && def.setOp.Some? && |def.setOp.value.items| == 2
    && (InFrom(def.setOp.value.items[1], r.name) <==> Reaches(r.term.source, r.name))
    && forall w: World, ctes: Ctes, v: World, n: nat ::
         InStep(w, ctes, v, sig) && TermReady(r, names, sig, w) ==> AccumulatesIn(def, r, w, ctes, v, n)
  }

  lemma DefinitionRuns(base: Select, term: Select, r: Recursion, names: Names, sig: Signature)
    requires WellFormedRecursion(r, names, sig) && TermsBuilt(base, term, r, names, sig)
    requires r.opType == "UNION" || r.opType == "UNION ALL"
    ensures RunsRecursion(CteDefinition(base, Flatten(term), Modifier(r.opType), r.cols), r, names, sig)
  {
    hide InStep, Accumulated, ScanRounds, TermsBuilt, WellFormedRecursion, TermReady;
    var def := CteDefinition(base, Flatten(term), Modifier(r.opType), r.cols);
    TermExposed(base, term, r, names, sig);
    forall w: World, ctes: Ctes, v: World, n: nat | InStep(w, ctes, v, sig) && TermReady(r, names, sig, w)
      ensures AccumulatesIn(def, r, w, ctes, v, n)
    {
      DefinitionAccumulates(base, term, r, names, sig, w, ctes, v, n);
    }
  }

  lemma TermExposed(base: Select, term: Select, r: Recursion, names: Names, sig: Signature)
    requires WellFormedRecursion(r, names, sig) && TermsBuilt(base, term, r, names, sig)
    ensures InFrom(AsTerm(Flatten(term), r.cols), r.name) <==> Reaches(r.term.source, r.name)
  {
    ExposedIff(term, r.term, r.name, names, TermScope(r, sig));
  }

  /** The list that validation looks at: the base term's, under the CTE's own aliases. */
  ghost predicate Headed(def: Select, cols: seq<Col>) {
    SelectListOf(def).Some? && ItemAliases(SelectListOf(def).value) == Aliases(cols)
  }

  lemma DefinitionHeaded(base: Select, term: Select, r: Recursion, names: Names, sig: Signature)
    requires WellFormedRecursion(r, names, sig) && TermsBuilt(base, term, r, names, sig)
    ensures Headed(CteDefinition(base, Flatten(term), Modifier(r.opType), r.cols), r.cols)
  {
    hide BuiltFrom, Answers;
    var first := AsTerm(base, r.cols);
    assert |first.items| == |r.cols|;
    assert !IsStarItem(first.items[0]);
    assert SelectListOf(first) == Some(first.items);
    assert ItemAliases(first.items) == Aliases(r.cols);
  }

  function RecursionDefines(r: Recursion): set<string> {
    {r.name} + QueryDefines(r.base) + QueryDefines(r.term)
  }

  /** `RecursiveScanTransformer.Transform`, with the columns of the CTE already mapped. */
  method TransformRecursiveScan(r: Recursion, ctx: TransformContext, ghost names: Names, ghost sig: Signature)
    returns (res: Result<FromItem>)
    requires WellFormedRecursion(r, names, sig) && ctx.Ready(names, TermScope(r, sig))
    modifies ctx, ctx.fragment
    ensures ctx.After(old(ctx.Now()), names, TermScope(r, sig), RecursionDefines(r) - {r.name})
    ensures res.Ok? <==> RecursionCompilable(r)
    ensures res.Ok? ==>
      res.value.SubqueryItem? && RunsRecursion(res.value.query, r, names, sig) && Headed(res.value.query, r.cols)
  {
    hide WellFormedQuery, QueryBuilt, Answers, RunsRecursion, Headed;
    var base := TransformStatement(r.base, |r.cols|, ctx, names, sig);
    if base.Err? {
      return Err(base.error);
    }
    ghost var between := ctx.Now();
    var term := TransformStatement(r.term, |r.cols|, ctx, names, TermScope(r, sig));
    SinceTransitive(old(ctx.Now()), between, ctx.Now(), QueryDefines(r.term), RecursionDefines(r) - {r.name});
    if term.Err? {
      return Err(term.error);
    }
    res := TransformRecursive(base.value, term.value, r.opType, r.cols);
    if res.Ok? {
      DefinitionRuns(base.value, term.value, r, names, sig);
      DefinitionHeaded(base.value, term.value, r, names, sig);
    }
  }

  /** The scan's alias, validation and registration, as for any other scan. */
  method TransformRecursiveInScope(r: Recursion, ctx: TransformContext, ghost names: Names, ghost sig: Signature)
    returns (res: Result<FromItem>)
    requires WellFormedRecursion(r, names, sig) && ctx.Ready(names, TermScope(r, sig))
    modifies ctx, ctx.fragment
    ensures ctx.After(old(ctx.Now()), names, TermScope(r, sig), RecursionDefines(r) - {r.name})
    ensures res.Ok? <==> RecursionCompilable(r)
    ensures res.Ok? ==> res.value.SubqueryItem? && RunsRecursion(res.value.query, r, names, sig)
    ensures res.Ok? ==> ctx.fragment.Knows(r.cols)
  {
    hide WellFormedRecursion, RunsRecursion, RecursionCompilable, RecursionDefines, Accepted;
    RecursionParts(r, names, sig);
    res := TransformRecursiveScan(r, ctx, names, sig);
    if res.Err? {
      return;
    }
    var alias := "recursive_scan_" + ctx.fragment.GetID();
    var ok := ValidateColumnData(res.value.query, r.cols);
    OwnListAccepted(r.cols);
    if !ok {
      assert false;
    }
    Register(ctx.fragment, alias, r.cols, names);
    res := Ok(SubqueryItem(res.value.query, alias));
  }

  /** `TransformScan` on a recursive scan. */
  method TransformRecursiveItem(r: Recursion, ctx: TransformContext, ghost names: Names, ghost sig: Signature)
    returns (res: Result<FromItem>)
    requires WellFormedRecursion(r, names, sig) && ctx.Ready(names, TermScope(r, sig))
    modifies ctx, ctx.fragment
    ensures ctx.After(old(ctx.Now()), names, TermScope(r, sig), RecursionDefines(r) - {r.name})
    ensures res.Ok? <==> RecursionCompilable(r)
    ensures res.Ok? ==> res.value.SubqueryItem? && RunsRecursion(res.value.query, r, names, sig)
    ensures res.Ok? ==> ctx.fragment.Knows(r.cols)
  {
    hide Unwound, Since, WellFormedRecursion, RunsRecursion, RecursionCompilable, RecursionDefines;
    var token := ctx.fragment.EnterScope();
    res := TransformRecursiveInScope(r, ctx, names, sig);
    ghost var inside := ctx.Now();
    ctx.fragment.ExitScope(token);
    ScopeLeft(old(ctx.Now()), inside, token, ctx.Now(), RecursionDefines(r) - {r.name});
  }

  lemma RecursionParts(r: Recursion, names: Names, sig: Signature)
    requires WellFormedRecursion(r, names, sig)
    ensures r.cols != [] && DistinctIds(r.cols) && Named(r.cols, names) && r.name !in sig
  {
  }

  lemma OwnListAccepted(cols: seq<Col>)
    requires DistinctIds(cols)
    ensures Accepted(Aliases(cols), cols)
  {
    OwnAliasesCover(cols);
    AcceptedIffLists(Aliases(cols), cols);
  }

  /** `WithEntryTransformer.Transform`: the columns are mapped before the terms are transformed. */
  method TransformRecursiveBody(r: Recursion, ctx: TransformContext, ghost names: Names, ghost sig: Signature)
    returns (res: Result<WithClause>)
    requires WellFormedRecursion(r, names, sig) && ctx.Ready(names, sig) && ctx.recursiveCTEName == r.name
    modifies ctx, ctx.fragment
    ensures ctx.After(old(ctx.Now()), names, sig, RecursionDefines(r))
    ensures res.Ok? ==> ctx.After(old(ctx.Now()), names, TermScope(r, sig), RecursionDefines(r))
    ensures res.Ok? <==> RecursionCompilable(r)
    ensures res.Ok? ==> res.value.name == r.name && RunsRecursion(res.value.query, r, names, sig)
  {
    hide WellFormedRecursion, RunsRecursion, RecursionCompilable, QueryDefines;
    RecursionParts(r, names, sig);
    ctx.AddWithEntryColumnMapping(r.name, r.cols);
    var item := TransformRecursiveItem(r, ctx, names, sig);
    if item.Err? {
      return Err(item.error);
    }
    return Ok(WithClause(r.name, false, item.value.query));
  }

  /**
   The entry of a recursive CTE: it compiles exactly when both terms do and the operation is known, its definition runs
   the recursion, and the scope stack is as it was.
   */
  method TransformRecursiveEntry(r: Recursion, ctx: TransformContext, ghost names: Names, ghost sig: Signature)
    returns (res: Result<WithClause>)
    requires WellFormedRecursion(r, names, sig) && ctx.Ready(names, sig) && ctx.recursiveCTEName == r.name
    modifies ctx, ctx.fragment
    ensures ctx.After(old(ctx.Now()), names, sig, RecursionDefines(r))
    ensures res.Ok? ==> ctx.After(old(ctx.Now()), names, TermScope(r, sig), RecursionDefines(r))
    ensures res.Ok? <==> RecursionCompilable(r)
    ensures res.Ok? ==> res.value.name == r.name && RunsRecursion(res.value.query, r, names, sig)
  {
    hide Unwound, Since, WellFormedRecursion, RunsRecursion, RecursionCompilable, RecursionDefines;
    var token := ctx.fragment.EnterScope();
    res := TransformRecursiveBody(r, ctx, names, sig);
    ghost var inside := ctx.Now();
    ctx.fragment.ExitScope(token);
    ScopeLeft(old(ctx.Now()), inside, token, ctx.Now(), RecursionDefines(r));
  }

  // ----- the main query -----

  lemma {:induction false} RoundsWide(r: Recursion, w: World, ctes: Ctes, n: nat)
    requires |r.base.outs| == |r.cols| && |r.term.outs| == |r.cols|
    ensures Wide(ScanRounds(r, w, ctes, n).all, |r.cols|)
    decreases n
  {
    hide NewRows;
    if n == 0 {
      NewRowsWide(QueryRows(r.base, w, ctes), [], |r.cols|);
    } else {
      RoundsWide(r, w, ctes, n - 1);
      var p := ScanRounds(r, w, ctes, n - 1);
      NewRowsWide(QueryRows(r.term, w, ctes[r.name := CteOf(r.cols, p.last)]), p.all, |r.cols|);
    }
  }

  /**
   After n rounds, the main query over the rows that the definition has accumulated shows what its scan has over the
   rows that the scan's rounds have.
   */
  ghost predicate ReadsRounds(
    q: Select, def: Select, list: seq<string>, cols: seq<Col>, r: Recursion, query: Scan,
    w: World, ctes: Ctes, v: World, n: nat)
    requires def.setOp.Some? && |def.setOp.value.items| == 2
  {
    var main := EvalSelect(q, Bind(v, r.name, Aliases(r.cols), Accumulated(def, r.name, v, n).all));
    var rounds := ctes[r.name := CteOf(r.cols, ScanRounds(r, w, ctes, n).all)];
    main.cols == list && RowsShow(list, main.rows, cols, NarrowAll(cols, ScanRows(query, w, rounds)))
  }

  /** The statement's one clause runs the recursion, and what it selects reads the rounds, in every such world. */
  ghost predicate AnswersRecursion(
    q: Select, cols: seq<Col>, r: Recursion, query: Scan, names: Names, sig: Signature)
  {
    && |q.withs| == 1 && q.withs[0].name == r.name && q.withs[0].recursive
    && RunsRecursion(q.withs[0].query, r, names, sig)
    && exists list :: Lists(list, query.cols) && forall w: World, ctes: Ctes, v: World, n: nat ::
         InStep(w, ctes, v, sig) && TermReady(r, names, sig, w) ==>
           ReadsRounds(q.(withs := []), q.withs[0].query, list, cols, r, query, w, ctes, v, n)
  }

  lemma MainReads(
    def: Select, inner: FromItem, list: seq<string>, cols: seq<Col>, r: Recursion, query: Scan, names: Names,
    sig: Signature, w: World, ctes: Ctes, v: World, n: nat)
    requires WellFormedRecursion(r, names, sig) && RunsRecursion(def, r, names, sig)
    requires inner.SubqueryItem? && Produces(inner.query, list, query, TermScope(r, sig))
    requires Subset(cols, query.cols) && DistinctIds(cols)
    requires InStep(w, ctes, v, sig) && TermReady(r, names, sig, w)
    ensures ReadsRounds(SelectStar(inner), def, list, cols, r, query, w, ctes, v, n)
  {
    hide InStep, TermReady, Produces, WellFormedQuery, ScanRounds, Accumulated, EvalSelect, ScanRows;
    assert AccumulatesIn(def, r, w, ctes, v, n);
    RecursionWidths(r, names, sig);
    RoundsWide(r, w, ctes, n);
    var rows := ScanRounds(r, w, ctes, n).all;
    var v' := Bind(v, r.name, Aliases(r.cols), rows);
    var ctes' := ctes[r.name := CteOf(r.cols, rows)];
    RoundInStep(r, rows, w, ctes, v, sig);
    InWorld(inner.query, list, query, TermScope(r, sig), w, ctes', v');
    WithSelectEval([], inner.query, inner.alias, v');
    assert EvalWiths([], v') == v';
    NarrowAllShown(list, EvalSelect(inner.query, v').rows, query.cols, cols, ScanRows(query, w, ctes'));
  }

  lemma RecursionWidths(r: Recursion, names: Names, sig: Signature)
    requires WellFormedRecursion(r, names, sig)
    ensures |r.base.outs| == |r.cols| && |r.term.outs| == |r.cols|
  {
  }

  lemma DefinitionShape(def: Select, r: Recursion, names: Names, sig: Signature)
    requires RunsRecursion(def, r, names, sig)
    ensures def.setOp.Some? && |def.setOp.value.items| == 2
  {
  }

  lemma MainAnswers(
    clause: WithClause, inner: FromItem, list: seq<string>, cols: seq<Col>, r: Recursion, query: Scan, names: Names,
    sig: Signature, lo: nat, hi: nat)
    requires WellFormedRecursion(r, names, sig) && RunsRecursion(clause.query, r, names, sig)
    requires clause.name == r.name && clause.recursive
    requires ScanBuilt(Ok(inner), list, query, names, TermScope(r, sig), lo, hi)
    requires Subset(cols, query.cols) && DistinctIds(cols)
    ensures AnswersRecursion(SelectStar(inner).(withs := [clause]), cols, r, query, names, sig)
  {
    hide InStep, TermReady, Produces, RunsRecursion, ReadsRounds, WellFormedRecursion, Lists, BuiltFrom;
    var q := SelectStar(inner).(withs := [clause]);
    assert q.(withs := []) == SelectStar(inner);
    DefinitionShape(clause.query, r, names, sig);
    forall w: World, ctes: Ctes, v: World, n: nat | InStep(w, ctes, v, sig) && TermReady(r, names, sig, w)
      ensures ReadsRounds(q.(withs := []), clause.query, list, cols, r, query, w, ctes, v, n)
    {
      MainReads(clause.query, inner, list, cols, r, query, names, sig, w, ctes, v, n);
    }
  }

  /** The recursive name is set around the entry, and the clause marked. */
  method TransformRecursiveMarked(r: Recursion, ctx: TransformContext, ghost names: Names, ghost sig: Signature)
    returns (res: Result<WithClause>)
    requires WellFormedRecursion(r, names, sig) && ctx.Ready(names, sig)
    modifies ctx, ctx.fragment
    ensures ctx.After(old(ctx.Now()), names, sig, RecursionDefines(r))
    ensures res.Ok? ==> ctx.After(old(ctx.Now()), names, TermScope(r, sig), RecursionDefines(r))
    ensures res.Ok? <==> RecursionCompilable(r)
    ensures res.Ok? ==>
      res.value.name == r.name && res.value.recursive && RunsRecursion(res.value.query, r, names, sig)
    ensures res.Ok? ==> ctx.recursiveCTEName == ""
  {
    hide WellFormedRecursion, RunsRecursion, RecursionCompilable, RecursionDefines;
    ctx.recursiveCTEName := r.name;
    res := TransformRecursiveEntry(r, ctx, names, sig);
    if res.Ok? {
      res := Ok(res.value.(recursive := true));
      ctx.recursiveCTEName := "";
    }
  }

  /**
   `WithScanTransformer.Transform` on a single recursive entry: it compiles exactly when the recursion and the main
   query do, and the main query reads the rounds.
   */
  method TransformRecursiveWith(
    cols: seq<Col>, r: Recursion, query: Scan, ctx: TransformContext, ghost names: Names, ghost sig: Signature)
    returns (res: Result<FromItem>)
    requires WellFormedRecursion(r, names, sig) && WellFormed(query, names, TermScope(r, sig))
    requires Subset(cols, query.cols) && DistinctIds(cols) && ctx.Ready(names, sig)
    modifies ctx, ctx.fragment
    ensures ctx.After(old(ctx.Now()), names, sig, RecursionDefines(r) + Defines(query))
    ensures res.Ok? <==> RecursionCompilable(r) && Compilable(query)
    ensures res.Ok? ==> res.value.SubqueryItem? && AnswersRecursion(res.value.query, cols, r, query, names, sig)
  {
    hide RunsRecursion, AnswersRecursion, RecursionCompilable, Compilable, RecursionDefines, WellFormed, ScanBuilt;
    hide WellFormedRecursion, Subset, DistinctIds;
    RecursionParts(r, names, sig);
    var clause := TransformRecursiveMarked(r, ctx, names, sig);
    if clause.Err? {
      return Err(clause.error);
    }
    ghost var between := ctx.Now();
    var main, list := TransformScan(query, ctx, names, TermScope(r, sig));
    SinceTransitive(old(ctx.Now()), between, ctx.Now(), Defines(query), RecursionDefines(r) + Defines(query));
    if main.Err? {
      return Err(main.error);
    }
    MainAnswers(clause.value, main.value, list, cols, r, query, names, sig, between.count, ctx.fragment.count);
    return Ok(SubqueryItem(SelectStar(main.value).(withs := [clause.value]), ""));
  }
}
