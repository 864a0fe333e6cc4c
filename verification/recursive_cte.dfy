/**
 Recursive common table expressions (internal/transformer_scan_recursive.go): how the definition is built, and
 that flattening the recursive term changes none of the rows accumulated round by round.
 */
module RecursiveCte {
  import opened Wrappers
  import opened SqlAst
  import opened SqlSemantics
  import opened Scans
  import opened ScanMeaning
  import opened Flattening
  import opened SelectAlgebra
  import opened TableFrames
  import opened WithScoping
  import opened ChainFlattening
  import opened Flattener

  // ----- building the definition -----

  /** The first items take the names of the output columns, by position. */
  function RenamedItems(items: seq<Item>, cols: seq<Col>): (r: seq<Item>)
    ensures |r| == |items|
    ensures forall i :: 0 <= i < |r| ==> r[i].expr == items[i].expr && r[i].isStarExpansion == items[i].isStarExpansion
    ensures forall i :: 0 <= i < |r| ==> r[i].alias == if i < |cols| then Alias(cols[i]) else items[i].alias
  {
    seq(|items|, i requires 0 <= i < |items| =>
      items[i].(alias := if i < |cols| then Alias(cols[i]) else items[i].alias))
  }

  function AsTerm(s: Select, cols: seq<Col>): Select {
    s.(items := RenamedItems(s.items, cols), withs := [])
  }

  /** The definition from both terms; their WITH clauses move to the top. */
  function CteDefinition(base: Select, term: Select, modifier: string, cols: seq<Col>): Select {
    EMPTY_SELECT.(
      withs := base.withs + term.withs,
      setOp := Some(SetOp("UNION", modifier, [AsTerm(base, cols), AsTerm(term, cols)])))
  }

  function Modifier(opType: string): string {
    if opType == "UNION ALL" then "ALL" else ""
  }

  method RenameTerm(s: Select, cols: seq<Col>) returns (r: Select)
    ensures r == s.(items := RenamedItems(s.items, cols))
  {
    var items := s.items;
    for i := 0 to |cols|
      invariant |items| == |s.items|
      invariant forall k :: 0 <= k < |items| ==>
        items[k] == s.items[k].(alias := if k < i then Alias(cols[k]) else s.items[k].alias)
    {
      if i < |items| {
        items := items[i := items[i].(alias := Alias(cols[i]))];
      }
    }
    assert items == RenamedItems(s.items, cols);
    r := s.(items := items);
  }

  /** `Transform`, once both terms are statements. */
  method TransformRecursive(base: Select, term: Select, opType: string, cols: seq<Col>) returns (r: Result<FromItem>)
    ensures r.Ok? <==> opType == "UNION ALL" || opType == "UNION"
    ensures r.Ok? ==>
      r.value == SubqueryItem(CteDefinition(base, Flatten(term), Modifier(opType), cols), "recursive_scan")
  {
    var flat := FlattenSelectForRecursiveCTE(term);
    var modifier;
    if opType == "UNION ALL" {
      modifier := "ALL";
    } else if opType == "UNION" {
      modifier := "";
    } else {
      return Err("unsupported recursive operation type");
    }
    var first := RenameTerm(base, cols);
    var second := RenameTerm(flat, cols);
    var withs := first.withs + second.withs;
    var items := [first.(withs := []), second.(withs := [])];
    return Ok(SubqueryItem(EMPTY_SELECT.(withs := withs, setOp := Some(SetOp("UNION", modifier, items))),
                           "recursive_scan"));
  }

  // ----- rounds -----

  /** All rows so far, and those of the last round, which the next round reads. */
  datatype Progress = Progress(all: seq<Tuple>, last: seq<Tuple>)

  function Bind(w: World, name: string, cols: seq<string>, rows: seq<Tuple>): World {
    w.(tables := w.tables[name := Rel(cols, rows)])
  }

  /** The first occurrences of the rows not seen before. */
  function NewRows(rows: seq<Tuple>, seen: seq<Tuple>): seq<Tuple> {
    if rows == [] then []
    else
      var n := |rows| - 1;
      NewRows(rows[..n], seen) + (if rows[n] in seen || rows[n] in rows[..n] then [] else [rows[n]])
  }

  ghost function Rounds(
    term: Select, name: string, cols: seq<string>, distinct: bool, base: seq<Tuple>, w: World, n: nat): Progress
  {
    if n == 0 then
      var start := if distinct then NewRows(base, []) else base;
      Progress(start, start)
    else
      var p := Rounds(term, name, cols, distinct, base, w, n - 1);
      var next := EvalSelect(term, Bind(w, name, cols, p.last)).rows;
      var added := if distinct then NewRows(next, p.all) else next;
      Progress(p.all + added, added)
  }

  /** What a definition has accumulated after n rounds. */
  ghost function Accumulated(def: Select, name: string, w: World, n: nat): Progress
    requires def.setOp.Some? && |def.setOp.value.items| == 2
  {
    var items, v := def.setOp.value.items, EvalWiths(def.withs, w);
    var base := EvalSelect(items[0], v);
    Rounds(items[1], name, base.cols, def.setOp.value.modifier != "ALL", base.rows, v, n)
  }

  // ----- widths -----

  lemma ProjectedWide(items: seq<Item>, rows: Rows, w: World)
    requires StarFree(items)
    ensures Wide(ProjectAll(items, rows, w), |items|)
  {
    forall i | 0 <= i < |rows.tuples|
      ensures |ProjectTuple(items, rows.shape, rows.tuples[i], w)| == |items|
    {
      AliasedTuple(items, rows.shape, rows.tuples[i], w);
    }
  }

  lemma FinishWide(s: Select, rows: seq<Tuple>, w: World, n: nat)
    requires Wide(rows, n)
    ensures Wide(Finish(s, rows, w), n)
  {
    assert Wide(Dedupe(rows), n);
  }

  lemma SelectWide(s: Select, w: World)
    requires Outer(s)
    ensures Wide(EvalSelect(s, w).rows, |s.items|)
  {
    var v := EvalWiths(s.withs, w);
    var rows := Filter(FromRows(s.from, v), s.where, v);
    SelectRows(s, w);
    ProjectedWide(s.items, rows, v);
    FinishWide(s, ProjectAll(s.items, rows, v), v, |s.items|);
  }

  lemma {:induction false} NewRowsWide(rows: seq<Tuple>, seen: seq<Tuple>, n: nat)
    requires Wide(rows, n)
    ensures Wide(NewRows(rows, seen), n)
  {
    if rows != [] {
      NewRowsWide(rows[..|rows| - 1], seen, n);
    }
  }

  // ----- renaming and flattening -----

  /** A term's WITH list has moved up, and its items take the columns' names: its rows are the same. */
  lemma RenamedRows(s: Select, cols: seq<Col>, w: World)
    requires Outer(s)
    ensures EvalSelect(AsTerm(s, cols), EvalWiths(s.withs, w)).rows == EvalSelect(s, w).rows && Outer(AsTerm(s, cols))
  {
    var t, v := AsTerm(s, cols), EvalWiths(s.withs, w);
    SelectRows(s, w);
    SelectRows(t, v);
    assert EvalWiths(t.withs, v) == v;
    var rows := Filter(FromRows(s.from, v), s.where, v);
    forall i | 0 <= i < |rows.tuples|
      ensures ProjectTuple(t.items, rows.shape, rows.tuples[i], v)
           == ProjectTuple(s.items, rows.shape, rows.tuples[i], v)
    {
      AliasedTuple(s.items, rows.shape, rows.tuples[i], v);
      AliasedTuple(t.items, rows.shape, rows.tuples[i], v);
    }
    assert ProjectAll(t.items, rows, v) == ProjectAll(s.items, rows, v);
    FinishFrame(s, t, ProjectAll(s.items, rows, v), v, v);
  }

  // ----- WITH lists inside the term -----

  /** The list neither defines the name nor mentions it. */
  predicate LeavesAlone(ws: seq<WithClause>, name: string) {
    name !in ClauseNames(ws) && name !in WithTables(ws)
  }

  /** A list that leaves the name alone can be evaluated before or after the name is bound. */
  lemma BindCommutes(ws: seq<WithClause>, w: World, name: string, cols: seq<string>, rows: seq<Tuple>)
    requires Acyclic(ws) && LeavesAlone(ws, name)
    ensures EvalWiths(ws, Bind(w, name, cols, rows)) == Bind(EvalWiths(ws, w), name, cols, rows)
  {
    var v := EvalWiths(ws, w);
    var w', v' := Bind(w, name, cols, rows), Bind(v, name, cols, rows);
    Settles(ws, w);
    Binds(ws, v, w);
    Binds(ws, v', w');
    forall n
      ensures SameAt(v', BindAll(ws, v', w'), n)
    {
      if n in ClauseNames(ws) {
        var q := QueryOf(ws, n);
        assert forall m :: m in SelectTables(q) ==> m in WithTables(ws);
        SelectFrame(q, v, v', SelectTables(q));
      }
    }
    SameWorlds(v', BindAll(ws, v', w'));
    SettledOnce(ws, w', v');
  }

  /** The recursive term is a chain whatever rows of the right width the table of the CTE holds. */
  ghost predicate RecursiveChain(term: Select, name: string, cols: seq<string>, w: World) {
    && Outer(term) && WithinLimit(term) && term.withs == [] && LeavesAlone(Flatten(term).withs, name)
    && forall rows: seq<Tuple> :: Wide(rows, |term.items|) ==> Chain(term, term.distinct, Bind(w, name, cols, rows))
  }

  lemma TermKeepsRows(
    term: Select, cols: seq<Col>, name: string, names: seq<string>, w: World, rows: seq<Tuple>)
    requires RecursiveChain(term, name, names, w) && Wide(rows, |term.items|)
    ensures
      EvalSelect(AsTerm(Flatten(term), cols), Bind(EvalWiths(Flatten(term).withs, w), name, names, rows)).rows
      == EvalSelect(AsTerm(term, cols), Bind(w, name, names, rows)).rows
    ensures Wide(EvalSelect(AsTerm(term, cols), Bind(w, name, names, rows)).rows, |term.items|)
  {
    hide Chain, EvalSelect, Flatten, WithinLimit, EvalWiths;
    var v := Bind(w, name, names, rows);
    FlattenKeepsRows(term, v);
    BindCommutes(Flatten(term).withs, w, name, names, rows);
    RenamedRows(term, cols, v);
    RenamedRows(Flatten(term), cols, v);
    NoList(v);
    SelectWide(term, v);
  }

  lemma NoList(w: World)
    ensures EvalWiths([], w) == w
  {
  }

  lemma {:induction false} RoundsKeepRows(
    term: Select, cols: seq<Col>, name: string, names: seq<string>, distinct: bool, base: seq<Tuple>,
    w: World, n: nat)
    requires RecursiveChain(term, name, names, w) && Wide(base, |term.items|)
    ensures Rounds(AsTerm(Flatten(term), cols), name, names, distinct, base, EvalWiths(Flatten(term).withs, w), n)
         == Rounds(AsTerm(term, cols), name, names, distinct, base, w, n)
    ensures Wide(Rounds(AsTerm(term, cols), name, names, distinct, base, w, n).last, |term.items|)
  {
    hide EvalSelect, Flatten, AsTerm, RecursiveChain, NewRows, Bind, EvalWiths;
    if n == 0 {
      NewRowsWide(base, [], |term.items|);
    } else {
      RoundsKeepRows(term, cols, name, names, distinct, base, w, n - 1);
      var p := Rounds(AsTerm(term, cols), name, names, distinct, base, w, n - 1);
      TermKeepsRows(term, cols, name, names, w, p.last);
      NewRowsWide(EvalSelect(AsTerm(term, cols), Bind(w, name, names, p.last)).rows, p.all, |term.items|);
    }
  }

  /** Moved up, the term's WITH list hides no table from the base term. */
  lemma BaseKept(base: Select, ws: seq<WithClause>, cols: seq<Col>, w: World)
    requires Acyclic(ws) && SelectTables(AsTerm(base, cols)) !! ClauseNames(ws)
    ensures EvalSelect(AsTerm(base, cols), EvalWiths(ws, w)) == EvalSelect(AsTerm(base, cols), w)
  {
    hide EvalSelect, SelectTables;
    Settles(ws, w);
    Binds(ws, EvalWiths(ws, w), w);
    forall n | n in SelectTables(AsTerm(base, cols))
      ensures SameAt(EvalWiths(ws, w), w, n)
    {
    }
    SelectFrame(AsTerm(base, cols), w, EvalWiths(ws, w), SelectTables(AsTerm(base, cols)));
  }

  /**
   After any number of rounds, in the UNION ALL and in the UNION form, the definition built from the flattened
   recursive term has accumulated what the one built from the term as compiled has.
   */
  lemma FlatteningKeepsRecursion(
    base: Select, term: Select, modifier: string, cols: seq<Col>, name: string, w: World, n: nat)
    requires base.withs == [] || Flatten(term).withs == []
    requires SelectTables(AsTerm(base, cols)) !! ClauseNames(Flatten(term).withs)
    requires
      var v := EvalWiths(base.withs, w);
      var first := EvalSelect(AsTerm(base, cols), v);
      RecursiveChain(term, name, first.cols, v) && Wide(first.rows, |term.items|)
    ensures Accumulated(CteDefinition(base, Flatten(term), modifier, cols), name, w, n)
         == Accumulated(CteDefinition(base, term, modifier, cols), name, w, n)
  {
    hide EvalSelect, EvalWiths, Flatten, RecursiveChain, Rounds, AsTerm, SelectTables;
    var v, ws := EvalWiths(base.withs, w), Flatten(term).withs;
    var first := EvalSelect(AsTerm(base, cols), v);
    TermIsPlain(term, name, first.cols, v);
    NoList(w);
    NoList(v);
    assert base.withs + [] == base.withs && [] + ws == ws;
    assert EvalWiths(base.withs + ws, w) == EvalWiths(ws, v);
    BaseKept(base, ws, cols, v);
    RoundsKeepRows(term, cols, name, first.cols, modifier != "ALL", first.rows, v, n);
  }

  lemma TermIsPlain(term: Select, name: string, cols: seq<string>, w: World)
    requires RecursiveChain(term, name, cols, w)
    ensures term.withs == [] && Acyclic(Flatten(term).withs)
  {
    hide Chain, EvalSelect, Flatten, WithinLimit;
    assert Wide([], |term.items|);
    FlattenKeepsRows(term, Bind(w, name, cols, []));
  }
}
