/**
 Merging the WITH lists of two layers (internal/sqlbuilder_flatten.go:276-318): every name keeps its meaning as long as
 no outer clause mentions a name that the inner list defines.
 */
module WithMerging {
  import opened SqlAst
  import opened SqlSemantics
  import opened ScanMeaning
  import opened Flattening
  import opened TableFrames
  import opened WithScoping

  /** No outer clause that stays mentions a name the inner list defines. */
  predicate NoCapture(outer: seq<WithClause>, inner: seq<WithClause>) {
    WithTables(WithoutNames(outer, inner)) !! ClauseNames(inner)
  }

  // ----- names and clauses of a merged list -----

  lemma DefinedIsNamed(ws: seq<WithClause>, n: string)
    ensures Defined(ws, n) <==> n in ClauseNames(ws)
  {
  }

  lemma AppendNames(a: seq<WithClause>, b: seq<WithClause>)
    ensures ClauseNames(a + b) == ClauseNames(a) + ClauseNames(b)
  {
    forall i | 0 <= i < |a|
      ensures a[i].name in ClauseNames(a + b)
    {
      assert (a + b)[i] == a[i];
    }
    forall i | 0 <= i < |b|
      ensures b[i].name in ClauseNames(a + b)
    {
      assert (a + b)[|a| + i] == b[i];
    }
  }

  lemma {:induction false} QueryOfAppend(a: seq<WithClause>, b: seq<WithClause>, n: string)
    requires n in ClauseNames(a + b)
    ensures n in ClauseNames(b) ==> QueryOf(a + b, n) == QueryOf(b, n)
    ensures n !in ClauseNames(b) ==> n in ClauseNames(a) && QueryOf(a + b, n) == QueryOf(a, n)
    decreases |b|
  {
    AppendNames(a, b);
    if b == [] {
      assert a + b == a;
      NoClauses();
    } else {
      var k := |b| - 1;
      assert b == b[..k] + [b[k]];
      assert (a + b)[..|a + b| - 1] == a + b[..k];
      NamesSnoc(b[..k], b[k]);
      AppendNames(a, b[..k]);
      if b[k].name != n {
        QueryOfAppend(a, b[..k], n);
      }
    }
  }

  lemma {:induction false} QueryOfKept(ws: seq<WithClause>, inner: seq<WithClause>, n: string)
    ensures ClauseNames(WithoutNames(ws, inner)) == ClauseNames(ws) - ClauseNames(inner)
    ensures n in ClauseNames(ws) && n !in ClauseNames(inner) ==> QueryOf(WithoutNames(ws, inner), n) == QueryOf(ws, n)
    decreases |ws|
  {
    if ws == [] {
      NoClauses();
    } else {
      var k := |ws| - 1;
      var kept := WithoutNames(ws[..k], inner);
      assert ws == ws[..k] + [ws[k]];
      NamesSnoc(ws[..k], ws[k]);
      QueryOfKept(ws[..k], inner, n);
      DefinedIsNamed(inner, ws[k].name);
      if !Defined(inner, ws[k].name) {
        NamesSnoc(kept, ws[k]);
        assert (kept + [ws[k]])[..|kept|] == kept;
      } else {
        assert WithoutNames(ws, inner) == kept;
      }
    }
  }

  // ----- the merged list -----

  lemma Rises(ws: seq<WithClause>, rank: map<string, nat>, c: WithClause, n: string)
    requires Ranks(ws, rank) && c in ws && n in SelectTables(c.query) && n in ClauseNames(ws)
    ensures c.name in ClauseNames(ws) && rank[n] < rank[c.name]
  {
    var i :| 0 <= i < |ws| && ws[i] == c;
  }

  /** What an outer clause that stays mentions of the merged list is an outer name. */
  lemma KeptStaysOut(outer: seq<WithClause>, inner: seq<WithClause>, c: WithClause, n: string)
    requires NoCapture(outer, inner) && c in WithoutNames(outer, inner) && n in SelectTables(c.query)
    ensures c in outer && c.name !in ClauseNames(inner) && n !in ClauseNames(inner)
  {
    var kept := WithoutNames(outer, inner);
    WithoutNamesMembers(outer, inner);
    DefinedIsNamed(inner, c.name);
    var i :| 0 <= i < |kept| && kept[i] == c;
    assert n in WithTables(kept);
  }

  lemma MergedAcyclic(outer: seq<WithClause>, inner: seq<WithClause>)
    requires Acyclic(outer) && Acyclic(inner) && NoCapture(outer, inner)
    ensures Acyclic(inner + WithoutNames(outer, inner))
  {
    hide SelectTables, NoCapture, ClauseNames, WithoutNames;
    var low := LowRanks(outer);
    var high := LowRanks(inner);
    var kept := WithoutNames(outer, inner);
    var ws := inner + kept;
    QueryOfKept(outer, inner, "");
    AppendNames(inner, kept);
    NamesListed(ws);
    NamesListed(inner);
    var rank := map n | n in ClauseNames(ws) :: if n in ClauseNames(inner) then high[n] + |outer| else low[n];
    forall i, n | 0 <= i < |ws| && n in SelectTables(ws[i].query) && n in ClauseNames(ws)
      ensures rank[n] < rank[ws[i].name]
    {
      if i < |inner| {
        if n in ClauseNames(inner) {
          Rises(inner, high, ws[i], n);
        }
      } else {
        KeptStaysOut(outer, inner, ws[i], n);
        Rises(outer, low, ws[i], n);
      }
    }
    assert Ranks(ws, rank);
  }

  lemma NamesListed(ws: seq<WithClause>)
    ensures forall i :: 0 <= i < |ws| ==> ws[i].name in ClauseNames(ws)
  {
  }

  /** Where both layers' names are bound, so are the merged list's. */
  lemma MergedSettles(outer: seq<WithClause>, inner: seq<WithClause>, w: World, u: World, v: World)
    requires NoCapture(outer, inner) && Settled(outer, w, u) && Settled(inner, u, v)
    ensures Settled(inner + WithoutNames(outer, inner), w, v)
  {
    hide EvalSelect, BindAll;
    var kept := WithoutNames(outer, inner);
    var ws := inner + kept;
    Binds(outer, u, w);
    Binds(inner, v, u);
    Binds(ws, v, w);
    AppendNames(inner, kept);
    forall n
      ensures SameAt(v, BindAll(ws, v, w), n)
    {
      QueryOfKept(outer, inner, n);
      if n in ClauseNames(ws) {
        QueryOfAppend(inner, kept, n);
      }
      if n in ClauseNames(kept) {
        KeptReadsAlike(outer, inner, n, u, v);
      }
    }
    SameWorlds(v, BindAll(ws, v, w));
  }

  lemma KeptReadsAlike(outer: seq<WithClause>, inner: seq<WithClause>, n: string, u: World, v: World)
    requires NoCapture(outer, inner) && Settled(inner, u, v) && n in ClauseNames(WithoutNames(outer, inner))
    ensures
      var q := QueryOf(WithoutNames(outer, inner), n);
      EvalSelect(q, v) == EvalSelect(q, u)
  {
    var kept := WithoutNames(outer, inner);
    var q := QueryOf(kept, n);
    Binds(inner, v, u);
    forall m | m in SelectTables(q)
      ensures SameAt(v, u, m)
    {
      assert m in WithTables(kept);
    }
    SelectFrame(q, u, v, SelectTables(q));
  }

  /** Merged, the clauses bind every name as the two layers did. */
  lemma MergedWorld(outer: seq<WithClause>, inner: seq<WithClause>, w: World)
    requires Acyclic(outer) && Acyclic(inner) && NoCapture(outer, inner)
    ensures EvalWiths(MergeWiths(outer, inner), w) == EvalWiths(inner, EvalWiths(outer, w))
    ensures Acyclic(MergeWiths(outer, inner))
  {
    if outer != [] && inner != [] {
      var u := EvalWiths(outer, w);
      var v := EvalWiths(inner, u);
      Settles(outer, w);
      Settles(inner, u);
      MergedAcyclic(outer, inner);
      MergedSettles(outer, inner, w, u, v);
      SettledOnce(MergeWiths(outer, inner), w, v);
    }
  }

  lemma KeptMentions(ws: seq<WithClause>, third: seq<WithClause>, c: WithClause)
    requires NoCapture(ws, third) && c in ws && !Defined(third, c.name)
    ensures MentionsNone(c, third)
  {
    hide SelectTables;
    WithoutNamesMembers(ws, third);
    var kept := WithoutNames(ws, third);
    var j :| 0 <= j < |kept| && kept[j] == c;
    assert forall n :: n in SelectTables(c.query) ==> n in WithTables(kept);
  }

  /** What neither list captures from a third, the merged list does not either. */
  lemma MergeCapturesNoMore(outer: seq<WithClause>, inner: seq<WithClause>, third: seq<WithClause>)
    requires NoCapture(outer, third) && NoCapture(inner, third)
    ensures NoCapture(MergeWiths(outer, inner), third)
  {
    hide MergeWiths, WithoutNames, ClauseNames, NoCapture, MentionsNone;
    var kept := WithoutNames(MergeWiths(outer, inner), third);
    MergedClauses(outer, inner);
    WithoutNamesMembers(MergeWiths(outer, inner), third);
    forall i | 0 <= i < |kept|
      ensures MentionsNone(kept[i], third)
    {
      assert kept[i] in kept;
      if kept[i] in inner {
        KeptMentions(inner, third, kept[i]);
      } else {
        KeptMentions(outer, third, kept[i]);
      }
    }
    CapturesNothing(MergeWiths(outer, inner), third);
  }

  ghost predicate MentionsNone(c: WithClause, third: seq<WithClause>) {
    SelectTables(c.query) !! ClauseNames(third)
  }

  lemma CapturesNothing(ws: seq<WithClause>, third: seq<WithClause>)
    requires forall i :: 0 <= i < |WithoutNames(ws, third)| ==> MentionsNone(WithoutNames(ws, third)[i], third)
    ensures NoCapture(ws, third)
  {
    hide SelectTables;
    var kept := WithoutNames(ws, third);
    forall n | n in WithTables(kept)
      ensures n !in ClauseNames(third)
    {
      var i :| 0 <= i < |kept| && n in SelectTables(kept[i].query);
      assert MentionsNone(kept[i], third);
    }
  }

  // ----- captured tables -----

  ghost predicate MergeKeeps(outer: WithClause, inner: WithClause, w: World) {
    EvalWiths(MergeWiths([outer], [inner]), w) == EvalWiths([inner], EvalWiths([outer], w))
  }

  lemma MergedTwo(outer: WithClause, inner: WithClause)
    ensures MergeWiths([outer], [inner]) == if outer.name == inner.name then [inner] else [inner, outer]
  {
    assert [outer][..0] == [] && WithoutNames([], [inner]) == [];
    assert [inner][0].name == inner.name;
    assert Defined([inner], outer.name) <==> outer.name == inner.name;
  }

  lemma OneCopy(name: string, table: string, w: World)
    requires name != table
    ensures EvalWiths([Copy(name, table)], w) == w.(tables := w.tables[name := TableOf(w, table)])
    ensures Acyclic([Copy(name, table)])
  {
    CopyIs(name, table, w);
    InOrderIsAcyclic([Copy(name, table)]);
    InOrderInTurn([Copy(name, table)], w);
    BindSnoc([], Copy(name, table), w, w);
    EmptyTurn(w);
    assert [] + [Copy(name, table)] == [Copy(name, table)];
  }

  lemma CopyCaptures(a: string, t: string, b: string, u: string, w: World)
    ensures NoCapture([Copy(a, t)], [Copy(b, u)]) <==> t != b || a == b
  {
    var outer, inner := Copy(a, t), Copy(b, u);
    assert [outer][..0] == [] && WithoutNames([], [inner]) == [];
    assert [inner][0].name == b;
    assert Defined([inner], a) <==> a == b;
    CopyIs(a, t, w);
    NoClauses();
    assert ClauseNames([inner]) == {b};
    assert WithoutNames([outer], [inner]) == if a == b then [] else [outer];
    assert WithTables([outer]) == {t} by {
      assert [outer][0] == outer;
    }
  }

  /**
   With a copy of a table in each layer, merging keeps every name's meaning in all worlds exactly when the outer clause
   does not read a table that the inner clause is named after.  (SQLite rejects a clause that reads its own name.)
   */
  lemma MergeKeepsIff(a: string, t: string, b: string, u: string)
    requires t != a && u != b
    ensures (forall w: World :: MergeKeeps(Copy(a, t), Copy(b, u), w)) <==> t != b || a == b
  {
    var w := TwoTables(t, u);
    CopyCaptures(a, t, b, u, w);
    OneCopy(a, t, w);
    OneCopy(b, u, w);
    if t != b || a == b {
      forall w: World
        ensures MergeKeeps(Copy(a, t), Copy(b, u), w)
      {
        MergedWorld([Copy(a, t)], [Copy(b, u)], w);
      }
    } else {
      MergedTwo(Copy(a, t), Copy(b, u));
      TwoRounds(b, u, a, t, w);
      OneCopy(b, u, EvalWiths([Copy(a, t)], w));
      assert EvalWiths([Copy(b, u)], EvalWiths([Copy(a, t)], w)).tables[a] == TableOf(w, t);
      assert EvalWiths([Copy(b, u), Copy(a, t)], w).tables[a] != TableOf(w, t);
      assert !MergeKeeps(Copy(a, t), Copy(b, u), w);
    }
  }

  /** WITH a AS (SELECT * FROM b) SELECT * FROM (WITH b AS (SELECT * FROM u) SELECT * FROM a). */
  function CaptureSelect(a: string, b: string, u: string, alias: string): Select {
    var inner := SelectStar(TableItem(a, "")).(withs := [Copy(b, u)]);
    SelectStar(SubqueryItem(inner, alias)).(withs := [Copy(a, b)])
  }

  lemma StarOver(f: FromItem, ws: seq<WithClause>, w: World)
    ensures
      var v := EvalWiths(ws, w);
      EvalSelect(SelectStar(f).(withs := ws), w) == Rel(SlotNames(EvalFrom(f, v).shape), EvalFrom(f, v).tuples)
  {
    var rows := EvalFrom(f, EvalWiths(ws, w));
    FilterNothing(rows, EvalWiths(ws, w));
    StarKeepsTuples(false, rows, EvalWiths(ws, w));
  }

  /** It returns the rows of the table b; flattened, with b captured by the inner list, those of u. */
  lemma CaptureChangesRows(a: string, b: string, u: string, alias: string, w: World)
    requires a != b && b != u && u != a
    ensures EvalSelect(CaptureSelect(a, b, u, alias), w) == TableOf(w, b)
    ensures EvalSelect(Flatten(CaptureSelect(a, b, u, alias)), w) == TableOf(w, u)
  {
    hide EvalSelect, EvalWiths, EvalFrom;
    var s := CaptureSelect(a, b, u, alias);
    var inner := s.from.value.query;
    var w1 := EvalWiths([Copy(a, b)], w);
    var w2 := EvalWiths([Copy(b, u)], w1);
    OneCopy(a, b, w);
    OneCopy(b, u, w1);
    StarOver(SubqueryItem(inner, alias), [Copy(a, b)], w);
    StarOver(TableItem(a, ""), [Copy(b, u)], w1);
    TableRows(a, w2);
    SubqueryRows(inner, alias, w1);
    MergedTwo(Copy(a, b), Copy(b, u));
    assert inner.items[..0] == [];
    var flat := SelectStar(TableItem(a, "")).(withs := [Copy(b, u), Copy(a, b)]);
    assert Flatten(s) == flat;
    StarOver(TableItem(a, ""), [Copy(b, u), Copy(a, b)], w);
    TwoRounds(b, u, a, b, w);
    TableRows(a, EvalWiths([Copy(b, u), Copy(a, b)], w));
  }

  lemma TableRows(table: string, w: World)
    ensures
      var rows := EvalFrom(TableItem(table, ""), w);
      Rel(SlotNames(rows.shape), rows.tuples) == TableOf(w, table)
  {
    RelabelNames(TableOf(w, table).cols, table);
  }

  lemma SubqueryRows(q: Select, alias: string, w: World)
    ensures
      var rows := EvalFrom(SubqueryItem(q, alias), w);
      Rel(SlotNames(rows.shape), rows.tuples) == EvalSelect(q, w)
  {
    RelabelNames(EvalSelect(q, w).cols, alias);
  }
}
