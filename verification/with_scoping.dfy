/**
 What a WITH list means in SQLite, where its names are visible throughout it: a list in which no clause depends on
 itself has exactly one solution, and one whose clauses only mention earlier ones can be evaluated one after the other.
 */
module WithScoping {
  import opened SqlAst
  import opened SqlSemantics
  import opened ExpressionMeaning
  import opened ScanMeaning
  import opened SelectAlgebra
  import opened TableFrames

  /** The clause a name stands for; of several of one name the last. */
  function QueryOf(ws: seq<WithClause>, n: string): (q: Select)
    requires n in ClauseNames(ws)
    ensures exists i :: 0 <= i < |ws| && ws[i].name == n && ws[i].query == q
    decreases |ws|
  {
    var k := |ws| - 1;
    assert ws == ws[..k] + [ws[k]];
    if ws[k].name == n then ws[k].query
    else
      NamesSnoc(ws[..k], ws[k]);
      QueryOf(ws[..k], n)
  }

  ghost predicate SameAt(w: World, v: World, n: string) {
    (n in w.tables <==> n in v.tables) && (n in w.tables ==> v.tables[n] == w.tables[n])
  }

  /** Clauses bind their own names and leave all other tables. */
  lemma {:induction false} Binds(ws: seq<WithClause>, v: World, w: World)
    ensures SameFunctions(w, BindAll(ws, v, w))
    ensures forall n :: n !in ClauseNames(ws) ==> SameAt(BindAll(ws, v, w), w, n)
    ensures forall n :: n in ClauseNames(ws) ==>
      n in BindAll(ws, v, w).tables && BindAll(ws, v, w).tables[n] == EvalSelect(QueryOf(ws, n), v)
    decreases |ws|
  {
    hide EvalSelect;
    BindKeepsFunctions(ws, v, w);
    if ws != [] {
      var k := |ws| - 1;
      assert ws == ws[..k] + [ws[k]];
      NamesSnoc(ws[..k], ws[k]);
      Binds(ws[..k], v, w);
    }
  }

  lemma SameWorlds(w: World, v: World)
    requires SameFunctions(w, v) && forall n :: SameAt(w, v, n)
    ensures w == v
  {
    forall n
      ensures n in w.tables <==> n in v.tables
      ensures n in w.tables ==> v.tables[n] == w.tables[n]
    {
      assert SameAt(w, v, n);
    }
    assert w.tables == v.tables;
  }

  // ----- lists in which no clause depends on itself -----

  /** Whatever a clause mentions of the list has a lower rank. */
  ghost predicate Ranks(ws: seq<WithClause>, rank: map<string, nat>) {
    && ClauseNames(ws) <= rank.Keys
    && forall i, n :: 0 <= i < |ws| && n in SelectTables(ws[i].query) && n in ClauseNames(ws) ==>
         rank[n] < rank[ws[i].name]
  }

  ghost predicate Acyclic(ws: seq<WithClause>) {
    exists rank :: Ranks(ws, rank)
  }

  /** v is w with every name bound to what its clause returns in v itself. */
  ghost predicate Settled(ws: seq<WithClause>, w: World, v: World) {
    v == BindAll(ws, v, w)
  }

  ghost predicate SameBelow(ws: seq<WithClause>, rank: map<string, nat>, r: nat, w: World, v: World) {
    && SameFunctions(w, v)
    && forall n :: (n in ClauseNames(ws) ==> n in rank && rank[n] < r) ==> SameAt(w, v, n)
  }

  /** Where worlds agree on the names below a rank, binding all clauses makes them agree on one rank more. */
  lemma BindOnceMore(ws: seq<WithClause>, rank: map<string, nat>, r: nat, w: World, a: World, b: World)
    requires Ranks(ws, rank) && SameBelow(ws, rank, r, a, b)
    ensures SameBelow(ws, rank, r + 1, BindAll(ws, a, w), BindAll(ws, b, w))
  {
    Binds(ws, a, w);
    Binds(ws, b, w);
    forall n | n in ClauseNames(ws) && rank[n] < r + 1
      ensures EvalSelect(QueryOf(ws, n), b) == EvalSelect(QueryOf(ws, n), a)
    {
      assert forall m :: m in SelectTables(QueryOf(ws, n)) ==> SameAt(a, b, m);
      SelectFrame(QueryOf(ws, n), a, b, SelectTables(QueryOf(ws, n)));
    }
  }

  lemma {:induction false} RoundsAgree(
    ws: seq<WithClause>, rank: map<string, nat>, r: nat, w: World, j: nat, k: nat)
    requires Ranks(ws, rank) && r <= j && r <= k
    ensures SameBelow(ws, rank, r, WithRounds(ws, w, j), WithRounds(ws, w, k))
    decreases r
  {
    if r == 0 {
      RoundKeeps(ws, w, j);
      RoundKeeps(ws, w, k);
    } else {
      RoundsAgree(ws, rank, r - 1, w, j - 1, k - 1);
      BindOnceMore(ws, rank, r - 1, w, WithRounds(ws, w, j - 1), WithRounds(ws, w, k - 1));
    }
  }

  lemma RoundKeeps(ws: seq<WithClause>, w: World, k: nat)
    ensures SameFunctions(w, WithRounds(ws, w, k))
    ensures forall n :: n !in ClauseNames(ws) ==> SameAt(WithRounds(ws, w, k), w, n)
  {
    if k == 0 {
      UnsetKeeps(ws, w);
    } else {
      Binds(ws, WithRounds(ws, w, k - 1), w);
    }
  }

  lemma {:induction false} UnsetKeeps(ws: seq<WithClause>, w: World)
    ensures SameFunctions(w, Unset(ws, w)) && forall n :: n !in ClauseNames(ws) ==> SameAt(Unset(ws, w), w, n)
    decreases |ws|
  {
    BindKeepsFunctions(ws, w, w);
    if ws != [] {
      var k := |ws| - 1;
      assert ws == ws[..k] + [ws[k]];
      NamesSnoc(ws[..k], ws[k]);
      UnsetKeeps(ws[..k], w);
    }
  }

  // ----- ranks below the number of clauses -----

  /** The names of the list of lower rank. */
  function Below(ws: seq<WithClause>, rank: map<string, nat>, n: string): set<string>
    requires ClauseNames(ws) <= rank.Keys && n in rank
  {
    set m | m in ClauseNames(ws) && rank[m] < rank[n]
  }

  lemma {:induction false} FewNames(ws: seq<WithClause>)
    ensures |ClauseNames(ws)| <= |ws|
    decreases |ws|
  {
    if ws != [] {
      var k := |ws| - 1;
      assert ws == ws[..k] + [ws[k]];
      NamesSnoc(ws[..k], ws[k]);
      FewNames(ws[..k]);
    }
  }

  lemma ProperlySmaller(a: set<string>, b: set<string>, x: string)
    requires a <= b && x in b && x !in a
    ensures |a| < |b|
  {
    assert a <= b - {x};
    SubsetSize(a, b - {x});
  }

  lemma {:induction false} SubsetSize(a: set<string>, b: set<string>)
    requires a <= b
    ensures |a| <= |b|
  {
    if a != {} {
      var x :| x in a;
      SubsetSize(a - {x}, b - {x});
    }
  }

  lemma LowRanks(ws: seq<WithClause>) returns (rank: map<string, nat>)
    requires Acyclic(ws)
    ensures Ranks(ws, rank) && forall n :: n in ClauseNames(ws) ==> rank[n] < |ws|
  {
    var given :| Ranks(ws, given);
    rank := map n | n in ClauseNames(ws) :: |Below(ws, given, n)|;
    FewNames(ws);
    forall n | n in ClauseNames(ws)
      ensures rank[n] < |ws|
    {
      ProperlySmaller(Below(ws, given, n), ClauseNames(ws), n);
    }
    forall i, n | 0 <= i < |ws| && n in SelectTables(ws[i].query) && n in ClauseNames(ws)
      ensures rank[n] < rank[ws[i].name]
    {
      assert ws[i].name in ClauseNames(ws);
      ProperlySmaller(Below(ws, given, n), Below(ws, given, ws[i].name), n);
    }
  }

  // ----- the one solution -----

  /** Evaluation solves the list. */
  lemma Settles(ws: seq<WithClause>, w: World)
    requires Acyclic(ws)
    ensures Settled(ws, w, EvalWiths(ws, w))
  {
    if ws != [] {
      var rank := LowRanks(ws);
      var v := WithRounds(ws, w, |ws|);
      RoundsAgree(ws, rank, |ws|, w, |ws|, |ws| + 1);
      SameWorlds(v, BindAll(ws, v, w));
    }
  }

  /** ... and there is no other solution. */
  lemma SettledOnce(ws: seq<WithClause>, w: World, v: World)
    requires Acyclic(ws) && Settled(ws, w, v)
    ensures v == EvalWiths(ws, w)
  {
    var rank := LowRanks(ws);
    Settles(ws, w);
    SolutionsAgree(ws, rank, |ws|, w, v, EvalWiths(ws, w));
    SameWorlds(v, EvalWiths(ws, w));
  }

  lemma {:induction false} SolutionsAgree(
    ws: seq<WithClause>, rank: map<string, nat>, r: nat, w: World, a: World, b: World)
    requires Ranks(ws, rank) && Settled(ws, w, a) && Settled(ws, w, b)
    ensures SameBelow(ws, rank, r, a, b)
    decreases r
  {
    if r == 0 {
      Binds(ws, a, w);
      Binds(ws, b, w);
    } else {
      SolutionsAgree(ws, rank, r - 1, w, a, b);
      BindOnceMore(ws, rank, r - 1, w, a, b);
    }
  }

  // ----- lists in which clauses mention earlier ones only -----

  /** One clause after the other, each seeing those before it: what the standard says of a list without RECURSIVE. */
  ghost function InTurn(ws: seq<WithClause>, w: World): World {
    if ws == [] then w
    else
      var k := |ws| - 1;
      var u := InTurn(ws[..k], w);
      u.(tables := u.tables[ws[k].name := EvalSelect(ws[k].query, u)])
  }

  lemma {:induction false} TurnsFromFront(ws: seq<WithClause>, w: World)
    requires ws != []
    ensures InTurn(ws, w) == InTurn(ws[1..], w.(tables := w.tables[ws[0].name := EvalSelect(ws[0].query, w)]))
    decreases |ws|
  {
    var k := |ws| - 1;
    if k > 0 {
      TurnsFromFront(ws[..k], w);
      assert ws[..k][1..] == ws[1..][..k - 1];
    } else {
      assert ws[..0] == [] && ws[1..] == [];
    }
  }

  ghost predicate DistinctClauses(ws: seq<WithClause>) {
    forall i, j :: 0 <= i < j < |ws| ==> ws[i].name != ws[j].name
  }

  /** No clause mentions its own name or a later one. */
  ghost predicate InOrder(ws: seq<WithClause>) {
    DistinctClauses(ws) && forall i, j :: 0 <= i <= j < |ws| ==> ws[j].name !in SelectTables(ws[i].query)
  }

  lemma {:induction false} TurnsKeepFunctions(ws: seq<WithClause>, w: World)
    ensures SameFunctions(w, InTurn(ws, w))
    decreases |ws|
  {
    if ws != [] {
      TurnsKeepFunctions(ws[..|ws| - 1], w);
    }
  }

  lemma {:induction false} TurnsKeep(ws: seq<WithClause>, w: World, i: nat, n: string)
    requires i <= |ws| && forall j :: i <= j < |ws| ==> ws[j].name != n
    ensures SameAt(InTurn(ws[..i], w), InTurn(ws, w), n)
    decreases |ws|
  {
    var k := |ws| - 1;
    if i == |ws| {
      assert ws[..i] == ws;
    } else {
      assert ws[..k][..i] == ws[..i];
      TurnsKeep(ws[..k], w, i, n);
    }
  }

  lemma {:induction false} TurnsAreBound(ws: seq<WithClause>, w: World, i: nat)
    requires InOrder(ws) && i <= |ws|
    ensures BindAll(ws[..i], InTurn(ws, w), w) == InTurn(ws[..i], w)
    decreases i
  {
    if i > 0 {
      var c, before := ws[i - 1], InTurn(ws[..i - 1], w);
      assert ws[..i][..i - 1] == ws[..i - 1];
      TurnsAreBound(ws, w, i - 1);
      TurnsKeepFunctions(ws, w);
      TurnsKeepFunctions(ws[..i - 1], w);
      forall n | n in SelectTables(c.query)
        ensures SameAt(before, InTurn(ws, w), n)
      {
        TurnsKeep(ws, w, i - 1, n);
      }
      SelectFrame(c.query, before, InTurn(ws, w), SelectTables(c.query));
    }
  }

  ghost function IndexOf(ws: seq<WithClause>, n: string): (i: nat)
    requires n in ClauseNames(ws)
    ensures i < |ws| && ws[i].name == n
  {
    var i :| 0 <= i < |ws| && ws[i].name == n;
    i
  }

  lemma InOrderIsAcyclic(ws: seq<WithClause>)
    requires InOrder(ws)
    ensures Acyclic(ws)
  {
    var rank := map n | n in ClauseNames(ws) :: IndexOf(ws, n);
    forall i, n | 0 <= i < |ws| && n in SelectTables(ws[i].query) && n in ClauseNames(ws)
      ensures rank[n] < rank[ws[i].name]
    {
      assert ws[i].name in ClauseNames(ws);
      assert rank[ws[i].name] == i;
    }
    assert Ranks(ws, rank);
  }

  /** For such lists both ways of reading a WITH list are one. */
  lemma InOrderInTurn(ws: seq<WithClause>, w: World)
    requires InOrder(ws)
    ensures EvalWiths(ws, w) == InTurn(ws, w)
  {
    InOrderIsAcyclic(ws);
    TurnsAreBound(ws, w, |ws|);
    assert ws[..|ws|] == ws;
    SettledOnce(ws, w, InTurn(ws, w));
  }

  // ----- when the order matters -----

  function TableOf(w: World, table: string): Rel {
    if table in w.tables then w.tables[table] else Rel([], [])
  }

  /** `name AS (SELECT * FROM table)`. */
  function Copy(name: string, table: string): WithClause {
    WithClause(name, false, SelectStar(TableItem(table, "")))
  }

  lemma CopyIs(name: string, table: string, w: World)
    ensures EvalSelect(Copy(name, table).query, w) == TableOf(w, table)
    ensures SelectTables(Copy(name, table).query) == {table}
  {
    var rows := EvalFrom(TableItem(table, ""), w);
    assert EvalWiths([], w) == w;
    FilterNothing(rows, w);
    StarKeepsTuples(false, rows, w);
    assert SlotNames(rows.shape) == TableOf(w, table).cols;
    NoClauses();
    assert BodyTables(Copy(name, table).query) == {table};
  }

  lemma NoClauses()
    ensures WithTables([]) == {} && ClauseNames([]) == {}
  {
    assert forall n :: n !in WithTables([]);
    assert forall n :: n !in ClauseNames([]);
  }

  lemma RoundIs(ws: seq<WithClause>, w: World, k: nat)
    ensures WithRounds(ws, w, 0) == Unset(ws, w)
    ensures WithRounds(ws, w, k + 1) == BindAll(ws, WithRounds(ws, w, k), w)
  {
  }

  lemma BindSnoc(ws: seq<WithClause>, c: WithClause, v: World, w: World)
    ensures
      var u := BindAll(ws, v, w);
      BindAll(ws + [c], v, w) == u.(tables := u.tables[c.name := EvalSelect(c.query, v)])
    ensures
      var u := Unset(ws, w);
      Unset(ws + [c], w) == u.(tables := u.tables[c.name := Rel([], [])])
    ensures
      var u := InTurn(ws, w);
      InTurn(ws + [c], w) == u.(tables := u.tables[c.name := EvalSelect(c.query, u)])
  {
    assert (ws + [c])[..|ws|] == ws;
  }

  lemma BindTwo(c: WithClause, d: WithClause, v: World, w: World)
    ensures BindAll([c, d], v, w)
         == w.(tables := w.tables[c.name := EvalSelect(c.query, v)][d.name := EvalSelect(d.query, v)])
    ensures Unset([c, d], w) == w.(tables := w.tables[c.name := Rel([], [])][d.name := Rel([], [])])
  {
    hide EvalSelect;
    assert [c, d] == [c] + [d] && [c] == [] + [c];
    BindSnoc([c], d, v, w);
    BindSnoc([], c, v, w);
  }

  /** A list of two copies, round by round. */
  lemma TwoRounds(a: string, t: string, b: string, u: string, w: World)
    requires a != b
    ensures
      var v := EvalWiths([Copy(a, t), Copy(b, u)], w);
      && v == w.(tables := w.tables[a := TableOf(v, a)][b := TableOf(v, b)])
      && TableOf(v, a) == (if t == a then Rel([], []) else if t != b then TableOf(w, t)
                           else if u == a || u == b then Rel([], []) else TableOf(w, u))
      && TableOf(v, b) == (if u == b then Rel([], []) else if u != a then TableOf(w, u)
                           else if t == a || t == b then Rel([], []) else TableOf(w, t))
  {
    hide EvalSelect, BindAll, Unset;
    var c, d := Copy(a, t), Copy(b, u);
    var ws := [c, d];
    var w0, w1 := Unset(ws, w), WithRounds(ws, w, 1);
    RoundIs(ws, w, 0);
    RoundIs(ws, w, 1);
    BindTwo(c, d, w0, w);
    CopyIs(a, t, w0);
    CopyIs(b, u, w0);
    BindTwo(c, d, w1, w);
    CopyIs(a, t, w1);
    CopyIs(b, u, w1);
  }

  lemma EmptyTurn(w: World)
    ensures InTurn([], w) == w
  {
  }

  lemma TwoTurns(a: string, t: string, b: string, u: string, w: World)
    requires a != b
    ensures InTurn([Copy(a, t), Copy(b, u)], w)
         == w.(tables := w.tables[a := TableOf(w, t)][b := TableOf(w, if u == a then t else u)])
  {
    hide EvalSelect, InTurn;
    var c, d := Copy(a, t), Copy(b, u);
    assert [c, d] == [c] + [d] && [c] == [] + [c];
    BindSnoc([c], d, w, w);
    BindSnoc([], c, w, w);
    assert InTurn([], w) == w by {
      EmptyTurn(w);
    }
    CopyIs(a, t, w);
    CopyIs(b, u, InTurn([c], w));
  }

  /** Two tables that can be told apart by their columns. */
  function TwoTables(t: string, u: string): World {
    World(map[t := Rel([t], []), u := Rel([u], [])],
          (fn, vs) => Null, text => false, p => Null, (q, tables) => Rel([], []))
  }

  /**
   Two copies of tables mean the same in every world, whether read in order or as SQLite does, exactly when neither
   reads a table of its own name and the first none of the second's name.  Otherwise the clause depends on itself, or
   the first is given the second's rows.
   */
  lemma OrderKeptIff(a: string, t: string, b: string, u: string)
    requires a != b
    ensures (forall w: World :: EvalWiths([Copy(a, t), Copy(b, u)], w) == InTurn([Copy(a, t), Copy(b, u)], w))
       <==> InOrder([Copy(a, t), Copy(b, u)])
    ensures InOrder([Copy(a, t), Copy(b, u)]) <==> t != a && t != b && u != b
  {
    var ws := [Copy(a, t), Copy(b, u)];
    var w := TwoTables(t, u);
    CopyIs(a, t, w);
    CopyIs(b, u, w);
    assert InOrder(ws) <==> t != a && t != b && u != b by {
      assert ws[0].name == a && ws[1].name == b;
    }
    if InOrder(ws) {
      forall w: World
        ensures EvalWiths(ws, w) == InTurn(ws, w)
      {
        InOrderInTurn(ws, w);
      }
    } else {
      TwoRounds(a, t, b, u, w);
      TwoTurns(a, t, b, u, w);
      var v := EvalWiths(ws, w);
      if t == a || t == b {
        assert InTurn(ws, w).tables[a] == TableOf(w, t) != TableOf(v, a);
      } else {
        assert InTurn(ws, w).tables[b] == TableOf(w, u) != TableOf(v, b);
      }
    }
  }
}
