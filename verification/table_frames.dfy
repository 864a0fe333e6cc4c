/** A statement reads only the tables it mentions and does not itself define. */
module TableFrames {
  import opened Wrappers
  import opened SqlAst
  import opened SqlSemantics
  import opened ExpressionMeaning
  import opened SelectAlgebra

  /** The worlds have the same functions, and the same tables of the given names. */
  ghost predicate AgreeOn(w: World, v: World, names: set<string>) {
    && SameFunctions(w, v)
    && forall n :: n in names ==> (n in w.tables <==> n in v.tables) && (n in w.tables ==> v.tables[n] == w.tables[n])
  }

  // ----- statements read only what they mention -----

  lemma ProjectFrame(items: seq<Item>, shape: seq<Slot>, t: Tuple, w: World, v: World)
    requires SameFunctions(w, v)
    ensures ProjectTuple(items, shape, t, v) == ProjectTuple(items, shape, t, w)
  {
    if items != [] {
      EvalFrame(items[0].expr, shape, t, w, v);
      ProjectFrame(items[1..], shape, t, w, v);
    }
  }

  lemma RowsFrame(items: seq<Item>, where: Option<Expr>, rows: Rows, w: World, v: World)
    requires SameFunctions(w, v)
    ensures Filter(rows, where, v) == Filter(rows, where, w)
    ensures Project(items, rows, v) == Project(items, rows, w)
  {
    forall i | 0 <= i < |rows.tuples|
      ensures Holds(where, rows.shape, rows.tuples[i], v) <==> Holds(where, rows.shape, rows.tuples[i], w)
      ensures ProjectTuple(items, rows.shape, rows.tuples[i], v) == ProjectTuple(items, rows.shape, rows.tuples[i], w)
    {
      if where.Some? {
        EvalFrame(where.value, rows.shape, rows.tuples[i], w, v);
      }
      ProjectFrame(items, rows.shape, rows.tuples[i], w, v);
    }
    assert Mask(where, rows, v) == Mask(where, rows, w);
    assert ProjectAll(items, rows, v) == ProjectAll(items, rows, w);
  }

  lemma MatrixFrame(l: Rows, r: Rows, cond: Option<Expr>, w: World, v: World)
    requires SameFunctions(w, v)
    ensures MatchMatrix(l, r, cond, v) == MatchMatrix(l, r, cond, w)
  {
    var a, b := MatchMatrix(l, r, cond, v), MatchMatrix(l, r, cond, w);
    forall i | 0 <= i < |l.tuples|
      ensures a[i] == b[i]
    {
      forall j | 0 <= j < |r.tuples|
        ensures a[i][j] == b[i][j]
      {
        if cond.Some? {
          EvalFrame(cond.value, l.shape + r.shape, l.tuples[i] + r.tuples[j], w, v);
        }
      }
    }
  }

  lemma LimitFrame(r: Rel, limit: Option<Limit>, w: World, v: World)
    requires SameFunctions(w, v)
    ensures LimitRel(r, limit, v) == LimitRel(r, limit, w)
  {
    if limit.Some? {
      EvalFrame(limit.value.count, [], [], w, v);
      if limit.value.offset.Some? {
        EvalFrame(limit.value.offset.value, [], [], w, v);
      }
    }
  }

  lemma RestrictFrame(w: World, v: World, names: set<string>, within: set<string>)
    requires AgreeOn(w, v, within) && names <= within
    ensures Restrict(v.tables, names) == Restrict(w.tables, names)
  {
  }

  lemma {:induction false} SelectFrame(s: Select, w: World, v: World, names: set<string>)
    requires AgreeOn(w, v, names) && SelectTables(s) <= names
    ensures EvalSelect(s, v) == EvalSelect(s, w)
    decreases s, 2
  {
    var wi, vi, within := EvalWiths(s.withs, w), EvalWiths(s.withs, v), names + ClauseNames(s.withs);
    WithsFrame(s.withs, w, v, names);
    RestrictFrame(wi, vi, BodyTables(s), within);
    if s.setOp.Some? {
      UnionFrame(s.setOp.value.items, wi, vi, within);
      if s.setOp.value.items != [] {
        SelectFrame(s.setOp.value.items[0], wi, vi, within);
      }
    } else if !NeedsGrouping(s) {
      BodyFrame(s, w, v, within);
    }
  }

  lemma {:induction false} BodyFrame(s: Select, w: World, v: World, names: set<string>)
    requires AgreeOn(EvalWiths(s.withs, w), EvalWiths(s.withs, v), names) && BodyTables(s) <= names && Ungrouped(s)
    ensures EvalSelect(s, v) == EvalSelect(s, w)
    decreases s, 0
  {
    var wi, vi := EvalWiths(s.withs, w), EvalWiths(s.withs, v);
    if s.from.Some? {
      FromFrame(s.from.value, wi, vi, names);
    }
    var rows := FromRows(s.from, wi);
    assert FromRows(s.from, vi) == rows;
    RowsFrame(s.items, s.where, rows, wi, vi);
    var kept := Filter(rows, s.where, wi);
    RowsFrame(s.items, None, kept, wi, vi);
    var out := Project(s.items, kept, wi);
    LimitFrame(if s.distinct then out.(rows := Dedupe(out.rows)) else out, s.limit, wi, vi);
  }

  lemma {:induction false} UnionFrame(items: seq<Select>, w: World, v: World, names: set<string>)
    requires AgreeOn(w, v, names) && UnionTables(items) <= names
    ensures EvalAll(items, v) == EvalAll(items, w)
    decreases items, 0
  {
    if items != [] {
      SelectFrame(items[0], w, v, names);
      UnionFrame(items[1..], w, v, names);
    }
  }

  /** Outside, a WITH list reads only what it does not define itself. */
  lemma {:induction false} WithsFrame(ws: seq<WithClause>, w: World, v: World, names: set<string>)
    requires AgreeOn(w, v, names) && WithTables(ws) <= names + ClauseNames(ws)
    ensures AgreeOn(EvalWiths(ws, w), EvalWiths(ws, v), names + ClauseNames(ws))
    decreases ws, 3
  {
    if ws != [] {
      RoundsFrame(ws, w, v, names, |ws|);
    }
  }

  lemma {:induction false} RoundsFrame(ws: seq<WithClause>, w: World, v: World, names: set<string>, k: nat)
    requires AgreeOn(w, v, names) && WithTables(ws) <= names + ClauseNames(ws)
    ensures AgreeOn(WithRounds(ws, w, k), WithRounds(ws, v, k), names + ClauseNames(ws))
    decreases ws, 2, k
  {
    if k == 0 {
      UnsetFrame(ws, w, v, names);
    } else {
      RoundsFrame(ws, w, v, names, k - 1);
      forall i | 0 <= i < |ws|
        ensures EvalSelect(ws[i].query, WithRounds(ws, v, k - 1)) == EvalSelect(ws[i].query, WithRounds(ws, w, k - 1))
      {
        assert SelectTables(ws[i].query) <= WithTables(ws);
        SelectFrame(ws[i].query, WithRounds(ws, w, k - 1), WithRounds(ws, v, k - 1), names + ClauseNames(ws));
      }
      BindFrame(ws, WithRounds(ws, w, k - 1), WithRounds(ws, v, k - 1), w, v, names);
    }
  }

  lemma NamesSnoc(ws: seq<WithClause>, c: WithClause)
    ensures ClauseNames(ws + [c]) == ClauseNames(ws) + {c.name}
  {
    forall i | 0 <= i < |ws|
      ensures ws[i].name in ClauseNames(ws + [c])
    {
      assert (ws + [c])[i] == ws[i];
    }
    assert (ws + [c])[|ws|] == c;
  }

  lemma {:induction false} UnsetFrame(ws: seq<WithClause>, w: World, v: World, names: set<string>)
    requires AgreeOn(w, v, names)
    ensures AgreeOn(Unset(ws, w), Unset(ws, v), names + ClauseNames(ws))
    decreases |ws|
  {
    if ws != [] {
      var front, c := ws[..|ws| - 1], ws[|ws| - 1];
      assert ws == front + [c];
      UnsetFrame(front, w, v, names);
      NamesSnoc(front, c);
    }
  }

  lemma {:induction false} BindFrame(
    ws: seq<WithClause>, inside: World, inside': World, w: World, v: World, names: set<string>)
    requires AgreeOn(w, v, names)
    requires forall i :: 0 <= i < |ws| ==> EvalSelect(ws[i].query, inside') == EvalSelect(ws[i].query, inside)
    ensures AgreeOn(BindAll(ws, inside, w), BindAll(ws, inside', v), names + ClauseNames(ws))
    decreases |ws|
  {
    hide EvalSelect;
    if ws != [] {
      var front, c := ws[..|ws| - 1], ws[|ws| - 1];
      assert ws == front + [c];
      BindFrame(front, inside, inside', w, v, names);
      NamesSnoc(front, c);
    }
  }

  lemma {:induction false} FromFrame(f: FromItem, w: World, v: World, names: set<string>)
    requires AgreeOn(w, v, names) && FromTables(f) <= names
    ensures EvalFrom(f, v) == EvalFrom(f, w)
    decreases f, 0
  {
    match f
    case TableItem(_, _) =>
    case SubqueryItem(query, _) => SelectFrame(query, w, v, names);
    case JoinItem(_, left, right, cond, _) =>
      FromFrame(left, w, v, names);
      FromFrame(right, w, v, names);
      MatrixFrame(EvalFrom(left, w), EvalFrom(right, w), cond, w, v);
  }
}
