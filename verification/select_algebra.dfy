/** Laws of WHERE, SELECT lists and LIMIT that flattening relies on. */
module SelectAlgebra {
  import opened Wrappers
  import opened SqlAst
  import opened SqlSemantics
  import opened ExpressionMeaning
  import opened ScanMeaning
  import opened Flattening

  // ----- filtering twice -----

  function Both(a: seq<bool>, b: seq<bool>): (c: seq<bool>)
    requires |a| == |b|
    ensures |c| == |a| && forall i :: 0 <= i < |c| ==> c[i] == (a[i] && b[i])
  {
    seq(|a|, i requires 0 <= i < |a| => a[i] && b[i])
  }

  lemma KeptSnoc(mask: seq<bool>, b: bool)
    ensures Kept(mask + [b]) == Kept(mask) + (if b then [|mask|] else [])
  {
    assert (mask + [b])[..|mask|] == mask;
  }

  lemma AtSnoc<T>(xs: seq<T>, x: T, ks: seq<nat>)
    requires forall i :: 0 <= i < |ks| ==> ks[i] < |xs|
    ensures At(xs + [x], ks) == At(xs, ks) && At(xs + [x], ks + [|xs|]) == At(xs, ks) + [x]
  {
  }

  lemma BothSnoc(a: seq<bool>, x: bool, b: seq<bool>, y: bool)
    requires |a| == |b|
    ensures Both(a + [x], b + [y]) == Both(a, b) + [x && y]
  {
  }

  /** Choosing by b among what a keeps is choosing by both at once. */
  lemma {:induction false} KeptTwice(a: seq<bool>, b: seq<bool>)
    requires |a| == |b|
    ensures At(Kept(a), Kept(At(b, Kept(a)))) == Kept(Both(a, b))
  {
    if a != [] {
      var n := |a| - 1;
      assert a == a[..n] + [a[n]] && b == b[..n] + [b[n]];
      KeptTwice(a[..n], b[..n]);
      KeptTwiceStep(a[..n], a[n], b[..n], b[n]);
    }
  }

  lemma KeptTwiceStep(a: seq<bool>, x: bool, b: seq<bool>, y: bool)
    requires |a| == |b| && At(Kept(a), Kept(At(b, Kept(a)))) == Kept(Both(a, b))
    ensures At(Kept(a + [x]), Kept(At(b + [y], Kept(a + [x])))) == Kept(Both(a + [x], b + [y]))
  {
    hide Kept, Both;
    var ks, chosen := Kept(a), At(b, Kept(a));
    KeptSnoc(a, x);
    BothSnoc(a, x, b, y);
    KeptSnoc(Both(a, b), x && y);
    AtSnoc(b, y, ks);
    if x {
      KeptSnoc(chosen, y);
      AtSnoc(ks, |a|, Kept(chosen));
    } else {
      assert ks + [] == ks;
    }
  }

  lemma MergedHolds(inner: Option<Expr>, outer: Option<Expr>, shape: seq<Slot>, t: Tuple, w: World)
    ensures Holds(MergeWhere(outer, inner), shape, t, w) <==> Holds(inner, shape, t, w) && Holds(outer, shape, t, w)
  {
  }

  /** "inner AND outer" is true of a row exactly when both are, so it keeps what filtering twice keeps. */
  lemma FilterTwice(rows: Rows, inner: Option<Expr>, outer: Option<Expr>, w: World)
    ensures Filter(Filter(rows, inner, w), outer, w) == Filter(rows, MergeWhere(outer, inner), w)
  {
    var a, b := Mask(inner, rows, w), Mask(outer, rows, w);
    assert Mask(outer, Filter(rows, inner, w), w) == At(b, Kept(a));
    forall i | 0 <= i < |rows.tuples|
      ensures Mask(MergeWhere(outer, inner), rows, w)[i] == Both(a, b)[i]
    {
      MergedHolds(inner, outer, rows.shape, rows.tuples[i], w);
    }
    assert Mask(MergeWhere(outer, inner), rows, w) == Both(a, b);
    KeptTwice(a, b);
    AtAt(rows.tuples, Kept(a), Kept(At(b, Kept(a))));
  }

  lemma AtAt<T>(xs: seq<T>, ks: seq<nat>, js: seq<nat>)
    requires forall i :: 0 <= i < |ks| ==> ks[i] < |xs|
    requires forall i :: 0 <= i < |js| ==> js[i] < |ks|
    ensures At(At(xs, ks), js) == At(xs, At(ks, js))
  {
  }

  // ----- expressions that correspond -----

  /** Row by row, e' computes over a what e computes over b. */
  ghost predicate Corresponds(e: Expr, b: Rows, w: World, e': Expr, a: Rows, v: World) {
    && |b.tuples| == |a.tuples|
    && forall i :: 0 <= i < |b.tuples| ==>
         Eval(e', a.shape, a.tuples[i], v) == Eval(e, b.shape, b.tuples[i], w)
  }

  ghost predicate OptionCorresponds(e: Option<Expr>, b: Rows, w: World, e': Option<Expr>, a: Rows, v: World) {
    |b.tuples| == |a.tuples| && (e.Some? <==> e'.Some?) && (e.Some? ==> Corresponds(e.value, b, w, e'.value, a, v))
  }

  ghost predicate ItemsCorrespond(items: seq<Item>, b: Rows, w: World, items': seq<Item>, a: Rows, v: World) {
    && |items| == |items'| && StarFree(items) && StarFree(items')
    && forall k :: 0 <= k < |items| ==> Corresponds(items[k].expr, b, w, items'[k].expr, a, v)
  }

  /** Corresponding conditions and items over corresponding rows give the same output. */
  lemma SameOutput(
    items: seq<Item>, where: Option<Expr>, b: Rows, w: World,
    items': seq<Item>, where': Option<Expr>, a: Rows, v: World)
    requires SameFunctions(w, v)
    requires OptionCorresponds(where, b, w, where', a, v) && ItemsCorrespond(items, b, w, items', a, v)
    ensures ProjectAll(items, Filter(b, where, w), w) == ProjectAll(items', Filter(a, where', v), v)
  {
    assert Mask(where, b, w) == Mask(where', a, v);
    var ks := Kept(Mask(where, b, w));
    forall i | 0 <= i < |ks|
      ensures ProjectTuple(items, b.shape, b.tuples[ks[i]], w) == ProjectTuple(items', a.shape, a.tuples[ks[i]], v)
    {
      AliasedTuple(items, b.shape, b.tuples[ks[i]], w);
      AliasedTuple(items', a.shape, a.tuples[ks[i]], v);
    }
  }

  // ----- the world's tables do not matter to an expression -----

  lemma {:induction false} EvalFrame(e: Expr, shape: seq<Slot>, t: Tuple, w: World, v: World)
    requires SameFunctions(w, v)
    ensures Eval(e, shape, t, v) == Eval(e, shape, t, w)
    decreases e
  {
    match e
    case Function(_, args) => EvalFrameAll(e, args, shape, t, w, v);
    case List(items) => EvalFrameAll(e, items, shape, t, w, v);
    case Unary(_, arg) => EvalFrame(arg, shape, t, w, v);
    case Binary(left, _, right) =>
      EvalFrame(left, shape, t, w, v);
      EvalFrame(right, shape, t, w, v);
    case Case(_, _, _) => EvalFrameCase(e, shape, t, w, v);
    case _ =>
  }

  lemma {:induction false} EvalFrameAll(e: Expr, args: seq<Expr>, shape: seq<Slot>, t: Tuple, w: World, v: World)
    requires (e.Function? && e.args == args) || (e.List? && e.items == args)
    requires SameFunctions(w, v)
    ensures Eval(e, shape, t, v) == Eval(e, shape, t, w)
    decreases e, 0
  {
    forall i | 0 <= i < |args|
      ensures Eval(args[i], shape, t, v) == Eval(args[i], shape, t, w)
    {
      EvalFrame(args[i], shape, t, w, v);
    }
    assert seq(|args|, i requires 0 <= i < |args| => Eval(args[i], shape, t, v))
        == seq(|args|, i requires 0 <= i < |args| => Eval(args[i], shape, t, w));
  }

  lemma {:induction false} EvalFrameCase(e: Expr, shape: seq<Slot>, t: Tuple, w: World, v: World)
    requires e.Case? && SameFunctions(w, v)
    ensures Eval(e, shape, t, v) == Eval(e, shape, t, w)
    decreases e, 0
  {
    if e.operand.Some? {
      EvalFrame(e.operand.value, shape, t, w, v);
    }
    if e.els.Some? {
      EvalFrame(e.els.value, shape, t, w, v);
    }
    var subject := if e.operand.Some? then Some(Eval(e.operand.value, shape, t, w)) else None;
    EvalFrameWhens(subject, e.whens, shape, t, w, v);
  }

  lemma {:induction false} EvalFrameWhens(
    subject: Option<Value>, whens: Whens, shape: seq<Slot>, t: Tuple, w: World, v: World)
    requires SameFunctions(w, v)
    ensures EvalWhens(subject, whens, shape, t, v) == EvalWhens(subject, whens, shape, t, w)
    decreases whens
  {
    match whens
    case NoWhen =>
    case When(cond, result, rest) =>
      EvalFrame(cond, shape, t, w, v);
      EvalFrame(result, shape, t, w, v);
      EvalFrameWhens(subject, rest, shape, t, w, v);
  }

  ghost predicate Wide(rows: seq<Tuple>, n: nat) {
    forall i :: 0 <= i < |rows| ==> |rows[i]| == n
  }

  /** DISTINCT and LIMIT, applied to a statement's projected rows. */
  ghost function Finish(s: Select, rows: seq<Tuple>, w: World): seq<Tuple> {
    LimitRel(Rel([], if s.distinct then Dedupe(rows) else rows), s.limit, w).rows
  }

  lemma FinishFrame(s: Select, s': Select, rows: seq<Tuple>, w: World, v: World)
    requires SameFunctions(w, v) && s'.distinct == s.distinct && s'.limit == s.limit
    ensures Finish(s', rows, v) == Finish(s, rows, w)
  {
    if s.limit.Some? {
      EvalFrame(s.limit.value.count, [], [], w, v);
      if s.limit.value.offset.Some? {
        EvalFrame(s.limit.value.offset.value, [], [], w, v);
      }
    }
  }

  ghost function FromRows(from: Option<FromItem>, w: World): Rows {
    if from.Some? then EvalFrom(from.value, w) else Rows([], [[]])
  }

  predicate Ungrouped(s: Select) {
    !NeedsGrouping(s) && s.setOp.None?
  }

  lemma SelectRows(s: Select, w: World)
    requires Ungrouped(s)
    ensures
      var inner := EvalWiths(s.withs, w);
      EvalSelect(s, w).rows
      == Finish(s, ProjectAll(s.items, Filter(FromRows(s.from, inner), s.where, inner), inner), inner)
  {
  }

  lemma SelectCols(s: Select, w: World)
    requires Ungrouped(s)
    ensures EvalSelect(s, w).cols == OutCols(s.items, FromRows(s.from, EvalWiths(s.withs, w)).shape)
  {
  }

  lemma {:induction false} BindKeepsFunctions(ws: seq<WithClause>, v: World, w: World)
    ensures SameFunctions(w, BindAll(ws, v, w)) && SameFunctions(w, Unset(ws, w))
    decreases |ws|
  {
    if ws != [] {
      BindKeepsFunctions(ws[..|ws| - 1], v, w);
    }
  }

  lemma WithsKeepFunctions(ws: seq<WithClause>, w: World)
    ensures SameFunctions(w, EvalWiths(ws, w))
  {
    BindKeepsFunctions(ws, if ws == [] then w else WithRounds(ws, w, |ws| - 1), w);
  }
}
