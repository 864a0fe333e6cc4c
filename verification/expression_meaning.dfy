/**
 The SQL form of a scan expression (internal/transformer_function.go, internal/transformer_column_ref.go)
 and the proof that it computes the same value.
 */
module ExpressionMeaning {
  import opened Wrappers
  import opened SqlAst
  import opened SqlSemantics
  import opened Scans
  import opened Operators

  /** The name every reference to an ID must be given. */
  function NameOf(names: Names, id: nat): string {
    if id in names then Alias(Col(id, names[id])) else ""
  }

  /** WHEN clauses from a list of conditions and results; a last odd element is left over. */
  function PairUp(xs: seq<Expr>): Whens {
    if |xs| < 2 then NoWhen else When(xs[0], xs[1], PairUp(xs[2..]))
  }

  function Leftover(xs: seq<Expr>): Option<Expr> {
    if |xs| % 2 == 1 then Some(xs[|xs| - 1]) else None
  }

  function CallToSql(fn: string, args: seq<ScanExpr>, xs: seq<Expr>): Expr
    requires |args| == |xs|
  {
    if fn == IFNULL && |xs| == 2 then
      Case(None, When(Binary(xs[0], "IS", Literal(Null)), xs[1], NoWhen), Some(xs[0]))
    else if fn == IF && |xs| == 3 then
      Case(None, When(xs[0], xs[1], NoWhen), Some(xs[2]))
    else if fn == CASE_NO_VALUE then
      Case(None, PairUp(xs), Leftover(xs))
    else if fn == CASE_WITH_VALUE && |xs| >= 3 then
      Case(Some(xs[0]), PairUp(xs[1..]), Leftover(xs[1..]))
    else if CanOptimize(fn, args) then
      OperatorOf(fn, xs)
    else
      SqlAst.Function(fn, xs)
  }

  /** `createZetaSQLiteCast`. */
  function CastToSql(x: Expr, from: string, to: string, nullOnError: bool): Expr {
    SqlAst.Function(CAST, [x, Literal(Text(from)), Literal(Text(to)), Literal(Int(if nullOnError then 1 else 0))])
  }

  function ToSql(e: ScanExpr, names: Names): Expr {
    match e
    case ColumnRef(id, _) => Column("", NameOf(names, id))
    case Constant(v, _) => Literal(v)
    case Argument(p) => Parameter(p)
    case Cast(arg, from, to, nullOnError) => CastToSql(ToSql(arg, names), from, to, nullOnError)
    case Call(fn, args) => CallToSql(fn, args, seq(|args|, i requires 0 <= i < |args| => ToSql(args[i], names)))
  }

  // ----- references -----

  lemma ResolveUnique(shape: seq<Slot>, p: nat, table: string, name: string)
    requires ResolvesTo(shape, p, table, name)
    ensures Resolve(shape, table, name) == Some(p)
  {
  }

  /** Two shapes that match the same positions resolve alike. */
  lemma ResolveSame(a: seq<Slot>, ta: string, b: seq<Slot>, tb: string, name: string)
    requires forall p: nat :: Matches(a, p, ta, name) <==> Matches(b, p, tb, name)
    ensures Resolve(a, ta, name) == Resolve(b, tb, name)
  {
    assert forall p: nat :: ResolvesTo(a, p, ta, name) <==> ResolvesTo(b, p, tb, name);
    if p: nat :| ResolvesTo(a, p, ta, name) {
      ResolveUnique(a, p, ta, name);
      ResolveUnique(b, p, tb, name);
    }
  }

  // ----- values -----

  /** The SQL world is the scan's world, except for the tables. */
  ghost predicate SameFunctions(w: World, v: World) {
    v == w.(tables := v.tables)
  }

  /** ... and its functions that become operators return what the operators do. */
  ghost predicate SameOperators(w: World, v: World) {
    SameFunctions(w, v) && OperatorsAgree(w)
  }

  ghost predicate AllEval(xs: seq<Expr>, vals: seq<Value>, shape: seq<Slot>, t: Tuple, v: World) {
    |xs| == |vals| && forall i :: 0 <= i < |xs| ==> Eval(xs[i], shape, t, v) == vals[i]
  }

  ghost function CaseValue(subject: Option<Value>, xs: seq<Expr>, shape: seq<Slot>, t: Tuple, v: World): Value {
    var hit := EvalWhens(subject, PairUp(xs), shape, t, v);
    if hit.Some? then hit.value
    else if Leftover(xs).Some? then Eval(Leftover(xs).value, shape, t, v)
    else Null
  }

  lemma {:induction false} FirstTrueAgrees(
    xs: seq<Expr>, vals: seq<Value>, shape: seq<Slot>, t: Tuple, w: World, v: World)
    requires AllEval(xs, vals, shape, t, v) && SameFunctions(w, v)
    ensures CaseValue(None, xs, shape, t, v) == FirstTrue(vals, w)
  {
    if |xs| >= 2 {
      FirstTrueAgrees(xs[2..], vals[2..], shape, t, w, v);
      assert Leftover(xs) == Leftover(xs[2..]);
    }
  }

  lemma {:induction false} FirstEqualAgrees(
    subject: Value, xs: seq<Expr>, vals: seq<Value>, shape: seq<Slot>, t: Tuple, w: World, v: World)
    requires AllEval(xs, vals, shape, t, v) && SameFunctions(w, v)
    ensures CaseValue(Some(subject), xs, shape, t, v) == FirstEqual(subject, vals, w)
  {
    if |xs| >= 2 {
      FirstEqualAgrees(subject, xs[2..], vals[2..], shape, t, w, v);
      assert Leftover(xs) == Leftover(xs[2..]);
    }
  }

  lemma CallAgrees(
    fn: string, args: seq<ScanExpr>, xs: seq<Expr>, vals: seq<Value>, shape: seq<Slot>, t: Tuple, w: World, v: World)
    requires |args| == |xs| && AllEval(xs, vals, shape, t, v) && SameOperators(w, v)
    ensures Eval(CallToSql(fn, args, xs), shape, t, v) == CallMeaning(fn, vals, w)
  {
    if fn == CASE_NO_VALUE {
      FirstTrueAgrees(xs, vals, shape, t, w, v);
    } else if fn == CASE_WITH_VALUE && |xs| >= 3 {
      FirstEqualAgrees(vals[0], xs[1..], vals[1..], shape, t, w, v);
    } else if (fn == IF && |xs| == 3) || (fn == IFNULL && |xs| == 2) {
      var cond := if fn == IF then xs[0] else Binary(xs[0], "IS", Literal(Null));
      var els := if fn == IF then xs[2] else xs[0];
      OneWhen(cond, xs[1], els, shape, t, v);
      assert CallToSql(fn, args, xs) == Case(None, When(cond, xs[1], NoWhen), Some(els));
    } else if CanOptimize(fn, args) {
      OperatorAgrees(fn, xs, vals, shape, t, w, v);
    } else {
      assert seq(|xs|, i requires 0 <= i < |xs| => Eval(xs[i], shape, t, v)) == vals;
    }
  }

  lemma OperatorAgrees(fn: string, xs: seq<Expr>, vals: seq<Value>, shape: seq<Slot>, t: Tuple, w: World, v: World)
    requires fn in OPERATORS && ArityFits(fn, |xs|) && AllEval(xs, vals, shape, t, v) && SameOperators(w, v)
    ensures Eval(OperatorOf(fn, xs), shape, t, v) == w.call(fn, vals)
  {
    OperatorComputes(fn, xs, vals, shape, t, v);
    ValueFrame(fn, vals, w, v);
    assert w.call(fn, vals) == OperatorValue(fn, vals, w);
  }

  lemma CastAgrees(
    x: Expr, from: string, to: string, nullOnError: bool, val: Value, shape: seq<Slot>, t: Tuple, w: World, v: World)
    requires Eval(x, shape, t, v) == val && SameFunctions(w, v)
    ensures Eval(CastToSql(x, from, to, nullOnError), shape, t, v)
         == w.call(CAST, [val, Text(from), Text(to), Int(if nullOnError then 1 else 0)])
  {
    var xs := [x, Literal(Text(from)), Literal(Text(to)), Literal(Int(if nullOnError then 1 else 0))];
    var vals := [val, Text(from), Text(to), Int(if nullOnError then 1 else 0)];
    assert seq(|xs|, i requires 0 <= i < |xs| => Eval(xs[i], shape, t, v)) == vals;
  }

  lemma OneWhen(cond: Expr, result: Expr, els: Expr, shape: seq<Slot>, t: Tuple, v: World)
    ensures Eval(Case(None, When(cond, result, NoWhen), Some(els)), shape, t, v)
         == if TruthOf(Eval(cond, shape, t, v), v) == True then Eval(result, shape, t, v) else Eval(els, shape, t, v)
  {
    assert EvalWhens(None, NoWhen, shape, t, v) == None;
  }

  /** The tuple holds, under each column's own name, the value the row gives that column. */
  ghost predicate Readable(shape: seq<Slot>, t: Tuple, cols: seq<Col>, row: IdRow) {
    forall c :: c in cols ==> Lookup(shape, t, "", Alias(c)) == Get(row, c.id)
  }

  /** A compiled expression computes the scan expression's value, whatever the functions do. */
  lemma {:induction false} ExpressionAgrees(
    e: ScanExpr, cols: seq<Col>, names: Names, shape: seq<Slot>, t: Tuple, row: IdRow, w: World, v: World)
    requires Reads(e, cols) && Named(cols, names) && SameOperators(w, v)
    requires Readable(shape, t, cols, row)
    ensures Eval(ToSql(e, names), shape, t, v) == ExprValue(e, row, w)
  {
    match e
    case ColumnRef(id, _) =>
      var c :| c in cols && c.id == id;
      assert NameOf(names, id) == Alias(c);
    case Constant(_, _) =>
    case Argument(_) =>
    case Cast(arg, from, to, nullOnError) =>
      ExpressionAgrees(arg, cols, names, shape, t, row, w, v);
      CastAgrees(ToSql(arg, names), from, to, nullOnError, ExprValue(arg, row, w), shape, t, w, v);
    case Call(fn, args) =>
      var xs := seq(|args|, i requires 0 <= i < |args| => ToSql(args[i], names));
      var vals := seq(|args|, i requires 0 <= i < |args| => ExprValue(args[i], row, w));
      forall i | 0 <= i < |args|
        ensures Eval(xs[i], shape, t, v) == vals[i]
      {
        ExpressionAgrees(args[i], cols, names, shape, t, row, w, v);
      }
      CallAgrees(fn, args, xs, vals, shape, t, w, v);
  }
}
