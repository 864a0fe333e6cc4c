/** Expression transformers over the shared context (internal/transformer_function.go:35-128). */
module ExpressionTransformer {
  import opened Wrappers
  import opened SqlAst
  import opened Scans
  import opened ExpressionMeaning
  import opened Operators
  import opened TransformContexts

  function AppendWhen(ws: Whens, cond: Expr, result: Expr): Whens {
    match ws
    case NoWhen => When(cond, result, NoWhen)
    case When(c, r, rest) => When(c, r, AppendWhen(rest, cond, result))
  }

  lemma {:induction false} PairUpAppend(xs: seq<Expr>, cond: Expr, result: Expr)
    requires |xs| % 2 == 0
    ensures PairUp(xs + [cond, result]) == AppendWhen(PairUp(xs), cond, result)
  {
    if xs == [] {
      assert xs + [cond, result] == [cond, result];
      assert [cond, result][2..] == [];
    } else {
      PairUpAppend(xs[2..], cond, result);
      assert (xs + [cond, result])[2..] == xs[2..] + [cond, result];
    }
  }

  lemma {:induction false} PairUpOdd(xs: seq<Expr>)
    requires |xs| % 2 == 1
    ensures PairUp(xs[..|xs| - 1]) == PairUp(xs)
  {
    if |xs| > 1 {
      PairUpOdd(xs[2..]);
      assert xs[2..][..|xs| - 3] == xs[..|xs| - 1][2..];
    }
  }

  /** The WHEN clauses of a CASE, two arguments at a time. */
  method BuildWhens(xs: seq<Expr>) returns (whens: Whens)
    ensures whens == PairUp(xs)
  {
    whens := NoWhen;
    var i := 0;
    while i < |xs| - 1
      invariant 0 <= i <= |xs| && i % 2 == 0
      invariant whens == PairUp(xs[..i])
    {
      PairUpAppend(xs[..i], xs[i], xs[i + 1]);
      assert xs[..i] + [xs[i], xs[i + 1]] == xs[..i + 2];
      whens := AppendWhen(whens, xs[i], xs[i + 1]);
      i := i + 2;
    }
    if i < |xs| {
      PairUpOdd(xs);
    } else {
      assert xs[..i] == xs;
    }
  }

  /** Conditionals become CASE, calls over primitive operands operators, and all others stay calls. */
  method TransformCall(fn: string, args: seq<ScanExpr>, xs: seq<Expr>) returns (r: Result<Expr>)
    requires |args| == |xs|
    ensures r.Ok? <==> ArityOk(fn, |xs|)
    ensures r.Ok? ==> r.value == CallToSql(fn, args, xs)
  {
    if fn == IFNULL {
      if |xs| != 2 {
        return Err("zetasqlite_ifnull requires exactly 2 arguments");
      }
      return Ok(Case(None, When(Binary(xs[0], "IS", Literal(Null)), xs[1], NoWhen), Some(xs[0])));
    } else if fn == IF {
      if |xs| != 3 {
        return Err("zetasqlite_if requires exactly 3 arguments");
      }
      return Ok(Case(None, When(xs[0], xs[1], NoWhen), Some(xs[2])));
    } else if fn == CASE_NO_VALUE {
      var whens := BuildWhens(xs);
      return Ok(Case(None, whens, if |xs| % 2 == 1 then Some(xs[|xs| - 1]) else None));
    } else if fn == CASE_WITH_VALUE {
      if |xs| < 3 {
        return Err("zetasqlite_case_with_value requires at least 3 arguments");
      }
      var rest := xs[1..];
      var whens := BuildWhens(rest);
      return Ok(Case(Some(xs[0]), whens, if |rest| % 2 == 1 then Some(rest[|rest| - 1]) else None));
    }
    if CanOptimize(fn, args) {
      r := OptimizeFunctionToSQL(fn, xs);
      return;
    }
    return Ok(SqlAst.Function(fn, xs));
  }

  /** Each reference gets its own ID-based name, and only a miscalled conditional fails. */
  method TransformExpression(e: ScanExpr, ctx: FragmentContext, ghost cols: seq<Col>, ghost names: Names)
    returns (r: Result<Expr>)
    requires Reads(e, cols) && ctx.Knows(cols) && ctx.Resolves(names)
    ensures r.Ok? <==> WellCalled(e)
    ensures r.Ok? ==> r.value == ToSql(e, names)
  {
    match e
    case ColumnRef(id, _) =>
      var name, _ := ctx.GetQualifiedColumnRef(id);
      return Ok(Column("", name));
    case Constant(v, _) =>
      return Ok(Literal(v));
    case Argument(p) =>
      return Ok(Parameter(p));
    case Cast(arg, from, to, nullOnError) =>
      var x := TransformExpression(arg, ctx, cols, names);
      if x.Err? {
        return x;
      }
      return Ok(CastToSql(x.value, from, to, nullOnError));
    case Call(fn, args) =>
      var xs := [];
      for i := 0 to |args|
        invariant |xs| == i
        invariant forall k :: 0 <= k < i ==> WellCalled(args[k]) && xs[k] == ToSql(args[k], names)
      {
        var arg := TransformExpression(args[i], ctx, cols, names);
        if arg.Err? {
          return arg;
        }
        xs := xs + [arg.value];
      }
      assert xs == seq(|args|, i requires 0 <= i < |args| => ToSql(args[i], names));
      r := TransformCall(fn, args, xs);
  }
}
