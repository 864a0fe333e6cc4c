/**
 Functions that become SQL operators (internal/transformer_function.go:234-353): which calls are accepted, the
 operator tree that is built, and what it computes.
 */
module Operators {
  import opened Wrappers
  import opened SqlAst
  import opened SqlSemantics
  import opened Scans

  const AND := "zetasqlite_and"
  const OR := "zetasqlite_or"
  const NOT := "zetasqlite_not"
  const IN := "zetasqlite_in"

  const OPERATORS: map<string, string> := map[
    "zetasqlite_equal" := "=", "zetasqlite_not_equal" := "!=", "zetasqlite_less" := "<", "zetasqlite_greater" := ">",
    "zetasqlite_less_or_equal" := "<=", "zetasqlite_greater_or_equal" := ">=", "zetasqlite_in" := "IN",
    "zetasqlite_and" := "AND", "zetasqlite_or" := "OR", "zetasqlite_not" := "NOT"]

  predicate ArityFits(name: string, n: nat) {
    if name == NOT then n == 1 else if name == AND || name == OR then n >= 2 else n == 2
  }

  /** `canOptimizeFunction`. */
  predicate CanOptimize(name: string, args: seq<ScanExpr>)
    decreases args
  {
    name in OPERATORS && ArityFits(name, |args|) && forall i :: 0 <= i < |args| ==> IsPrimitive(args[i])
  }

  /** `isPrimitiveSQLiteType`. */
  predicate IsPrimitive(e: ScanExpr)
    decreases e
  {
    match e
    case Constant(v, ty) => v != Null && ty != OtherType
    case ColumnRef(_, ty) => ty != OtherType
    case Call(name, args) => CanOptimize(name, args)
    case _ => false
  }

  // ----- the SQL it becomes -----

  function OperatorChain(op: string, xs: seq<Expr>): Expr
    requires xs != []
  {
    var n := |xs| - 1;
    if n == 0 then xs[0] else Binary(OperatorChain(op, xs[..n]), op, xs[n])
  }

  function OperatorOf(name: string, xs: seq<Expr>): Expr
    requires name in OPERATORS && ArityFits(name, |xs|)
  {
    if name == AND || name == OR then OperatorChain(OPERATORS[name], xs)
    else if name == NOT then Unary("NOT", xs[0])
    else if name == IN then Binary(xs[0], "IN", List(xs[1..]))
    else Binary(xs[0], OPERATORS[name], xs[1])
  }

  /** `optimizeFunctionToSQL`; IN without operands is never passed to it. */
  method OptimizeFunctionToSQL(name: string, xs: seq<Expr>) returns (r: Result<Expr>)
    requires name == IN ==> xs != []
    ensures name == IN ==> r == Ok(Binary(xs[0], "IN", List(xs[1..])))
    ensures name != IN ==> (r.Ok? <==> name in OPERATORS && ArityFits(name, |xs|))
    ensures name in OPERATORS && ArityFits(name, |xs|) ==> r == Ok(OperatorOf(name, xs))
  {
    if name !in OPERATORS {
      return Err("unknown optimizable function");
    }
    var op := OPERATORS[name];
    if name == AND || name == OR {
      if |xs| < 2 {
        return Err("expected at least 2 arguments");
      }
      var result := xs[0];
      for i := 1 to |xs|
        invariant result == OperatorChain(op, xs[..i])
      {
        assert xs[..i + 1][..i] == xs[..i];
        result := Binary(result, op, xs[i]);
      }
      assert xs[..|xs|] == xs;
      return Ok(result);
    } else if name == NOT {
      if |xs| != 1 {
        return Err("expected only 1 argument");
      }
      return Ok(Unary("NOT", xs[0]));
    } else if name == IN {
      return Ok(Binary(xs[0], op, List(xs[1..])));
    } else if |xs| != 2 {
      return Err("expected 2 arguments");
    }
    return Ok(Binary(xs[0], op, xs[1]));
  }

  // ----- what the operators compute -----

  /** What a left-nested chain computes over values. */
  function Fold(op: string, vs: seq<Value>, w: World): Value
    requires vs != []
  {
    var n := |vs| - 1;
    if n == 0 then vs[0] else EvalBinary(op, Fold(op, vs[..n], w), vs[n], w)
  }

  function OperatorValue(name: string, vs: seq<Value>, w: World): Value
    requires name in OPERATORS && ArityFits(name, |vs|)
  {
    if name == AND || name == OR then Fold(OPERATORS[name], vs, w)
    else if name == NOT then EvalUnary("NOT", vs[0], w)
    else if name == IN then EvalBinary("IN", vs[0], w.call("()", vs[1..]), w)
    else EvalBinary(OPERATORS[name], vs[0], vs[1], w)
  }

  /** A world whose functions of these names return what the operators do. */
  ghost predicate OperatorsAgree(w: World) {
    forall name: string, vs: seq<Value> :: name in OPERATORS && ArityFits(name, |vs|) ==>
      w.call(name, vs) == OperatorValue(name, vs, w)
  }

  lemma {:induction false} ChainIsFold(op: string, xs: seq<Expr>, vs: seq<Value>, shape: seq<Slot>, t: Tuple, w: World)
    requires xs != [] && |xs| == |vs| && forall i :: 0 <= i < |xs| ==> Eval(xs[i], shape, t, w) == vs[i]
    ensures Eval(OperatorChain(op, xs), shape, t, w) == Fold(op, vs, w)
  {
    var n := |xs| - 1;
    if n > 0 {
      ChainIsFold(op, xs[..n], vs[..n], shape, t, w);
    }
  }

  /** The operator tree computes the operator's value of its operands' values. */
  lemma OperatorComputes(
    name: string, xs: seq<Expr>, vs: seq<Value>, shape: seq<Slot>, t: Tuple, w: World)
    requires name in OPERATORS && ArityFits(name, |xs|)
    requires |xs| == |vs| && forall i :: 0 <= i < |xs| ==> Eval(xs[i], shape, t, w) == vs[i]
    ensures Eval(OperatorOf(name, xs), shape, t, w) == OperatorValue(name, vs, w)
  {
    if name == AND || name == OR {
      ChainIsFold(OPERATORS[name], xs, vs, shape, t, w);
    } else if name == IN {
      InComputes(xs, vs, shape, t, w);
    }
  }

  lemma InComputes(xs: seq<Expr>, vs: seq<Value>, shape: seq<Slot>, t: Tuple, w: World)
    requires xs != [] && |xs| == |vs| && forall i :: 0 <= i < |xs| ==> Eval(xs[i], shape, t, w) == vs[i]
    ensures Eval(Binary(xs[0], "IN", List(xs[1..])), shape, t, w) == EvalBinary("IN", vs[0], w.call("()", vs[1..]), w)
  {
    var rest := xs[1..];
    assert seq(|rest|, i requires 0 <= i < |rest| => Eval(rest[i], shape, t, w)) == vs[1..];
    assert Eval(List(rest), shape, t, w) == w.call("()", vs[1..]);
  }

  lemma ValueFrame(name: string, vs: seq<Value>, w: World, v: World)
    requires name in OPERATORS && ArityFits(name, |vs|) && v == w.(tables := v.tables)
    ensures OperatorValue(name, vs, v) == OperatorValue(name, vs, w)
  {
    if name == AND || name == OR {
      FoldFrame(OPERATORS[name], vs, w, v);
    }
  }

  lemma {:induction false} FoldFrame(op: string, vs: seq<Value>, w: World, v: World)
    requires vs != [] && v == w.(tables := v.tables)
    ensures Fold(op, vs, v) == Fold(op, vs, w)
  {
    if |vs| > 1 {
      FoldFrame(op, vs[..|vs| - 1], w, v);
    }
  }
}
