/**
 Compiled expressions are what substitution can see through (internal/transformer_function.go,
 internal/sqlbuilder_flatten.go:350-479): nothing opaque inside, and every reference an unqualified ID-based name.
 */
module CompiledExpressions {
  import opened Wrappers
  import opened SqlAst
  import opened Scans
  import opened Operators
  import opened ExpressionMeaning
  import opened Substitution

  /** Nothing opaque inside, and only the given names read, unqualified. */
  ghost predicate Transparent(e: Expr, names: set<string>) {
    Plain(e) && forall r :: r in Refs(e) ==> r.0 == "" && r.1 in names
  }

  ghost predicate AllTransparent(xs: seq<Expr>, names: set<string>) {
    forall i :: 0 <= i < |xs| ==> Transparent(xs[i], names)
  }

  ghost predicate OptionTransparent(e: Option<Expr>, names: set<string>) {
    e.Some? ==> Transparent(e.value, names)
  }

  ghost predicate WhensTransparent(whens: Whens, names: set<string>) {
    PlainWhens(whens) && forall r :: r in RefsWhens(whens) ==> r.0 == "" && r.1 in names
  }

  lemma {:induction false} PairUpTransparent(xs: seq<Expr>, names: set<string>)
    requires AllTransparent(xs, names)
    ensures WhensTransparent(PairUp(xs), names)
  {
    if |xs| >= 2 {
      PairUpTransparent(xs[2..], names);
    }
  }

  lemma CaseTransparent(operand: Option<Expr>, whens: Whens, els: Option<Expr>, names: set<string>)
    requires OptionTransparent(operand, names) && WhensTransparent(whens, names) && OptionTransparent(els, names)
    ensures Transparent(Case(operand, whens, els), names)
  {
  }

  lemma OneWhenTransparent(cond: Expr, result: Expr, els: Expr, names: set<string>)
    requires Transparent(cond, names) && Transparent(result, names) && Transparent(els, names)
    ensures Transparent(Case(None, When(cond, result, NoWhen), Some(els)), names)
  {
    assert WhensTransparent(NoWhen, names);
    CaseTransparent(None, When(cond, result, NoWhen), Some(els), names);
  }

  lemma {:induction false} ChainTransparent(op: string, xs: seq<Expr>, names: set<string>)
    requires xs != [] && AllTransparent(xs, names)
    ensures Transparent(OperatorChain(op, xs), names)
  {
    if |xs| > 1 {
      ChainTransparent(op, xs[..|xs| - 1], names);
    }
  }

  lemma OperatorTransparent(fn: string, xs: seq<Expr>, names: set<string>)
    requires fn in OPERATORS && ArityFits(fn, |xs|) && AllTransparent(xs, names)
    ensures Transparent(OperatorOf(fn, xs), names)
  {
    if fn == AND || fn == OR {
      ChainTransparent(OPERATORS[fn], xs, names);
    } else if fn == IN {
      assert Transparent(List(xs[1..]), names);
    }
  }

  lemma CallTransparent(fn: string, args: seq<ScanExpr>, xs: seq<Expr>, names: set<string>)
    requires |args| == |xs| && AllTransparent(xs, names)
    ensures Transparent(CallToSql(fn, args, xs), names)
  {
    if fn == IFNULL && |xs| == 2 {
      OneWhenTransparent(Binary(xs[0], "IS", Literal(Null)), xs[1], xs[0], names);
    } else if fn == IF && |xs| == 3 {
      OneWhenTransparent(xs[0], xs[1], xs[2], names);
    } else if fn == CASE_NO_VALUE {
      PairUpTransparent(xs, names);
      CaseTransparent(None, PairUp(xs), Leftover(xs), names);
    } else if fn == CASE_WITH_VALUE && |xs| >= 3 {
      PairUpTransparent(xs[1..], names);
      CaseTransparent(Some(xs[0]), PairUp(xs[1..]), Leftover(xs[1..]), names);
    } else if CanOptimize(fn, args) {
      OperatorTransparent(fn, xs, names);
    }
  }

  /** The ID-based names of columns, as a set. */
  function AliasSet(cols: seq<Col>): set<string> {
    set c | c in cols :: Alias(c)
  }

  lemma {:induction false} ToSqlTransparent(e: ScanExpr, cols: seq<Col>, names: Names)
    requires Reads(e, cols) && Named(cols, names)
    ensures Transparent(ToSql(e, names), AliasSet(cols))
    decreases e
  {
    match e
    case ColumnRef(id, _) =>
      var c :| c in cols && c.id == id;
      assert NameOf(names, id) == Alias(c);
    case Constant(_, _) =>
    case Argument(_) =>
    case Cast(arg, _, _, _) => ToSqlTransparent(arg, cols, names);
    case Call(fn, args) =>
      var xs := seq(|args|, i requires 0 <= i < |args| => ToSql(args[i], names));
      forall i | 0 <= i < |args|
        ensures Transparent(xs[i], AliasSet(cols))
      {
        ToSqlTransparent(args[i], cols, names);
      }
      CallTransparent(fn, args, xs, AliasSet(cols));
  }
}
