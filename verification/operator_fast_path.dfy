/**
 The operators against the functions SQLite would otherwise call (internal/function.go:28-73 and 277-327,
 internal/function_bind.go): whenever a bound function returns a value, the operator returns the same.
 */
module OperatorFastPath {
  import opened Wrappers
  import opened SqlAst
  import opened SqlSemantics
  import opened Scans
  import opened Operators
  import opened ExpressionMeaning
  import opened ScanMeaning

  /** A value as the runtime functions see it; nil is `None`. */
  datatype Datum = IntDatum(n: int) | BoolDatum(b: bool)

  type Nullable = Option<Datum>

  /** How a runtime value is stored: SQLite has no booleans. */
  function Encode(v: Nullable): Value {
    match v
    case None => Null
    case Some(IntDatum(n)) => Int(n)
    case Some(BoolDatum(b)) => Int(if b then 1 else 0)
  }

  predicate Stored(v: Value) {
    v.Null? || v.Int?
  }

  /** How a stored number reaches a function. */
  function Decode(v: Value): (r: Nullable)
    requires Stored(v)
    ensures Encode(r) == v
  {
    if v.Null? then None else Some(IntDatum(v.n))
  }

  // ----- the functions it replaces -----

  function ToInt(v: Datum): int {
    match v
    case IntDatum(n) => n
    case BoolDatum(b) => if b then 1 else 0
  }

  function ToBool(v: Datum): Result<bool> {
    match v
    case BoolDatum(b) => Ok(b)
    case IntDatum(n) => if n == 0 then Ok(false) else if n == 1 then Ok(true) else Err("failed to convert to bool type")
  }

  predicate HasNull(args: seq<Nullable>) {
    exists i :: 0 <= i < |args| && args[i].None?
  }

  /** Whether the value that decides the outcome occurs before one that is not a boolean. */
  function Decided(stop: bool, args: seq<Nullable>): Result<bool> {
    if args == [] then Ok(false)
    else if args[0].None? then Decided(stop, args[1..])
    else
      match ToBool(args[0].value)
      case Err(e) => Err(e)
      case Ok(b) => if b == stop then Ok(true) else Decided(stop, args[1..])
  }

  /** AND is decided by a false argument, OR by a true one; otherwise a NULL makes it NULL. */
  function Junction(stop: bool, args: seq<Nullable>): Result<Nullable> {
    match Decided(stop, args)
    case Err(e) => Err(e)
    case Ok(true) => Ok(Some(BoolDatum(stop)))
    case Ok(false) => Ok(if HasNull(args) then None else Some(BoolDatum(!stop)))
  }

  method ExistsNull(args: seq<Nullable>) returns (r: bool)
    ensures r == HasNull(args)
  {
    for i := 0 to |args|
      invariant forall k :: 0 <= k < i ==> args[k].Some?
    {
      if args[i].None? {
        return true;
      }
    }
    return false;
  }

  /** `AND`. */
  method And(args: seq<Nullable>) returns (r: Result<Nullable>)
    ensures r == Junction(false, args)
  {
    assert args[0..] == args;
    for i := 0 to |args|
      invariant Decided(false, args) == Decided(false, args[i..])
    {
      assert args[i..][1..] == args[i + 1..];
      if args[i].Some? {
        var cond := ToBool(args[i].value);
        if cond.Err? {
          return Err(cond.error);
        }
        if !cond.value {
          return Ok(Some(BoolDatum(false)));
        }
      }
    }
    var anyNull := ExistsNull(args);
    return Ok(if anyNull then None else Some(BoolDatum(true)));
  }

  /** `OR`. */
  method Or(args: seq<Nullable>) returns (r: Result<Nullable>)
    ensures r == Junction(true, args)
  {
    assert args[0..] == args;
    for i := 0 to |args|
      invariant Decided(true, args) == Decided(true, args[i..])
    {
      assert args[i..][1..] == args[i + 1..];
      if args[i].Some? {
        var cond := ToBool(args[i].value);
        if cond.Err? {
          return Err(cond.error);
        }
        if cond.value {
          return Ok(Some(BoolDatum(true)));
        }
      }
    }
    var anyNull := ExistsNull(args);
    return Ok(if anyNull then None else Some(BoolDatum(false)));
  }

  /** `a.EQ(b)` and its siblings: an integer compares numerically, a boolean only for equality. */
  function Compare(op: string, a: Datum, b: Datum): Result<bool> {
    match a
    case IntDatum(n) => Ok(CompareInts(op, n, ToInt(b)))
    case BoolDatum(x) =>
      if op != "=" && op != "!=" then Err("operation is unsupported for bool")
      else
        match ToBool(b)
        case Err(e) => Err("failed to convert to bool")
        case Ok(y) => Ok(if op == "=" then x == y else x != y)
  }

  /** The bound function of the given name. */
  function Bound(name: string, args: seq<Nullable>): Result<Nullable>
    requires name in OPERATORS && name != IN && ArityFits(name, |args|)
  {
    if name == AND then Junction(false, args)
    else if name == OR then Junction(true, args)
    else if HasNull(args) then Ok(None)
    else if name == NOT then Ok(Some(BoolDatum(ToInt(args[0].value) == 0)))
    else
      match Compare(OPERATORS[name], args[0].value, args[1].value)
      case Err(e) => Err(e)
      case Ok(b) => Ok(Some(BoolDatum(b)))
  }

  // ----- one call -----

  predicate Occurs(t: Truth, vs: seq<Value>, w: World) {
    exists i :: 0 <= i < |vs| && TruthOf(vs[i], w) == t
  }

  /** Three-valued conjunction of many: false if any is, else unknown if any is. */
  lemma {:induction false} FoldAnd(vs: seq<Value>, w: World)
    requires vs != []
    ensures TruthOf(Fold("AND", vs, w), w)
         == if Occurs(False, vs, w) then False else if Occurs(Unknown, vs, w) then Unknown else True
    ensures |vs| >= 2 ==> Fold("AND", vs, w) == FromTruth(TruthOf(Fold("AND", vs, w), w))
  {
    var n := |vs| - 1;
    if n > 0 {
      FoldAnd(vs[..n], w);
      OccursSnoc(False, vs, w);
      OccursSnoc(Unknown, vs, w);
    }
  }

  lemma {:induction false} FoldOr(vs: seq<Value>, w: World)
    requires vs != []
    ensures TruthOf(Fold("OR", vs, w), w)
         == if Occurs(True, vs, w) then True else if Occurs(Unknown, vs, w) then Unknown else False
    ensures |vs| >= 2 ==> Fold("OR", vs, w) == FromTruth(TruthOf(Fold("OR", vs, w), w))
  {
    var n := |vs| - 1;
    if n > 0 {
      FoldOr(vs[..n], w);
      OccursSnoc(True, vs, w);
      OccursSnoc(Unknown, vs, w);
    }
  }

  lemma OccursSnoc(t: Truth, vs: seq<Value>, w: World)
    requires vs != []
    ensures Occurs(t, vs, w) <==> Occurs(t, vs[..|vs| - 1], w) || TruthOf(vs[|vs| - 1], w) == t
  {
    if Occurs(t, vs[..|vs| - 1], w) {
      var i :| 0 <= i < |vs| - 1 && TruthOf(vs[..|vs| - 1][i], w) == t;
      assert TruthOf(vs[i], w) == t;
    }
    if Occurs(t, vs, w) && TruthOf(vs[|vs| - 1], w) != t {
      var i :| 0 <= i < |vs| && TruthOf(vs[i], w) == t;
      assert TruthOf(vs[..|vs| - 1][i], w) == t;
    }
  }

  function EncodeAll(args: seq<Nullable>): (vs: seq<Value>)
    ensures |vs| == |args| && forall i :: 0 <= i < |vs| ==> vs[i] == Encode(args[i])
  {
    seq(|args|, i requires 0 <= i < |args| => Encode(args[i]))
  }

  function TruthIs(b: bool): Truth {
    if b then True else False
  }

  /** A deciding argument is one whose truth value is the deciding one. */
  lemma {:induction false} DecidedOccurs(stop: bool, args: seq<Nullable>, w: World)
    requires Decided(stop, args).Ok?
    ensures Decided(stop, args).value <==> Occurs(TruthIs(stop), EncodeAll(args), w)
  {
    if args != [] {
      var vs := EncodeAll(args);
      assert EncodeAll(args[1..]) == vs[1..];
      if args[0].None? || ToBool(args[0].value) != Ok(stop) {
        DecidedOccurs(stop, args[1..], w);
        assert forall i :: 0 < i < |vs| ==> vs[i] == vs[1..][i - 1];
      } else {
        assert TruthOf(vs[0], w) == TruthIs(stop);
      }
    }
  }

  lemma NullOccurs(args: seq<Nullable>, w: World)
    ensures HasNull(args) <==> Occurs(Unknown, EncodeAll(args), w)
  {
    if HasNull(args) {
      var i :| 0 <= i < |args| && args[i].None?;
      assert TruthOf(EncodeAll(args)[i], w) == Unknown;
    }
  }

  lemma JunctionIsFold(stop: bool, args: seq<Nullable>, w: World)
    requires Junction(stop, args).Ok? && |args| >= 2
    ensures Fold(if stop then "OR" else "AND", EncodeAll(args), w) == Encode(Junction(stop, args).value)
  {
    DecidedOccurs(stop, args, w);
    NullOccurs(args, w);
    FoldAnd(EncodeAll(args), w);
    FoldOr(EncodeAll(args), w);
  }

  /** One call: whenever the bound function returns a value, the operator returns it. */
  lemma CallRefines(name: string, args: seq<Nullable>, w: World)
    requires name in OPERATORS && name != IN && ArityFits(name, |args|) && Bound(name, args).Ok?
    ensures OperatorValue(name, EncodeAll(args), w) == Encode(Bound(name, args).value)
  {
    if name == AND || name == OR {
      JunctionIsFold(name == OR, args, w);
    } else if name == NOT {
      assert EncodeAll(args)[0] == Encode(args[0]);
    } else {
      ComparisonRefines(name, args, w);
    }
  }

  lemma ComparisonRefines(name: string, args: seq<Nullable>, w: World)
    requires name in OPERATORS && name !in {AND, OR, NOT, IN} && |args| == 2 && Bound(name, args).Ok?
    ensures EvalBinary(OPERATORS[name], Encode(args[0]), Encode(args[1]), w) == Encode(Bound(name, args).value)
  {
    assert IsComparison(OPERATORS[name]);
  }

  // ----- worlds -----

  /** The world's functions of these names are the bound functions: they return what those return. */
  ghost predicate ImplementsBound(w: World) {
    forall name: string, args: seq<Nullable> ::
      name in OPERATORS && name != IN && ArityFits(name, |args|) && Bound(name, args).Ok? ==>
        w.call(name, EncodeAll(args)) == Encode(Bound(name, args).value)
  }

  /** The same world, with the operators' values wherever a call is accepted for the fast path. */
  function WithOperators(w: World): World {
    w.(call := (fn: string, vs: seq<Value>) =>
      if fn in OPERATORS && ArityFits(fn, |vs|) then OperatorValue(fn, vs, w) else w.call(fn, vs))
  }

  lemma OperatorValueUnchanged(name: string, vs: seq<Value>, w: World)
    requires name in OPERATORS && ArityFits(name, |vs|)
    ensures OperatorValue(name, vs, WithOperators(w)) == OperatorValue(name, vs, w)
  {
    if name == AND || name == OR {
      FoldUnchanged(OPERATORS[name], vs, w);
    }
  }

  lemma {:induction false} FoldUnchanged(op: string, vs: seq<Value>, w: World)
    requires vs != [] && (op == "AND" || op == "OR")
    ensures Fold(op, vs, WithOperators(w)) == Fold(op, vs, w)
  {
    if |vs| > 1 {
      FoldUnchanged(op, vs[..|vs| - 1], w);
    }
  }

  /**
   A world of bound functions is one whose functions agree with the operators, but for the calls on which a bound
   function fails or to which it is not applied: nothing that returns a value changes.
   */
  lemma BoundWorldAgrees(w: World)
    requires ImplementsBound(w)
    ensures OperatorsAgree(WithOperators(w)) && ImplementsBound(WithOperators(w))
    ensures WithOperators(w) == w.(call := WithOperators(w).call)
    ensures forall name, args: seq<Nullable> ::
      name in OPERATORS && name != IN && ArityFits(name, |args|) && Bound(name, args).Ok? ==>
        WithOperators(w).call(name, EncodeAll(args)) == w.call(name, EncodeAll(args))
    ensures forall fn, vs :: fn !in OPERATORS ==> WithOperators(w).call(fn, vs) == w.call(fn, vs)
  {
    forall name: string, vs: seq<Value> | name in OPERATORS && ArityFits(name, |vs|)
      ensures WithOperators(w).call(name, vs) == OperatorValue(name, vs, WithOperators(w))
    {
      OperatorValueUnchanged(name, vs, w);
    }
    forall name: string, args: seq<Nullable>
      | name in OPERATORS && name != IN && ArityFits(name, |args|) && Bound(name, args).Ok?
      ensures WithOperators(w).call(name, EncodeAll(args)) == Encode(Bound(name, args).value)
    {
      CallRefines(name, args, w);
    }
  }

  // ----- whole trees -----

  /** Trees of AND, OR, NOT and comparisons over integers and booleans. */
  predicate Numeric(e: ScanExpr) {
    match e
    case Constant(v, ty) => v.Int? && (ty == IntType || (ty == BoolType && (v.n == 0 || v.n == 1)))
    case ColumnRef(_, ty) => ty == IntType || ty == BoolType
    case Call(name, args) =>
      name in OPERATORS && name != IN && ArityFits(name, |args|) && forall i :: 0 <= i < |args| ==> Numeric(args[i])
    case _ => false
  }

  /** The row holds a number or NULL in every column that the tree reads. */
  predicate RowNumeric(e: ScanExpr, row: IdRow) {
    match e
    case ColumnRef(id, _) => Stored(Get(row, id))
    case Call(_, args) => forall i :: 0 <= i < |args| ==> RowNumeric(args[i], row)
    case _ => true
  }

  /** The values of the arguments as SQLite hands them on, or the first error. */
  function RunAll(args: seq<ScanExpr>, row: IdRow): (r: Result<seq<Nullable>>)
    requires forall i :: 0 <= i < |args| ==> Numeric(args[i]) && RowNumeric(args[i], row)
    ensures r.Ok? ==> |r.value| == |args|
  {
    if args == [] then Ok([])
    else
      var n := |args| - 1;
      match (RunAll(args[..n], row), Run(args[n], row))
      case (Ok(vs), Ok(v)) => Ok(vs + [Decode(Encode(v))])
      case (Err(e), _) => Err(e)
      case (_, Err(e)) => Err(e)
  }

  /** The tree as nested calls of the bound functions. */
  function Run(e: ScanExpr, row: IdRow): Result<Nullable>
    requires Numeric(e) && RowNumeric(e, row)
  {
    match e
    case Constant(v, ty) => Ok(Some(if ty == BoolType then BoolDatum(v.n == 1) else IntDatum(v.n)))
    case ColumnRef(id, _) => Ok(Decode(Get(row, id)))
    case Call(name, args) =>
      match RunAll(args, row)
      case Err(e) => Err(e)
      case Ok(vs) => Bound(name, vs)
  }

  lemma {:induction false} NumericIsPrimitive(e: ScanExpr)
    requires Numeric(e)
    ensures IsPrimitive(e)
    ensures e.Call? ==> CanOptimize(e.fn, e.args) && WellCalled(e)
  {
    if e.Call? {
      forall i | 0 <= i < |e.args|
        ensures IsPrimitive(e.args[i]) && WellCalled(e.args[i])
      {
        NumericIsPrimitive(e.args[i]);
      }
    }
  }

  lemma {:induction false} RunAllAt(args: seq<ScanExpr>, row: IdRow, i: nat)
    requires forall k :: 0 <= k < |args| ==> Numeric(args[k]) && RowNumeric(args[k], row)
    requires RunAll(args, row).Ok? && i < |args|
    ensures Run(args[i], row).Ok? && RunAll(args, row).value[i] == Decode(Encode(Run(args[i], row).value))
  {
    var n := |args| - 1;
    if i < n {
      RunAllAt(args[..n], row, i);
    }
  }

  /** A tree is emitted as operators only. */
  lemma NumericToSql(e: ScanExpr, names: Names)
    requires e.Call? && Numeric(e)
    ensures ToSql(e, names)
         == OperatorOf(e.fn, seq(|e.args|, i requires 0 <= i < |e.args| => ToSql(e.args[i], names)))
  {
    NumericIsPrimitive(e);
  }

  /**
   Whenever the calls return a value, the SQL that is emitted for them returns it, on every row in which the
   tree's own columns can be read: NULLs and short cuts included, and whatever the world's functions do.
   */
  lemma {:induction false} FastPathRefines(
    e: ScanExpr, cols: seq<Col>, names: Names, shape: seq<Slot>, t: Tuple, row: IdRow, w: World)
    requires Reads(e, cols) && Named(cols, names) && Readable(shape, t, cols, row)
    requires Numeric(e) && RowNumeric(e, row) && Run(e, row).Ok?
    ensures Eval(ToSql(e, names), shape, t, w) == Encode(Run(e, row).value)
    decreases e
  {
    match e
    case Constant(_, _) =>
    case ColumnRef(id, _) =>
      var c :| c in cols && c.id == id;
      assert NameOf(names, id) == Alias(c);
    case Call(fn, args) =>
      var xs := seq(|args|, i requires 0 <= i < |args| => ToSql(args[i], names));
      var vs := RunAll(args, row).value;
      forall i | 0 <= i < |args|
        ensures Eval(xs[i], shape, t, w) == EncodeAll(vs)[i]
      {
        RunAllAt(args, row, i);
        FastPathRefines(args[i], cols, names, shape, t, row, w);
      }
      NumericToSql(e, names);
      OperatorComputes(fn, xs, EncodeAll(vs), shape, t, w);
      CallRefines(fn, vs, w);
  }

  /** In a world of bound functions, the scan's own meaning of the tree is what the calls return. */
  lemma {:induction false} CallsMean(e: ScanExpr, row: IdRow, w: World)
    requires Numeric(e) && RowNumeric(e, row) && Run(e, row).Ok? && ImplementsBound(w)
    ensures ExprValue(e, row, w) == Encode(Run(e, row).value)
    decreases e
  {
    if e.Call? {
      var vs := RunAll(e.args, row).value;
      forall i | 0 <= i < |e.args|
        ensures ExprValue(e.args[i], row, w) == EncodeAll(vs)[i]
      {
        RunAllAt(e.args, row, i);
        CallsMean(e.args[i], row, w);
      }
      assert seq(|e.args|, i requires 0 <= i < |e.args| => ExprValue(e.args[i], row, w)) == EncodeAll(vs);
    }
  }

  // ----- typed trees -----

  /** Booleans under AND, OR and NOT; both sides of a comparison of one type, ordered only if integers. */
  predicate Typed(e: ScanExpr, boolean: bool)
    requires Numeric(e)
  {
    match e
    case Constant(_, ty) => (ty == BoolType) == boolean
    case ColumnRef(_, ty) => (ty == BoolType) == boolean
    case Call(name, args) =>
      && boolean
      && if name in {AND, OR, NOT} then forall i :: 0 <= i < |args| ==> Typed(args[i], true)
         else (Typed(args[0], false) && Typed(args[1], false))
              || (OPERATORS[name] in {"=", "!="} && Typed(args[0], true) && Typed(args[1], true))
  }

  predicate Holds01(v: Nullable) {
    v.Some? ==> ToInt(v.value) in {0, 1}
  }

  /** Boolean columns of the tree hold 0, 1 or NULL. */
  predicate RowTyped(e: ScanExpr, row: IdRow)
    requires RowNumeric(e, row)
  {
    match e
    case ColumnRef(id, BoolType) => Holds01(Decode(Get(row, id)))
    case Call(_, args) => forall i :: 0 <= i < |args| ==> RowTyped(args[i], row)
    case _ => true
  }

  lemma {:induction false} DecidedOk(stop: bool, args: seq<Nullable>)
    requires forall i :: 0 <= i < |args| ==> Holds01(args[i])
    ensures Decided(stop, args).Ok?
  {
    if args != [] {
      DecidedOk(stop, args[1..]);
    }
  }

  lemma {:induction false} RunAllOk(args: seq<ScanExpr>, row: IdRow)
    requires forall i :: 0 <= i < |args| ==> Numeric(args[i]) && RowNumeric(args[i], row) && Run(args[i], row).Ok?
    ensures RunAll(args, row).Ok?
  {
    if args != [] {
      RunAllOk(args[..|args| - 1], row);
    }
  }

  /** A well-typed tree never makes a bound function fail. */
  lemma {:induction false} TypedRuns(e: ScanExpr, boolean: bool, row: IdRow)
    requires Numeric(e) && Typed(e, boolean) && RowNumeric(e, row) && RowTyped(e, row)
    ensures Run(e, row).Ok? && (boolean ==> Holds01(Run(e, row).value))
    decreases e
  {
    hide Eval, Lookup, EvalBinary;
    if e.Call? {
      forall i | 0 <= i < |e.args|
        ensures Run(e.args[i], row).Ok? && (Typed(e.args[i], true) ==> Holds01(Run(e.args[i], row).value))
      {
        TypedRuns(e.args[i], Typed(e.args[i], true), row);
      }
      RunAllOk(e.args, row);
      var vs := RunAll(e.args, row).value;
      forall i | 0 <= i < |vs|
        ensures Typed(e.args[i], true) ==> Holds01(vs[i])
        ensures vs[i].Some? ==> vs[i].value.IntDatum?
      {
        RunAllAt(e.args, row, i);
      }
      if e.fn == AND || e.fn == OR {
        DecidedOk(e.fn == OR, vs);
      }
    }
  }

  /** So over well-typed trees, emitted SQL and calls agree on every row. */
  lemma TypedFastPathAgrees(
    e: ScanExpr, cols: seq<Col>, names: Names, shape: seq<Slot>, t: Tuple, row: IdRow, w: World)
    requires Reads(e, cols) && Named(cols, names) && Readable(shape, t, cols, row)
    requires Numeric(e) && Typed(e, true) && RowNumeric(e, row) && RowTyped(e, row)
    ensures Run(e, row).Ok? && Eval(ToSql(e, names), shape, t, w) == Encode(Run(e, row).value)
  {
    TypedRuns(e, true, row);
    FastPathRefines(e, cols, names, shape, t, row, w);
  }

  /** In particular, over every row of every statement that is built for a scan. */
  lemma FastPathOverScan(
    e: ScanExpr, q: Select, list: seq<string>, s: Scan, alias: string, names: Names, sig: Signature,
    w: World, ctes: Ctes, v: World, i: nat)
    requires Produces(q, list, s, sig) && InStep(w, ctes, v, sig) && i < |ScanRows(s, w, ctes)|
    requires Reads(e, s.cols) && Named(s.cols, names) && Numeric(e)
    requires RowNumeric(e, ScanRows(s, w, ctes)[i]) && Run(e, ScanRows(s, w, ctes)[i]).Ok?
    ensures i < |EvalSelect(q, v).rows|
    ensures Eval(ToSql(e, names), Relabel(list, alias), EvalSelect(q, v).rows[i], v)
         == Encode(Run(e, ScanRows(s, w, ctes)[i]).value)
  {
    hide Numeric, RowNumeric, Run, Reads, InStep, Means, ScanRows, EvalSelect;
    InWorld(q, list, s, sig, w, ctes, v);
    var row, t := ScanRows(s, w, ctes)[i], EvalSelect(q, v).rows[i];
    ShownIsReadable(list, alias, t, s.cols, row);
    FastPathRefines(e, s.cols, names, Relabel(list, alias), t, row, v);
  }

  lemma IntegerEval(n: int, names: Names, w: World)
    ensures Eval(ToSql(Constant(Int(n), IntType), names), [], [], w) == Int(n)
  {
  }

  /** The operators are defined on more: AND over the integer 2 is an error for the function. */
  lemma OperatorsAreMoreDefined(names: Names, w: World)
    ensures
      var e := Call(AND, [Constant(Int(2), IntType), Constant(Int(1), IntType)]);
      && Numeric(e) && CanOptimize(e.fn, e.args)
      && Run(e, map[]).Err?
      && Eval(ToSql(e, names), [], [], w) == Int(1)
  {
    hide ToSql, Eval, CallMeaning;
    IntegerEval(2, names, w);
    IntegerEval(1, names, w);
    var args := [Constant(Int(2), IntType), Constant(Int(1), IntType)];
    var e := Call(AND, args);
    NumericIsPrimitive(e);
    RunAllOk(args, map[]);
    RunAllAt(args, map[], 0);
    NumericToSql(e, names);
    var xs := seq(2, i requires 0 <= i < 2 => ToSql(args[i], names));
    OperatorComputes(AND, xs, [Int(2), Int(1)], [], [], w);
    assert [Int(2), Int(1)][..1] == [Int(2)];
    assert Fold("AND", [Int(2)], w) == Int(2);
  }
}
