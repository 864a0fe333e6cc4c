/**
 The substitution lemma behind flattening (internal/sqlbuilder_flatten.go:350-479): replacing every reference
 by a definition that computes what the reference would read leaves an expression's value unchanged, NULLs
 and three-valued logic included, as long as the expression is within the depth the code looks into.
 */
module Substitution {
  import opened Wrappers
  import opened SqlAst
  import opened SqlSemantics
  import opened ExpressionMeaning
  import opened Flattening

  function Max(a: nat, b: nat): nat {
    if a < b then b else a
  }

  // ----- depth -----

  function Height(e: Expr): nat
    decreases e
  {
    match e
    case Function(_, args) => 1 + HeightAll(args)
    case List(items) => 1 + HeightAll(items)
    case Unary(_, arg) => 1 + Height(arg)
    case Binary(left, _, right) => 1 + Max(Height(left), Height(right))
    case Case(operand, whens, els) =>
      1 + Max(HeightWhens(whens), Max(HeightOption(operand), HeightOption(els)))
    case _ => 0
  }

  function HeightOption(e: Option<Expr>): nat
    decreases e
  {
    if e.Some? then Height(e.value) else 0
  }

  function HeightAll(es: seq<Expr>): nat
    decreases es
  {
    if es == [] then 0 else Max(Height(es[0]), HeightAll(es[1..]))
  }

  function HeightWhens(whens: Whens): nat
    decreases whens
  {
    match whens
    case NoWhen => 0
    case When(cond, result, rest) => Max(Max(Height(cond), Height(result)), HeightWhens(rest))
  }

  lemma {:induction false} HeightMember(es: seq<Expr>, i: nat)
    requires i < |es|
    ensures Height(es[i]) <= HeightAll(es)
  {
    if i > 0 {
      HeightMember(es[1..], i - 1);
    }
  }

  lemma {:induction false} HeightAllBound(es: seq<Expr>, h: nat)
    requires forall i :: 0 <= i < |es| ==> Height(es[i]) <= h
    ensures HeightAll(es) <= h
  {
    if es != [] {
      HeightAllBound(es[1..], h);
    }
  }

  // ----- references and simultaneous substitution -----

  /** No star and no subquery inside: what substitution can see through. */
  predicate Plain(e: Expr)
    decreases e
  {
    match e
    case Function(_, args) => forall i :: 0 <= i < |args| ==> Plain(args[i])
    case List(items) => forall i :: 0 <= i < |items| ==> Plain(items[i])
    case Unary(_, arg) => Plain(arg)
    case Binary(left, _, right) => Plain(left) && Plain(right)
    case Case(operand, whens, els) => PlainOption(operand) && PlainWhens(whens) && PlainOption(els)
    case Star(_) => false
    case Nested(_) => false
    case _ => true
  }

  predicate PlainOption(e: Option<Expr>)
    decreases e
  {
    e.Some? ==> Plain(e.value)
  }

  predicate PlainWhens(whens: Whens)
    decreases whens
  {
    whens.When? ==> Plain(whens.cond) && Plain(whens.result) && PlainWhens(whens.rest)
  }

  /** A reference as written: a table alias, or "" when unqualified, and a column name. */
  type Ref = (string, string)

  function Refs(e: Expr): set<Ref>
    decreases e
  {
    match e
    case Column(table, name) => {(table, name)}
    case Function(_, args) => set i, r | 0 <= i < |args| && r in Refs(args[i]) :: r
    case List(items) => set i, r | 0 <= i < |items| && r in Refs(items[i]) :: r
    case Unary(_, arg) => Refs(arg)
    case Binary(left, _, right) => Refs(left) + Refs(right)
    case Case(operand, whens, els) => RefsOption(operand) + RefsWhens(whens) + RefsOption(els)
    case _ => {}
  }

  function RefsOption(e: Option<Expr>): set<Ref>
    decreases e
  {
    if e.Some? then Refs(e.value) else {}
  }

  function RefsWhens(whens: Whens): set<Ref>
    decreases whens
  {
    match whens
    case NoWhen => {}
    case When(cond, result, rest) => Refs(cond) + Refs(result) + RefsWhens(rest)
  }

  function Definition(r: Ref, m: AliasMap, alias: string): Expr {
    if (r.0 == alias || r.0 == "") && r.1 in m then m[r.1] else Column(r.0, r.1)
  }

  /** Each reference's definition computes, on one row, what the reference reads on another. */
  ghost predicate DefinitionsRead(
    refs: set<Ref>, m: AliasMap, alias: string, shape: seq<Slot>, t: Tuple, w: World,
    shape': seq<Slot>, t': Tuple, v: World)
  {
    forall r :: r in refs ==> Eval(Definition(r, m, alias), shape', t', v) == Lookup(shape, t, r.0, r.1)
  }

  lemma {:induction false} SubstitutionKeepsValue(
    e: Expr, m: AliasMap, alias: string, depth: nat, shape: seq<Slot>, t: Tuple, w: World,
    shape': seq<Slot>, t': Tuple, v: World)
    requires depth + Height(e) <= MAX_DEPTH && Plain(e) && SameFunctions(w, v)
    requires DefinitionsRead(Refs(e), m, alias, shape, t, w, shape', t', v)
    ensures Eval(SubstituteAt(e, m, alias, depth), shape', t', v) == Eval(e, shape, t, w)
    decreases e
  {
    match e
    case Column(table, name) =>
      assert (table, name) in Refs(e);
    case Function(_, args) =>
      ArgumentsKeepValue(e, args, m, alias, depth, shape, t, w, shape', t', v);
    case List(items) =>
      ArgumentsKeepValue(e, items, m, alias, depth, shape, t, w, shape', t', v);
    case Unary(op, arg) =>
      SubstitutionKeepsValue(arg, m, alias, depth + 1, shape, t, w, shape', t', v);
    case Binary(_, _, _) =>
      BinaryKeepsValue(e, m, alias, depth, shape, t, w, shape', t', v);
    case Case(_, _, _) =>
      CaseKeepsValue(e, m, alias, depth, shape, t, w, shape', t', v);
    case _ =>
  }

  lemma {:induction false} ArgumentsKeepValue(
    e: Expr, args: seq<Expr>, m: AliasMap, alias: string, depth: nat, shape: seq<Slot>, t: Tuple, w: World,
    shape': seq<Slot>, t': Tuple, v: World)
    requires (e.Function? && e.args == args) || (e.List? && e.items == args)
    requires depth + Height(e) <= MAX_DEPTH && Plain(e) && SameFunctions(w, v)
    requires DefinitionsRead(Refs(e), m, alias, shape, t, w, shape', t', v)
    ensures Eval(SubstituteAt(e, m, alias, depth), shape', t', v) == Eval(e, shape, t, w)
    decreases e, 0
  {
    var xs := seq(|args|, i requires 0 <= i < |args| => SubstituteAt(args[i], m, alias, depth + 1));
    forall i | 0 <= i < |args|
      ensures Eval(xs[i], shape', t', v) == Eval(args[i], shape, t, w)
    {
      HeightMember(args, i);
      assert Refs(args[i]) <= Refs(e);
      SubstitutionKeepsValue(args[i], m, alias, depth + 1, shape, t, w, shape', t', v);
    }
    assert seq(|xs|, i requires 0 <= i < |xs| => Eval(xs[i], shape', t', v))
        == seq(|args|, i requires 0 <= i < |args| => Eval(args[i], shape, t, w));
  }

  lemma {:induction false} BinaryKeepsValue(
    e: Expr, m: AliasMap, alias: string, depth: nat, shape: seq<Slot>, t: Tuple, w: World,
    shape': seq<Slot>, t': Tuple, v: World)
    requires e.Binary? && depth + Height(e) <= MAX_DEPTH && Plain(e) && SameFunctions(w, v)
    requires DefinitionsRead(Refs(e), m, alias, shape, t, w, shape', t', v)
    ensures Eval(SubstituteAt(e, m, alias, depth), shape', t', v) == Eval(e, shape, t, w)
    decreases e, 0
  {
    SubstitutionKeepsValue(e.left, m, alias, depth + 1, shape, t, w, shape', t', v);
    SubstitutionKeepsValue(e.right, m, alias, depth + 1, shape, t, w, shape', t', v);
  }

  ghost function EvalOption(e: Option<Expr>, shape: seq<Slot>, t: Tuple, w: World): Option<Value> {
    if e.Some? then Some(Eval(e.value, shape, t, w)) else None
  }

  function CaseResult(hit: Option<Value>, els: Option<Value>): Value {
    if hit.Some? then hit.value else if els.Some? then els.value else Null
  }

  lemma EvalCase(operand: Option<Expr>, whens: Whens, els: Option<Expr>, shape: seq<Slot>, t: Tuple, w: World)
    ensures Eval(Case(operand, whens, els), shape, t, w)
         == CaseResult(EvalWhens(EvalOption(operand, shape, t, w), whens, shape, t, w), EvalOption(els, shape, t, w))
  {
  }

  lemma {:induction false} OptionKeepsValue(
    e: Option<Expr>, m: AliasMap, alias: string, depth: nat, shape: seq<Slot>, t: Tuple, w: World,
    shape': seq<Slot>, t': Tuple, v: World)
    requires depth + HeightOption(e) <= MAX_DEPTH && PlainOption(e) && SameFunctions(w, v)
    requires DefinitionsRead(RefsOption(e), m, alias, shape, t, w, shape', t', v)
    ensures EvalOption(SubstituteOptionAt(e, m, alias, depth), shape', t', v) == EvalOption(e, shape, t, w)
    decreases e, 0
  {
    if e.Some? {
      SubstitutionKeepsValue(e.value, m, alias, depth, shape, t, w, shape', t', v);
    }
  }

  lemma {:induction false} CaseKeepsValue(
    e: Expr, m: AliasMap, alias: string, depth: nat, shape: seq<Slot>, t: Tuple, w: World,
    shape': seq<Slot>, t': Tuple, v: World)
    requires e.Case? && depth + Height(e) <= MAX_DEPTH && Plain(e) && SameFunctions(w, v)
    requires DefinitionsRead(Refs(e), m, alias, shape, t, w, shape', t', v)
    ensures Eval(SubstituteAt(e, m, alias, depth), shape', t', v) == Eval(e, shape, t, w)
    decreases e, 0
  {
    OptionKeepsValue(e.operand, m, alias, depth + 1, shape, t, w, shape', t', v);
    OptionKeepsValue(e.els, m, alias, depth + 1, shape, t, w, shape', t', v);
    WhensKeepValue(EvalOption(e.operand, shape, t, w), e.whens, m, alias, depth + 1, shape, t, w, shape', t', v);
    var operand' := SubstituteOptionAt(e.operand, m, alias, depth + 1);
    var els' := SubstituteOptionAt(e.els, m, alias, depth + 1);
    EvalCase(e.operand, e.whens, e.els, shape, t, w);
    EvalCase(operand', SubstituteWhensAt(e.whens, m, alias, depth + 1), els', shape', t', v);
  }

  lemma {:induction false} WhensKeepValue(
    subject: Option<Value>, whens: Whens, m: AliasMap, alias: string, depth: nat, shape: seq<Slot>, t: Tuple,
    w: World, shape': seq<Slot>, t': Tuple, v: World)
    requires depth + HeightWhens(whens) <= MAX_DEPTH && PlainWhens(whens) && SameFunctions(w, v)
    requires DefinitionsRead(RefsWhens(whens), m, alias, shape, t, w, shape', t', v)
    ensures EvalWhens(subject, SubstituteWhensAt(whens, m, alias, depth), shape', t', v)
         == EvalWhens(subject, whens, shape, t, w)
    decreases whens
  {
    match whens
    case NoWhen =>
    case When(cond, result, rest) =>
      SubstitutionKeepsValue(cond, m, alias, depth, shape, t, w, shape', t', v);
      SubstitutionKeepsValue(result, m, alias, depth, shape, t, w, shape', t', v);
      WhensKeepValue(subject, rest, m, alias, depth, shape, t, w, shape', t', v);
  }

  // ----- what a substituted expression looks like -----

  /** No deeper than h, and reading nothing but the given references. */
  ghost predicate Within(e: Expr, h: int, refs: set<Ref>) {
    Plain(e) && Height(e) <= h && Refs(e) <= refs
  }

  ghost predicate DefinitionsWithin(of: set<Ref>, m: AliasMap, alias: string, h: nat, refs: set<Ref>) {
    forall r :: r in of ==> Within(Definition(r, m, alias), h, refs)
  }

  lemma {:induction false} SubstitutedWithin(e: Expr, m: AliasMap, alias: string, depth: nat, h: nat, refs: set<Ref>)
    requires depth + Height(e) <= MAX_DEPTH && Plain(e) && DefinitionsWithin(Refs(e), m, alias, h, refs)
    ensures Within(SubstituteAt(e, m, alias, depth), Height(e) + h, refs)
    decreases e
  {
    match e
    case Column(table, name) =>
      assert (table, name) in Refs(e);
    case Function(_, args) =>
      ArgumentsWithin(e, args, m, alias, depth, h, refs);
    case List(items) =>
      ArgumentsWithin(e, items, m, alias, depth, h, refs);
    case Unary(op, arg) =>
      SubstitutedWithin(arg, m, alias, depth + 1, h, refs);
    case Binary(left, op, right) =>
      SubstitutedWithin(left, m, alias, depth + 1, h, refs);
      SubstitutedWithin(right, m, alias, depth + 1, h, refs);
    case Case(_, _, _) =>
      CaseWithin(e, m, alias, depth, h, refs);
    case _ =>
  }

  ghost predicate WithinOption(e: Option<Expr>, h: int, refs: set<Ref>) {
    PlainOption(e) && HeightOption(e) <= h && RefsOption(e) <= refs
  }

  lemma {:induction false} OptionWithin(
    e: Option<Expr>, m: AliasMap, alias: string, depth: nat, h: nat, refs: set<Ref>)
    requires depth + HeightOption(e) <= MAX_DEPTH && PlainOption(e)
    requires DefinitionsWithin(RefsOption(e), m, alias, h, refs)
    ensures WithinOption(SubstituteOptionAt(e, m, alias, depth), HeightOption(e) + h, refs)
    decreases e, 0
  {
    if e.Some? {
      SubstitutedWithin(e.value, m, alias, depth, h, refs);
    }
  }

  lemma {:induction false} CaseWithin(e: Expr, m: AliasMap, alias: string, depth: nat, h: nat, refs: set<Ref>)
    requires e.Case? && depth + Height(e) <= MAX_DEPTH && Plain(e)
    requires DefinitionsWithin(Refs(e), m, alias, h, refs)
    ensures Within(SubstituteAt(e, m, alias, depth), Height(e) + h, refs)
    decreases e, 0
  {
    OptionWithin(e.operand, m, alias, depth + 1, h, refs);
    OptionWithin(e.els, m, alias, depth + 1, h, refs);
    WhensWithin(e.whens, m, alias, depth + 1, h, refs);
    CaseParts(SubstituteOptionAt(e.operand, m, alias, depth + 1), SubstituteWhensAt(e.whens, m, alias, depth + 1),
              SubstituteOptionAt(e.els, m, alias, depth + 1), Height(e) - 1 + h, refs);
  }

  lemma CaseParts(operand: Option<Expr>, whens: Whens, els: Option<Expr>, h: nat, refs: set<Ref>)
    requires WithinOption(operand, h, refs) && WithinOption(els, h, refs)
    requires PlainWhens(whens) && HeightWhens(whens) <= h && RefsWhens(whens) <= refs
    ensures Within(Case(operand, whens, els), h + 1, refs)
  {
  }

  lemma {:induction false} ArgumentsWithin(
    e: Expr, args: seq<Expr>, m: AliasMap, alias: string, depth: nat, h: nat, refs: set<Ref>)
    requires (e.Function? && e.args == args) || (e.List? && e.items == args)
    requires depth + Height(e) <= MAX_DEPTH && Plain(e) && DefinitionsWithin(Refs(e), m, alias, h, refs)
    ensures Within(SubstituteAt(e, m, alias, depth), Height(e) + h, refs)
    decreases e, 0
  {
    var xs := seq(|args|, i requires 0 <= i < |args| => SubstituteAt(args[i], m, alias, depth + 1));
    forall i | 0 <= i < |args|
      ensures Within(xs[i], HeightAll(args) + h, refs)
    {
      HeightMember(args, i);
      assert Refs(args[i]) <= Refs(e);
      SubstitutedWithin(args[i], m, alias, depth + 1, h, refs);
    }
    HeightAllBound(xs, HeightAll(args) + h);
  }

  lemma {:induction false} WhensWithin(whens: Whens, m: AliasMap, alias: string, depth: nat, h: nat, refs: set<Ref>)
    requires depth + HeightWhens(whens) <= MAX_DEPTH && PlainWhens(whens)
    requires DefinitionsWithin(RefsWhens(whens), m, alias, h, refs)
    ensures PlainWhens(SubstituteWhensAt(whens, m, alias, depth))
    ensures HeightWhens(SubstituteWhensAt(whens, m, alias, depth)) <= HeightWhens(whens) + h
    ensures RefsWhens(SubstituteWhensAt(whens, m, alias, depth)) <= refs
    decreases whens
  {
    match whens
    case NoWhen =>
    case When(cond, result, rest) =>
      SubstitutedWithin(cond, m, alias, depth, h, refs);
      SubstitutedWithin(result, m, alias, depth, h, refs);
      WhensWithin(rest, m, alias, depth, h, refs);
  }

  // ----- nothing to substitute -----

  lemma {:induction false} SubstituteNothing(e: Expr, alias: string, depth: nat)
    ensures SubstituteAt(e, map[], alias, depth) == e
    decreases e
  {
    match e
    case Function(_, args) =>
      forall i | 0 <= i < |args|
        ensures SubstituteAt(args[i], map[], alias, depth + 1) == args[i]
      {
        SubstituteNothing(args[i], alias, depth + 1);
      }
    case List(items) =>
      forall i | 0 <= i < |items|
        ensures SubstituteAt(items[i], map[], alias, depth + 1) == items[i]
      {
        SubstituteNothing(items[i], alias, depth + 1);
      }
    case Unary(_, arg) => SubstituteNothing(arg, alias, depth + 1);
    case Binary(left, _, right) =>
      SubstituteNothing(left, alias, depth + 1);
      SubstituteNothing(right, alias, depth + 1);
    case Case(operand, whens, els) =>
      if operand.Some? {
        SubstituteNothing(operand.value, alias, depth + 1);
      }
      if els.Some? {
        SubstituteNothing(els.value, alias, depth + 1);
      }
      SubstituteNothingWhens(whens, alias, depth + 1);
    case _ =>
  }

  lemma {:induction false} SubstituteNothingWhens(whens: Whens, alias: string, depth: nat)
    ensures SubstituteWhensAt(whens, map[], alias, depth) == whens
    decreases whens
  {
    if whens.When? {
      SubstituteNothing(whens.cond, alias, depth);
      SubstituteNothing(whens.result, alias, depth);
      SubstituteNothingWhens(whens.rest, alias, depth);
    }
  }
}
