/**
 What a statement means: rows are tuples, and a FROM clause yields tuples together with a shape that
 says which table alias and column name each position carries.  A reference reads the one position it
 matches; when no position or several match, it reads `Unresolved`.
 Functions, text truth values, parameters and grouping are left to the world, which is arbitrary.
 */
module SqlSemantics {
  import opened Wrappers
  import opened SqlAst

  type Tuple = seq<Value>

  datatype Rel = Rel(cols: seq<string>, rows: seq<Tuple>)

  datatype Slot = Slot(table: string, name: string)

  datatype Rows = Rows(shape: seq<Slot>, tuples: seq<Tuple>)

  datatype World = World(
    tables: map<string, Rel>,
    call: (string, seq<Value>) -> Value,
    textTruth: string -> bool,
    param: string -> Value,
    grouped: (Select, map<string, Rel>) -> Rel)

  // ----- truth values -----

  datatype Truth = True | False | Unknown

  function TruthOf(v: Value, w: World): Truth {
    match v
    case Null => Unknown
    case Int(n) => if n != 0 then True else False
    case Text(s) => if w.textTruth(s) then True else False
    case Unresolved => Unknown
  }

  function FromTruth(t: Truth): Value {
    match t
    case True => Int(1)
    case False => Int(0)
    case Unknown => Null
  }

  function And3(a: Truth, b: Truth): Truth {
    if a == False || b == False then False else if a == True && b == True then True else Unknown
  }

  function Or3(a: Truth, b: Truth): Truth {
    if a == True || b == True then True else if a == False && b == False then False else Unknown
  }

  function Not3(a: Truth): Truth {
    match a
    case True => False
    case False => True
    case Unknown => Unknown
  }

  // ----- operators -----

  predicate IsComparison(op: string) {
    op in {"=", "!=", "<", ">", "<=", ">="}
  }

  function CompareInts(op: string, a: int, b: int): bool {
    if op == "=" then a == b
    else if op == "!=" then a != b
    else if op == "<" then a < b
    else if op == ">" then a > b
    else if op == "<=" then a <= b
    else a >= b
  }

  function EvalBinary(op: string, a: Value, b: Value, w: World): Value {
    if op == "AND" then FromTruth(And3(TruthOf(a, w), TruthOf(b, w)))
    else if op == "OR" then FromTruth(Or3(TruthOf(a, w), TruthOf(b, w)))
    else if op == "IS" then Int(if a == b then 1 else 0)
    else if IsComparison(op) && (a.Null? || b.Null?) then Null
    else if IsComparison(op) && a.Int? && b.Int? then Int(if CompareInts(op, a.n, b.n) then 1 else 0)
    else w.call(op, [a, b])
  }

  function EvalUnary(op: string, a: Value, w: World): Value {
    if op == "NOT" then FromTruth(Not3(TruthOf(a, w))) else w.call(op, [a])
  }

  // ----- references -----

  predicate Matches(shape: seq<Slot>, p: nat, table: string, name: string) {
    p < |shape| && shape[p].name == name && (table == "" || shape[p].table == table)
  }

  ghost predicate ResolvesTo(shape: seq<Slot>, p: nat, table: string, name: string) {
    && Matches(shape, p, table, name)
    && forall q: nat :: Matches(shape, q, table, name) ==> q == p
  }

  ghost function Resolve(shape: seq<Slot>, table: string, name: string): Option<nat> {
    if exists p: nat :: ResolvesTo(shape, p, table, name) then
      var p: nat :| ResolvesTo(shape, p, table, name);
      Some(p)
    else
      None
  }

  ghost function Lookup(shape: seq<Slot>, t: Tuple, table: string, name: string): Value {
    var p := Resolve(shape, table, name);
    if p.Some? && p.value < |t| then t[p.value] else Unresolved
  }

  // ----- expressions -----

  ghost function Eval(e: Expr, shape: seq<Slot>, t: Tuple, w: World): Value
    decreases e
  {
    match e
    case Column(table, name) => Lookup(shape, t, table, name)
    case Literal(v) => v
    case Parameter(id) => w.param(id)
    case Function(fn, args) =>
      w.call(fn, seq(|args|, i requires 0 <= i < |args| => Eval(args[i], shape, t, w)))
    case List(items) =>
      w.call("()", seq(|items|, i requires 0 <= i < |items| => Eval(items[i], shape, t, w)))
    case Unary(op, arg) => EvalUnary(op, Eval(arg, shape, t, w), w)
    case Binary(left, op, right) => EvalBinary(op, Eval(left, shape, t, w), Eval(right, shape, t, w), w)
    case Case(operand, whens, els) =>
      var subject := if operand.Some? then Some(Eval(operand.value, shape, t, w)) else None;
      var hit := EvalWhens(subject, whens, shape, t, w);
      if hit.Some? then hit.value
      else if els.Some? then Eval(els.value, shape, t, w)
      else Null
    case Star(_) => Unresolved
    case Nested(_) => Unresolved
  }

  /** The result of the first WHEN that applies. */
  ghost function EvalWhens(subject: Option<Value>, whens: Whens, shape: seq<Slot>, t: Tuple, w: World)
    : Option<Value>
    decreases whens
  {
    match whens
    case NoWhen => None
    case When(cond, result, rest) =>
      var c := Eval(cond, shape, t, w);
      var applies := if subject.Some? then TruthOf(EvalBinary("=", subject.value, c, w), w) else TruthOf(c, w);
      if applies == True then Some(Eval(result, shape, t, w)) else EvalWhens(subject, rest, shape, t, w)
  }

  /** A WHERE or ON condition keeps a tuple exactly when it is true. */
  ghost predicate Holds(cond: Option<Expr>, shape: seq<Slot>, t: Tuple, w: World) {
    cond.None? || TruthOf(Eval(cond.value, shape, t, w), w) == True
  }

  // ----- row selection, shared by both languages -----

  /** The positions at which the mask is set, in order. */
  function Kept(mask: seq<bool>): (ks: seq<nat>)
    ensures |ks| <= |mask|
    ensures forall i :: 0 <= i < |ks| ==> ks[i] < |mask| && mask[ks[i]]
  {
    if mask == [] then []
    else
      var n := |mask| - 1;
      Kept(mask[..n]) + (if mask[n] then [n] else [])
  }

  function At<T>(xs: seq<T>, ks: seq<nat>): (ys: seq<T>)
    requires forall i :: 0 <= i < |ks| ==> ks[i] < |xs|
    ensures |ys| == |ks| && forall i :: 0 <= i < |ks| ==> ys[i] == xs[ks[i]]
  {
    seq(|ks|, i requires 0 <= i < |ks| => xs[ks[i]])
  }

  /** A position in a join's result: which left and which right row, if any. */
  datatype Pairing = Pairing(l: Option<nat>, r: Option<nat>)

  predicate Rectangular(m: seq<seq<bool>>, width: nat) {
    forall i :: 0 <= i < |m| ==> |m[i]| == width
  }

  function RowPairings(kind: JoinType, i: nat, row: seq<bool>): seq<Pairing> {
    var ks := Kept(row);
    if ks == [] && (kind == Left || kind == Full) then [Pairing(Some(i), None)]
    else seq(|ks|, k requires 0 <= k < |ks| => Pairing(Some(i), Some(ks[k])))
  }

  function LeftPairings(kind: JoinType, m: seq<seq<bool>>): seq<Pairing> {
    if m == [] then []
    else LeftPairings(kind, m[..|m| - 1]) + RowPairings(kind, |m| - 1, m[|m| - 1])
  }

  predicate ColumnMatched(m: seq<seq<bool>>, j: nat) {
    exists i :: 0 <= i < |m| && j < |m[i]| && m[i][j]
  }

  function RightOrphans(m: seq<seq<bool>>, width: nat): seq<Pairing> {
    var ks := Kept(seq(width, j requires 0 <= j < width => !ColumnMatched(m, j)));
    seq(|ks|, k requires 0 <= k < |ks| => Pairing(None, Some(ks[k])))
  }

  /** The join of the given kind over a matrix saying which rows match. */
  function Pairings(kind: JoinType, m: seq<seq<bool>>, width: nat): seq<Pairing> {
    LeftPairings(kind, m) + (if kind == Right || kind == Full then RightOrphans(m, width) else [])
  }

  /** LIMIT and OFFSET over n rows: the first row taken and how many. */
  function Window(count: Value, offset: Value, n: nat): (r: (nat, nat))
    ensures r.0 + r.1 <= n
  {
    var skip := if offset.Int? && offset.n > 0 then (if offset.n <= n then offset.n else n) else 0;
    (skip, if count.Int? && 0 <= count.n <= n - skip then count.n else n - skip)
  }

  /** The positions of the first occurrence of each row. */
  function FirstOccurrences(rows: seq<Tuple>): seq<bool> {
    seq(|rows|, i requires 0 <= i < |rows| => rows[i] !in rows[..i])
  }

  function Dedupe(rows: seq<Tuple>): seq<Tuple> {
    At(rows, Kept(FirstOccurrences(rows)))
  }

  // ----- statements -----

  function Relabel(cols: seq<string>, alias: string): seq<Slot> {
    seq(|cols|, i requires 0 <= i < |cols| => Slot(alias, cols[i]))
  }

  function NullTuple(n: nat): Tuple {
    seq(n, _ => Null)
  }

  function Pick(p: Option<nat>, tuples: seq<Tuple>, width: nat): Tuple {
    if p.Some? && p.value < |tuples| then tuples[p.value] else NullTuple(width)
  }

  ghost function MatchMatrix(l: Rows, r: Rows, cond: Option<Expr>, w: World): (m: seq<seq<bool>>)
    ensures |m| == |l.tuples| && Rectangular(m, |r.tuples|)
    ensures forall i, j :: 0 <= i < |m| && 0 <= j < |m[i]| ==>
      m[i][j] == Holds(cond, l.shape + r.shape, l.tuples[i] + r.tuples[j], w)
  {
    seq(|l.tuples|, i requires 0 <= i < |l.tuples| =>
      seq(|r.tuples|, j requires 0 <= j < |r.tuples| =>
        Holds(cond, l.shape + r.shape, l.tuples[i] + r.tuples[j], w)))
  }

  function PairTuples(ps: seq<Pairing>, l: Rows, r: Rows): (ts: seq<Tuple>)
    ensures |ts| == |ps|
    ensures forall k :: 0 <= k < |ps| ==>
      ts[k] == Pick(ps[k].l, l.tuples, |l.shape|) + Pick(ps[k].r, r.tuples, |r.shape|)
  {
    seq(|ps|, k requires 0 <= k < |ps| =>
      Pick(ps[k].l, l.tuples, |l.shape|) + Pick(ps[k].r, r.tuples, |r.shape|))
  }

  ghost function JoinRows(kind: JoinType, l: Rows, r: Rows, cond: Option<Expr>, w: World): Rows {
    Rows(l.shape + r.shape, PairTuples(Pairings(kind, MatchMatrix(l, r, cond, w), |r.tuples|), l, r))
  }

  ghost function Mask(where: Option<Expr>, rows: Rows, w: World): (mask: seq<bool>)
    ensures |mask| == |rows.tuples|
    ensures forall i :: 0 <= i < |mask| ==> mask[i] == Holds(where, rows.shape, rows.tuples[i], w)
  {
    seq(|rows.tuples|, i requires 0 <= i < |rows.tuples| => Holds(where, rows.shape, rows.tuples[i], w))
  }

  ghost function Filter(rows: Rows, where: Option<Expr>, w: World): Rows {
    rows.(tuples := At(rows.tuples, Kept(Mask(where, rows, w))))
  }

  /** The name of an unaliased item is the column it reads. */
  function ItemName(item: Item): string {
    if item.alias != "" || !item.expr.Column? then item.alias else item.expr.name
  }

  function SlotNames(shape: seq<Slot>): seq<string> {
    seq(|shape|, i requires 0 <= i < |shape| => shape[i].name)
  }

  function OutCols(items: seq<Item>, shape: seq<Slot>): seq<string> {
    if items == [] then []
    else
      (if IsStarItem(items[0]) then SlotNames(shape) else [ItemName(items[0])]) + OutCols(items[1..], shape)
  }

  ghost function ProjectTuple(items: seq<Item>, shape: seq<Slot>, t: Tuple, w: World): Tuple {
    if items == [] then []
    else
      (if IsStarItem(items[0]) then t else [Eval(items[0].expr, shape, t, w)])
      + ProjectTuple(items[1..], shape, t, w)
  }

  ghost function ProjectAll(items: seq<Item>, rows: Rows, w: World): (ts: seq<Tuple>)
    ensures |ts| == |rows.tuples|
    ensures forall i :: 0 <= i < |ts| ==> ts[i] == ProjectTuple(items, rows.shape, rows.tuples[i], w)
  {
    seq(|rows.tuples|, i requires 0 <= i < |rows.tuples| => ProjectTuple(items, rows.shape, rows.tuples[i], w))
  }

  ghost function Project(items: seq<Item>, rows: Rows, w: World): Rel {
    Rel(OutCols(items, rows.shape), ProjectAll(items, rows, w))
  }

  ghost function LimitRel(r: Rel, limit: Option<Limit>, w: World): Rel {
    if limit.None? then r
    else
      var count := Eval(limit.value.count, [], [], w);
      var offset := if limit.value.offset.Some? then Eval(limit.value.offset.value, [], [], w) else Null;
      var win := Window(count, offset, |r.rows|);
      r.(rows := r.rows[win.0..win.0 + win.1])
  }

  /** Grouping and ordering are not interpreted: any meaning a world gives them will do. */
  predicate NeedsGrouping(s: Select) {
    s.groupBy != [] || s.having.Some? || s.orderBy != []
  }

  function ClauseNames(ws: seq<WithClause>): set<string> {
    set i | 0 <= i < |ws| :: ws[i].name
  }

  /** The tables a statement reads from outside: those it mentions, but for the names its own WITH list defines. */
  function SelectTables(s: Select): set<string>
    decreases s, 1
  {
    WithTables(s.withs) + BodyTables(s) - ClauseNames(s.withs)
  }

  function BodyTables(s: Select): set<string>
    decreases s, 0
  {
    (if s.setOp.Some? then UnionTables(s.setOp.value.items) else {})
    + (if s.from.Some? then FromTables(s.from.value) else {})
  }

  function WithTables(ws: seq<WithClause>): set<string>
    decreases ws, 0
  {
    set i, n | 0 <= i < |ws| && n in SelectTables(ws[i].query) :: n
  }

  function UnionTables(items: seq<Select>): set<string>
    decreases items, 0
  {
    set i, n | 0 <= i < |items| && n in SelectTables(items[i]) :: n
  }

  function FromTables(f: FromItem): set<string>
    decreases f, 0
  {
    match f
    case TableItem(name, _) => {name}
    case SubqueryItem(query, _) => SelectTables(query)
    case JoinItem(_, left, right, _, _) => FromTables(left) + FromTables(right)
  }

  function Restrict(tables: map<string, Rel>, names: set<string>): map<string, Rel> {
    map n | n in tables && n in names :: tables[n]
  }

  ghost function EvalSelect(s: Select, w: World): Rel
    decreases s, 1
  {
    var inner := EvalWiths(s.withs, w);
    if s.setOp.Some? then
      if s.setOp.value.kind == "UNION" && s.setOp.value.modifier == "ALL" && s.setOp.value.items != [] then
        Rel(EvalSelect(s.setOp.value.items[0], inner).cols, EvalAll(s.setOp.value.items, inner))
      else
        inner.grouped(s, Restrict(inner.tables, BodyTables(s)))
    else if NeedsGrouping(s) then
      inner.grouped(s, Restrict(inner.tables, BodyTables(s)))
    else
      var rows := if s.from.Some? then EvalFrom(s.from.value, inner) else Rows([], [[]]);
      var out := Project(s.items, Filter(rows, s.where, inner), inner);
      LimitRel(if s.distinct then out.(rows := Dedupe(out.rows)) else out, s.limit, inner)
  }

  /** The rows of the statements of a UNION ALL, by position. */
  ghost function EvalAll(items: seq<Select>, w: World): seq<Tuple>
    decreases items, 0
  {
    if items == [] then []
    else EvalSelect(items[0], w).rows + EvalAll(items[1..], w)
  }

  /**
   The names of a WITH list are visible throughout it, whatever the order of its clauses, and hide tables of those
   names.  As many rounds as there are clauses settle a list in which no clause depends on itself; SQLite rejects any
   other.
   */
  ghost function EvalWiths(ws: seq<WithClause>, w: World): World
    decreases ws, 2
  {
    if ws == [] then w else WithRounds(ws, w, |ws|)
  }

  ghost function WithRounds(ws: seq<WithClause>, w: World, k: nat): World
    decreases ws, 1, k
  {
    if k == 0 then Unset(ws, w) else BindAll(ws, WithRounds(ws, w, k - 1), w)
  }

  /** Binds each name to its clause's result in the world v. */
  ghost function BindAll(ws: seq<WithClause>, v: World, w: World): World
    decreases ws, 0
  {
    if ws == [] then w
    else
      var n := |ws| - 1;
      var u := BindAll(ws[..n], v, w);
      u.(tables := u.tables[ws[n].name := EvalSelect(ws[n].query, v)])
  }

  function Unset(ws: seq<WithClause>, w: World): World {
    if ws == [] then w
    else
      var n := |ws| - 1;
      var u := Unset(ws[..n], w);
      u.(tables := u.tables[ws[n].name := Rel([], [])])
  }

  ghost function EvalFrom(f: FromItem, w: World): Rows
    decreases f, 0
  {
    match f
    case TableItem(name, alias) =>
      var rel := if name in w.tables then w.tables[name] else Rel([], []);
      Rows(Relabel(rel.cols, if alias == "" then name else alias), rel.rows)
    case SubqueryItem(query, alias) =>
      var rel := EvalSelect(query, w);
      Rows(Relabel(rel.cols, alias), rel.rows)
    case JoinItem(kind, left, right, cond, _) =>
      JoinRows(kind, EvalFrom(left, w), EvalFrom(right, w), cond, w)
  }
}
