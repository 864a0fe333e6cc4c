/**
 Resolved scans (internal/types_data.go): columns are known by ID, rows map IDs to values.
 This module gives them their meaning, and says which scans the analyzer produces.
 */
module Scans {
  import opened Wrappers
  import opened Decimal
  import opened SqlAst
  import opened SqlSemantics

  datatype Col = Col(id: nat, name: string)

  /** `generateIDBasedAlias`. */
  function Alias(c: Col): string {
    c.name + "__" + Digits(c.id)
  }

  function Aliases(cols: seq<Col>): seq<string> {
    seq(|cols|, i requires 0 <= i < |cols| => Alias(cols[i]))
  }

  lemma AliasInjective(c: Col, d: Col)
    requires Alias(c) == Alias(d)
    ensures c == d
  {
    NumberedNameUnique(c.name + "__", c.id, d.name + "__", d.id);
    assert c.name == (c.name + "__")[..|c.name|] == d.name;
  }

  /** The types SQLite stores as they are, and all others. */
  datatype ValueType = IntType | BoolType | FloatType | StringType | OtherType

  datatype ScanExpr =
    | ColumnRef(id: nat, ty: ValueType)
    | Constant(v: Value, ty: ValueType)
    | Argument(p: string)
    | Cast(arg: ScanExpr, from: string, to: string, nullOnError: bool)
    | Call(fn: string, args: seq<ScanExpr>)

  datatype Computed = Computed(id: nat, expr: ScanExpr)

  datatype OutData = OutData(expr: ScanExpr, alias: string)

  datatype Query = Query(outs: seq<OutData>, source: Scan)

  datatype Entry = Entry(name: string, sub: Scan, cols: seq<Col>)

  datatype Scan =
    | TableScan(cols: seq<Col>, table: string, alias: string)
    | FilterScan(cols: seq<Col>, input: Scan, cond: ScanExpr)
    | ProjectScan(cols: seq<Col>, input: Scan, computed: seq<Computed>)
    | JoinScan(cols: seq<Col>, kind: JoinType, left: Scan, right: Scan, on: Option<ScanExpr>)
    | LimitScan(cols: seq<Col>, input: Scan, count: ScanExpr, offset: Option<ScanExpr>)
    | SetOpScan(cols: seq<Col>, op: string, modifier: string, items: seq<Query>)
    | WithScan(cols: seq<Col>, entries: seq<Entry>, query: Scan, recursive: bool)
    | WithRefScan(cols: seq<Col>, name: string)

  // ----- meaning -----

  type IdRow = map<nat, Value>

  datatype Cte = Cte(cols: seq<Col>, rows: seq<IdRow>)

  type Ctes = map<string, Cte>

  function Get(row: IdRow, id: nat): Value {
    if id in row then row[id] else Unresolved
  }

  function MakeRow(cols: seq<Col>, vals: seq<Value>): IdRow
    requires |cols| == |vals|
  {
    if cols == [] then map[]
    else
      var n := |cols| - 1;
      MakeRow(cols[..n], vals[..n])[cols[n].id := vals[n]]
  }

  /** The values of the given columns, in order. */
  function RowTuple(cols: seq<Col>, row: IdRow): (t: Tuple)
    ensures |t| == |cols| && forall k :: 0 <= k < |t| ==> t[k] == Get(row, cols[k].id)
  {
    seq(|cols|, k requires 0 <= k < |cols| => Get(row, cols[k].id))
  }

  function Narrow(cols: seq<Col>, row: IdRow): IdRow {
    MakeRow(cols, RowTuple(cols, row))
  }

  function NarrowAll(cols: seq<Col>, rows: seq<IdRow>): (ns: seq<IdRow>)
    ensures |ns| == |rows| && forall i :: 0 <= i < |ns| ==> ns[i] == Narrow(cols, rows[i])
  {
    seq(|rows|, i requires 0 <= i < |rows| => Narrow(cols, rows[i]))
  }

  /** The value of a searched CASE written as condition, result, condition, result, ..., [else]. */
  function FirstTrue(vals: seq<Value>, w: World): Value {
    if |vals| == 0 then Null
    else if |vals| == 1 then vals[0]
    else if TruthOf(vals[0], w) == True then vals[1]
    else FirstTrue(vals[2..], w)
  }

  /** The value of a simple CASE: the result paired with the first value equal to the subject. */
  function FirstEqual(subject: Value, vals: seq<Value>, w: World): Value {
    if |vals| == 0 then Null
    else if |vals| == 1 then vals[0]
    else if TruthOf(EvalBinary("=", subject, vals[0], w), w) == True then vals[1]
    else FirstEqual(subject, vals[2..], w)
  }

  const IFNULL := "zetasqlite_ifnull"
  const IF := "zetasqlite_if"
  const CASE_NO_VALUE := "zetasqlite_case_no_value"
  const CASE_WITH_VALUE := "zetasqlite_case_with_value"
  const CAST := "zetasqlite_cast"

  /** The conditional functions mean what their names say; any other function is the world's. */
  function CallMeaning(fn: string, vals: seq<Value>, w: World): Value {
    if fn == IFNULL && |vals| == 2 then (if vals[0].Null? then vals[1] else vals[0])
    else if fn == IF && |vals| == 3 then (if TruthOf(vals[0], w) == True then vals[1] else vals[2])
    else if fn == CASE_NO_VALUE then FirstTrue(vals, w)
    else if fn == CASE_WITH_VALUE && |vals| >= 3 then FirstEqual(vals[0], vals[1..], w)
    else w.call(fn, vals)
  }

  function ExprValue(e: ScanExpr, row: IdRow, w: World): Value {
    match e
    case ColumnRef(id, _) => Get(row, id)
    case Constant(v, _) => v
    case Argument(p) => w.param(p)
    case Cast(arg, from, to, nullOnError) =>
      w.call(CAST, [ExprValue(arg, row, w), Text(from), Text(to), Int(if nullOnError then 1 else 0)])
    case Call(fn, args) =>
      CallMeaning(fn, seq(|args|, i requires 0 <= i < |args| => ExprValue(args[i], row, w)), w)
  }

  predicate Passes(cond: Option<ScanExpr>, row: IdRow, w: World) {
    cond.None? || TruthOf(ExprValue(cond.value, row, w), w) == True
  }

  /** The expression computed for an ID, when there is one; a later definition replaces an earlier one. */
  function ComputedFor(computed: seq<Computed>, id: nat): Option<ScanExpr> {
    if computed == [] then None
    else
      var n := |computed| - 1;
      if computed[n].id == id then Some(computed[n].expr) else ComputedFor(computed[..n], id)
  }

  function ProjectedValue(c: Col, computed: seq<Computed>, row: IdRow, w: World): Value {
    var e := ComputedFor(computed, c.id);
    if e.Some? then ExprValue(e.value, row, w) else Get(row, c.id)
  }

  function ProjectedTuple(cols: seq<Col>, computed: seq<Computed>, row: IdRow, w: World): (t: Tuple)
    ensures |t| == |cols| && forall k :: 0 <= k < |t| ==> t[k] == ProjectedValue(cols[k], computed, row, w)
  {
    seq(|cols|, k requires 0 <= k < |cols| => ProjectedValue(cols[k], computed, row, w))
  }

  function PassMask(cond: ScanExpr, rows: seq<IdRow>, w: World): (mask: seq<bool>)
    ensures |mask| == |rows| && forall i :: 0 <= i < |mask| ==> mask[i] == Passes(Some(cond), rows[i], w)
  {
    seq(|rows|, i requires 0 <= i < |rows| => Passes(Some(cond), rows[i], w))
  }

  function PickRow(p: Option<nat>, rows: seq<IdRow>, cols: seq<Col>): IdRow {
    if p.Some? && p.value < |rows| then rows[p.value] else MakeRow(cols, NullTuple(|cols|))
  }

  function PairRows(ps: seq<Pairing>, ls: seq<IdRow>, lcols: seq<Col>, rs: seq<IdRow>, rcols: seq<Col>)
    : (rows: seq<IdRow>)
    ensures |rows| == |ps|
    ensures forall k :: 0 <= k < |ps| ==> rows[k] == PickRow(ps[k].l, ls, lcols) + PickRow(ps[k].r, rs, rcols)
  {
    seq(|ps|, k requires 0 <= k < |ps| => PickRow(ps[k].l, ls, lcols) + PickRow(ps[k].r, rs, rcols))
  }

  function PassMatrix(ls: seq<IdRow>, rs: seq<IdRow>, on: Option<ScanExpr>, w: World): (m: seq<seq<bool>>)
    ensures |m| == |ls| && Rectangular(m, |rs|)
    ensures forall i, j :: 0 <= i < |m| && 0 <= j < |m[i]| ==> m[i][j] == Passes(on, ls[i] + rs[j], w)
  {
    seq(|ls|, i requires 0 <= i < |ls| => seq(|rs|, j requires 0 <= j < |rs| => Passes(on, ls[i] + rs[j], w)))
  }

  ghost function ReadTuple(cols: seq<Col>, rel: Rel, t: Tuple): (r: Tuple)
    ensures |r| == |cols|
    ensures forall k :: 0 <= k < |r| ==> r[k] == Lookup(Relabel(rel.cols, ""), t, "", cols[k].name)
  {
    seq(|cols|, k requires 0 <= k < |cols| => Lookup(Relabel(rel.cols, ""), t, "", cols[k].name))
  }

  function Resized(t: Tuple, n: nat): (r: Tuple)
    ensures |r| == n && (|t| == n ==> r == t)
  {
    seq(n, k requires 0 <= k < n => if k < |t| then t[k] else Unresolved)
  }

  function LimitWindow(count: ScanExpr, offset: Option<ScanExpr>, n: nat, w: World): (r: (nat, nat))
    ensures r.0 + r.1 <= n
  {
    Window(ExprValue(count, map[], w), if offset.Some? then ExprValue(offset.value, map[], w) else Null, n)
  }

  ghost function ScanRows(s: Scan, w: World, ctes: Ctes): seq<IdRow>
    decreases s, 1
  {
    match s
    case TableScan(cols, table, _) =>
      var rel := if table in w.tables then w.tables[table] else Rel([], []);
      seq(|rel.rows|, i requires 0 <= i < |rel.rows| => MakeRow(cols, ReadTuple(cols, rel, rel.rows[i])))
    case FilterScan(cols, input, cond) =>
      var rows := ScanRows(input, w, ctes);
      NarrowAll(cols, At(rows, Kept(PassMask(cond, rows, w))))
    case ProjectScan(cols, input, computed) =>
      var rows := ScanRows(input, w, ctes);
      seq(|rows|, i requires 0 <= i < |rows| => MakeRow(cols, ProjectedTuple(cols, computed, rows[i], w)))
    case JoinScan(cols, kind, left, right, on) =>
      var ls, rs := ScanRows(left, w, ctes), ScanRows(right, w, ctes);
      var ps := Pairings(kind, PassMatrix(ls, rs, on, w), |rs|);
      NarrowAll(cols, PairRows(ps, ls, left.cols, rs, right.cols))
    case LimitScan(cols, input, count, offset) =>
      var rows := ScanRows(input, w, ctes);
      var win := LimitWindow(count, offset, |rows|, w);
      NarrowAll(cols, rows[win.0..win.0 + win.1])
    case SetOpScan(cols, _, _, items) =>
      var tuples := QueriesRows(items, w, ctes);
      seq(|tuples|, i requires 0 <= i < |tuples| => MakeRow(cols, Resized(tuples[i], |cols|)))
    case WithScan(cols, entries, query, _) =>
      NarrowAll(cols, ScanRows(query, w, EntriesRows(entries, w, ctes)))
    case WithRefScan(cols, name) =>
      if name !in ctes then [] else
      var cte := ctes[name];
      seq(|cte.rows|, i requires 0 <= i < |cte.rows| =>
        MakeRow(cols, Resized(RowTuple(cte.cols, cte.rows[i]), |cols|)))
  }

  function OutAliases(outs: seq<OutData>): seq<string> {
    seq(|outs|, k requires 0 <= k < |outs| => outs[k].alias)
  }

  function OutTuple(outs: seq<OutData>, row: IdRow, w: World): (t: Tuple)
    ensures |t| == |outs| && forall k :: 0 <= k < |t| ==> t[k] == ExprValue(outs[k].expr, row, w)
  {
    seq(|outs|, k requires 0 <= k < |outs| => ExprValue(outs[k].expr, row, w))
  }

  /** What a query outputs: one tuple for each row of its scan. */
  ghost function QueryRows(q: Query, w: World, ctes: Ctes): seq<Tuple>
    decreases q, 0
  {
    var rows := ScanRows(q.source, w, ctes);
    seq(|rows|, i requires 0 <= i < |rows| => OutTuple(q.outs, rows[i], w))
  }

  /** UNION ALL keeps every row of every query. */
  ghost function QueriesRows(qs: seq<Query>, w: World, ctes: Ctes): seq<Tuple>
    decreases qs, 0
  {
    if qs == [] then [] else QueryRows(qs[0], w, ctes) + QueriesRows(qs[1..], w, ctes)
  }

  ghost function EntriesRows(es: seq<Entry>, w: World, ctes: Ctes): Ctes
    decreases es, 0
  {
    if es == [] then ctes
    else EntriesRows(es[1..], w, ctes[es[0].name := Cte(es[0].cols, ScanRows(es[0].sub, w, ctes))])
  }

  // ----- well-formed input -----

  /** The one name of each ID, fixed by the analyzer. */
  type Names = map<nat, string>

  /** The columns of the WITH entries in scope. */
  type Signature = map<string, seq<Col>>

  ghost predicate Ids(cols: seq<Col>, id: nat) {
    exists c :: c in cols && c.id == id
  }

  ghost predicate DistinctIds(cols: seq<Col>) {
    forall i, j :: 0 <= i < j < |cols| ==> cols[i].id != cols[j].id
  }

  ghost predicate Named(cols: seq<Col>, names: Names) {
    forall c :: c in cols ==> c.id in names && names[c.id] == c.name
  }

  ghost predicate Subset(cols: seq<Col>, of: seq<Col>) {
    forall c :: c in cols ==> c in of
  }

  predicate ArityOk(fn: string, n: nat) {
    && (fn == IFNULL ==> n == 2)
    && (fn == IF ==> n == 3)
    && (fn == CASE_WITH_VALUE ==> n >= 3)
  }

  /** The expression reads only the given columns. */
  ghost predicate Reads(e: ScanExpr, cols: seq<Col>) {
    match e
    case ColumnRef(id, _) => Ids(cols, id)
    case Constant(_, _) => true
    case Argument(_) => true
    case Cast(arg, _, _, _) => Reads(arg, cols)
    case Call(_, args) => forall i :: 0 <= i < |args| ==> Reads(args[i], cols)
  }

  /** Every call of a conditional function has the number of arguments its transformer insists on. */
  predicate WellCalled(e: ScanExpr) {
    match e
    case Cast(arg, _, _, _) => WellCalled(arg)
    case Call(fn, args) => ArityOk(fn, |args|) && forall i :: 0 <= i < |args| ==> WellCalled(args[i])
    case _ => true
  }

  ghost predicate DistinctStrings(ss: seq<string>) {
    forall i, j :: 0 <= i < j < |ss| ==> ss[i] != ss[j]
  }

  ghost predicate WellFormed(s: Scan, names: Names, sig: Signature)
    decreases s, 1
  {
    && s.cols != [] && DistinctIds(s.cols) && Named(s.cols, names)
    && match s
       case TableScan(_, table, _) => table !in sig
       case FilterScan(cols, input, cond) =>
         WellFormed(input, names, sig) && Subset(cols, input.cols) && Reads(cond, input.cols)
       case ProjectScan(cols, input, computed) =>
         && WellFormed(input, names, sig)
         && forall c :: c in cols ==>
              var e := ComputedFor(computed, c.id);
              if e.Some? then Reads(e.value, input.cols) else c in input.cols
       case JoinScan(cols, kind, left, right, on) =>
         && WellFormed(left, names, sig) && WellFormed(right, names, sig)
         && kind != Cross
         && DistinctIds(left.cols + right.cols)
         && Subset(cols, left.cols + right.cols)
         && (on.Some? ==> Reads(on.value, left.cols + right.cols))
       case LimitScan(cols, input, count, offset) =>
         && WellFormed(input, names, sig) && Subset(cols, input.cols)
         && Reads(count, []) && (offset.Some? ==> Reads(offset.value, []))
       case SetOpScan(cols, op, modifier, items) =>
         && op == "UNION" && modifier == "ALL"
         && items != [] && WellFormedQueries(items, |cols|, names, sig)
         && DistinctStrings(OutAliases(items[0].outs))
       case WithScan(cols, entries, query, _) =>
         && WellFormedEntries(entries, names, sig)
         && WellFormed(query, names, Extend(sig, entries))
         && Subset(cols, query.cols)
       case WithRefScan(cols, name) => name in sig && |sig[name]| == |cols|
  }

  ghost predicate WellFormedQuery(q: Query, width: nat, names: Names, sig: Signature)
    decreases q, 0
  {
    && WellFormed(q.source, names, sig)
    && |q.outs| == width
    && forall k :: 0 <= k < |q.outs| ==> Reads(q.outs[k].expr, q.source.cols) && q.outs[k].alias != ""
  }

  ghost predicate WellFormedQueries(qs: seq<Query>, width: nat, names: Names, sig: Signature)
    decreases qs, 0
  {
    forall i :: 0 <= i < |qs| ==> WellFormedQuery(qs[i], width, names, sig)
  }

  /** No entry is named like a table that it, or an entry before it, reads. */
  ghost predicate WellFormedEntries(es: seq<Entry>, names: Names, sig: Signature)
    decreases es, 0
  {
    es == [] ||
    (&& es[0].name !in sig && es[0].name !in Defines(es[0].sub)
     && (forall i :: 0 <= i < |es| ==> es[i].name !in Mentions(es[0].sub))
     && es[0].cols == es[0].sub.cols
     && WellFormed(es[0].sub, names, sig)
     && WellFormedEntries(es[1..], names, sig[es[0].name := es[0].cols]))
  }

  /** The WITH names defined anywhere inside a scan. */
  function Defines(s: Scan): set<string>
    decreases s, 1
  {
    match s
    case TableScan(_, _, _) => {}
    case FilterScan(_, input, _) => Defines(input)
    case ProjectScan(_, input, _) => Defines(input)
    case JoinScan(_, _, left, right, _) => Defines(left) + Defines(right)
    case LimitScan(_, input, _, _) => Defines(input)
    case SetOpScan(_, _, _, items) => set i, n | 0 <= i < |items| && n in QueryDefines(items[i]) :: n
    case WithScan(_, entries, query, _) =>
      (set i, n | 0 <= i < |entries| && n in EntryDefines(entries[i]) :: n) + Defines(query)
    case WithRefScan(_, _) => {}
  }

  function QueryDefines(q: Query): set<string>
    decreases q, 0
  {
    Defines(q.source)
  }

  function EntryDefines(e: Entry): set<string>
    decreases e, 0
  {
    {e.name} + Defines(e.sub)
  }

  /** The tables and CTEs a scan reads from outside: those it refers to, but for the entries it defines. */
  function Mentions(s: Scan): set<string>
    decreases s, 1
  {
    match s
    case TableScan(_, table, _) => {table}
    case FilterScan(_, input, _) => Mentions(input)
    case ProjectScan(_, input, _) => Mentions(input)
    case JoinScan(_, _, left, right, _) => Mentions(left) + Mentions(right)
    case LimitScan(_, input, _, _) => Mentions(input)
    case SetOpScan(_, _, _, items) => set i, n | 0 <= i < |items| && n in QueryMentions(items[i]) :: n
    case WithScan(_, entries, query, _) => EntriesMention(entries) + Mentions(query) - EntryNames(entries)
    case WithRefScan(_, name) => {name}
  }

  function QueryMentions(q: Query): set<string>
    decreases q, 0
  {
    Mentions(q.source)
  }

  function EntriesMention(es: seq<Entry>): set<string>
    decreases es, 0
  {
    set i, n | 0 <= i < |es| && n in Mentions(es[i].sub) :: n
  }

  function EntryNames(es: seq<Entry>): set<string> {
    set i | 0 <= i < |es| :: es[i].name
  }

  function Extend(sig: Signature, es: seq<Entry>): Signature
    decreases es
  {
    if es == [] then sig else Extend(sig[es[0].name := es[0].cols], es[1..])
  }

  /** How many columns the statement built for the scan has. */
  function Width(s: Scan): nat {
    match s
    case FilterScan(_, input, _) => |input.cols|
    case LimitScan(_, input, _, _) => |input.cols|
    case JoinScan(_, _, left, right, _) => |left.cols| + |right.cols|
    case WithScan(_, _, query, _) => |query.cols|
    case _ => |s.cols|
  }

  /**
   What compilation needs besides well-formedness: conditionals called with the right number of arguments,
   and every scan that passes its input through listing all of the input's columns.
   */
  ghost predicate Compilable(s: Scan)
    decreases s, 2
  {
    InputsCompilable(s) && Width(s) == |s.cols|
  }

  ghost predicate InputsCompilable(s: Scan)
    decreases s, 1
  {
    match s
    case TableScan(_, _, _) => true
    case FilterScan(_, input, cond) => Compilable(input) && WellCalled(cond)
    case ProjectScan(cols, input, computed) =>
      && Compilable(input)
      && forall i :: 0 <= i < |cols| ==>
           ComputedFor(computed, cols[i].id).Some? ==> WellCalled(ComputedFor(computed, cols[i].id).value)
    case JoinScan(_, _, left, right, on) =>
      Compilable(left) && Compilable(right) && (on.Some? ==> WellCalled(on.value))
    case LimitScan(_, input, count, offset) =>
      Compilable(input) && WellCalled(count) && (offset.Some? ==> WellCalled(offset.value))
    case SetOpScan(_, _, _, items) => forall i :: 0 <= i < |items| ==> QueryCompilable(items[i])
    case WithScan(_, entries, query, _) =>
      (forall i :: 0 <= i < |entries| ==> Compilable(entries[i].sub)) && Compilable(query)
    case WithRefScan(_, _) => true
  }

  ghost predicate QueryCompilable(q: Query)
    decreases q, 0
  {
    Compilable(q.source) && forall k :: 0 <= k < |q.outs| ==> WellCalled(q.outs[k].expr)
  }

  // ----- rows -----

  lemma {:induction false} MakeRowGet(cols: seq<Col>, vals: seq<Value>, i: nat)
    requires |cols| == |vals| && DistinctIds(cols) && i < |cols|
    ensures Get(MakeRow(cols, vals), cols[i].id) == vals[i]
  {
    var n := |cols| - 1;
    if i < n {
      MakeRowGet(cols[..n], vals[..n], i);
    }
  }

  lemma {:induction false} MakeRowKeys(cols: seq<Col>, vals: seq<Value>)
    requires |cols| == |vals|
    ensures forall id :: id in MakeRow(cols, vals) <==> Ids(cols, id)
  {
    if cols != [] {
      var n := |cols| - 1;
      MakeRowKeys(cols[..n], vals[..n]);
      assert cols == cols[..n] + [cols[n]];
      assert forall id :: Ids(cols, id) <==> Ids(cols[..n], id) || cols[n].id == id;
    }
  }
}
