/**
 The tree of sub-catalogs that serves as the lookup index (internal/catalog.go:527-617), as a value: which
 paths a table or a function can be found under after it has been added.
 */
module CatalogTree {
  import opened Wrappers

  type Path = seq<string>

  /** `typeOk` says whether the type can be converted. */
  datatype Column = Column(name: string, typeOk: bool)

  datatype Table = Table(name: string, columns: seq<Column>)

  datatype Function = Function(name: string, signature: string, aggregate: bool)

  datatype Node = Node(tables: map<string, Table>, functions: map<string, Function>, subs: map<string, Node>)

  const EMPTY_NODE: Node := Node(map[], map[], map[])

  /** `strings.Join`. */
  function Join(path: Path, sep: string): string {
    if path == [] then "" else if |path| == 1 then path[0] else path[0] + sep + Join(path[1..], sep)
  }

  // ----- lookup -----

  function FindTable(cat: Node, q: Path): Option<Table> {
    if q == [] then None
    else if |q| == 1 then (if q[0] in cat.tables then Some(cat.tables[q[0]]) else None)
    else if q[0] in cat.subs then FindTable(cat.subs[q[0]], q[1..])
    else None
  }

  function FindFunction(cat: Node, q: Path): Option<Function> {
    if q == [] then None
    else if |q| == 1 then (if q[0] in cat.functions then Some(cat.functions[q[0]]) else None)
    else if q[0] in cat.subs then FindFunction(cat.subs[q[0]], q[1..])
    else None
  }

  // ----- adding -----

  predicate ColumnsOk(columns: seq<Column>) {
    forall c :: c in columns ==> c.typeOk
  }

  function WithSub(cat: Node, name: string): (r: Node)
    ensures name in r.subs
  {
    if name in cat.subs then cat else cat.(subs := cat.subs[name := EMPTY_NODE])
  }

  /** Adds a table under a name that is free; false when a column's type cannot be converted. */
  function PutTable(cat: Node, name: string, columns: seq<Column>): (Node, bool) {
    if name in cat.tables then (cat, true)
    else if !ColumnsOk(columns) then (cat, false)
    else (cat.(tables := cat.tables[name := Table(name, columns)]), true)
  }

  /**
   `addTableSpecRecursive`, with the catalog as it is left and whether there was no error.  The rest of the path
   is added to the catalog itself and to the sub-catalog named by its first part; both descents are on a shorter path.
   */
  function AddTable(cat: Node, path: Path, columns: seq<Column>): (Node, bool)
    decreases |path|
  {
    if |path| > 1 then
      var put := PutTable(WithSub(cat, path[0]), Join(path, "."), columns);
      if !put.1 then put
      else
        var flat := AddTable(put.0, path[1..], columns);
        if !flat.1 then flat
        else
          var sub := AddTable(SubOf(flat.0, path[0]), path[1..], columns);
          (flat.0.(subs := flat.0.subs[path[0] := sub.0]), sub.1)
    else if path == [] then (cat, false)
    else PutTable(cat, path[0], columns)
  }

  function SubOf(cat: Node, name: string): Node {
    if name in cat.subs then cat.subs[name] else EMPTY_NODE
  }

  function PutFunction(cat: Node, name: string, f: Function, ok: bool): (Node, bool) {
    if name in cat.functions then (cat, true)
    else if !ok then (cat, false)
    else (cat.(functions := cat.functions[name := f.(name := name)]), true)
  }

  /** `addFunctionSpecRecursive`; the copies made for shorter paths forget that a function aggregates. */
  function AddFunction(cat: Node, path: Path, f: Function, ok: bool): (Node, bool)
    decreases |path|
  {
    if |path| > 1 then
      var flat := AddFunction(WithSub(cat, path[0]), path[1..], f.(aggregate := false), ok);
      if !flat.1 then flat
      else
        var sub := AddFunction(SubOf(flat.0, path[0]), path[1..], f.(aggregate := false), ok);
        (flat.0.(subs := flat.0.subs[path[0] := sub.0]), sub.1)
    else if path == [] then (cat, false)
    else PutFunction(cat, path[0], f, ok)
  }

  // ----- which paths a table is registered under -----

  /** Some of the path's leading names, then the rest of it joined by dots. */
  predicate Registers(p: Path, q: Path) {
    p != [] &&
    (q == [Join(p, ".")]
     || (|p| > 1 && Registers(p[1..], q))
     || (|p| > 1 && |q| > 1 && q[0] == p[0] && Registers(p[1..], q[1..])))
  }

  predicate Subsequence(u: Path, p: Path) {
    u == [] || (p != [] && (Subsequence(u, p[1..]) || (u[0] == p[0] && Subsequence(u[1..], p[1..]))))
  }

  ghost predicate Splits(p: Path, q: Path, k: nat) {
    k < |p| && q != [] && q[|q| - 1] == Join(p[k..], ".") && Subsequence(q[..|q| - 1], p[..k])
  }

  lemma {:induction false} SubsequenceLonger(u: Path, p: Path, x: string)
    requires Subsequence(u, p)
    ensures Subsequence(u, [x] + p)
  {
    assert ([x] + p)[1..] == p;
  }

  /** Exactly the paths made of a subsequence of the first k names and the rest joined, for some k. */
  lemma {:induction false} RegistersIff(p: Path, q: Path)
    ensures Registers(p, q) <==> exists k: nat :: Splits(p, q, k)
    decreases |p|
  {
    if p != [] {
      if Registers(p, q) {
        RegistersSplits(p, q);
      }
      if k: nat :| Splits(p, q, k) {
        SplitsRegisters(p, q, k);
      }
    }
  }

  lemma {:induction false} RegistersSplits(p: Path, q: Path)
    requires Registers(p, q)
    ensures exists k: nat :: Splits(p, q, k)
    decreases |p|
  {
    if q == [Join(p, ".")] {
      assert p[0..] == p && q[..0] == [];
      assert Splits(p, q, 0);
    } else if Registers(p[1..], q) {
      RegistersSplits(p[1..], q);
      var k: nat :| Splits(p[1..], q, k);
      assert p[1..][k..] == p[k + 1..] && p[..k + 1] == [p[0]] + p[1..][..k];
      SubsequenceLonger(q[..|q| - 1], p[1..][..k], p[0]);
      assert Splits(p, q, k + 1);
    } else {
      RegistersSplits(p[1..], q[1..]);
      var k: nat :| Splits(p[1..], q[1..], k);
      assert p[1..][k..] == p[k + 1..] && p[..k + 1][1..] == p[1..][..k];
      assert q[..|q| - 1][1..] == q[1..][..|q| - 2];
      assert Splits(p, q, k + 1);
    }
  }

  lemma {:induction false} SplitsRegisters(p: Path, q: Path, k: nat)
    requires Splits(p, q, k)
    ensures Registers(p, q)
    decreases |p|
  {
    var u := q[..|q| - 1];
    if k == 0 {
      assert p[..0] == [] && p[0..] == p;
      assert u == [] && q == u + [q[|q| - 1]];
    } else {
      assert p[..k][1..] == p[1..][..k - 1] && p[1..][k - 1..] == p[k..];
      if Subsequence(u, p[1..][..k - 1]) {
        assert Splits(p[1..], q, k - 1);
        SplitsRegisters(p[1..], q, k - 1);
      } else {
        assert q[1..][..|q| - 2] == u[1..];
        assert Splits(p[1..], q[1..], k - 1);
        SplitsRegisters(p[1..], q[1..], k - 1);
      }
    }
  }

  /** In particular, every subsequence of the path that ends in its last name. */
  lemma SubsequencesRegister(p: Path, u: Path)
    requires p != [] && Subsequence(u, p[..|p| - 1])
    ensures Registers(p, u + [p[|p| - 1]])
  {
    var q := u + [p[|p| - 1]];
    assert q[..|q| - 1] == u;
    assert p[|p| - 1..] == [p[|p| - 1]];
    assert Splits(p, q, |p| - 1);
    SplitsRegisters(p, q, |p| - 1);
  }

  // ----- what is found afterwards -----

  /** What was found before is still found; the table's own paths lead to it if they were free. */
  function Found(before: Option<Table>, columns: seq<Column>, registered: bool, q: Path): Option<Table> {
    if before.Some? || !registered || !ColumnsOk(columns) || q == [] then before
    else Some(Table(q[|q| - 1], columns))
  }

  lemma FindInEmpty(q: Path)
    ensures FindTable(EMPTY_NODE, q) == None && FindFunction(EMPTY_NODE, q) == None
  {
  }

  lemma WithSubFinds(cat: Node, name: string, q: Path)
    ensures FindTable(WithSub(cat, name), q) == FindTable(cat, q)
    ensures FindFunction(WithSub(cat, name), q) == FindFunction(cat, q)
  {
    if |q| > 1 {
      FindInEmpty(q[1..]);
    }
  }

  lemma PutFinds(cat: Node, name: string, columns: seq<Column>, q: Path)
    ensures FindTable(PutTable(cat, name, columns).0, q) == Found(FindTable(cat, q), columns, q == [name], q)
    ensures FindFunction(PutTable(cat, name, columns).0, q) == FindFunction(cat, q)
  {
  }

  lemma ReplacedSub(cat: Node, name: string, sub: Node, q: Path)
    ensures FindTable(cat.(subs := cat.subs[name := sub]), q)
         == if |q| > 1 && q[0] == name then FindTable(sub, q[1..]) else FindTable(cat, q)
    ensures FindFunction(cat.(subs := cat.subs[name := sub]), q)
         == if |q| > 1 && q[0] == name then FindFunction(sub, q[1..]) else FindFunction(cat, q)
  {
  }

  lemma SubFinds(cat: Node, name: string, q: Path)
    requires |q| > 1 && q[0] == name
    ensures FindTable(SubOf(cat, name), q[1..]) == FindTable(cat, q)
    ensures FindFunction(SubOf(cat, name), q[1..]) == FindFunction(cat, q)
  {
    FindInEmpty(q[1..]);
  }

  /** Adding a table changes lookups in exactly one way: its free paths now lead to it. */
  lemma {:induction false} AddTableFinds(cat: Node, path: Path, columns: seq<Column>, q: Path)
    ensures FindTable(AddTable(cat, path, columns).0, q) == Found(FindTable(cat, q), columns, Registers(path, q), q)
    ensures FindFunction(AddTable(cat, path, columns).0, q) == FindFunction(cat, q)
    ensures AddTable(cat, path, columns).1 <== path != [] && ColumnsOk(columns)
    decreases |path|
  {
    if |path| > 1 {
      var h, tail := path[0], path[1..];
      var put := PutTable(WithSub(cat, h), Join(path, "."), columns);
      WithSubFinds(cat, h, q);
      PutFinds(WithSub(cat, h), Join(path, "."), columns, q);
      if put.1 {
        var flat := AddTable(put.0, tail, columns);
        AddTableFinds(put.0, tail, columns, q);
        if flat.1 {
          var sub := AddTable(SubOf(flat.0, h), tail, columns);
          AddTableFinds(SubOf(flat.0, h), tail, columns, if |q| > 1 then q[1..] else []);
          ReplacedSub(flat.0, h, sub.0, q);
          if |q| > 1 && q[0] == h {
            SubFinds(flat.0, h, q);
          }
        }
      }
    } else if |path| == 1 {
      PutFinds(cat, path[0], columns, q);
    }
  }

  /** Every path the table would be registered under is taken. */
  ghost predicate AllTaken(cat: Node, path: Path) {
    forall q :: Registers(path, q) ==> FindTable(cat, q).Some?
  }

  lemma {:induction false} RegistersNonEmpty(p: Path, q: Path)
    requires Registers(p, q)
    ensures q != []
    decreases |p|
  {
    if q != [Join(p, ".")] && Registers(p[1..], q) {
      RegistersNonEmpty(p[1..], q);
    }
  }

  lemma TakenBelow(cat: Node, path: Path, flat: Node)
    requires |path| > 1 && forall q :: FindTable(flat, q) == FindTable(cat, q)
    ensures AllTaken(cat, path) <==>
      && Join(path, ".") in cat.tables
      && AllTaken(cat, path[1..])
      && AllTaken(SubOf(flat, path[0]), path[1..])
  {
    var h, tail, sub := path[0], path[1..], SubOf(flat, path[0]);
    forall q | Registers(tail, q)
      ensures q != [] && FindTable(sub, q) == FindTable(cat, [h] + q) && Registers(path, [h] + q)
    {
      RegistersNonEmpty(tail, q);
      assert ([h] + q)[1..] == q;
      SubFinds(flat, h, [h] + q);
    }
    if AllTaken(cat, path) {
      assert FindTable(cat, [Join(path, ".")]).Some?;
    } else if Join(path, ".") in cat.tables && AllTaken(cat, tail) && AllTaken(sub, tail) {
      forall q | Registers(path, q)
        ensures FindTable(cat, q).Some?
      {
        if |q| > 1 && q[0] == h && Registers(tail, q[1..]) {
          SubFinds(flat, h, q);
        }
      }
    }
  }

  /** A column that cannot be converted is an error exactly when there is something to register. */
  lemma {:induction false} AddTableOkIff(cat: Node, path: Path, columns: seq<Column>)
    requires path != [] && !ColumnsOk(columns)
    ensures AddTable(cat, path, columns).1 <==> AllTaken(cat, path)
    decreases |path|
  {
    if |path| > 1 {
      var h, tail := path[0], path[1..];
      var with := WithSub(cat, h);
      var flat := AddTable(with, tail, columns);
      forall q
        ensures FindTable(with, q) == FindTable(cat, q) && FindTable(flat.0, q) == FindTable(cat, q)
      {
        WithSubFinds(cat, h, q);
        AddTableFinds(with, tail, columns, q);
      }
      AddTableOkIff(with, tail, columns);
      AddTableOkIff(SubOf(flat.0, h), tail, columns);
      TakenBelow(cat, path, flat.0);
      assert AllTaken(with, tail) <==> AllTaken(cat, tail);
    } else {
      assert Registers(path, [path[0]]);
      assert forall q :: Registers(path, q) <==> q == [path[0]];
    }
  }

  // ----- functions -----

  /** A subsequence of the path that ends in its last name. */
  predicate RegistersFunction(p: Path, q: Path) {
    if |p| <= 1 then p != [] && q == p
    else RegistersFunction(p[1..], q) || (|q| > 1 && q[0] == p[0] && RegistersFunction(p[1..], q[1..]))
  }

  function FoundFunction(before: Option<Function>, f: Function, ok: bool, registered: bool, q: Path): Option<Function> {
    if before.Some? || !registered || !ok || q == [] then before else Some(f.(name := q[|q| - 1]))
  }

  /** What is registered for a path of more than one name never aggregates. */
  function Registered(p: Path, f: Function): Function {
    if |p| == 1 then f else f.(aggregate := false)
  }

  lemma {:induction false} AddFunctionFinds(cat: Node, path: Path, f: Function, ok: bool, q: Path)
    ensures FindFunction(AddFunction(cat, path, f, ok).0, q)
         == FoundFunction(FindFunction(cat, q), Registered(path, f), ok, RegistersFunction(path, q), q)
    ensures FindTable(AddFunction(cat, path, f, ok).0, q) == FindTable(cat, q)
    ensures AddFunction(cat, path, f, ok).1 <== path != [] && ok
    decreases |path|
  {
    if |path| > 1 {
      var h, tail, g := path[0], path[1..], f.(aggregate := false);
      WithSubFinds(cat, h, q);
      var flat := AddFunction(WithSub(cat, h), tail, g, ok);
      AddFunctionFinds(WithSub(cat, h), tail, g, ok, q);
      if flat.1 {
        var sub := AddFunction(SubOf(flat.0, h), tail, g, ok);
        AddFunctionFinds(SubOf(flat.0, h), tail, g, ok, if |q| > 1 then q[1..] else []);
        ReplacedSub(flat.0, h, sub.0, q);
        if |q| > 1 && q[0] == h {
          SubFinds(flat.0, h, q);
        }
      }
    }
  }

  /** Every path the function would be registered under is taken. */
  ghost predicate AllTakenFunction(cat: Node, path: Path) {
    forall q :: RegistersFunction(path, q) ==> FindFunction(cat, q).Some?
  }

  lemma {:induction false} RegistersFunctionNonEmpty(p: Path, q: Path)
    requires RegistersFunction(p, q)
    ensures q != []
    decreases |p|
  {
    if |p| > 1 && RegistersFunction(p[1..], q) {
      RegistersFunctionNonEmpty(p[1..], q);
    }
  }

  lemma TakenFunctionBelow(cat: Node, path: Path, flat: Node)
    requires |path| > 1 && forall q :: FindFunction(flat, q) == FindFunction(cat, q)
    ensures AllTakenFunction(cat, path) <==>
      AllTakenFunction(cat, path[1..]) && AllTakenFunction(SubOf(flat, path[0]), path[1..])
  {
    var h, tail, sub := path[0], path[1..], SubOf(flat, path[0]);
    forall q | RegistersFunction(tail, q)
      ensures q != [] && FindFunction(sub, q) == FindFunction(cat, [h] + q) && RegistersFunction(path, [h] + q)
    {
      RegistersFunctionNonEmpty(tail, q);
      assert ([h] + q)[1..] == q;
      SubFinds(flat, h, [h] + q);
    }
    if AllTakenFunction(cat, tail) && AllTakenFunction(sub, tail) {
      forall q | RegistersFunction(path, q)
        ensures FindFunction(cat, q).Some?
      {
        if |q| > 1 && q[0] == h && RegistersFunction(tail, q[1..]) {
          SubFinds(flat, h, q);
        }
      }
    }
  }

  /** A type that cannot be converted is an error exactly when there is something to register. */
  lemma {:induction false} AddFunctionOkIff(cat: Node, path: Path, f: Function)
    requires path != []
    ensures AddFunction(cat, path, f, false).1 <==> AllTakenFunction(cat, path)
    decreases |path|
  {
    if |path| > 1 {
      var h, tail, g := path[0], path[1..], f.(aggregate := false);
      var with := WithSub(cat, h);
      var flat := AddFunction(with, tail, g, false);
      forall q
        ensures FindFunction(with, q) == FindFunction(cat, q) && FindFunction(flat.0, q) == FindFunction(cat, q)
      {
        WithSubFinds(cat, h, q);
        AddFunctionFinds(with, tail, g, false, q);
      }
      AddFunctionOkIff(with, tail, g);
      AddFunctionOkIff(SubOf(flat.0, h), tail, g);
      TakenFunctionBelow(cat, path, flat.0);
      assert AllTakenFunction(with, tail) <==> AllTakenFunction(cat, tail);
    } else {
      assert path == [path[0]];
      assert RegistersFunction(path, path);
    }
  }

  lemma {:induction false} RegistersFunctionIff(p: Path, q: Path)
    ensures RegistersFunction(p, q) <==>
      p != [] && q != [] && q[|q| - 1] == p[|p| - 1] && Subsequence(q[..|q| - 1], p[..|p| - 1])
    decreases |p|
  {
    if |p| > 1 {
      RegistersFunctionIff(p[1..], q);
      assert p[..|p| - 1][1..] == p[1..][..|p| - 2];
      if |q| > 1 {
        RegistersFunctionIff(p[1..], q[1..]);
        assert q[..|q| - 1][1..] == q[1..][..|q| - 2];
      }
    } else if |p| == 1 && q != [] {
      assert p[..0] == [];
      assert q[..|q| - 1] == [] ==> q == [q[0]];
      assert p == [p[0]];
    }
  }
}
