/**
 The catalog (internal/catalog.go:359-525): lists of table and function specs, a map from each kind's names, and
 the lookup tree, which is extended on every addition and rebuilt on every deletion.
 */
module Catalogs {
  import opened Wrappers
  import opened CatalogTree

  /** A named table or function: its path, and what it defines. */
  datatype Spec<D> = Spec(path: Path, def: D)

  type TableSpec = Spec<seq<Column>>

  /** A function's types may turn out not to be convertible. */
  datatype Signature = Signature(f: Function, typesOk: bool)

  type FunctionSpec = Spec<Signature>

  /** `formatPath`: names joined by underscores, so different paths may have the same name. */
  function NameOf(path: Path): string {
    Join(path, "_")
  }

  function Names<D>(specs: seq<Spec<D>>): (names: seq<string>)
    ensures |names| == |specs| && forall i :: 0 <= i < |specs| ==> names[i] == NameOf(specs[i].path)
  {
    seq(|specs|, i requires 0 <= i < |specs| => NameOf(specs[i].path))
  }

  ghost predicate Distinct(names: seq<string>) {
    forall i, j :: 0 <= i < j < |names| ==> names[i] != names[j]
  }

  /** The map's keys are exactly the list's names, each listed once. */
  ghost predicate Keys(names: seq<string>, keys: set<string>) {
    Distinct(names) && forall n :: n in keys <==> n in names
  }

  // ----- what lookups should find -----

  /** The first listed table that is registered under the path. */
  function FirstTable(specs: seq<TableSpec>, q: Path): Option<Table> {
    if specs == [] || q == [] then None
    else if Registers(specs[0].path, q) && ColumnsOk(specs[0].def) then Some(Table(q[|q| - 1], specs[0].def))
    else FirstTable(specs[1..], q)
  }

  function FirstFunction(specs: seq<FunctionSpec>, q: Path): Option<Function> {
    if specs == [] || q == [] then None
    else if RegistersFunction(specs[0].path, q) && specs[0].def.typesOk then
      Some(Registered(specs[0].path, specs[0].def.f).(name := q[|q| - 1]))
    else FirstFunction(specs[1..], q)
  }

  lemma {:induction false} FirstTableSnoc(specs: seq<TableSpec>, s: TableSpec, q: Path)
    ensures FirstTable(specs + [s], q) == Found(FirstTable(specs, q), s.def, Registers(s.path, q), q)
  {
    if specs == [] {
      assert specs + [s] == [s] && [s][1..] == [];
    } else {
      FirstTableSnoc(specs[1..], s, q);
      assert (specs + [s])[1..] == specs[1..] + [s];
    }
  }

  lemma {:induction false} FirstFunctionSnoc(specs: seq<FunctionSpec>, s: FunctionSpec, q: Path)
    ensures FirstFunction(specs + [s], q)
         == FoundFunction(FirstFunction(specs, q), Registered(s.path, s.def.f), s.def.typesOk,
                          RegistersFunction(s.path, q), q)
  {
    if specs == [] {
      assert specs + [s] == [s] && [s][1..] == [];
    } else {
      FirstFunctionSnoc(specs[1..], s, q);
      assert (specs + [s])[1..] == specs[1..] + [s];
    }
  }

  ghost predicate Finds(tree: Node, tables: seq<TableSpec>, functions: seq<FunctionSpec>) {
    forall q :: FindTable(tree, q) == FirstTable(tables, q) && FindFunction(tree, q) == FirstFunction(functions, q)
  }

  lemma FindsAfterTable(tree: Node, tables: seq<TableSpec>, functions: seq<FunctionSpec>, s: TableSpec)
    requires Finds(tree, tables, functions)
    ensures Finds(AddTable(tree, s.path, s.def).0, tables + [s], functions)
  {
    forall q
      ensures FindTable(AddTable(tree, s.path, s.def).0, q) == FirstTable(tables + [s], q)
      ensures FindFunction(AddTable(tree, s.path, s.def).0, q) == FirstFunction(functions, q)
    {
      AddTableFinds(tree, s.path, s.def, q);
      FirstTableSnoc(tables, s, q);
    }
  }

  lemma FindsAfterFunction(tree: Node, tables: seq<TableSpec>, functions: seq<FunctionSpec>, s: FunctionSpec)
    requires Finds(tree, tables, functions)
    ensures Finds(AddFunction(tree, s.path, s.def.f, s.def.typesOk).0, tables, functions + [s])
  {
    forall q
      ensures FindFunction(AddFunction(tree, s.path, s.def.f, s.def.typesOk).0, q) == FirstFunction(functions + [s], q)
      ensures FindTable(AddFunction(tree, s.path, s.def.f, s.def.typesOk).0, q) == FirstTable(tables, q)
    {
      AddFunctionFinds(tree, s.path, s.def.f, s.def.typesOk, q);
      FirstFunctionSnoc(functions, s, q);
    }
  }

  lemma FindsEmpty()
    ensures Finds(EMPTY_NODE, [], [])
  {
    forall q: Path
      ensures FindTable(EMPTY_NODE, q) == None && FindFunction(EMPTY_NODE, q) == None
    {
      FindInEmpty(q);
    }
  }

  // ----- rebuilding from scratch -----

  function BuildTables(tables: seq<TableSpec>): Node {
    if tables == [] then EMPTY_NODE
    else
      var n := |tables| - 1;
      AddTable(BuildTables(tables[..n]), tables[n].path, tables[n].def).0
  }

  function Build(tables: seq<TableSpec>, functions: seq<FunctionSpec>): Node {
    if functions == [] then BuildTables(tables)
    else
      var n := |functions| - 1;
      AddFunction(Build(tables, functions[..n]), functions[n].path, functions[n].def.f, functions[n].def.typesOk).0
  }

  lemma {:induction false} BuildFinds(tables: seq<TableSpec>, functions: seq<FunctionSpec>)
    ensures Finds(Build(tables, functions), tables, functions)
    decreases |tables| + |functions|
  {
    if functions != [] {
      var n := |functions| - 1;
      BuildFinds(tables, functions[..n]);
      assert functions == functions[..n] + [functions[n]];
      FindsAfterFunction(Build(tables, functions[..n]), tables, functions[..n], functions[n]);
    } else if tables != [] {
      var n := |tables| - 1;
      BuildFinds(tables[..n], []);
      assert tables == tables[..n] + [tables[n]];
      FindsAfterTable(BuildTables(tables[..n]), tables[..n], [], tables[n]);
    } else {
      FindsEmpty();
    }
  }

  // ----- lists and maps -----

  /** Whether a listed table can be added after those before it: its columns convert, or nothing is left to register. */
  ghost predicate TableAdds(specs: seq<TableSpec>, i: nat)
    requires i < |specs|
  {
    && specs[i].path != []
    && (ColumnsOk(specs[i].def) || forall q :: Registers(specs[i].path, q) ==> FirstTable(specs[..i], q).Some?)
  }

  ghost predicate FunctionAdds(specs: seq<FunctionSpec>, i: nat)
    requires i < |specs|
  {
    && specs[i].path != []
    && (specs[i].def.typesOk
        || forall q :: RegistersFunction(specs[i].path, q) ==> FirstFunction(specs[..i], q).Some?)
  }

  /** How many flags are set before the first that is not. */
  function Leading(flags: seq<bool>): (k: nat)
    ensures k <= |flags| && (forall i :: 0 <= i < k ==> flags[i]) && (k < |flags| ==> !flags[k])
  {
    if flags == [] || !flags[0] then 0 else 1 + Leading(flags[1..])
  }

  ghost function TableFlags(specs: seq<TableSpec>): (flags: seq<bool>)
    ensures |flags| == |specs| && forall i :: 0 <= i < |flags| ==> flags[i] == TableAdds(specs, i)
  {
    seq(|specs|, i requires 0 <= i < |specs| => TableAdds(specs, i))
  }

  ghost function FunctionFlags(specs: seq<FunctionSpec>): (flags: seq<bool>)
    ensures |flags| == |specs| && forall i :: 0 <= i < |flags| ==> flags[i] == FunctionAdds(specs, i)
  {
    seq(|specs|, i requires 0 <= i < |specs| => FunctionAdds(specs, i))
  }

  /** How many of the tables are added before one fails. */
  ghost function TablesAdded(specs: seq<TableSpec>): (k: nat)
    ensures k <= |specs| && (forall i :: 0 <= i < k ==> TableAdds(specs, i)) && (k < |specs| ==> !TableAdds(specs, k))
  {
    Leading(TableFlags(specs))
  }

  ghost function FunctionsAdded(specs: seq<FunctionSpec>): (k: nat)
    ensures k <= |specs|
    ensures (forall i :: 0 <= i < k ==> FunctionAdds(specs, i)) && (k < |specs| ==> !FunctionAdds(specs, k))
  {
    Leading(FunctionFlags(specs))
  }

  ghost predicate AllAdd(tables: seq<TableSpec>, functions: seq<FunctionSpec>) {
    TablesAdded(tables) == |tables| && FunctionsAdded(functions) == |functions|
  }

  /** The specs up to and including the first that fails. */
  function UpTo<T>(specs: seq<T>, added: nat): seq<T> {
    if added < |specs| then specs[..added + 1] else specs
  }

  /** What a rebuild from the lists leaves listed: a table that fails is the last, and no function follows it. */
  ghost function TablesLeft(tables: seq<TableSpec>): seq<TableSpec> {
    UpTo(tables, TablesAdded(tables))
  }

  ghost function FunctionsLeft(tables: seq<TableSpec>, functions: seq<FunctionSpec>): seq<FunctionSpec> {
    if TablesAdded(tables) < |tables| then [] else UpTo(functions, FunctionsAdded(functions))
  }

  lemma DistinctFront(names: seq<string>, front: seq<string>, last: string)
    requires Distinct(names) && names == front + [last]
    ensures Distinct(front) && last !in front
  {
    assert forall i :: 0 <= i < |front| ==> front[i] == names[i];
    assert names[|front|] == last;
  }

  function MapOf<D>(specs: seq<Spec<D>>): map<string, Spec<D>> {
    if specs == [] then map[]
    else
      var n := |specs| - 1;
      MapOf(specs[..n])[NameOf(specs[n].path) := specs[n]]
  }

  lemma {:induction false} MapKeys<D>(specs: seq<Spec<D>>)
    requires Distinct(Names(specs))
    ensures Keys(Names(specs), MapOf(specs).Keys)
    ensures forall s :: s in specs ==> NameOf(s.path) in MapOf(specs) && MapOf(specs)[NameOf(s.path)] == s
  {
    if specs != [] {
      var front, s := specs[..|specs| - 1], specs[|specs| - 1];
      assert specs == front + [s];
      assert Names(specs) == Names(front) + [NameOf(s.path)];
      DistinctFront(Names(specs), Names(front), NameOf(s.path));
      MapKeys(front);
    }
  }

  lemma Listed<D>(specs: seq<Spec<D>>, name: string)
    ensures name in Names(specs) <==> exists s :: s in specs && NameOf(s.path) == name
  {
    if name in Names(specs) {
      var i :| 0 <= i < |specs| && Names(specs)[i] == name;
      assert specs[i] in specs;
    }
    if s :| s in specs && NameOf(s.path) == name {
      var i :| 0 <= i < |specs| && specs[i] == s;
      assert Names(specs)[i] == name;
    }
  }

  /** Rebuilding the map keeps a spec exactly when it is the listed one, not one that replaced it later. */
  lemma RebuiltMapKeeps<D>(specs: seq<Spec<D>>, m: map<string, Spec<D>>, name: string)
    requires Keys(Names(specs), m.Keys) && name in m && NameOf(m[name].path) == name
    ensures name in MapOf(specs)
    ensures MapOf(specs)[name] == m[name] <==> m[name] in specs
  {
    MapKeys(specs);
    Listed(specs, name);
    var s :| s in specs && NameOf(s.path) == name;
    assert MapOf(specs)[name] == s;
  }

  function Without<D>(specs: seq<Spec<D>>, name: string): seq<Spec<D>> {
    if specs == [] then []
    else
      var n := |specs| - 1;
      Without(specs[..n], name) + (if NameOf(specs[n].path) == name then [] else [specs[n]])
  }

  lemma {:induction false} WithoutMembers<D>(specs: seq<Spec<D>>, name: string)
    ensures forall s :: s in Without(specs, name) <==> s in specs && NameOf(s.path) != name
  {
    if specs != [] {
      WithoutMembers(specs[..|specs| - 1], name);
      assert specs == specs[..|specs| - 1] + [specs[|specs| - 1]];
    }
  }

  lemma DistinctSnoc(front: seq<string>, last: string)
    requires Distinct(front) && last !in front
    ensures Distinct(front + [last])
  {
  }

  lemma {:induction false} WithoutNames<D>(specs: seq<Spec<D>>, name: string)
    ensures forall n :: n in Names(Without(specs, name)) <==> n in Names(specs) && n != name
  {
    if specs != [] {
      var front, s := specs[..|specs| - 1], specs[|specs| - 1];
      WithoutNames(front, name);
      assert specs == front + [s];
      assert Names(specs) == Names(front) + [NameOf(s.path)];
      if NameOf(s.path) != name {
        assert Names(Without(front, name) + [s]) == Names(Without(front, name)) + [NameOf(s.path)];
      } else {
        assert Without(specs, name) == Without(front, name);
      }
    }
  }

  /** A deletion removes exactly one name, and every other listed spec stays. */
  lemma {:induction false} WithoutOne<D>(specs: seq<Spec<D>>, name: string)
    requires Distinct(Names(specs))
    ensures Distinct(Names(Without(specs, name)))
    ensures |Without(specs, name)| == |specs| - (if name in Names(specs) then 1 else 0)
  {
    if specs != [] {
      var front, s := specs[..|specs| - 1], specs[|specs| - 1];
      assert specs == front + [s];
      assert Names(specs) == Names(front) + [NameOf(s.path)];
      DistinctFront(Names(specs), Names(front), NameOf(s.path));
      WithoutOne(front, name);
      WithoutNames(front, name);
      WithoutLast(front, s, name);
    }
  }

  lemma WithoutLast<D>(front: seq<Spec<D>>, s: Spec<D>, name: string)
    requires Distinct(Names(Without(front, name))) && NameOf(s.path) !in Names(Without(front, name))
    ensures Distinct(Names(Without(front + [s], name)))
    ensures |Without(front + [s], name)| == |Without(front, name)| + (if NameOf(s.path) == name then 0 else 1)
  {
    var kept := Without(front, name);
    assert (front + [s])[..|front|] == front;
    if NameOf(s.path) != name {
      assert Without(front + [s], name) == kept + [s];
      DistinctSnoc(Names(kept), NameOf(s.path));
      assert Names(kept + [s]) == Names(kept) + [NameOf(s.path)];
    } else {
      assert Without(front + [s], name) == kept;
    }
  }

  lemma KeysSnoc(names: seq<string>, keys: set<string>, name: string)
    requires Keys(names, keys) && name !in keys
    ensures Keys(names + [name], keys + {name})
  {
  }

  lemma RebuiltKeys<D>(specs: seq<Spec<D>>, m: map<string, Spec<D>>)
    requires Keys(Names(specs), m.Keys)
    ensures Distinct(Names(specs)) && MapOf(specs).Keys == m.Keys
  {
    MapKeys(specs);
  }

  lemma RemainingKeys<D>(specs: seq<Spec<D>>, m: map<string, Spec<D>>, name: string)
    requires Keys(Names(specs), m.Keys)
    ensures Distinct(Names(Without(specs, name))) && MapOf(Without(specs, name)).Keys == m.Keys - {name}
  {
    WithoutOne(specs, name);
    WithoutNames(specs, name);
    MapKeys(Without(specs, name));
  }

  /** The specs of all other names. */
  method Remaining<D>(specs: seq<Spec<D>>, specName: string) returns (rest: seq<Spec<D>>)
    ensures rest == Without(specs, specName)
  {
    rest := [];
    for i := 0 to |specs|
      invariant rest == Without(specs[..i], specName)
    {
      assert specs[..i + 1][..i] == specs[..i];
      if specName != NameOf(specs[i].path) {
        rest := rest + [specs[i]];
      }
    }
    assert specs[..|specs|] == specs;
  }

  // ----- the catalog -----

  class Catalog {
    var tables: seq<TableSpec>
    var functions: seq<FunctionSpec>
    var tableMap: map<string, TableSpec>
    var funcMap: map<string, FunctionSpec>
    var tree: Node

    /** Maps match lists, and the tree finds what the lists say. */
    ghost predicate Valid()
      reads this
    {
      && Keys(Names(tables), tableMap.Keys) && Keys(Names(functions), funcMap.Keys)
      && (forall n :: n in tableMap ==> NameOf(tableMap[n].path) == n)
      && (forall n :: n in funcMap ==> NameOf(funcMap[n].path) == n)
      && Finds(tree, tables, functions)
    }

    constructor ()
      ensures Valid() && tables == [] && functions == [] && tableMap == map[] && funcMap == map[]
    {
      tables, functions, tableMap, funcMap, tree := [], [], map[], map[], EMPTY_NODE;
      new;
      FindsEmpty();
    }

    /** A name already known only has its spec replaced in the map: the list and the tree keep the old one. */
    method AddTableSpec(spec: TableSpec) returns (ok: bool)
      requires Valid()
      modifies this
      ensures Valid()
      ensures tableMap == old(tableMap)[NameOf(spec.path) := spec]
      ensures functions == old(functions) && funcMap == old(funcMap)
      ensures NameOf(spec.path) in old(tableMap) ==> ok && tables == old(tables) && tree == old(tree)
      ensures NameOf(spec.path) !in old(tableMap) ==>
        && tables == old(tables) + [spec]
        && (tree, ok) == AddTable(old(tree), spec.path, spec.def)
      ensures ok <==>
        || NameOf(spec.path) in old(tableMap)
        || (spec.path != [] && (ColumnsOk(spec.def) || AllTaken(old(tree), spec.path)))
    {
      var name := NameOf(spec.path);
      if name in tableMap {
        tableMap := tableMap[name := spec];
        return true;
      }
      KeysSnoc(Names(tables), tableMap.Keys, name);
      FindsAfterTable(tree, tables, functions, spec);
      AddTableFinds(tree, spec.path, spec.def, []);
      if spec.path != [] && !ColumnsOk(spec.def) {
        AddTableOkIff(tree, spec.path, spec.def);
      }
      assert Names(tables + [spec]) == Names(tables) + [name];
      tables := tables + [spec];
      tableMap := tableMap[name := spec];
      var r := AddTable(tree, spec.path, spec.def);
      tree := r.0;
      return r.1;
    }

    method AddFunctionSpec(spec: FunctionSpec) returns (ok: bool)
      requires Valid()
      modifies this
      ensures Valid()
      ensures funcMap == old(funcMap)[NameOf(spec.path) := spec]
      ensures tables == old(tables) && tableMap == old(tableMap)
      ensures NameOf(spec.path) in old(funcMap) ==> ok && functions == old(functions) && tree == old(tree)
      ensures NameOf(spec.path) !in old(funcMap) ==>
        && functions == old(functions) + [spec]
        && (tree, ok) == AddFunction(old(tree), spec.path, spec.def.f, spec.def.typesOk)
      ensures ok <==>
        || NameOf(spec.path) in old(funcMap)
        || (spec.path != [] && (spec.def.typesOk || AllTakenFunction(old(tree), spec.path)))
    {
      var name := NameOf(spec.path);
      if name in funcMap {
        funcMap := funcMap[name := spec];
        return true;
      }
      KeysSnoc(Names(functions), funcMap.Keys, name);
      FindsAfterFunction(tree, tables, functions, spec);
      AddFunctionFinds(tree, spec.path, spec.def.f, spec.def.typesOk, []);
      if spec.path != [] && !spec.def.typesOk {
        AddFunctionOkIff(tree, spec.path, spec.def.f);
      }
      assert Names(functions + [spec]) == Names(functions) + [name];
      functions := functions + [spec];
      funcMap := funcMap[name := spec];
      var r := AddFunction(tree, spec.path, spec.def.f, spec.def.typesOk);
      tree := r.0;
      return r.1;
    }

    /** Starts over and adds the given specs again; the first that fails ends it, listed itself. */
    method ResetCatalog(ts: seq<TableSpec>, fs: seq<FunctionSpec>) returns (ok: bool)
      requires Distinct(Names(ts)) && Distinct(Names(fs))
      modifies this
      ensures Valid()
      ensures ok <==> AllAdd(ts, fs)
      ensures tables == TablesLeft(ts) && functions == FunctionsLeft(ts, fs)
      ensures tableMap == MapOf(tables) && funcMap == MapOf(functions)
    {
      tree, tables, functions, tableMap, funcMap := EMPTY_NODE, [], [], map[], map[];
      FindsEmpty();
      ok := AddTables(ts);
      if ok {
        ok := AddFunctions(fs);
      }
    }

    method AddTables(ts: seq<TableSpec>) returns (ok: bool)
      requires Valid() && tables == [] && functions == [] && tableMap == map[] && funcMap == map[]
      requires Distinct(Names(ts))
      modifies this
      ensures Valid() && functions == [] && funcMap == map[]
      ensures ok <==> TablesAdded(ts) == |ts|
      ensures tables == TablesLeft(ts) && tableMap == MapOf(tables)
    {
      hide Finds, NameOf, TableAdds, TablesLeft, TablesAdded, Keys, AddTable, AllTaken, ColumnsOk, Names, Distinct;
      assert ts[..0] == [];
      for i := 0 to |ts|
        invariant Valid() && functions == [] && funcMap == map[]
        invariant tables == ts[..i] && tableMap == MapOf(ts[..i])
        invariant forall j :: 0 <= j < i ==> TableAdds(ts, j)
      {
        NewName(ts, i, tableMap.Keys);
        assert ts[..i + 1] == ts[..i] + [ts[i]] && ts[..i + 1][..i] == ts[..i];
        TableAddsIff(tree, ts, i, functions);
        var added := AddTableSpec(ts[i]);
        if !added {
          TablesAddedIs(ts, i);
          return false;
        }
      }
      TablesAddedIs(ts, |ts|);
      assert ts[..|ts|] == ts;
      return true;
    }

    method AddFunctions(fs: seq<FunctionSpec>) returns (ok: bool)
      requires Valid() && functions == [] && funcMap == map[] && Distinct(Names(fs))
      modifies this
      ensures Valid() && tables == old(tables) && tableMap == old(tableMap)
      ensures ok <==> FunctionsAdded(fs) == |fs|
      ensures functions == UpTo(fs, FunctionsAdded(fs)) && funcMap == MapOf(functions)
    {
      hide Finds, NameOf, FunctionAdds, FunctionsAdded, Keys;
      assert fs[..0] == [];
      for i := 0 to |fs|
        invariant Valid() && tables == old(tables) && tableMap == old(tableMap)
        invariant functions == fs[..i] && funcMap == MapOf(fs[..i])
        invariant forall j :: 0 <= j < i ==> FunctionAdds(fs, j)
      {
        NewName(fs, i, funcMap.Keys);
        assert fs[..i + 1] == fs[..i] + [fs[i]] && fs[..i + 1][..i] == fs[..i];
        FunctionAddsIff(tree, tables, fs, i);
        var added := AddFunctionSpec(fs[i]);
        if !added {
          FunctionsAddedIs(fs, i);
          return false;
        }
      }
      FunctionsAddedIs(fs, |fs|);
      assert fs[..|fs|] == fs;
      return true;
    }

    /** The rebuild after a deletion keeps exactly what a rebuild of the remaining lists keeps. */
    method DeleteTableSpecByName(name: string) returns (r: Result<()>)
      requires Valid()
      modifies this
      ensures Valid()
      ensures name !in old(tableMap) ==>
        && r.Err? && tables == old(tables) && functions == old(functions)
        && tableMap == old(tableMap) && funcMap == old(funcMap) && tree == old(tree)
      ensures r.Ok? <==> name in old(tableMap) && AllAdd(Without(old(tables), name), old(functions))
      ensures name in old(tableMap) ==>
        && tables == TablesLeft(Without(old(tables), name))
        && functions == FunctionsLeft(Without(old(tables), name), old(functions))
        && tableMap == MapOf(tables) && funcMap == MapOf(functions)
      ensures r.Ok? ==>
        && tables == Without(old(tables), name) && functions == old(functions)
        && tableMap.Keys == old(tableMap).Keys - {name} && funcMap.Keys == old(funcMap).Keys
    {
      hide Finds, NameOf, AllAdd, Keys, Distinct, MapOf, Without, TablesLeft, FunctionsLeft;
      if name !in tableMap {
        return Err("failed to find table spec from map");
      }
      var ts := Remaining(tables, NameOf(tableMap[name].path));
      RemainingKeys(tables, tableMap, name);
      RebuiltKeys(functions, funcMap);
      AllAddLeaves(ts, functions);
      var ok := ResetCatalog(ts, functions);
      return if ok then Ok(()) else Err("failed to add a spec again");
    }

    method DeleteFunctionSpecByName(name: string) returns (r: Result<()>)
      requires Valid()
      modifies this
      ensures Valid()
      ensures name !in old(funcMap) ==>
        && r.Err? && tables == old(tables) && functions == old(functions)
        && tableMap == old(tableMap) && funcMap == old(funcMap) && tree == old(tree)
      ensures r.Ok? <==> name in old(funcMap) && AllAdd(old(tables), Without(old(functions), name))
      ensures name in old(funcMap) ==>
        && tables == TablesLeft(old(tables))
        && functions == FunctionsLeft(old(tables), Without(old(functions), name))
        && tableMap == MapOf(tables) && funcMap == MapOf(functions)
      ensures r.Ok? ==>
        && tables == old(tables) && functions == Without(old(functions), name)
        && tableMap.Keys == old(tableMap).Keys && funcMap.Keys == old(funcMap).Keys - {name}
    {
      hide Finds, NameOf, AllAdd, Keys, Distinct, MapOf, Without, TablesLeft, FunctionsLeft;
      if name !in funcMap {
        return Err("failed to find function spec from map");
      }
      var fs := Remaining(functions, NameOf(funcMap[name].path));
      RemainingKeys(functions, funcMap, name);
      RebuiltKeys(tables, tableMap);
      AllAddLeaves(tables, fs);
      var ok := ResetCatalog(tables, fs);
      return if ok then Ok(()) else Err("failed to add a spec again");
    }
  }

  // ----- when rebuilding loses specs -----

  /** Adding to a tree that finds what the earlier specs say succeeds exactly when the list says so. */
  lemma TableAddsIff(tree: Node, ts: seq<TableSpec>, i: nat, functions: seq<FunctionSpec>)
    requires i < |ts| && Finds(tree, ts[..i], functions)
    ensures TableAdds(ts, i) <==>
      ts[i].path != [] && (ColumnsOk(ts[i].def) || AllTaken(tree, ts[i].path))
  {
  }

  lemma FunctionAddsIff(tree: Node, tables: seq<TableSpec>, fs: seq<FunctionSpec>, i: nat)
    requires i < |fs| && Finds(tree, tables, fs[..i])
    ensures FunctionAdds(fs, i) <==>
      fs[i].path != [] && (fs[i].def.typesOk || AllTakenFunction(tree, fs[i].path))
  {
  }

  lemma TablesAddedIs(ts: seq<TableSpec>, k: nat)
    requires k <= |ts| && (forall i :: 0 <= i < k ==> TableAdds(ts, i)) && (k < |ts| ==> !TableAdds(ts, k))
    ensures TablesAdded(ts) == k && TablesLeft(ts) == UpTo(ts, k)
  {
  }

  lemma FunctionsAddedIs(fs: seq<FunctionSpec>, k: nat)
    requires k <= |fs| && (forall i :: 0 <= i < k ==> FunctionAdds(fs, i)) && (k < |fs| ==> !FunctionAdds(fs, k))
    ensures FunctionsAdded(fs) == k
  {
  }

  lemma AllAddLeaves(ts: seq<TableSpec>, fs: seq<FunctionSpec>)
    ensures AllAdd(ts, fs) ==> TablesLeft(ts) == ts && FunctionsLeft(ts, fs) == fs
  {
  }

  /** A rebuild loses nothing exactly when every spec can be added, or only the very last of them cannot. */
  lemma NothingLostIff(ts: seq<TableSpec>, fs: seq<FunctionSpec>)
    ensures TablesLeft(ts) == ts && FunctionsLeft(ts, fs) == fs <==>
      || (TablesAdded(ts) == |ts| && FunctionsAdded(fs) + 1 >= |fs|)
      || (TablesAdded(ts) + 1 == |ts| && fs == [])
  {
  }

  lemma {:induction false} WithoutFinds(specs: seq<TableSpec>, name: string, q: Path)
    requires FirstTable(Without(specs, name), q).Some?
    ensures FirstTable(specs, q).Some?
    decreases |specs|
  {
    if specs != [] {
      var front, s := specs[..|specs| - 1], specs[|specs| - 1];
      assert specs == front + [s];
      FirstTableSnoc(front, s, q);
      if NameOf(s.path) != name {
        assert Without(specs, name) == Without(front, name) + [s];
        FirstTableSnoc(Without(front, name), s, q);
      } else {
        assert Without(specs, name) == Without(front, name);
      }
      if FirstTable(Without(front, name), q).Some? {
        WithoutFinds(front, name, q);
      }
    }
  }

  /** A table that cannot be added never can: not with more tables after it, nor with others deleted. */
  lemma StaysBad(ts: seq<TableSpec>, i: nat, more: seq<TableSpec>, name: string)
    requires i < |ts| && !TableAdds(ts, i) && NameOf(ts[i].path) != name
    ensures !TableAdds(ts + more, i)
    ensures
      var k := |Without(ts[..i], name)|;
      k < |Without(ts, name)| && Without(ts, name)[k] == ts[i] && !TableAdds(Without(ts, name), k)
  {
    assert (ts + more)[..i] == ts[..i];
    var kept := Without(ts[..i], name);
    WithoutSplit(ts, i, name);
    assert Without(ts, name)[..|kept|] == kept;
    if ts[i].path != [] {
      var q :| Registers(ts[i].path, q) && FirstTable(ts[..i], q).None?;
      if FirstTable(kept, q).Some? {
        WithoutFinds(ts[..i], name, q);
      }
    }
  }

  lemma {:induction false} WithoutSplit<D>(specs: seq<Spec<D>>, i: nat, name: string)
    requires i < |specs| && NameOf(specs[i].path) != name
    ensures Without(specs[..i], name) + [specs[i]] <= Without(specs, name)
    decreases |specs|
  {
    var n := |specs| - 1;
    if i < n {
      WithoutSplit(specs[..n], i, name);
      assert specs[..n][..i] == specs[..i];
    }
  }

  /** From then on every rebuild drops each table listed after it, and every function. */
  lemma BadTableCutsOff(ts: seq<TableSpec>, i: nat, fs: seq<FunctionSpec>)
    requires i < |ts| && !TableAdds(ts, i)
    ensures TablesLeft(ts) <= ts[..i + 1] && FunctionsLeft(ts, fs) == [] && !AllAdd(ts, fs)
  {
  }

  const GONE: TableSpec := Spec(["gone"], [])
  const BAD: TableSpec := Spec(["bad"], [Column("c", false)])
  const GOOD: TableSpec := Spec(["good"], [])

  /** Deleting an unrelated table drops a good one: the list "gone", "bad", "good" without "gone" is left as "bad". */
  lemma DeletionLosesTable()
    ensures Without([GONE, BAD, GOOD], "gone") == [BAD, GOOD] && TablesLeft([BAD, GOOD]) == [BAD]
    ensures !TableAdds([BAD, GOOD], 0)
  {
    var ts := [GONE, BAD, GOOD];
    var rest := [BAD, GOOD];
    assert ts[..2] == [GONE, BAD] && [GONE, BAD][..1] == [GONE] && [GONE][..0] == [];
    assert Without([GONE], "gone") == [];
    assert Without([GONE, BAD], "gone") == [] + [BAD] == [BAD];
    assert Without(ts, "gone") == [BAD] + [GOOD] == rest;
    assert Registers(["bad"], ["bad"]) && rest[..0] == [];
    assert BAD.def[0] in BAD.def && !ColumnsOk(BAD.def);
    assert FirstTable(rest[..0], ["bad"]).None?;
    TablesAddedIs(rest, 0);
    assert rest[..1] == [BAD];
  }

  lemma WitnessNames()
    ensures NameOf(GONE.path) == "gone" && NameOf(BAD.path) == "bad" && NameOf(GOOD.path) == "good"
  {
  }

  /** A new catalog comes to this: the second table is refused but stays listed, and then the deletion fails. */
  method LoseTable() returns (c: Catalog, r: Result<()>)
    ensures fresh(c) && c.Valid() && c.tables == [BAD] && r.Err?
  {
    hide Finds, NameOf, AllAdd, Keys, Distinct, MapOf, Without, TablesLeft, FunctionsLeft, AddTable, AllTaken;
    WitnessNames();
    c := new Catalog();
    var ok := c.AddTableSpec(GONE);
    ok := c.AddTableSpec(BAD);
    ok := c.AddTableSpec(GOOD);
    assert c.tables == [GONE, BAD, GOOD];
    DeletionLosesTable();
    BadTableCutsOff([BAD, GOOD], 0, c.functions);
    r := c.DeleteTableSpecByName("gone");
  }

  lemma NewName<D>(specs: seq<Spec<D>>, i: nat, keys: set<string>)
    requires Distinct(Names(specs)) && i < |specs| && Keys(Names(specs[..i]), keys)
    ensures NameOf(specs[i].path) !in keys
  {
    var names := Names(specs);
    forall k | 0 <= k < i
      ensures Names(specs[..i])[k] != names[i]
    {
      assert names[k] != names[i];
    }
  }

  /** The tree kept so far finds what a tree rebuilt from the lists would find. */
  lemma TreeIsAsRebuilt(c: Catalog, q: Path)
    requires c.Valid()
    ensures FindTable(c.tree, q) == FindTable(Build(c.tables, c.functions), q)
    ensures FindFunction(c.tree, q) == FindFunction(Build(c.tables, c.functions), q)
  {
    BuildFinds(c.tables, c.functions);
  }

  /**
   Adding a table makes its own path lead to its columns exactly when the path was free and the name new,
   or the path already led to the same columns.
   */
  lemma AddedIsFoundIff(tables: seq<TableSpec>, known: bool, spec: TableSpec)
    requires spec.path != [] && ColumnsOk(spec.def)
    ensures
      var before := FirstTable(tables, spec.path);
      var after := FirstTable(if known then tables else tables + [spec], spec.path);
      (after.Some? && after.value.columns == spec.def)
      <==> (before.None? && !known) || (before.Some? && before.value.columns == spec.def)
  {
    var p := spec.path;
    assert p == p[..|p| - 1] + [p[|p| - 1]];
    WholeSubsequence(p[..|p| - 1]);
    SubsequencesRegister(p, p[..|p| - 1]);
    FirstTableSnoc(tables, spec, p);
  }

  lemma {:induction false} WholeSubsequence(p: Path)
    ensures Subsequence(p, p)
  {
    if p != [] {
      WholeSubsequence(p[1..]);
    }
  }

  // ----- names that collide -----

  lemma JoinPair(a: string, b: string, sep: string)
    ensures Join([a, b], sep) == a + sep + b
  {
    assert [a, b][1..] == [b];
  }

  /** A path of more than one name has an underscore in its own. */
  lemma LongNameHasUnderscore(p: Path)
    requires |p| > 1
    ensures '_' in NameOf(p)
  {
    assert NameOf(p)[|p[0]|] == '_';
  }

  lemma NoUnderscore(p: Path)
    requires '_' !in NameOf(p) && NameOf(p) != ""
    ensures p == [NameOf(p)]
  {
    if |p| > 1 {
      LongNameHasUnderscore(p);
      assert false;
    }
  }

  /** Another path with the same name. */
  lemma OtherPath(p: Path) returns (q: Path)
    requires '_' in NameOf(p) || NameOf(p) == ""
    ensures q != p && NameOf(q) == NameOf(p)
  {
    var name := NameOf(p);
    if |p| != 1 {
      q := [name];
    } else if name == "" {
      q := [];
    } else {
      var i :| 0 <= i < |name| && name[i] == '_';
      q := [name[..i], name[i + 1..]];
      JoinPair(name[..i], name[i + 1..], "_");
      assert name[..i] + "_" + name[i + 1..] == name;
    }
  }

  /** Another path has the same name exactly when the name is empty or has an underscore in it. */
  lemma NamesCollideIff(p: Path)
    ensures (exists q :: q != p && NameOf(q) == NameOf(p)) <==> '_' in NameOf(p) || NameOf(p) == ""
  {
    if '_' in NameOf(p) || NameOf(p) == "" {
      var q := OtherPath(p);
    } else {
      forall q | NameOf(q) == NameOf(p)
        ensures q == p
      {
        NoUnderscore(p);
        NoUnderscore(q);
      }
    }
  }

  /** A table with a listed table's name is taken for it: `AddTableSpec` then adds it to neither list nor tree. */
  lemma CollidingTableIsKnown(c: Catalog, listed: TableSpec, spec: TableSpec)
    requires c.Valid() && listed in c.tables && NameOf(listed.path) == NameOf(spec.path)
    ensures NameOf(spec.path) in c.tableMap
  {
    Listed(c.tables, NameOf(listed.path));
  }

  /** So a table can be kept out by one of another path exactly when its name is empty or has an underscore. */
  lemma KeptOutIff(spec: TableSpec)
    ensures (exists other: TableSpec :: other.path != spec.path && NameOf(spec.path) in Names([other]))
      <==> '_' in NameOf(spec.path) || NameOf(spec.path) == ""
  {
    NamesCollideIff(spec.path);
    if q: Path :| q != spec.path && NameOf(q) == NameOf(spec.path) {
      var other: TableSpec := Spec(q, []);
      assert Names([other])[0] == NameOf(spec.path);
    }
    if other: TableSpec :| other.path != spec.path && NameOf(spec.path) in Names([other]) {
      assert Names([other])[0] == NameOf(other.path);
    }
  }
}
