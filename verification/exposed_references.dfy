/**
 Why recursive terms are flattened (internal/sqlbuilder_flatten.go:3-22): SQLite wants the reference to the CTE directly
 in FROM, not inside a subquery.  For which terms flattening brings it there.
 */
module ExposedReferences {
  import opened Wrappers
  import opened SqlAst
  import opened Scans
  import opened ExpressionMeaning
  import opened ScanMeaning
  import opened SetWithMeaning
  import opened CompiledShape
  import opened CompiledLeaves
  import opened Flattening
  import opened JoinFlattening

  /** The table is the FROM item, or a side of its joins. */
  predicate Direct(f: FromItem, name: string) {
    match f
    case TableItem(table, _) => table == name
    case SubqueryItem(_, _) => false
    case JoinItem(_, left, right, _, _) => Direct(left, name) || Direct(right, name)
  }

  predicate InFrom(s: Select, name: string) {
    s.from.Some? && Direct(s.from.value, name)
  }

  /** A side of a join leads to the table through lists of columns only. */
  predicate SideReaches(s: Scan, name: string) {
    match s
    case TableScan(_, table, _) => table == name
    case WithRefScan(_, cte) => cte == name
    case ProjectScan(_, input, _) => Unwrapped(s) && SideReaches(input, name)
    case _ => false
  }

  /** Project, Filter and WITH scans lead to the table, or to a join with a side that does. */
  predicate Reaches(s: Scan, name: string) {
    match s
    case TableScan(_, table, _) => table == name
    case WithRefScan(_, cte) => cte == name
    case FilterScan(_, input, _) => Reaches(input, name)
    case ProjectScan(_, input, _) => Reaches(input, name)
    case WithScan(_, _, query, _) => Reaches(query, name)
    case JoinScan(_, _, left, right, _) => SideReaches(left, name) || SideReaches(right, name)
    case _ => false
  }

  // ----- what flattening does to FROM -----

  predicate Surfaces(from: Option<FromItem>, name: string)
    decreases from
  {
    from.Some? &&
      if from.value.JoinItem? then Direct(UnwrapTree(from.value), name)
      else if Flattenable(from.value) then Surfaces(from.value.query.from, name)
      else Direct(from.value, name)
  }

  lemma {:induction false} SubstitutionKeepsTables(f: FromItem, m: AliasMap, name: string)
    ensures Direct(SubstituteInJoin(f, m), name) <==> Direct(f, name)
  {
    if f.JoinItem? {
      SubstitutionKeepsTables(f.left, m, name);
      SubstitutionKeepsTables(f.right, m, name);
    }
  }

  lemma {:induction false} FlattenSurfaces(s: Select, name: string)
    ensures InFrom(Flatten(s), name) <==> Surfaces(s.from, name)
    decreases s.from
  {
    if s.from.Some? && s.from.value.JoinItem? {
      LeavesFlattened(s.from.value, map[]);
      SubstitutionKeepsTables(UnwrapTree(s.from.value), UnwrapMap(s.from.value), name);
      assert map[] + UnwrapMap(s.from.value) == UnwrapMap(s.from.value);
    } else if HasFlattenable(s) {
      FlattenSurfaces(Collapse(s), name);
    }
  }

  // ----- what the transformers build -----

  lemma {:induction false} SideSurfaces(
    q: Select, s: Scan, alias: string, name: string, names: Names, sig: Signature)
    requires WellFormed(s, names, sig) && BuiltFrom(q, s, names, sig)
    ensures Direct(UnwrapTree(SubqueryItem(q, alias)), name) <==> SideReaches(s, name)
    decreases s
  {
    UnwrapsIff(q, s, alias, names, sig);
    var f := SubqueryItem(q, alias);
    if Unwraps(f) && s.ProjectScan? {
      SideSurfaces(q.from.value.query, s.input, FinalAlias(f), name, names, sig);
    }
  }

  lemma {:induction false} BuiltSurfaces(
    q: Select, s: Scan, alias: string, name: string, names: Names, sig: Signature)
    requires WellFormed(s, names, sig) && BuiltFrom(q, s, names, sig)
    ensures Surfaces(Some(SubqueryItem(q, alias)), name) <==> Reaches(s, name)
    decreases s
  {
    hide Compiled, AllAnswer, Reads, ToSql;
    match s
    case FilterScan(_, input, _) => BuiltSurfaces(q.from.value.query, input, q.from.value.alias, name, names, sig);
    case ProjectScan(_, input, _) => BuiltSurfaces(q.from.value.query, input, q.from.value.alias, name, names, sig);
    case WithScan(_, entries, query, _) =>
      BuiltSurfaces(q.from.value.query, query, q.from.value.alias, name, names, Extend(sig, entries));
    case JoinScan(_, _, _, _, _) => JoinSurfaces(q, s, alias, name, names, sig);
    case _ =>
  }

  lemma JoinSurfaces(q: Select, s: Scan, alias: string, name: string, names: Names, sig: Signature)
    requires s.JoinScan? && WellFormed(s, names, sig) && BuiltFrom(q, s, names, sig)
    ensures Surfaces(Some(SubqueryItem(q, alias)), name) <==> Reaches(s, name)
  {
    hide Compiled, AllAnswer;
    var f := q.from.value;
    SideSurfaces(f.left.query, s.left, f.left.alias, name, names, sig);
    SideSurfaces(f.right.query, s.right, f.right.alias, name, names, sig);
  }

  /**
   Flattening brings a table directly into FROM exactly when Project, Filter and WITH scans lead to it, or to a join one
   of whose sides only lists its columns.  A reference below a join of joins, a filtered or computed side, a LIMIT or a
   set operation stays in a subquery.
   */
  lemma ExposedIff(sel: Select, q: Query, name: string, names: Names, sig: Signature)
    requires WellFormed(q.source, names, sig) && QueryBuilt(sel, q, names, sig)
    ensures InFrom(Flatten(sel), name) <==> Reaches(q.source, name)
  {
    FlattenSurfaces(sel, name);
    BuiltSurfaces(sel.from.value.query, q.source, sel.from.value.alias, name, names, sig);
  }

  /** For one, in a join of the CTE with a table and then with another one, the reference is not brought out. */
  lemma ThreeWayJoinBuries(sel: Select, q: Query, name: string, names: Names, sig: Signature)
    requires WellFormed(q.source, names, sig) && QueryBuilt(sel, q, names, sig)
    requires q.source.JoinScan? && q.source.left.JoinScan? && q.source.right.TableScan? && name in sig
    ensures !InFrom(Flatten(sel), name)
  {
    ExposedIff(sel, q, name, names, sig);
  }
}
