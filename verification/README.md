# Verified model of the zetasqlite query compiler and runtime

A Dafny 4.11 model of six parts of zetasqlite, with proofs of what they promise. `dafny verify dfyconfig.toml`
checks all of it.

1. **The scan-to-SQL compiler.** Resolved scans know columns by integer ID; the SQL that is built knows them by
   generated names (`name__id`). `scans.dfy` gives scans their meaning (rows map IDs to values), `sql_semantics.dfy`
   gives SQL statements theirs (rows are tuples, and a reference reads the one position it matches). `compiler.dfy`
   holds the transformers as methods over the shared mutable context of `transform_context.dfy`, and the expressions
   they emit have CASE for conditionals and SQL operators where the code uses them (`operators.dfy`). The result:
   `Compiler.CompileStatement` succeeds exactly when conditionals have the right number of arguments and pass-through
   scans list all their input's columns, and then the statement returns the query's rows, in order, in every world
   whose functions agree with the operators that replace them. Because the flat ID maps are never unwound, the
   invariant that makes this work is that a registered ID always has its own ID-based name, however often it is
   registered again. It also makes the panic of `GetQualifiedColumnRef` unreachable.
2. **Recursive CTEs.** `flattening.dfy` is the rewriter as functions, `flattener.dfy` as the original runs it.
   `substitution.dfy` proves the substitution lemma under three-valued logic, `table_frames.dfy` that a statement reads
   only the tables it mentions, `with_scoping.dfy` what a WITH list means in SQLite, `with_merging.dfy` when two lists
   can be merged, `distinct_layers.dfy` when an inner DISTINCT matters, `join_flattening.dfy` that a SELECT over a tree
   of joins keeps its rows, and `chain_flattening.dfy` that a chain of subqueries does. `compiled_shape.dfy`,
   `compiled_expressions.dfy`, `compiled_leaves.dfy` and `compiled_chains.dfy` show that what the transformers build
   meets these conditions: Project, Filter and WITH scans over a table, a CTE, a set operation, a LIMIT or a join of any
   two scans. `recursive_cte.dfy` and `recursive_scans.dfy` put it together: the definition that is built for a
   recursive CTE accumulates, after every number of rounds, what the scan's own rounds do, and a main query over it
   reads them. `exposed_references.dfy` says exactly when flattening brings the CTE directly into FROM, which is what
   SQLite asks for and what flattening is there for.
3. **The operator fast path** (`operator_fast_path.dfy`): the AND, OR, NOT and comparison operators that are emitted
   return what the bound functions return, and a world of bound functions agrees with the operators wherever a bound
   function returns a value.
4. **Window functions** (`window_frames.dfy`, `window_functions.dfy`, `window_ranks.dfy`): the incremental forms equal
   their whole-frame and whole-partition definitions (ISO/IEC 9075-2:2003 section 6.10 for the ranking functions).
5. **Dates and formats** (`calendar.dfy`, `date_functions.dfy`, `datetime_functions.dfy`, `time_format.dfy`,
   `time_round_trip.dfy`, `time_format_parser.dfy`): week counting, month arithmetic, adding and subtracting dates and
   parts of a day, and the round trip of the format scanner.
6. **The catalog** (`catalog_tree.dfy`, `catalog.dfy`): which paths lookups resolve, and what additions and deletions
   keep.

## Conventions

- A `World` stands for a database together with everything the model leaves open: what functions compute, the truth
  value of text, parameters, and what GROUP BY, HAVING, ORDER BY and set operations other than UNION ALL do. Theorems
  about compilation ask that the functions which are replaced by operators return what the operators do
  (`OperatorsAgree`); those about flattening hold for every world.
- `Unresolved` is what a reference reads that SQL cannot resolve, because no column or more than one matches.
- The names of a WITH list are visible throughout the list, whatever the order of its clauses, and hide tables of those
  names, as in SQLite. A list in which no clause depends on itself has exactly one solution (`WithScoping.Settles`,
  `WithScoping.SettledOnce`); SQLite rejects any other.
- Rows are sequences, so equality of results covers order as well as the bag of rows.
- Ghost parameters of the compiler's methods (`names`, `sig`) say what the analyzer guarantees: one name per ID, and
  the columns of the WITH entries in scope.
- A window run is a driver that steps the rows entering a frame and inverts those leaving it, oldest first. A frame
  with an EXCLUDE clause is built anew for each row, and a GROUPS or RANGE frame is valued once per peer group.

## Where the code falls short of its promise

- A DISTINCT inner layer is collapsed and its DISTINCT lost, because `canFlattenSelect` does not look at it. The rows
  are kept in every world if and only if the statement above is DISTINCT itself
  (`ChainFlattening.DistinctLayerKeptEverywhereIff`), and in one world if and only if it is, or no two of the layer's
  rows that pass its WHERE are equal (`ChainFlattening.DistinctLayerKeptIff`). This is a failure of the rewriter on its
  own: its one caller passes compiled recursive terms, DISTINCT is set for MERGE only, and no compiled term is DISTINCT
  (`CompiledChains.CompiledIsChain`).
- Flattening brings the reference to the CTE directly into FROM if and only if Project, Filter and WITH scans lead to
  it, or to a join one of whose sides lists its columns (`ExposedReferences.ExposedIff`). In a join of three, the
  reference in the inner join stays in a subquery (`ExposedReferences.ThreeWayJoinBuries`).
- Unwrapping two layers of a join's side at once loses a column that the upper one computes as a bare reference to
  another: the columns are read right if and only if it computes none (`CompiledLeaves.UnwrappedTwiceIff`). The column
  `b`, computed as `a` over a table that has `a`, is such a one (`CompiledLeaves.RenamingIsLost`); the analyzer is not
  modelled, so nothing here says that it yields this scan.
- Merging the WITH lists of two layers captures: a base table that an outer clause reads is taken for an inner clause of
  that name. Flattened, `WITH a AS (SELECT * FROM b) SELECT * FROM (WITH b AS (SELECT * FROM u) SELECT * FROM a)`
  returns the rows of `u` instead of those of the table `b` (`WithMerging.CaptureChangesRows`). Lists without capture
  are merged faithfully (`WithMerging.MergedWorld`), and for two copies of tables every name keeps its meaning in all
  databases if and only if the outer one does not read a table that the inner one is named after, or both have one name
  (`WithMerging.MergeKeepsIff`).
- In a scan, a WITH entry may read a base table that is named like the entry itself or like a later one; in the SQL that
  is emitted SQLite takes the name for the entry. For two copies of tables the emitted list means what the
  entries mean, one after the other, if and only if neither reads a table of its own name and the first none of the
  second's (`WithScoping.OrderKeptIff`). Well-formed scans are those without such an entry.
- An operator is defined on more than the function it replaces: AND over the integer 2 is an error for the function
  (`OperatorFastPath.OperatorsAreMoreDefined`).
- `DATE_ADD(..., QUARTER)` adds one quarter whatever the count (`DateFunctions.QuarterIgnoresCount`).
- DATETIME_ADD of hours or smaller parts overflows when their nanoseconds do not fit 64 bits, some 292 years: it reaches
  the right time, and DATETIME_DIFF finds the count again, if and only if they fit
  (`DatetimeFunctions.ClockAddReachesIff`). Adding 2562048 hours goes back in time (`DatetimeFunctions.HoursWrap`).
- February 29th is read back as March 1st when a format gives month and day before the year and does not give them
  again (`TimeRoundTrip.RoundTripIff` says for exactly which formats).
- DISTINCT over a frame with a NULL, without IGNORE NULLS, calls a method of nil
  (`WindowFrames.AggregatedStatus.RelevantValues` fails exactly then).
- Adding a table under a known name changes the map but neither the list nor the tree, so lookups keep finding the
  old columns, and a later deletion of another table brings the old spec back (`Catalogs.AddedIsFoundIff` and
  `Catalogs.RebuiltMapKeeps` say exactly when).
- Names are paths joined by underscores, so different paths can share one name: another path has a path's name if and
  only if the name is empty or has an underscore (`Catalogs.NamesCollideIff`), and a table whose name is taken enters
  neither list nor tree (`Catalogs.CollidingTableIsKnown`).
- An aggregate function with a path of two or more names is registered as a scalar one
  (`CatalogTree.AddFunctionFinds`).
- A spec whose columns cannot be converted stays listed after its addition fails, and a deletion rebuilds the catalog
  only up to it: every table listed after it and every function is dropped (`Catalogs.BadTableCutsOff`). A new catalog
  with the tables "gone", "bad" and "good" comes to this when "gone" is deleted (`Catalogs.LoseTable`). `Catalogs.Catalog.ResetCatalog` says exactly when a rebuild succeeds and what is left
  when it does not, and `Catalogs.NothingLostIff` when nothing is lost.

## Model

| member | source | states |
|---|---|---|
| Compiler.CompileStatement | internal/coordinator_coordinator.go:113-219 | from a new context, compilation succeeds exactly on compilable queries, all coordinator aliases are distinct, and in every world whose functions agree with the operators emitted for them the SQL returns the query's columns and rows in order |
| Compiler.TransformScan | internal/coordinator_coordinator.go:222-308 | for every well-formed scan: success exactly when the scan is compilable; the statement carries exactly the scan's columns and its rows show the scan's rows; scope stack restored, no ID forgotten, no outer WITH mapping changed, on failure too; aliases fresh |
| Compiler.TransformInScope | internal/coordinator_coordinator.go:225-308 | dispatch, alias, validation and registration inside one scope keep the same promises |
| Compiler.TransformNode | internal/coordinator_coordinator.go:225-281 | each scan kind is built by its transformer, with the rows the scan means and success exactly when its inputs compile |
| Compiler.Validated | internal/coordinator_coordinator.go:284-292 | a built statement passes validation exactly when it has as many columns as the scan, and then carries exactly the scan's columns |
| Compiler.NameAndRegister | internal/coordinator_coordinator.go:283-305 | a built scan gets an alias no other has, is validated and registered; success exactly when it was built as wide as the scan |
| Compiler.ValidateColumnData | internal/coordinator_coordinator.go:355-408 | accepts exactly the lists of as many non-empty aliases, each an expected one |
| Compiler.Register | internal/coordinator_coordinator.go:295-305 | registering a scan's columns, old or new, leaves every registered ID with its own ID-based name |
| Compiler.TransformTable | internal/transformer_scan_table.go:32-99 | base columns under ID-based names, with the table's rows |
| Compiler.TransformFilter | internal/transformer_scan_filter.go:33-58 | the rows of the input for which the condition is true |
| Compiler.TransformProject | internal/transformer_scan_project.go:37-110 | computed columns hold their expression's value, others pass through |
| Compiler.TransformComputed | internal/transformer_scan_project.go:55-95 | each output column gets its last computed expression or a reference to itself; fails exactly on a miscalled conditional |
| Compiler.TransformJoin | internal/transformer_scan_join.go:35-85 | inner, left, right and full joins pair the rows the scan pairs, padding with NULLs, and read both sides without ambiguity |
| Compiler.TransformLimit | internal/transformer_scan_limit.go:33-87 | the window of rows that LIMIT and OFFSET select |
| Compiler.TransformSetOp | internal/transformer_scan_setop.go:34-89 | UNION ALL of the items' rows, renamed by position to the scan's columns |
| Compiler.TransformQueries | internal/transformer_scan_setop.go:42-56 | each item answers its query, and aliases of different items are distinct |
| Compiler.BuildSetOp | internal/transformer_scan_setop.go:56-89 | the items are united and the first item's names renamed by position |
| Compiler.TransformStatement | internal/coordinator_coordinator.go:181-219 | a statement in its own scope returns exactly the query's tuples; scope restored |
| Compiler.TransformQueryStmt | internal/transformer_stmt_query.go:34-68 | one output item per output column, each computing its expression |
| Compiler.TransformWith | internal/transformer_scan_with.go:30-83 | entries are visible to later entries and the main query, whose rows are returned |
| Compiler.TransformEntries | internal/transformer_scan_with.go:40-68 | all entries compile in scope of the earlier ones, or some entry is not compilable |
| Compiler.AddEntry | internal/transformer_scan_with.go:40-68 | one turn of the entry loop: one more clause compiled, one more mapping in place |
| Compiler.TransformMarked | internal/transformer_scan_with.go:44-64 | the recursive name is set around the entry, cleared on success, and the clause marked |
| Compiler.TransformWithEntry | internal/coordinator_coordinator.go:311-324 | the entry's statement means its subquery; scope restored |
| Compiler.TransformEntryBody | internal/transformer_with_entry.go:33-80 | the entry's columns are mapped before or after the subquery, which is compiled in the outer scope of names |
| Compiler.TransformWithRef | internal/transformer_scan_with_ref.go:33-75 | a CTE's columns renamed by position, with the CTE's rows |
| TransformContexts.FragmentContext.EnterScope | internal/querybuilder_context.go:153-165 | pushes a new token, one more than any before |
| TransformContexts.FragmentContext.ExitScope | internal/querybuilder_context.go:168-180 | drops the token and everything pushed after it; nothing if it is not there |
| TransformContexts.FragmentContext.AddAvailableColumn | internal/querybuilder_context.go:111-130 | overwrites the ID's info and nothing else |
| TransformContexts.FragmentContext.RegisterColumnScopeMapping | internal/querybuilder_context.go:212-223 | every column gets the scope alias and its ID-based name |
| TransformContexts.FragmentContext.GetQualifiedColumnRef | internal/querybuilder_context.go:182-196 | the registered name; its precondition is that the ID is registered, without which the original panics |
| TransformContexts.TransformContext.AddWithEntryColumnMapping | internal/querybuilder_context.go:53-60 | the entry's mapping is its columns' ID-based aliases |
| TransformContexts.AliasInfosNames | internal/querybuilder_context.go:212-223 | registering again gives an ID the name it had; other IDs keep theirs |
| TransformContexts.ScopeAliasesKeys | internal/querybuilder_context.go:204-223 | exactly the registered columns' IDs are added |
| Scans.AliasInjective | internal/querybuilder_context.go:226-228 | ID-based aliases are equal only for equal names and IDs |
| Decimal.ParseDigitsInverts | internal/querybuilder_context.go:226-228 | printing a number and reading it back is the identity |
| Decimal.NumberedNameUnique | internal/querybuilder_context.go:226-228 | a name ending in an underscore and a number determines both parts |
| ScopeAliasNames.FreshAppend | internal/coordinator_coordinator.go:288-289 | aliases assigned one after the other are all distinct |
| ScopeAliasNames.FreshOwn | internal/coordinator_coordinator.go:288-289 | a scan's alias differs from every alias assigned inside it |
| CompiledColumns.AcceptedIffLists | internal/coordinator_coordinator.go:355-408 | pigeonhole: a list of distinct aliases is accepted exactly when it carries the scan's columns and nothing else |
| ExpressionTransformer.TransformExpression | internal/coordinator_coordinator.go:160-178 | columns, literals, parameters, casts and calls: every reference becomes its own ID-based name; fails exactly on a miscalled conditional |
| ExpressionTransformer.TransformCall | internal/transformer_function.go:68-231 | IFNULL, IF and CASE become CASE expressions with the argument counts checked, accepted calls become operators, and all others stay calls |
| Operators.OptimizeFunctionToSQL | internal/transformer_function.go:282-353 | the operator tree, AND and OR left-nested and IN over the list of the other operands; an error exactly for unknown names and wrong counts |
| Operators.OperatorComputes | internal/transformer_function.go:282-353 | the operator tree computes the operator's value of its operands' values |
| ExpressionTransformer.BuildWhens | internal/transformer_function.go:88-126 | pairs arguments two at a time, leaving an odd last one |
| ExpressionMeaning.ExpressionAgrees | internal/transformer_column_ref.go:32-39 | a compiled expression computes on a tuple what the scan expression computes on the row it shows |
| ExpressionMeaning.CallAgrees | internal/transformer_function.go:68-128 | the CASE forms compute what IFNULL, IF and CASE mean, NULL conditions included |
| ExpressionMeaning.CastAgrees | internal/transformer_cast.go:37-90 | the emitted cast calls the cast function with the operand and both types |
| NodeMeaning.TableProduces | internal/transformer_scan_table.go:32-99 | the table statement means the table scan, in every world |
| NodeMeaning.FilterProduces | internal/transformer_scan_filter.go:33-58 | SELECT * with the condition means the filter |
| NodeMeaning.ProjectProduces | internal/transformer_scan_project.go:37-110 | the projected list means the project scan |
| NodeMeaning.LimitProduces | internal/transformer_scan_limit.go:49-87 | SELECT * with LIMIT means the limit scan |
| JoinMeaning.JoinProduces | internal/transformer_scan_join.go:35-100 | SELECT * over the JOIN means the join scan for all four join kinds, with disjoint IDs |
| JoinMeaning.SidesDisjoint | internal/transformer_scan_join.go:35-85 | columns with different IDs never share a name across the two sides |
| SetWithMeaning.QueryAnswers | internal/transformer_stmt_query.go:34-68 | the output statement returns the query's tuples |
| SetWithMeaning.SetOpProduces | internal/transformer_scan_setop.go:34-89 | the renamed UNION ALL means the set operation |
| SetWithMeaning.RefProduces | internal/transformer_scan_with_ref.go:33-75 | the reference means the CTE's rows under the reference's columns |
| SetWithMeaning.EntriesSimulate | internal/transformer_scan_with.go:40-68 | after all clauses the SQL world holds every CTE the scan refers to |
| SetWithMeaning.ClausesInOrder | internal/transformer_scan_with.go:40-68 | the clauses compiled for well-formed entries mention only earlier ones of their list |
| SetWithMeaning.WithProduces | internal/transformer_scan_with.go:30-83 | the WITH statement means the WITH scan |
| SetWithMeaning.StarCompiled | internal/transformer_with_entry.go:62-74 | the SELECT * wrapped around an entry changes nothing |
| Substitution.SubstitutionKeepsValue | internal/sqlbuilder_flatten.go:350-479 | simultaneous substitution of definitions that compute what the references read keeps an expression's value, for expressions up to the depth limit |
| Substitution.SubstitutedWithin | internal/sqlbuilder_flatten.go:350-479 | what is left to read and how deep a substituted expression is |
| Substitution.SubstituteNothing | internal/sqlbuilder_flatten.go:350-479 | with an empty map the expression is returned unchanged |
| SelectAlgebra.FilterTwice | internal/sqlbuilder_flatten.go:586-609 | filtering by inner AND outer keeps what filtering by one after the other keeps, NULLs included |
| SelectAlgebra.SameOutput | internal/sqlbuilder_flatten.go:68-91 | corresponding conditions and items over corresponding rows give the same output rows |
| Flattening.MergedClauses | internal/sqlbuilder_flatten.go:290-318 | merging keeps the inner clauses first and drops exactly the outer ones they shadow |
| Flattening.FlattenIsFlat | internal/sqlbuilder_flatten.go:23-95 | the result has no collapsible subquery directly in FROM and no pass-through leaf under a join |
| Flattening.FlatIffUnchanged | internal/sqlbuilder_flatten.go:264-274 | a statement is left unchanged exactly when it is flat |
| Flattening.FlattenIdempotent | internal/sqlbuilder_flatten.go:23-95 | flattening a second time changes nothing |
| Flattener.FlattenSelectForRecursiveCTE | internal/sqlbuilder_flatten.go:23-95 | terminates with the flat form, and keeps the rows of every chain in every world |
| Flattener.FlattenFromItemInJoin | internal/sqlbuilder_flatten.go:115-161 | unwraps a leaf through all its layers and fills the shared column map |
| Flattener.FlattenJoinFromItem | internal/sqlbuilder_flatten.go:99-111 | left before right, both into the same map |
| Flattener.ColumnMap.AddLeaf | internal/sqlbuilder_flatten.go:140-149 | each aliased item is mapped to its requalified expression |
| Flattener.BuildColumnAliasMap | internal/sqlbuilder_flatten.go:321-329 | a later item of the same alias replaces an earlier one |
| Flattener.MergeWithClauses | internal/sqlbuilder_flatten.go:290-318 | the loop over names computes the merged clauses |
| Flattener.SubstituteSelectList | internal/sqlbuilder_flatten.go:75-85 | every item is substituted and keeps its alias |
| ChainFlattening.CollapseKeepsRows | internal/sqlbuilder_flatten.go:58-91 | one collapse keeps rows and order |
| ChainFlattening.CollapsedChain | internal/sqlbuilder_flatten.go:58-94 | a collapsed chain is again a chain, with depths added up |
| ChainFlattening.FlattenKeepsRows | internal/sqlbuilder_flatten.go:23-95 | flattening a chain, possibly ending in joins, keeps its rows and their order; inner layers may be DISTINCT below a DISTINCT statement, and layers may have WITH lists as long as no list captures a table that one above it reads |
| ChainFlattening.LayersStayWithin | internal/sqlbuilder_flatten.go:350-357 | when the layers' own depths add up within the limit, every expression that is rewritten on the way stays within it |
| ChainFlattening.FlattenKeepsResult | internal/sqlbuilder_flatten.go:23-95 | with aliased items the column names are kept as well |
| ChainFlattening.FlattenKeepsHeadings | internal/sqlbuilder_flatten.go:74-85 | flattening changes expressions only, never an item's alias or star flag |
| ChainFlattening.ChainAnywhere | internal/sqlbuilder_flatten.go:23-95 | whether a statement without joins is a chain does not depend on the database |
| ChainFlattening.DistinctLayerKeptIff | internal/sqlbuilder_flatten.go:264-274 | in a world, collapsing a DISTINCT layer keeps the rows if and only if the statement is DISTINCT or no two of the layer's rows that pass its WHERE are equal |
| ChainFlattening.DistinctLayerKeptEverywhereIff | internal/sqlbuilder_flatten.go:264-274 | over a table, the rows are kept in every world if and only if the statement is DISTINCT |
| DistinctLayers.OuterDistinctAbsorbs | internal/sqlbuilder_flatten.go:58-91 | below a DISTINCT statement an inner DISTINCT changes neither rows nor order |
| DistinctLayers.InnerDistinctMatters | internal/sqlbuilder_flatten.go:264-274 | otherwise it changes the rows exactly when two rows that pass the outer WHERE are equal |
| TableFrames.SelectFrame | internal/sqlbuilder_flatten.go:290-318 | a statement reads only the tables it mentions |
| WithScoping.Settles | internal/sqlbuilder_sqlbuilder.go:761-776 | a WITH list in which no clause depends on itself has a solution: every name holds what its clause returns over the list's names |
| WithScoping.SettledOnce | internal/sqlbuilder_sqlbuilder.go:761-776 | and only that one |
| WithScoping.InOrderInTurn | internal/transformer_scan_with.go:40-68 | a list whose clauses mention only earlier ones is evaluated one clause after the other |
| WithScoping.OrderKeptIff | internal/transformer_scan_with.go:40-83 | two copies of tables mean the same in order and under SQLite's scoping, in every world, if and only if neither reads a table of its own name and the first none of the second's |
| WithMerging.MergedWorld | internal/sqlbuilder_flatten.go:290-318 | merged lists, of which the inner captures nothing, bind every name as the two layers did |
| WithMerging.MergeCapturesNoMore | internal/sqlbuilder_flatten.go:290-318 | what neither of two lists captures from a third, the merged list does not |
| WithMerging.MergeKeepsIff | internal/sqlbuilder_flatten.go:290-318 | merging two clauses that copy a table binds every name as before, in every world, if and only if the outer one does not read a table that the inner one is named after, or both have one name |
| WithMerging.CaptureChangesRows | internal/sqlbuilder_flatten.go:58-91 | a statement of two layers whose rows flattening replaces by those of another table |
| JoinFlattening.MirrorsJoin | internal/sqlbuilder_flatten.go:562-581 | joining sides that read alike, under the substituted ON condition, gives rows that read alike |
| JoinFlattening.LeafColumn | internal/sqlbuilder_flatten.go:115-161 | an unwrapped leaf's column is read, one layer down, from the column it names, padded rows included |
| JoinFlattening.LeafReads | internal/sqlbuilder_flatten.go:115-161 | through all its layers it is read from what the leaf comes down to |
| JoinFlattening.LeavesFlattened | internal/sqlbuilder_flatten.go:99-161 | the map shared by all leaves holds what a map of each leaf would |
| JoinFlattening.TreeMirrors | internal/sqlbuilder_flatten.go:99-161 | over a whole tree of joins every leaf column is read after unwrapping as before |
| JoinFlattening.JoinsKeepRows | internal/sqlbuilder_flatten.go:28-43 | a SELECT over a tree of joins returns the same rows in order after its leaves are unwrapped |
| RecursiveCte.TransformRecursive | internal/transformer_scan_recursive.go:49-115 | builds the definition from the flattened term; fails exactly on another operation type |
| RecursiveCte.RenameTerm | internal/transformer_scan_recursive.go:71-85 | the first items take the columns' aliases by position |
| RecursiveCte.RenamedRows | internal/transformer_scan_recursive.go:71-85 | renaming changes no rows |
| RecursiveCte.RoundsKeepRows | internal/transformer_scan_recursive.go:49-105 | after every number of rounds, flattened and unflattened terms have accumulated the same rows |
| RecursiveCte.BaseKept | internal/transformer_scan_recursive.go:49-105 | the WITH list that a flattened term brings up does not change the base term |
| RecursiveCte.FlatteningKeepsRecursion | internal/transformer_scan_recursive.go:49-105 | the built definitions accumulate the same rows, for UNION ALL and for UNION |
| CompiledExpressions.ToSqlTransparent | internal/transformer_column_ref.go:32-39 | compiled expressions read only ID-based names, unqualified, and hide nothing from substitution |
| CompiledLeaves.UnwrapsIff | internal/sqlbuilder_flatten.go:226-256 | a compiled scan is unwrapped under a join exactly when it is a table, a CTE, a set operation or a projection of plain columns |
| CompiledLeaves.SideIsLeaf | internal/sqlbuilder_flatten.go:115-161 | every compiled scan, of any number of layers, can be a leaf of a flattened join, and what it maps and comes down to |
| CompiledLeaves.RenamingIsLost | internal/sqlbuilder_flatten.go:130-155 | a compiled projection whose computed column is not found after unwrapping |
| CompiledLeaves.UnwrappedTwiceIff | internal/sqlbuilder_flatten.go:130-155 | a projection over a side that is unwrapped in its turn is read right if and only if it computes no column |
| CompiledChains.JoinIsReady | internal/transformer_scan_join.go:35-85 | the join built for two compiled scans meets the conditions of join flattening |
| CompiledChains.SpineIsCollapsible | internal/sqlbuilder_flatten.go:58-95 | by induction over Project, Filter and WITH scans, what the transformers build collapses into the statement above it |
| CompiledChains.WithCollapsible | internal/transformer_scan_with.go:70-83 | the statement of a WITH scan collapses, list and all, into the one above it |
| CompiledChains.FlatList | internal/sqlbuilder_flatten.go:290-318 | the list of a flattened compiled statement is made of the lists that moved up |
| CompiledChains.CompiledIsChain | internal/transformer_scan_recursive.go:45-69 | the statement built for a query is a chain, so flattening keeps its result in every world |
| CompiledChains.CountingIsReady | internal/coordinator_extractor.go:1910-1932 | the textbook recursive term, a computed column over a filter over the CTE, meets the conditions in every world |
| ExposedReferences.ExposedIff | internal/sqlbuilder_flatten.go:3-22 | flattening brings a table directly into FROM if and only if Project, Filter and WITH scans lead to it or to a join with a side that lists its columns |
| ExposedReferences.ThreeWayJoinBuries | internal/sqlbuilder_flatten.go:226-256 | in a join of a join with a table the CTE is not brought into FROM |
| RecursiveScans.TransformRecursiveScan | internal/transformer_scan_recursive.go:31-115 | both terms are compiled and the second flattened; success exactly when both compile and the operation is UNION or UNION ALL; the definition accumulates the scan's rounds |
| RecursiveScans.TransformRecursiveInScope | internal/coordinator_coordinator.go:274-308 | the definition passes validation and its columns are registered |
| RecursiveScans.TransformRecursiveItem | internal/coordinator_coordinator.go:222-308 | the same inside its own scope, which is left as it was |
| RecursiveScans.TransformRecursiveBody | internal/transformer_with_entry.go:33-80 | the columns of a recursive entry are mapped before its terms are compiled, and its definition is used as it is |
| RecursiveScans.TransformRecursiveMarked | internal/transformer_scan_with.go:44-64 | the recursive name is set before the entry and cleared after it, and the clause marked recursive |
| RecursiveScans.TransformRecursiveWith | internal/transformer_scan_with.go:30-83 | a main query over a recursive CTE compiles exactly when both terms and the query do, and after every number of rounds it shows over the accumulated rows what its scan has over the scan's rounds |
| RecursiveScans.RoundsWide | internal/transformer_scan_recursive.go:71-85 | every row of every round has one value for each of the CTE's columns |
| RecursiveScans.TransformRecursiveEntry | internal/coordinator_coordinator.go:311-324 | the entry's definition accumulates, after every number of rounds and in every world the term can be flattened over, what the scan's rounds do; scope restored |
| RecursiveScans.RoundsAgree | internal/transformer_scan_recursive.go:37-64 | round by round the compiled term adds what the scan's term adds |
| RecursiveScans.DefinitionAccumulates | internal/transformer_scan_recursive.go:37-115 | with the term flattened, for UNION ALL and for UNION, the accumulated rows are those of the scan's rounds |
| RecursiveScans.RoundInStep | internal/transformer_scan_recursive_ref.go:27-75 | binding the CTE to a round's rows keeps scan and SQL worlds in step |
| OperatorFastPath.And | internal/function.go:289-307 | false if a false argument comes before one that is not a boolean, else an error, NULL or true |
| OperatorFastPath.Or | internal/function.go:309-327 | the same with true |
| OperatorFastPath.FoldAnd | internal/transformer_function.go:289-297 | a chain of AND is false if any is, else unknown if any is, else true |
| OperatorFastPath.FoldOr | internal/transformer_function.go:289-297 | the dual for OR |
| OperatorFastPath.CallRefines | internal/transformer_function.go:282-313 | one operator: whenever the bound function returns a value, the operator returns it |
| OperatorFastPath.FastPathRefines | internal/transformer_function.go:234-353 | the emitted SQL of a whole tree over integers and booleans returns, on every row in which the tree's own columns can be read, whatever value the bound functions return |
| OperatorFastPath.TypedRuns | internal/function.go:28-73 | a well-typed tree never makes a bound function fail |
| OperatorFastPath.TypedFastPathAgrees | internal/transformer_function.go:234-353 | so over well-typed trees emitted SQL and bound functions agree on every such row |
| OperatorFastPath.FastPathOverScan | internal/transformer_function.go:234-353 | in particular over every row of every statement built for a scan |
| OperatorFastPath.CallsMean | internal/function_bind.go:309-350 | in a world of bound functions, the scan's meaning of the tree is what the calls return |
| OperatorFastPath.BoundWorldAgrees | internal/transformer_function.go:211-231 | a world of bound functions, given the operators' values where a bound function fails, is one in which compilation is right; no value a bound function returns changes |
| OperatorFastPath.OperatorsAreMoreDefined | internal/value.go:141-150 | a tree on which only the operators are defined |
| WindowFrames.AggregatedStatus.Step | internal/function_window_option.go:48-51 | appends the value |
| WindowFrames.AggregatedStatus.Inverse | internal/function_window_option.go:54-68 | removes the first equal value, or nothing |
| WindowFrames.AggregatedStatus.RelevantValues | internal/function_window_option.go:23-45 | NULLs and repetitions left out as asked; an error exactly for DISTINCT over a NULL that is not ignored |
| WindowFrames.RelevantAre | internal/function_window_option.go:23-45 | the non-null relevant values are the frame's, or the first of each under DISTINCT |
| WindowFrames.UniqCounts | internal/function_window_option.go:23-45 | the values kept under DISTINCT are as many as the set has |
| WindowFunctions.OldestLeaves | internal/function_window_option.go:54-68 | removal by first equal value is removal of the oldest row, for COUNT among the non-null rows |
| WindowFunctions.WindowFunction.Step | internal/function_bind.go:218-238 | a row entering extends the frame the state stands for |
| WindowFunctions.WindowFunction.Inverse | internal/function_bind.go:239-245 | the oldest row leaving shortens it |
| WindowFunctions.WindowFunction.Done | internal/function_bind.go:246-251 | the value is that of the whole frame |
| WindowFunctions.Slide | internal/function_bind.go:215-253 | for every sequence of frames that slide forward, each row's COUNT, SUM, MAX, MIN, LEAD or LAG is its whole frame's |
| WindowFunctions.SumOf | internal/function_window.go:234-258 | the sum of the non-null values, wrapped to 64 bits, NULL if there are none |
| WindowFunctions.ExtremeOf | internal/function_window.go:135-193 | a value of the frame that none exceeds, or falls below; NULL if there are none |
| WindowFunctions.ParseArguments | internal/function_window.go:290-324 | offset and default; an error exactly for too many arguments or a NULL or negative offset |
| WindowFunctions.LeadOver | internal/function_window.go:326-332 | LEAD is the row that many places on, or the default |
| WindowFunctions.LagOver | internal/function_window.go:401-407 | LAG is the row that many places back, or the default |
| WindowRanks.Rank | internal/function_window.go:627-639 | one more than the rows in earlier peer groups |
| WindowRanks.DenseRank | internal/function_window.go:643-658 | one more than the earlier peer groups |
| WindowRanks.PercentRank | internal/function_window.go:660-682 | (RANK - 1) / (N - 1) from the frame of later rows, 0 for a single row |
| WindowRanks.CumeDist | internal/function_window.go:684-701 | the share of rows in groups up to the row's |
| WindowRanks.RanksFollowGroups | internal/coordinator_extractor.go:556-603 | the ranks agree on what peers are, grow together and stay within their bounds |
| WindowRanks.NtileState.Done | internal/function_window.go:737-757 | the bucket whose rows contain the row; the internal assertion never fails |
| WindowRanks.Ntile | internal/function_window.go:727-757 | buckets start at 1, never decrease, rise by at most 1, and each is its interval of rows |
| WindowRanks.BucketSizes | internal/function_window.go:737-757 | buckets follow each other, cover all rows, differ by at most one row, larger ones first |
| WindowRanks.EveryBucketUsed | internal/function_window.go:737-757 | with no more buckets than rows every bucket has a row |
| WindowRanks.ParseNtile | internal/function_window.go:709-725 | a positive non-null count, or an error |
| Calendar.YearsStart | internal/function_date.go:286-308 | counting months one by one agrees with the leap-year formula |
| Calendar.DateReadsBack | internal/function_date.go:286-296 | a date that needs no normalising is read back as given |
| Calendar.EpochDay | internal/function_date.go:122-122 | 1970-01-01 is day 719162, a Thursday, at Unix time 0 |
| DateFunctions.DateDiffWeek | internal/function_date.go:104-146 | on midnight dates, the signed number of days in (earlier, later] on the weekday; an error exactly for other parts |
| DateFunctions.CountBoundaries | internal/function_date.go:121-137 | the counts array holds, for each weekday, how often it occurs |
| DateFunctions.DateTruncWeek | internal/function_date.go:171-182 | the last day up to the date on that weekday, time of day kept |
| DateFunctions.WeekDiffIsTruncation | internal/function_date.go:104-182 | DATE_DIFF by week is the difference of the truncated dates in weeks |
| DateFunctions.WeekDiffLaws | internal/function_date.go:104-146 | hence antisymmetric and additive, and whole weeks count fully |
| DateFunctions.AddMonthReaches | internal/function_date.go:286-296 | the month reached, the day cut to its length |
| DateFunctions.AddMonthMoves | internal/function_date.go:286-296 | the month index moves by exactly m and the day is the smaller of the day and the month's length |
| DateFunctions.AddMonthKeepsTimeOfDay | internal/function_date.go:286-296 | inside addMonth the time of day is kept if and only if it is midnight or the day is not cut |
| DateFunctions.AddMonthUndone | internal/function_date.go:286-296 | adding and subtracting months is the identity if and only if the day is not cut |
| DateFunctions.AddYearIsAddMonth | internal/function_date.go:298-308 | adding y years is adding 12 y months |
| DateFunctions.MonthDiffUndoesAdd | internal/function_date.go:156-157 | DATE_DIFF(DATE_ADD(t, m, MONTH), t, MONTH) = m |
| DateFunctions.YearDiffUndoesAdd | internal/function_date.go:158-159 | the same for years |
| DateFunctions.WeekDiffUndoesAdd | internal/function_date.go:59-64 | the same for weeks, wherever they start |
| DateFunctions.SubUndoesAddOfDays | internal/function_date.go:76-81 | DATE_SUB undoes DATE_ADD for days and weeks |
| DateFunctions.SubUndoesAddOfMonths | internal/function_date.go:76-86 | for months and years if and only if the day is not cut |
| DatetimeFunctions.DatetimeKeepsTimeOfDay | internal/function_datetime.go:120-138 | DATETIME_ADD and DATETIME_SUB of date parts reach DATE_ADD's and DATE_SUB's date at the argument's time of day, and fail exactly where those do |
| DatetimeFunctions.SubUndoesAddOfDates | internal/function_datetime.go:108-178 | DATETIME_SUB undoes DATETIME_ADD of months and years, time of day included, if and only if the day is not cut |
| DatetimeFunctions.ClockAddReachesIff | internal/function_datetime.go:108-192 | adding hours or smaller parts reaches the right instant, and DATETIME_DIFF finds the count, if and only if their nanoseconds fit 64 bits |
| DatetimeFunctions.SubUndoesAddOfClocks | internal/function_datetime.go:108-156 | DATETIME_SUB undoes it if and only if the nanoseconds do not wrap to the least 64-bit integer |
| DatetimeFunctions.HoursWrap | internal/function_datetime.go:118-119 | 2562047 hours are added, 2562048 hours go back in time |
| DateFunctions.QuarterIgnoresCount | internal/function_date.go:69-71 | DATE_ADD by quarters is right if and only if the count is 1 |
| TimeFormat.ReadsOwnPrint | internal/function_time_parser.go:795-845 | each specifier reads exactly what it prints; %Y needs four digits or no digit after it |
| TimeFormat.ReadsNumber | internal/function_time_parser.go:795-845 | a run of digits is read up to the maximum's places |
| TimeFormatParser.ParseDigitRespectingOptionalPlaces | internal/function_time_parser.go:795-845 | how many digits are read and the number they make, or an error |
| TimeFormatParser.RunParsers | internal/function_time_parser.go:439-451 | one parser after the other, each on what is left |
| TimeFormatParser.ParseTimeFormat | internal/function_time_parser.go:1117-1211 | the scanner over format and text agrees with its specification, errors included |
| TimeFormatParser.FormatTime | internal/function_time_parser.go:1214-1262 | the printer agrees with its specification |
| TimeFormatParser.PrintAndParse | internal/function_time_parser.go:1117-1262 | printing and parsing end to end restores every printed field |
| TimeRoundTrip.ReadsBack | internal/function_time_parser.go:1117-1262 | parsing one's own print succeeds and consumes all the text, for every format of literals and the modelled specifiers |
| TimeRoundTrip.RoundTrip | internal/function_time_parser.go:1117-1262 | every printed field is restored, of February 29th when the format recovers from it and of every other day |
| TimeRoundTrip.FullRoundTrip | internal/function_time_parser.go:1117-1262 | with date and clock in the format, the time itself comes back to the second |
| TimeRoundTrip.RoundTripIff | internal/function_time_parser.go:1117-1262 | a format restores every time if and only if reading February 29th with it ends in February and on the 29th, as far as it prints them |
| TimeRoundTrip.LeapDayRestoredIff | internal/function_time_parser.go:847-863 | one February 29th is restored exactly when every one is |
| TimeRoundTrip.SafeRecovers | internal/function_time_parser.go:847-863 | formats that never have month and day without year recover; of those that print no part of the date twice, no others do |
| CatalogTree.AddTableFinds | internal/catalog.go:527-568 | after an addition, what resolved resolves to the same table, the table's free paths resolve to it, and nothing else changes |
| CatalogTree.RegistersIff | internal/catalog.go:527-568 | the paths are exactly a subsequence of the leading names followed by the rest joined by dots |
| CatalogTree.SubsequencesRegister | internal/catalog.go:527-568 | every subsequence ending in the last name is one of them |
| CatalogTree.AddTableOkIff | internal/catalog.go:570-582 | a column that cannot be converted is an error if and only if some path is still free |
| CatalogTree.AddFunctionFinds | internal/catalog.go:584-631 | the same for functions, which lose their aggregate flag below the top |
| CatalogTree.AddFunctionOkIff | internal/catalog.go:584-631 | a type that cannot be converted is an error if and only if some path is still free |
| CatalogTree.RegistersFunctionIff | internal/catalog.go:584-631 | functions are registered under exactly the subsequences ending in the last name |
| Catalogs.Catalog.AddTableSpec | internal/catalog.go:513-525 | a new name extends list, map and tree, and succeeds exactly when its columns convert or nothing is left to register; a known one changes the map only; the invariant holds even when the tree addition fails |
| Catalogs.Catalog.AddFunctionSpec | internal/catalog.go:499-511 | the same for functions |
| Catalogs.Catalog.ResetCatalog | internal/catalog.go:397-414 | succeeds if and only if every spec can be added after those before it; otherwise exactly the specs up to the first that cannot are left, in lists and maps |
| Catalogs.Catalog.DeleteTableSpecByName | internal/catalog.go:359-376 | an unknown name changes nothing; a known one is the only one removed if and only if all other specs can be added again, and otherwise exactly what that rebuild leaves remains |
| Catalogs.Catalog.DeleteFunctionSpecByName | internal/catalog.go:378-395 | the same for functions |
| Catalogs.WithoutOne | internal/catalog.go:359-376 | exactly one listed spec goes, the others keep their order and stay distinct |
| Catalogs.RebuiltMapKeeps | internal/catalog.go:397-414 | a deletion keeps another entry's latest spec if and only if that is the listed one |
| Catalogs.BuildFinds | internal/catalog.go:397-414 | a tree built from the lists finds the first listed spec registered under a path |
| Catalogs.TreeIsAsRebuilt | internal/catalog.go:499-525 | the tree kept incrementally finds what a tree rebuilt from the lists finds |
| Catalogs.AddedIsFoundIff | internal/catalog.go:513-525 | an added table's path leads to its columns if and only if it was free and the name new, or led to the same columns |
| Catalogs.NothingLostIff | internal/catalog.go:397-414 | a rebuild loses nothing if and only if every spec can be added, or only the very last cannot |
| Catalogs.StaysBad | internal/catalog.go:397-414 | a table that cannot be added never can, whatever is listed after it or deleted |
| Catalogs.BadTableCutsOff | internal/catalog.go:359-414 | from then on a rebuild drops every table listed after it and every function |
| Catalogs.LoseTable | internal/catalog.go:359-414 | a new catalog, three additions and one deletion, which fails and leaves only the table that could not be added |
| Catalogs.DeletionLosesTable | internal/catalog.go:359-376 | three tables of which a deletion of the first loses the third as well |
| Catalogs.NamesCollideIff | internal/catalog.go:236-238 | another path has the same name if and only if the name is empty or has an underscore |
| Catalogs.CollidingTableIsKnown | internal/catalog.go:513-525 | a table whose name is taken by another path is known, so it enters neither list nor tree |
| Catalogs.KeptOutIff | internal/catalog.go:513-525 | a table can be kept out by one of another path if and only if its name is empty or has an underscore |

## Left out

- Statements and FROM items are values: the in-place updates of SelectStatement and FromItem nodes (join sides, aliases, cleared WITH clauses), and sharing between them, are not modelled. The context, the column map, the aggregator states and the catalog are classes.
- The catalog tree is a value held in a field; the sub-catalog pointers of SimpleCatalog are not modelled, nor its built-in functions and case folding.
- Compiler fragment: table, filter, project, join, limit, UNION ALL, WITH and its references, recursive entries, query statements. Aggregate, analytic, array, ORDER BY and single-row scans, subqueries, DML, MERGE, CREATE and DROP are not part of this model.
- ExpressionTransformer.TransformExpression: scalar, EXISTS and IN subqueries are not modelled, nor collations.
- ExpressionTransformer.TransformCall: custom SQL bodies of functions, current-time arguments, user-defined functions and window specifications of calls are not modelled.
- What IN computes and what ordering comparisons do on strings is left to the world, as are casts.
- Scans.WellFormed: no WITH entry reads a base table named like itself, like a later entry of its list or like an entry in scope; WithScoping.OrderKeptIff shows what happens otherwise.
- Synthetic columns of wildcard tables, the unused column map and start size of the context, and debug output are not modelled.
- Flattening: aggregate and window calls, collations, and subqueries inside expressions are excluded from chains, as are layers whose WITH lists capture a table or depend on themselves (WithMerging.CaptureChangesRows shows why); for those termination, normal form and idempotence are proved.
- ChainFlattening.DistinctLayerKeptIff: the statement above the DISTINCT layer has no LIMIT, and there is one such layer.
- ChainFlattening.DistinctLayerKeptEverywhereIff: the same, and the DISTINCT layer is a list over one table without WHERE.
- CompiledChains.SpineReady: no entry of a WITH inside a recursive term may read a table that an entry further down is named after, and no base table under a join may have a column named like an ID-based name of the other side.
- RecursiveScans.TermReady: an entry of a WITH inside a recursive term neither reads the CTE nor has its name, nor the name of a table of the base term.
- RecursiveScans.RoundInStep: the CTE's reference to itself is modelled as a reference to a WITH entry: its alias starts with wrs instead of rrs, and the context's recursive name, which a nested recursive WITH would clear, is not consulted for it.
- RecursiveScans.TransformRecursiveWith: one recursive entry and its main query, as a method of its own; recursive scans are no constructor of Scan, so CompileStatement does not reach them. Rounds follow the standard's working table, not SQLite's row-by-row queue, and how many there are is left open.
- Window values are 64-bit integers and NULL; other value types, two-argument aggregates, percentiles and user-written frames other than forward-sliding ones are not modelled. Ratios are exact rationals.
- DATE_DIFF for DAY, ISOWEEK, ISOYEAR, DATE_TRUNC other than by week, DATETIME_DIFF of date parts, DATETIME_TRUNC, LAST_DAY and time zones are not modelled.
- Format specifiers other than %Y %m %d %H %M %S %F %T %R are errors in the model; the AM/PM post-processing they need is not modelled. The process's local time zone is UTC.
- Persistence, synchronisation and locking of the catalog, and its suggestion and type lookups, are not modelled.
- Printing statements as SQL text is not modelled: meaning is given to the syntax tree.
