/**
 The mutable state the transformers share (internal/querybuilder_context.go): a scope stack that only
 numbers aliases, two flat maps from column IDs that are never unwound, and the columns of WITH entries.
 */
module TransformContexts {
  import opened Decimal
  import opened Scans
  import opened ExpressionMeaning

  datatype ColumnInfo = ColumnInfo(name: string, id: nat)

  /** The scopes below the last occurrence of a token; all of them when it does not occur. */
  function Unwound(scopes: seq<nat>, token: nat): seq<nat> {
    if token !in scopes then scopes
    else if scopes[|scopes| - 1] == token then scopes[..|scopes| - 1]
    else Unwound(scopes[..|scopes| - 1], token)
  }

  lemma UnwoundTop(scopes: seq<nat>, token: nat)
    ensures Unwound(scopes + [token], token) == scopes
  {
    assert (scopes + [token])[..|scopes|] == scopes;
  }

  /** The context's state at one moment. */
  datatype Snapshot = Snapshot(scopes: seq<nat>, count: nat, ids: map<nat, string>, mappings: map<string, seq<string>>)

  /** The scope stack is as it was, no ID is forgotten, and no WITH entry changed but those defined inside. */
  ghost predicate Since(before: Snapshot, now: Snapshot, defined: set<string>) {
    && now.scopes == before.scopes
    && before.count <= now.count
    && (forall id :: id in before.ids ==> id in now.ids)
    && forall n :: n in before.mappings && n !in defined ==>
         n in now.mappings && now.mappings[n] == before.mappings[n]
  }

  lemma SinceTransitive(a: Snapshot, b: Snapshot, c: Snapshot, inner: set<string>, defined: set<string>)
    requires Since(a, b, defined) && Since(b, c, inner) && inner <= defined
    ensures Since(a, c, defined)
  {
  }

  /** Leaving a scope that was entered before undoes nothing else. */
  lemma ScopeLeft(before: Snapshot, inside: Snapshot, token: nat, after: Snapshot, defined: set<string>)
    requires before.count <= token
    requires Since(before.(scopes := before.scopes + [token], count := token), inside, defined)
    requires after == inside.(scopes := Unwound(inside.scopes, token))
    ensures Since(before, after, defined)
  {
    UnwoundTop(before.scopes, token);
  }

  function AliasInfos(m: map<nat, ColumnInfo>, cols: seq<Col>): map<nat, ColumnInfo> {
    if cols == [] then m
    else
      var c := cols[|cols| - 1];
      AliasInfos(m, cols[..|cols| - 1])[c.id := ColumnInfo(Alias(c), c.id)]
  }

  function ScopeAliases(m: map<nat, string>, alias: string, cols: seq<Col>): map<nat, string> {
    if cols == [] then m
    else ScopeAliases(m, alias, cols[..|cols| - 1])[cols[|cols| - 1].id := alias]
  }

  class FragmentContext {
    var count: nat
    var scopes: seq<nat>
    var availableColumns: map<nat, ColumnInfo>
    var columnIDToScope: map<nat, string>

    constructor ()
      ensures scopes == [] && count == 0 && availableColumns == map[] && columnIDToScope == map[]
    {
      count, scopes, availableColumns, columnIDToScope := 0, [], map[], map[];
    }

    function GetID(): string
      reads this
    {
      if scopes == [] then "0" else Digits(scopes[|scopes| - 1])
    }

    method EnterScope() returns (token: nat)
      modifies this
      ensures token == count == old(count) + 1
      ensures scopes == old(scopes) + [token]
      ensures availableColumns == old(availableColumns) && columnIDToScope == old(columnIDToScope)
    {
      count := count + 1;
      token := count;
      scopes := scopes + [token];
    }

    /** Drops the token and every scope entered after it. */
    method ExitScope(token: nat)
      modifies this
      ensures scopes == Unwound(old(scopes), token) && count == old(count)
      ensures availableColumns == old(availableColumns) && columnIDToScope == old(columnIDToScope)
    {
      var i := |scopes|;
      assert scopes[..i] == scopes;
      while i > 0
        invariant 0 <= i <= |scopes| && scopes == old(scopes) && count == old(count)
        invariant availableColumns == old(availableColumns) && columnIDToScope == old(columnIDToScope)
        invariant Unwound(scopes, token) == if token in scopes[..i] then Unwound(scopes[..i], token) else scopes
      {
        i := i - 1;
        assert scopes[..i + 1][..i] == scopes[..i];
        if scopes[i] == token {
          scopes := scopes[..i];
          return;
        }
      }
    }

    method AddAvailableColumn(id: nat, info: ColumnInfo)
      modifies this
      ensures availableColumns == old(availableColumns)[id := info]
      ensures count == old(count) && scopes == old(scopes) && columnIDToScope == old(columnIDToScope)
    {
      availableColumns := availableColumns[id := info];
    }

    method RegisterColumnScopeMapping(alias: string, cols: seq<Col>)
      modifies this
      ensures columnIDToScope == ScopeAliases(old(columnIDToScope), alias, cols)
      ensures availableColumns == AliasInfos(old(availableColumns), cols)
      ensures count == old(count) && scopes == old(scopes)
    {
      for i := 0 to |cols|
        invariant columnIDToScope == ScopeAliases(old(columnIDToScope), alias, cols[..i])
        invariant availableColumns == AliasInfos(old(availableColumns), cols[..i])
        invariant count == old(count) && scopes == old(scopes)
      {
        assert cols[..i + 1][..i] == cols[..i];
        columnIDToScope := columnIDToScope[cols[i].id := alias];
        availableColumns := availableColumns[cols[i].id := ColumnInfo(Alias(cols[i]), cols[i].id)];
      }
      assert cols[..|cols|] == cols;
    }

    /** The precondition is the condition under which the original does not panic. */
    method GetQualifiedColumnRef(id: nat) returns (name: string, scope: string)
      requires id in columnIDToScope
      ensures id in availableColumns ==> name == availableColumns[id].name && scope == columnIDToScope[id]
      ensures id !in availableColumns ==> name == "" && scope == ""
    {
      if id !in availableColumns {
        return "", "";
      }
      return availableColumns[id].name, columnIDToScope[id];
    }

    /** Whatever has been overwritten, every registered ID still has its own ID-based name. */
    ghost predicate Resolves(names: Names)
      reads this
    {
      forall id :: id in columnIDToScope ==>
        id in availableColumns && availableColumns[id].name == NameOf(names, id)
    }

    ghost predicate Knows(cols: seq<Col>)
      reads this
    {
      forall c :: c in cols ==> c.id in columnIDToScope
    }
  }

  class TransformContext {
    const fragment: FragmentContext
    var withMappings: map<string, seq<string>>
    var recursiveCTEName: string

    constructor ()
      ensures fresh(fragment) && fragment.scopes == [] && fragment.count == 0
      ensures fragment.columnIDToScope == map[]
      ensures withMappings == map[] && recursiveCTEName == ""
    {
      fragment := new FragmentContext();
      withMappings, recursiveCTEName := map[], "";
    }

    method AddWithEntryColumnMapping(name: string, cols: seq<Col>)
      modifies this
      ensures withMappings == old(withMappings)[name := Aliases(cols)]
      ensures recursiveCTEName == old(recursiveCTEName)
    {
      var mapping := [];
      for i := 0 to |cols|
        invariant mapping == Aliases(cols[..i])
        invariant withMappings == old(withMappings) && recursiveCTEName == old(recursiveCTEName)
      {
        mapping := mapping + [Alias(cols[i])];
      }
      assert cols[..|cols|] == cols;
      withMappings := withMappings[name := mapping];
    }

    ghost function Now(): Snapshot
      reads this, fragment
    {
      Snapshot(fragment.scopes, fragment.count, fragment.columnIDToScope, withMappings)
    }

    /** The context after a call, successful or not: ready, and nothing lost since the call. */
    ghost predicate After(before: Snapshot, names: Names, sig: Signature, defined: set<string>)
      reads this, fragment
    {
      Ready(names, sig) && Since(before, Now(), defined)
    }

    /** Everything a transformer may rely on when it is called, and must leave in place. */
    ghost predicate Ready(names: Names, sig: Signature)
      reads this, fragment
    {
      && fragment.Resolves(names)
      && forall n :: n in sig ==> n in withMappings && withMappings[n] == Aliases(sig[n])
    }
  }

  // ----- overwriting is harmless -----

  lemma {:induction false} ScopeAliasesKeys(m: map<nat, string>, alias: string, cols: seq<Col>)
    ensures forall id :: id in ScopeAliases(m, alias, cols) <==> id in m || Ids(cols, id)
  {
    if cols != [] {
      ScopeAliasesKeys(m, alias, cols[..|cols| - 1]);
      var c := cols[|cols| - 1];
      assert cols == cols[..|cols| - 1] + [c];
      assert forall id :: Ids(cols, id) <==> Ids(cols[..|cols| - 1], id) || id == c.id;
    }
  }

  /** Registering a column again gives its ID the name it already had. */
  lemma {:induction false} AliasInfosNames(m: map<nat, ColumnInfo>, cols: seq<Col>, names: Names)
    requires Named(cols, names)
    ensures forall id :: Ids(cols, id) ==>
      id in AliasInfos(m, cols) && AliasInfos(m, cols)[id].name == NameOf(names, id)
    ensures forall id :: !Ids(cols, id) ==>
      (id in AliasInfos(m, cols) <==> id in m) && (id in m ==> AliasInfos(m, cols)[id] == m[id])
  {
    if cols != [] {
      var rest, c := cols[..|cols| - 1], cols[|cols| - 1];
      assert cols == rest + [c];
      assert c in cols;
      assert Named(rest, names);
      AliasInfosNames(m, rest, names);
      assert forall id :: Ids(cols, id) <==> Ids(rest, id) || id == c.id;
    }
  }
}
