/** The FROM aliases the coordinator assigns, and why no two of them in one query are the same. */
module ScopeAliasNames {
  import opened Decimal
  import opened SqlAst
  import opened Scans

  /** `fmt.Sprintf("%s_%s", alias, GetID())`. */
  function ScopedAlias(kind: string, id: nat): string {
    kind + "_" + Digits(id)
  }

  const SET_OP_INNER := "set_op_scan_inner"

  /** The coordinator's aliases in a FROM item; the set operation's fixed inner alias is not one of them. */
  function FromAliases(f: FromItem): seq<string>
    decreases f, 0
  {
    match f
    case TableItem(_, _) => []
    case SubqueryItem(query, alias) => (if alias == SET_OP_INNER then [] else [alias]) + SelectAliases(query)
    case JoinItem(_, left, right, _, _) => FromAliases(left) + FromAliases(right)
  }

  function SelectAliases(s: Select): seq<string>
    decreases s, 1
  {
    WithAliases(s.withs)
    + (if s.setOp.Some? then UnionAliases(s.setOp.value.items) else [])
    + (if s.from.Some? then FromAliases(s.from.value) else [])
  }

  function WithAliases(ws: seq<WithClause>): seq<string>
    decreases ws, 0
  {
    if ws == [] then [] else WithAliases(ws[..|ws| - 1]) + SelectAliases(ws[|ws| - 1].query)
  }

  function UnionAliases(items: seq<Select>): seq<string>
    decreases items, 0
  {
    if items == [] then [] else UnionAliases(items[..|items| - 1]) + SelectAliases(items[|items| - 1])
  }

  /** The alias was assigned while the scope counter moved from lo to hi. */
  ghost predicate Minted(alias: string, lo: nat, hi: nat) {
    exists kind, id: nat :: lo < id <= hi && alias == ScopedAlias(kind, id)
  }

  ghost predicate Fresh(xs: seq<string>, lo: nat, hi: nat) {
    DistinctStrings(xs) && forall i :: 0 <= i < |xs| ==> Minted(xs[i], lo, hi)
  }

  lemma MintedApart(a: string, b: string, lo: nat, mid: nat, hi: nat)
    requires Minted(a, lo, mid) && Minted(b, mid, hi)
    ensures a != b
  {
    var k, i: nat :| lo < i <= mid && a == ScopedAlias(k, i);
    var l, j: nat :| mid < j <= hi && b == ScopedAlias(l, j);
    if a == b {
      NumberedNameUnique(k + "_", i, l + "_", j);
    }
  }

  lemma FreshWiden(xs: seq<string>, lo: nat, hi: nat, lo': nat, hi': nat)
    requires Fresh(xs, lo, hi) && lo' <= lo && hi <= hi'
    ensures Fresh(xs, lo', hi')
  {
    forall i | 0 <= i < |xs|
      ensures Minted(xs[i], lo', hi')
    {
      var kind, id: nat :| lo < id <= hi && xs[i] == ScopedAlias(kind, id);
    }
  }

  /** Aliases assigned one after the other stay distinct. */
  lemma FreshAppend(xs: seq<string>, ys: seq<string>, lo: nat, mid: nat, hi: nat)
    requires Fresh(xs, lo, mid) && Fresh(ys, mid, hi) && lo <= mid <= hi
    ensures Fresh(xs + ys, lo, hi)
  {
    FreshWiden(xs, lo, mid, lo, hi);
    FreshWiden(ys, mid, hi, lo, hi);
    forall i, j | 0 <= i < |xs| && 0 <= j < |ys|
      ensures xs[i] != ys[j]
    {
      MintedApart(xs[i], ys[j], lo, mid, hi);
    }
  }

  lemma FreshTail(xs: seq<string>, ys: seq<string>, lo: nat, hi: nat)
    requires Fresh(xs + ys, lo, hi)
    ensures Fresh(ys, lo, hi)
  {
    forall i | 0 <= i < |ys|
      ensures ys[i] == (xs + ys)[|xs| + i]
    {
    }
    forall i | 0 <= i < |ys|
      ensures Minted(ys[i], lo, hi)
    {
      assert Minted((xs + ys)[|xs| + i], lo, hi);
    }
  }

  /** A scan's own alias differs from every alias assigned inside it. */
  lemma FreshOwn(kind: string, id: nat, xs: seq<string>, hi: nat)
    requires 0 < id <= hi && Fresh(xs, id, hi)
    ensures Fresh([ScopedAlias(kind, id)] + xs, id - 1, hi)
  {
    assert Minted(ScopedAlias(kind, id), id - 1, id);
    FreshAppend([ScopedAlias(kind, id)], xs, id - 1, id, hi);
  }

  lemma WithAliasesSnoc(ws: seq<WithClause>, w: WithClause)
    ensures WithAliases(ws + [w]) == WithAliases(ws) + SelectAliases(w.query)
  {
    assert (ws + [w])[..|ws|] == ws;
  }

  lemma UnionAliasesSnoc(items: seq<Select>, s: Select)
    ensures UnionAliases(items + [s]) == UnionAliases(items) + SelectAliases(s)
  {
    assert (items + [s])[..|items|] == items;
  }
}
