/**
 Which columns a compiled statement carries: `getSelectListRecursive` and `validateColumnData`
 (internal/coordinator_coordinator.go:355-441), and why their check is exact.
 */
module CompiledColumns {
  import opened Wrappers
  import opened SqlAst
  import opened Scans

  /** `getSelectListRecursive`; None stands for its nil result and for the nil side of a join. */
  function SelectListOf(s: Select): Option<seq<Item>>
    decreases s
  {
    if s.setOp.Some? then
      if s.setOp.value.items == [] then None else SelectListOf(s.setOp.value.items[0])
    else if s.items == [] then None
    else if |s.items| == 1 && (s.items[0].isStarExpansion || IsStarItem(s.items[0])) && s.from.Some?
            && (s.from.value.SubqueryItem? || s.from.value.JoinItem?) then
      match s.from.value
      case SubqueryItem(query, _) => SelectListOf(query)
      case JoinItem(_, left, right, _, _) =>
        if left.SubqueryItem? && right.SubqueryItem? then
          var l, r := SelectListOf(left.query), SelectListOf(right.query);
          Some((if l.Some? then l.value else []) + (if r.Some? then r.value else []))
        else None
      case _ => Some(s.items)
    else Some(s.items)
  }

  function ItemAliases(items: seq<Item>): seq<string> {
    seq(|items|, i requires 0 <= i < |items| => items[i].alias)
  }

  /** The names are exactly the ID-based aliases of the columns, each once, in any order. */
  ghost predicate Lists(names: seq<string>, cols: seq<Col>) {
    |names| == |cols| && Covers(names, cols)
  }

  ghost predicate Covers(names: seq<string>, cols: seq<Col>) {
    DistinctStrings(names) && forall c :: c in cols ==> Alias(c) in names
  }

  /** What `validateColumnData` accepts of a SELECT list. */
  ghost predicate Accepted(list: seq<string>, cols: seq<Col>) {
    |list| == |cols| && forall i :: 0 <= i < |list| ==> list[i] != "" && list[i] in Aliases(cols)
  }

  function ToSet(ss: seq<string>): set<string> {
    set s | s in ss
  }

  lemma {:induction false} DistinctSize(ss: seq<string>)
    requires DistinctStrings(ss)
    ensures |ToSet(ss)| == |ss|
  {
    if ss != [] {
      var n := |ss| - 1;
      DistinctSize(ss[..n]);
      assert ss == ss[..n] + [ss[n]];
      assert ToSet(ss) == ToSet(ss[..n]) + {ss[n]};
    }
  }

  lemma {:induction false} SubsetOfSameSize(a: set<string>, b: set<string>)
    requires a <= b && |a| == |b|
    ensures a == b
  {
    if a != {} {
      var x :| x in a;
      SubsetOfSameSize(a - {x}, b - {x});
    }
  }

  /** Pigeonhole: as many distinct names, all from the other list, are all of the other list. */
  lemma SameNames(a: seq<string>, b: seq<string>)
    requires DistinctStrings(a) && DistinctStrings(b) && |a| == |b|
    requires forall s :: s in a ==> s in b
    ensures forall s :: s in b ==> s in a
  {
    DistinctSize(a);
    DistinctSize(b);
    SubsetOfSameSize(ToSet(a), ToSet(b));
    forall s | s in b
      ensures s in a
    {
      assert s in ToSet(b);
    }
  }

  lemma DistinctAliases(cols: seq<Col>)
    requires DistinctIds(cols)
    ensures DistinctStrings(Aliases(cols))
  {
    forall i, j | 0 <= i < j < |cols|
      ensures Aliases(cols)[i] != Aliases(cols)[j]
    {
      if Alias(cols[i]) == Alias(cols[j]) {
        AliasInjective(cols[i], cols[j]);
      }
    }
  }

  /** A list of distinct names is accepted exactly when it carries the scan's columns and nothing else. */
  lemma AcceptedIffLists(list: seq<string>, cols: seq<Col>)
    requires DistinctStrings(list) && DistinctIds(cols)
    ensures Accepted(list, cols) <==> Lists(list, cols)
  {
    DistinctAliases(cols);
    var aliases := Aliases(cols);
    if Accepted(list, cols) {
      SameNames(list, aliases);
      forall c | c in cols
        ensures Alias(c) in list
      {
        var i :| 0 <= i < |cols| && cols[i] == c;
        assert aliases[i] in aliases;
      }
    }
    if Lists(list, cols) {
      forall s | s in aliases
        ensures s in list
      {
        var i :| 0 <= i < |aliases| && aliases[i] == s;
        assert cols[i] in cols;
      }
      SameNames(aliases, list);
      forall i | 0 <= i < |list|
        ensures list[i] != "" && list[i] in aliases
      {
        assert list[i] in list;
        var k :| 0 <= k < |aliases| && aliases[k] == list[i];
        assert |Alias(cols[k])| > 0;
      }
    }
  }
}
