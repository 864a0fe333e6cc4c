/**
 A DISTINCT layer below another layer: what collapsing it, which loses its DISTINCT
 (internal/sqlbuilder_flatten.go:58-66 and 264-274), does to the rows.
 */
module DistinctLayers {
  import opened Wrappers
  import opened SqlAst
  import opened SqlSemantics
  import opened Flattening
  import opened SelectAlgebra

  ghost predicate NoRepeats(ts: seq<Tuple>) {
    forall i, j :: 0 <= i < j < |ts| ==> ts[i] != ts[j]
  }

  // ----- rows without repetitions -----

  lemma DedupeSnoc(ts: seq<Tuple>, t: Tuple)
    ensures Dedupe(ts + [t]) == Dedupe(ts) + (if t in ts then [] else [t])
  {
    var mask := FirstOccurrences(ts);
    assert forall i :: 0 <= i < |ts| ==> (ts + [t])[..i] == ts[..i];
    assert (ts + [t])[..|ts|] == ts;
    assert FirstOccurrences(ts + [t]) == mask + [t !in ts];
    KeptSnoc(mask, t !in ts);
    AtSnoc(ts, t, Kept(mask));
    if t in ts {
      assert Kept(mask) + [] == Kept(mask);
    }
  }

  lemma {:induction false} DedupeMembers(ts: seq<Tuple>)
    ensures forall t :: t in Dedupe(ts) <==> t in ts
  {
    if ts != [] {
      var front, t := ts[..|ts| - 1], ts[|ts| - 1];
      assert ts == front + [t];
      DedupeSnoc(front, t);
      DedupeMembers(front);
    }
  }

  lemma {:induction false} DedupeLength(ts: seq<Tuple>)
    ensures |Dedupe(ts)| <= |ts| && (|Dedupe(ts)| == |ts| <==> NoRepeats(ts))
    ensures NoRepeats(ts) ==> Dedupe(ts) == ts
  {
    if ts != [] {
      var front, t := ts[..|ts| - 1], ts[|ts| - 1];
      assert ts == front + [t];
      DedupeSnoc(front, t);
      DedupeLength(front);
      assert NoRepeats(ts) <==> NoRepeats(front) && t !in front by {
        if t in front {
          var i :| 0 <= i < |front| && front[i] == t;
          assert ts[i] == ts[|front|];
        }
      }
    }
  }

  // ----- WHERE and the select list, over rows that may repeat -----

  /** The tuples a condition keeps. */
  ghost function Passing(where: Option<Expr>, shape: seq<Slot>, ts: seq<Tuple>, w: World): seq<Tuple> {
    Filter(Rows(shape, ts), where, w).tuples
  }

  ghost function Image(items: seq<Item>, where: Option<Expr>, shape: seq<Slot>, ts: seq<Tuple>, w: World): seq<Tuple> {
    ProjectAll(items, Filter(Rows(shape, ts), where, w), w)
  }

  lemma PassingSnoc(where: Option<Expr>, shape: seq<Slot>, ts: seq<Tuple>, t: Tuple, w: World)
    ensures Passing(where, shape, ts + [t], w)
         == Passing(where, shape, ts, w) + (if Holds(where, shape, t, w) then [t] else [])
  {
    var mask := Mask(where, Rows(shape, ts), w);
    assert Mask(where, Rows(shape, ts + [t]), w) == mask + [Holds(where, shape, t, w)];
    KeptSnoc(mask, Holds(where, shape, t, w));
    AtSnoc(ts, t, Kept(mask));
    if !Holds(where, shape, t, w) {
      assert Kept(mask) + [] == Kept(mask);
    }
  }

  lemma ImageSnoc(items: seq<Item>, where: Option<Expr>, shape: seq<Slot>, ts: seq<Tuple>, t: Tuple, w: World)
    ensures Image(items, where, shape, ts + [t], w)
         == Image(items, where, shape, ts, w)
            + (if Holds(where, shape, t, w) then [ProjectTuple(items, shape, t, w)] else [])
  {
    PassingSnoc(where, shape, ts, t, w);
  }

  lemma {:induction false} ImageMember(
    items: seq<Item>, where: Option<Expr>, shape: seq<Slot>, ts: seq<Tuple>, t: Tuple, w: World)
    requires t in ts && Holds(where, shape, t, w)
    ensures ProjectTuple(items, shape, t, w) in Image(items, where, shape, ts, w)
  {
    var front, last := ts[..|ts| - 1], ts[|ts| - 1];
    assert ts == front + [last];
    ImageSnoc(items, where, shape, front, last, w);
    if t != last {
      ImageMember(items, where, shape, front, t, w);
    }
  }

  /** Under an outer DISTINCT the inner one makes no difference, nor to the order of first occurrences. */
  lemma {:induction false} DedupeImage(
    items: seq<Item>, where: Option<Expr>, shape: seq<Slot>, ts: seq<Tuple>, w: World)
    ensures Dedupe(Image(items, where, shape, Dedupe(ts), w)) == Dedupe(Image(items, where, shape, ts, w))
  {
    if ts != [] {
      var front, t := ts[..|ts| - 1], ts[|ts| - 1];
      assert ts == front + [t];
      DedupeImage(items, where, shape, front, w);
      DedupeImageStep(items, where, shape, front, t, w);
    }
  }

  lemma DedupeImageStep(items: seq<Item>, where: Option<Expr>, shape: seq<Slot>, front: seq<Tuple>, t: Tuple, w: World)
    requires Dedupe(Image(items, where, shape, Dedupe(front), w)) == Dedupe(Image(items, where, shape, front, w))
    ensures Dedupe(Image(items, where, shape, Dedupe(front + [t]), w))
         == Dedupe(Image(items, where, shape, front + [t], w))
  {
    hide Dedupe, Image, ProjectTuple;
    var few, all := Image(items, where, shape, Dedupe(front), w), Image(items, where, shape, front, w);
    var x := ProjectTuple(items, shape, t, w);
    DedupeSnoc(front, t);
    ImageSnoc(items, where, shape, front, t, w);
    ImageSnoc(items, where, shape, Dedupe(front), t, w);
    DedupeMembers(few);
    DedupeMembers(all);
    DedupeSnoc(few, x);
    DedupeSnoc(all, x);
    assert few + [] == few && all + [] == all;
    assert Dedupe(front) + [] == Dedupe(front) && Dedupe(all) + [] == Dedupe(all);
    if t in front && Holds(where, shape, t, w) {
      ImageMember(items, where, shape, front, t, w);
    }
  }

  /** Filtering commutes with dropping repetitions. */
  lemma {:induction false} DedupePassing(where: Option<Expr>, shape: seq<Slot>, ts: seq<Tuple>, w: World)
    ensures Passing(where, shape, Dedupe(ts), w) == Dedupe(Passing(where, shape, ts, w))
  {
    if ts == [] {
      assert Passing(where, shape, [], w) == [];
    } else {
      var front, t := ts[..|ts| - 1], ts[|ts| - 1];
      assert ts == front + [t];
      DedupePassing(where, shape, front, w);
      DedupePassingStep(where, shape, front, t, w);
    }
  }

  lemma {:induction false} PassingMember(where: Option<Expr>, shape: seq<Slot>, ts: seq<Tuple>, w: World)
    ensures forall t :: t in Passing(where, shape, ts, w) <==> t in ts && Holds(where, shape, t, w)
  {
    if ts != [] {
      var front, t := ts[..|ts| - 1], ts[|ts| - 1];
      assert ts == front + [t];
      PassingMember(where, shape, front, w);
      PassingSnoc(where, shape, front, t, w);
    }
  }

  lemma DedupePassingStep(where: Option<Expr>, shape: seq<Slot>, front: seq<Tuple>, t: Tuple, w: World)
    requires Passing(where, shape, Dedupe(front), w) == Dedupe(Passing(where, shape, front, w))
    ensures Passing(where, shape, Dedupe(front + [t]), w) == Dedupe(Passing(where, shape, front + [t], w))
  {
    hide Dedupe, Passing;
    var kept := Passing(where, shape, front, w);
    DedupeSnoc(front, t);
    PassingSnoc(where, shape, front, t, w);
    PassingSnoc(where, shape, Dedupe(front), t, w);
    PassingMember(where, shape, front, w);
    DedupeSnoc(kept, t);
    assert kept + [] == kept && Dedupe(front) + [] == Dedupe(front) && Dedupe(kept) + [] == Dedupe(kept);
  }

  /** Without an outer DISTINCT, the output is the same exactly when no two rows that pass WHERE are equal. */
  lemma ImageOfDistinct(items: seq<Item>, where: Option<Expr>, shape: seq<Slot>, ts: seq<Tuple>, w: World)
    ensures Image(items, where, shape, Dedupe(ts), w) == Image(items, where, shape, ts, w)
       <==> NoRepeats(Passing(where, shape, ts, w))
  {
    var kept := Passing(where, shape, ts, w);
    DedupePassing(where, shape, ts, w);
    DedupeLength(kept);
    assert |Image(items, where, shape, ts, w)| == |kept|;
    assert |Image(items, where, shape, Dedupe(ts), w)| == |Dedupe(kept)|;
    if NoRepeats(kept) {
      assert Filter(Rows(shape, Dedupe(ts)), where, w) == Filter(Rows(shape, ts), where, w);
    }
  }

  // ----- statements -----

  /** The statement with its inner layer's DISTINCT removed. */
  function Undistinct(s: Select): Select
    requires s.from.Some? && s.from.value.SubqueryItem?
  {
    s.(from := Some(SubqueryItem(s.from.value.query.(distinct := false), s.from.value.alias)))
  }

  lemma DistinctRows(q: Select, alias: string, w: World)
    requires CanFlatten(q) && q.distinct
    ensures
      var b, r := EvalFrom(SubqueryItem(q, alias), w), EvalFrom(SubqueryItem(q.(distinct := false), alias), w);
      b.shape == r.shape && b.tuples == Dedupe(r.tuples)
  {
    SelectRows(q, w);
    SelectCols(q, w);
    SelectRows(q.(distinct := false), w);
    SelectCols(q.(distinct := false), w);
  }

  /** The rows of the inner layer, repetitions included, that pass the outer WHERE. */
  ghost function PassingRows(s: Select, w: World): seq<Tuple>
    requires s.from.Some? && s.from.value.SubqueryItem?
  {
    var v := EvalWiths(s.withs, w);
    var rows := EvalFrom(Undistinct(s).from.value, v);
    Passing(s.where, rows.shape, rows.tuples, v)
  }

  /** Below a DISTINCT statement an inner layer's DISTINCT makes no difference. */
  lemma OuterDistinctAbsorbs(s: Select, w: World)
    requires HasFlattenable(s) && s.from.value.query.distinct && Ungrouped(s) && s.distinct
    ensures EvalSelect(Undistinct(s), w).rows == EvalSelect(s, w).rows
  {
    var f, v := s.from.value, EvalWiths(s.withs, w);
    var r := EvalFrom(Undistinct(s).from.value, v);
    DistinctRows(f.query, f.alias, v);
    SelectRows(s, w);
    SelectRows(Undistinct(s), w);
    assert EvalFrom(f, v) == Rows(r.shape, Dedupe(r.tuples)) && Rows(r.shape, r.tuples) == r;
    DedupeImage(s.items, s.where, r.shape, r.tuples, v);
  }

  /** In a given world, it makes none exactly then, or when no two rows that pass the outer WHERE are equal. */
  lemma InnerDistinctMatters(s: Select, w: World)
    requires HasFlattenable(s) && s.from.value.query.distinct && Ungrouped(s) && s.limit.None?
    ensures EvalSelect(Undistinct(s), w).rows == EvalSelect(s, w).rows <==> s.distinct || NoRepeats(PassingRows(s, w))
  {
    if s.distinct {
      OuterDistinctAbsorbs(s, w);
    } else {
      var f, v := s.from.value, EvalWiths(s.withs, w);
      var r := EvalFrom(Undistinct(s).from.value, v);
      DistinctRows(f.query, f.alias, v);
      SelectRows(s, w);
      SelectRows(Undistinct(s), w);
      assert EvalFrom(f, v) == Rows(r.shape, Dedupe(r.tuples)) && Rows(r.shape, r.tuples) == r;
      ImageOfDistinct(s.items, s.where, r.shape, r.tuples, v);
    }
  }
}
