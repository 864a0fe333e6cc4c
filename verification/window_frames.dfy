/**
 Window functions as incremental state (internal/function_window_option.go, internal/function_window.go,
 internal/function_bind.go:215-253): rows that enter a frame are stepped, rows that leave it, oldest first, are
 inverted, and the value of each row is that of its whole frame.
 */
module WindowFrames {
  import opened Wrappers
  import opened Decimal

  /** An INT64 value, or NULL. */
  type Nullable = Option<int>

  // ----- the values of a frame -----

  /** The non-null values, in order. */
  function Ints(vs: seq<Nullable>): seq<int> {
    if vs == [] then []
    else
      var n := |vs| - 1;
      Ints(vs[..n]) + (if vs[n].Some? then [vs[n].value] else [])
  }

  function NonNull(vs: seq<Nullable>): seq<Nullable> {
    if vs == [] then []
    else
      var n := |vs| - 1;
      NonNull(vs[..n]) + (if vs[n].Some? then [vs[n]] else [])
  }

  /** The first occurrence of each value. */
  function Uniq<T(==)>(vs: seq<T>): seq<T> {
    if vs == [] then []
    else
      var n := |vs| - 1;
      Uniq(vs[..n]) + (if vs[n] in vs[..n] then [] else [vs[n]])
  }

  datatype Options = Options(distinct: bool, ignoreNulls: bool)

  /** DISTINCT asks every value, NULL too, for its text; without IGNORE NULLS that fails on a NULL. */
  predicate Fails(opt: Options, vs: seq<Nullable>) {
    opt.distinct && !opt.ignoreNulls && None in vs
  }

  /** The values an aggregate takes into account. */
  function Relevant(opt: Options, vs: seq<Nullable>): seq<Nullable> {
    var kept := if opt.ignoreNulls then NonNull(vs) else vs;
    if opt.distinct then Uniq(kept) else kept
  }

  function RelevantInts(opt: Options, vs: seq<Nullable>): seq<int> {
    if opt.distinct then Uniq(Ints(vs)) else Ints(vs)
  }

  /** `IntValue.ToString`. */
  function Text(n: int): string {
    if n < 0 then "-" + Digits(-n) else Digits(n)
  }

  lemma TextInjective(a: int, b: int)
    requires Text(a) == Text(b)
    ensures a == b
  {
    assert Text(a)[0] == '-' <==> a < 0;
    assert Text(b)[0] == '-' <==> b < 0;
    if a < 0 {
      assert Digits(-a) == Text(a)[1..] == Text(b)[1..] == Digits(-b);
      ParseDigitsInverts(-a);
      ParseDigitsInverts(-b);
    } else {
      ParseDigitsInverts(a);
      ParseDigitsInverts(b);
    }
  }

  lemma {:induction false} IntsOfParts(vs: seq<Nullable>)
    ensures Ints(NonNull(vs)) == Ints(vs) && |NonNull(vs)| == |Ints(vs)|
    ensures None !in NonNull(vs)
    ensures forall n :: Some(n) in vs <==> n in Ints(vs)
  {
    if vs != [] {
      IntsOfParts(vs[..|vs| - 1]);
      assert vs == vs[..|vs| - 1] + [vs[|vs| - 1]];
      var front := NonNull(vs[..|vs| - 1]);
      if vs[|vs| - 1].Some? {
        assert (front + [vs[|vs| - 1]])[..|front|] == front;
      } else {
        assert front + [] == front;
      }
    }
  }

  lemma IntsSnoc(vs: seq<Nullable>, v: Nullable)
    ensures Ints(vs + [v]) == Ints(vs) + (if v.Some? then [v.value] else [])
  {
    assert (vs + [v])[..|vs|] == vs;
  }

  lemma UniqSnoc<T>(vs: seq<T>, v: T)
    ensures Uniq(vs + [v]) == Uniq(vs) + (if v in vs then [] else [v])
  {
    assert (vs + [v])[..|vs|] == vs;
  }

  lemma {:induction false} UniqMembers<T>(vs: seq<T>)
    ensures forall v :: v in Uniq(vs) <==> v in vs
  {
    if vs != [] {
      UniqMembers(vs[..|vs| - 1]);
      assert vs == vs[..|vs| - 1] + [vs[|vs| - 1]];
    }
  }

  lemma {:induction false} UniqInts(vs: seq<Nullable>)
    ensures Ints(Uniq(vs)) == Uniq(Ints(vs))
  {
    if vs != [] {
      var front, v := vs[..|vs| - 1], vs[|vs| - 1];
      assert vs == front + [v];
      UniqInts(front);
      IntsOfParts(front);
      IntsSnoc(front, v);
      UniqSnoc(front, v);
      if v !in front {
        IntsSnoc(Uniq(front), v);
      } else {
        assert Uniq(vs) == Uniq(front);
      }
      if v.Some? {
        assert v == Some(v.value);
        UniqSnoc(Ints(front), v.value);
      } else {
        assert Ints(vs) == Ints(front);
      }
    }
  }

  lemma RelevantAre(opt: Options, vs: seq<Nullable>)
    ensures Ints(Relevant(opt, vs)) == RelevantInts(opt, vs)
  {
    IntsOfParts(vs);
    UniqInts(if opt.ignoreNulls then NonNull(vs) else vs);
  }

  function Elements<T>(vs: seq<T>): set<T> {
    set v | v in vs
  }

  /** COUNT(DISTINCT ...) counts a set. */
  lemma {:induction false} UniqCounts<T>(vs: seq<T>)
    ensures |Uniq(vs)| == |Elements(vs)|
  {
    if vs != [] {
      var front, v := vs[..|vs| - 1], vs[|vs| - 1];
      UniqCounts(front);
      assert vs == front + [v];
      assert Elements(vs) == Elements(front) + {v};
      assert v in front <==> v in Elements(front);
    }
  }

  lemma {:induction false} NonNullMembers(vs: seq<Nullable>)
    ensures forall v :: v in NonNull(vs) <==> v in vs && v.Some?
  {
    if vs != [] {
      NonNullMembers(vs[..|vs| - 1]);
      assert vs == vs[..|vs| - 1] + [vs[|vs| - 1]];
    }
  }

  /** One more value: left out if it is a NULL to ignore or a repetition. */
  lemma RelevantSnoc(opt: Options, front: seq<Nullable>, v: Nullable)
    ensures Relevant(opt, front + [v])
         == Relevant(opt, front)
            + (if (opt.ignoreNulls && v.None?) || (opt.distinct && v in front) then [] else [v])
  {
    assert (front + [v])[..|front|] == front;
    NonNullMembers(front);
    var kept := if opt.ignoreNulls then NonNull(front) else front;
    UniqSnoc(kept, v);
    if opt.ignoreNulls && v.None? {
      assert NonNull(front + [v]) == NonNull(front);
    }
  }

  lemma NothingRelevant(opt: Options)
    ensures Relevant(opt, []) == [] && !Fails(opt, [])
  {
  }

  lemma FailsSnoc(opt: Options, front: seq<Nullable>, v: Nullable)
    ensures Fails(opt, front + [v]) <==> Fails(opt, front) || (opt.distinct && !opt.ignoreNulls && v.None?)
  {
  }

  lemma FailsFront(opt: Options, vs: seq<Nullable>, i: nat)
    requires i <= |vs| && Fails(opt, vs[..i])
    ensures Fails(opt, vs)
  {
  }

  // ----- the state -----

  /** Removes the first equal value. */
  function RemoveFirst<T(==)>(vs: seq<T>, v: T): seq<T> {
    if vs == [] then [] else if vs[0] == v then vs[1..] else [vs[0]] + RemoveFirst(vs[1..], v)
  }

  lemma {:induction false} RemoveAbsent<T>(vs: seq<T>, v: T)
    requires v !in vs
    ensures RemoveFirst(vs, v) == vs
  {
    if vs != [] {
      RemoveAbsent(vs[1..], v);
    }
  }

  lemma {:induction false} RemoveAt<T>(vs: seq<T>, v: T, i: nat)
    requires i < |vs| && vs[i] == v && v !in vs[..i]
    ensures RemoveFirst(vs, v) == vs[..i] + vs[i + 1..]
  {
    if i > 0 {
      assert vs[..i][0] == vs[0];
      assert vs[1..][..i - 1] == vs[..i][1..];
      RemoveAt(vs[1..], v, i - 1);
      assert vs[1..][..i - 1] == vs[1..i];
      assert vs[..i] == [vs[0]] + vs[1..i];
    }
  }

  class AggregatedStatus {
    var values: seq<Nullable>
    var opt: Options

    constructor ()
      ensures values == [] && opt == Options(false, false)
    {
      values, opt := [], Options(false, false);
    }

    method Step(v: Nullable)
      modifies this
      ensures values == old(values) + [v] && opt == old(opt)
    {
      values := values + [v];
    }

    /** Removes the oldest entry of a value; nothing happens when there is none. */
    method Inverse(v: Nullable)
      modifies this
      ensures values == RemoveFirst(old(values), v) && opt == old(opt)
    {
      for i := 0 to |values|
        invariant values == old(values) && opt == old(opt)
        invariant v !in values[..i]
      {
        if values[i] == v {
          RemoveAt(values, v, i);
          var j := if |values| == i - 1 then i else i + 1;
          values := values[..i] + values[j..];
          return;
        }
        assert values[..i + 1] == values[..i] + [values[i]];
      }
      assert values[..|values|] == values;
      RemoveAbsent(values, v);
    }

    /** Values without NULLs or repetitions, as the options say; an error stands for calling a method of nil. */
    method RelevantValues() returns (r: Result<seq<Nullable>>)
      ensures r.Err? <==> Fails(opt, values)
      ensures r.Ok? ==> r.value == Relevant(opt, values)
    {
      hide Relevant, Fails, Text;
      var filtered: seq<Nullable> := [];
      var seen: set<string> := {};
      NothingRelevant(opt);
      for i := 0 to |values|
        invariant filtered == Relevant(opt, values[..i]) && !Fails(opt, values[..i])
        invariant opt.distinct ==> forall n :: Text(n) in seen <==> Some(n) in values[..i]
      {
        var v := values[i];
        assert values[..i + 1] == values[..i] + [v];
        RelevantSnoc(opt, values[..i], v);
        FailsSnoc(opt, values[..i], v);
        if opt.ignoreNulls && v.None? {
          continue;
        }
        if opt.distinct {
          if v.None? {
            FailsFront(opt, values, i + 1);
            return Err("NULL has no text");
          }
          var key := Text(v.value);
          forall n | Text(n) == key
            ensures n == v.value
          {
            TextInjective(n, v.value);
          }
          assert v == Some(v.value);
          if key in seen {
            continue;
          }
          seen := seen + {key};
        }
        filtered := filtered + [v];
      }
      assert values[..|values|] == values;
      return Ok(filtered);
    }
  }
}
