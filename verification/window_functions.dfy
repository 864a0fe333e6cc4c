/**
 COUNT, SUM, MAX, MIN, LEAD and LAG over frames that slide forward (internal/function_window.go): the value
 reported for each row is that of its whole frame, however the frame was reached.
 */
module WindowFunctions {
  import opened Wrappers
  import opened Integers
  import opened WindowFrames

  datatype Kind =
    | Count
    | CountStar
    | Sum
    | Max
    | Min
    | Lead(offset: nat, default: Nullable)
    | Lag(offset: nat, default: Nullable)

  /** Rows lo up to, not including, hi. */
  datatype Frame = Frame(lo: nat, hi: nat)

  // ----- what the functions mean -----

  function Total(xs: seq<int>): int {
    if xs == [] then 0 else Total(xs[..|xs| - 1]) + xs[|xs| - 1]
  }

  lemma TotalSnoc(xs: seq<int>, x: int)
    ensures Total(xs + [x]) == Total(xs) + x
  {
    assert (xs + [x])[..|xs|] == xs;
  }

  /** NULL for no values; otherwise one of them that none exceeds, or falls below. */
  predicate IsExtreme(greatest: bool, xs: seq<int>, v: Nullable) {
    if xs == [] then v.None?
    else v.Some? && v.value in xs && forall x :: x in xs ==> if greatest then x <= v.value else v.value <= x
  }

  /** The value of a whole frame. */
  predicate IsValue(kind: Kind, opt: Options, frame: seq<Nullable>, r: Result<Nullable>) {
    match kind
    case Count => r == Ok(Some(if opt.distinct then |Elements(Ints(frame))| else |Ints(frame)|))
    case CountStar => r == Ok(Some(|frame|))
    case Sum =>
      if Fails(opt, frame) then r.Err?
      else r == Ok(if Ints(frame) == [] then None else Some(Wrap(Total(RelevantInts(opt, frame)))))
    case Max => if Fails(opt, frame) then r.Err? else r.Ok? && IsExtreme(true, Ints(frame), r.value)
    case Min => if Fails(opt, frame) then r.Err? else r.Ok? && IsExtreme(false, Ints(frame), r.value)
    case Lead(offset, default) => r == Ok(if offset < |frame| then frame[offset] else default)
    case Lag(offset, default) => r == Ok(if offset < |frame| then frame[|frame| - 1 - offset] else default)
  }

  predicate AllInt64(vs: seq<Nullable>) {
    forall v :: v in vs && v.Some? ==> Int64(v.value)
  }

  // ----- the Done methods -----

  method SumOf(vs: seq<Nullable>) returns (sum: Nullable)
    requires AllInt64(vs)
    ensures sum == if Ints(vs) == [] then None else Some(Wrap(Total(Ints(vs))))
  {
    hide Wrap;
    sum := None;
    for i := 0 to |vs|
      invariant sum == if Ints(vs[..i]) == [] then None else Some(Wrap(Total(Ints(vs[..i]))))
    {
      assert vs[..i + 1] == vs[..i] + [vs[i]];
      IntsSnoc(vs[..i], vs[i]);
      if vs[i].None? {
        assert Ints(vs[..i + 1]) == Ints(vs[..i]);
        continue;
      }
      var v := vs[i].value;
      assert vs[i] in vs;
      TotalSnoc(Ints(vs[..i]), v);
      if sum.None? {
        sum := Some(v);
      } else {
        WrapAdd(Total(Ints(vs[..i])), v);
        sum := Some(Wrap(sum.value + v));
      }
    }
    assert vs[..|vs|] == vs;
  }

  method ExtremeOf(greatest: bool, vs: seq<Nullable>) returns (best: Nullable)
    ensures IsExtreme(greatest, Ints(vs), best)
  {
    best := None;
    for i := 0 to |vs|
      invariant IsExtreme(greatest, Ints(vs[..i]), best)
    {
      assert vs[..i + 1] == vs[..i] + [vs[i]];
      IntsSnoc(vs[..i], vs[i]);
      if vs[i].None? {
        continue;
      }
      if best.None? || (if greatest then vs[i].value > best.value else vs[i].value < best.value) {
        best := vs[i];
      }
    }
    assert vs[..|vs|] == vs;
  }

  lemma ExtremeOfUniq(greatest: bool, opt: Options, vs: seq<Nullable>, best: Nullable)
    requires IsExtreme(greatest, Ints(Relevant(opt, vs)), best)
    ensures IsExtreme(greatest, Ints(vs), best)
  {
    RelevantAre(opt, vs);
    UniqMembers(Ints(vs));
    if Ints(vs) != [] {
      assert Ints(vs)[0] in RelevantInts(opt, vs);
    }
  }

  lemma RelevantInt64(opt: Options, vs: seq<Nullable>)
    requires AllInt64(vs)
    ensures AllInt64(Relevant(opt, vs))
  {
    NonNullMembers(vs);
    UniqMembers(if opt.ignoreNulls then NonNull(vs) else vs);
  }

  /** What the state holds for a frame: COUNT skips NULLs, COUNT(*) stores ones. */
  function Stored(kind: Kind, frame: seq<Nullable>): seq<Nullable> {
    match kind
    case Count => NonNull(frame)
    case CountStar => seq(|frame|, _ => Some(1))
    case _ => frame
  }

  /** The oldest row leaves: removal by value is removal of the oldest. */
  lemma OldestLeaves(kind: Kind, frame: seq<Nullable>)
    requires frame != []
    ensures RemoveFirst(Stored(kind, frame), if kind == CountStar then Some(1) else frame[0])
         == Stored(kind, frame[1..])
  {
    if kind == Count {
      NonNullFirst(frame);
      NonNullMembers(frame[1..]);
      if frame[0].None? {
        assert NonNull(frame) == NonNull(frame[1..]);
        RemoveAbsent(NonNull(frame[1..]), None);
      } else {
        assert NonNull(frame)[1..] == NonNull(frame[1..]);
      }
    } else if kind == CountStar {
      assert Stored(kind, frame)[1..] == Stored(kind, frame[1..]);
    }
  }

  lemma {:induction false} NonNullFirst(vs: seq<Nullable>)
    requires vs != []
    ensures NonNull(vs) == (if vs[0].Some? then [vs[0]] else []) + NonNull(vs[1..])
  {
    var n := |vs| - 1;
    if n > 0 {
      NonNullFirst(vs[..n]);
      assert vs[..n][1..] == vs[1..][..n - 1];
    } else {
      assert vs[..0] == [] && vs[1..] == [];
    }
  }

  class WindowFunction {
    const kind: Kind
    const options: Options
    const status: AggregatedStatus

    constructor (kind: Kind, options: Options)
      ensures this.kind == kind && this.options == options && fresh(status)
      ensures Holds([])
    {
      this.kind, this.options := kind, options;
      status := new AggregatedStatus();
      new;
      if kind == CountStar {
        assert Stored(kind, []) == [];
      }
    }

    /** Options are parsed from a row's arguments, so they are known once a row has been stepped. */
    ghost predicate Holds(frame: seq<Nullable>)
      reads status
    {
      && status.values == Stored(kind, frame)
      && (if kind == CountStar then status.opt == Options(false, false)
          else status.opt == options || (status.opt == Options(false, false) && status.values == []))
    }

    method Step(v: Nullable, ghost frame: seq<Nullable>)
      requires Holds(frame)
      modifies status
      ensures Holds(frame + [v])
    {
      assert (frame + [v])[..|frame|] == frame;
      match kind
      case CountStar =>
        status.Step(Some(1));
      case Count =>
        status.opt := options;
        if v.Some? {
          status.Step(v);
        }
      case _ =>
        status.opt := options;
        status.Step(v);
    }

    /** The oldest row leaves the frame. */
    method Inverse(v: Nullable, ghost frame: seq<Nullable>)
      requires Holds(frame) && frame != [] && frame[0] == v
      modifies status
      ensures Holds(frame[1..])
    {
      OldestLeaves(kind, frame);
      status.Inverse(if kind == CountStar then Some(1) else v);
    }

    method Done(ghost frame: seq<Nullable>) returns (r: Result<Nullable>)
      requires Holds(frame) && AllInt64(frame)
      ensures IsValue(kind, options, frame, r)
    {
      var n := |status.values|;
      if kind.Lead? {
        return Ok(if n - 1 < kind.offset then kind.default else status.values[kind.offset]);
      } else if kind.Lag? {
        return Ok(if n - 1 < kind.offset then kind.default else status.values[n - kind.offset - 1]);
      }
      NonNullMembers(frame);
      RelevantLength(kind, status.opt, frame);
      var relevant := status.RelevantValues();
      if relevant.Err? {
        return Err(relevant.error);
      }
      if kind.Count? || kind.CountStar? {
        return Ok(Some(|relevant.value|));
      }
      RelevantAre(status.opt, frame);
      RelevantInt64(status.opt, frame);
      NoneRelevant(status.opt, frame);
      var v;
      if kind.Sum? {
        v := SumOf(relevant.value);
      } else {
        v := ExtremeOf(kind.Max?, relevant.value);
        ExtremeOfUniq(kind.Max?, status.opt, frame, v);
      }
      return Ok(v);
    }
  }

  lemma NoneRelevant(opt: Options, vs: seq<Nullable>)
    ensures RelevantInts(opt, vs) == [] <==> Ints(vs) == []
  {
    UniqMembers(Ints(vs));
    if Ints(vs) != [] {
      assert Ints(vs)[0] in Uniq(Ints(vs));
    }
  }

  lemma {:induction false} NonNullTwice(vs: seq<Nullable>)
    ensures NonNull(NonNull(vs)) == NonNull(vs)
  {
    if vs != [] {
      var front := NonNull(vs[..|vs| - 1]);
      NonNullTwice(vs[..|vs| - 1]);
      if vs[|vs| - 1].Some? {
        assert (front + [vs[|vs| - 1]])[..|front|] == front;
      } else {
        assert front + [] == front;
      }
    }
  }

  lemma {:induction false} UniqNonNull(vs: seq<Nullable>)
    requires None !in vs
    ensures |Uniq(vs)| == |Uniq(Ints(vs))|
  {
    if vs != [] {
      var front, v := vs[..|vs| - 1], vs[|vs| - 1];
      assert vs == front + [v];
      UniqNonNull(front);
      IntsOfParts(front);
      IntsSnoc(front, v);
      UniqSnoc(front, v);
      UniqSnoc(Ints(front), v.value);
      assert v == Some(v.value);
    }
  }

  /** COUNT and COUNT(*) count what the state holds. */
  lemma RelevantLength(kind: Kind, opt: Options, frame: seq<Nullable>)
    ensures kind == Count ==>
      |Relevant(opt, NonNull(frame))| == if opt.distinct then |Elements(Ints(frame))| else |Ints(frame)|
    ensures kind == Count ==> !Fails(opt, NonNull(frame))
    ensures kind == CountStar && !opt.distinct && !opt.ignoreNulls ==> |Relevant(opt, Stored(kind, frame))| == |frame|
  {
    IntsOfParts(frame);
    NonNullTwice(frame);
    UniqNonNull(NonNull(frame));
    UniqCounts(Ints(frame));
  }

  // ----- the driver -----

  /** Frames only move forward, inside the partition. */
  predicate Slides(frames: seq<Frame>, n: nat) {
    && (forall k :: 0 <= k < |frames| ==> frames[k].lo <= frames[k].hi <= n)
    && forall k :: 0 < k < |frames| ==> frames[k - 1].lo <= frames[k].lo && frames[k - 1].hi <= frames[k].hi
  }

  /** What SQLite does for one partition: step the rows that enter, invert those that leave, ask for the value. */
  method Slide(kind: Kind, opt: Options, rows: seq<Nullable>, frames: seq<Frame>)
    returns (results: seq<Result<Nullable>>)
    requires AllInt64(rows) && Slides(frames, |rows|)
    ensures |results| == |frames|
    ensures forall k :: 0 <= k < |frames| ==> IsValue(kind, opt, rows[frames[k].lo..frames[k].hi], results[k])
  {
    var f := new WindowFunction(kind, opt);
    results := [];
    var lo, hi := 0, 0;
    for k := 0 to |frames|
      invariant lo <= hi <= |rows|
      invariant k == 0 ==> lo == hi == 0
      invariant k > 0 ==> frames[k - 1] == Frame(lo, hi)
      invariant f.Holds(rows[lo..hi]) && fresh(f.status) && f.kind == kind && f.options == opt
      invariant |results| == k
      invariant forall j :: 0 <= j < k ==> IsValue(kind, opt, rows[frames[j].lo..frames[j].hi], results[j])
    {
      while hi < frames[k].hi
        invariant lo <= hi <= frames[k].hi && f.Holds(rows[lo..hi])
      {
        f.Step(rows[hi], rows[lo..hi]);
        assert rows[lo..hi] + [rows[hi]] == rows[lo..hi + 1];
        hi := hi + 1;
      }
      while lo < frames[k].lo
        invariant lo <= frames[k].lo && f.Holds(rows[lo..hi])
      {
        f.Inverse(rows[lo], rows[lo..hi]);
        assert rows[lo..hi][1..] == rows[lo + 1..hi];
        lo := lo + 1;
      }
      assert AllInt64(rows[lo..hi]);
      var r := f.Done(rows[lo..hi]);
      results := results + [r];
    }
  }

  // ----- LEAD and LAG -----

  /** The offset and the default, from the arguments after the first. */
  method ParseArguments(args: seq<Nullable>) returns (r: Result<(nat, Nullable)>)
    ensures r.Err? <==> |args| > 3 || (|args| >= 2 && (args[1].None? || args[1].value < 0))
    ensures r.Ok? ==>
      r.value == (if |args| >= 2 then args[1].value else 1, if |args| == 3 then args[2] else None)
  {
    if |args| > 3 {
      return Err("expected at most 3 arguments");
    }
    var offset: nat := 1;
    var default: Nullable := None;
    for i := 0 to |args|
      invariant i > 1 ==> args[1].Some? && args[1].value >= 0
      invariant offset == if i > 1 then args[1].value else 1
      invariant default == if i > 2 then args[2] else None
    {
      if i == 1 {
        if args[1].None? {
          return Err("constant integer expression must be not null value");
        }
        if args[1].value < 0 {
          return Err("argument 2 must be at least 0");
        }
        offset := args[1].value;
      } else if i == 2 {
        default := args[2];
      }
    }
    return Ok((offset, default));
  }

  /** LEAD's fixed frame: ROWS BETWEEN CURRENT ROW AND UNBOUNDED FOLLOWING. */
  function LeadFrames(n: nat): (frames: seq<Frame>)
    ensures |frames| == n && Slides(frames, n)
  {
    seq(n, i requires 0 <= i < n => Frame(i, n))
  }

  /** LAG's fixed frame: ROWS BETWEEN UNBOUNDED PRECEDING AND CURRENT ROW. */
  function LagFrames(n: nat): (frames: seq<Frame>)
    ensures |frames| == n && Slides(frames, n)
  {
    seq(n, i requires 0 <= i < n => Frame(0, i + 1))
  }

  method LeadOver(rows: seq<Nullable>, offset: nat, default: Nullable) returns (results: seq<Result<Nullable>>)
    requires AllInt64(rows)
    ensures |results| == |rows|
    ensures forall i :: 0 <= i < |rows| ==>
      results[i] == Ok(if i + offset < |rows| then rows[i + offset] else default)
  {
    results := Slide(Lead(offset, default), Options(false, false), rows, LeadFrames(|rows|));
    forall i | 0 <= i < |rows|
      ensures results[i] == Ok(if i + offset < |rows| then rows[i + offset] else default)
    {
      var frame := rows[LeadFrames(|rows|)[i].lo..LeadFrames(|rows|)[i].hi];
      assert frame == rows[i..];
      assert offset < |frame| ==> frame[offset] == rows[i + offset];
    }
  }

  method LagOver(rows: seq<Nullable>, offset: nat, default: Nullable) returns (results: seq<Result<Nullable>>)
    requires AllInt64(rows)
    ensures |results| == |rows|
    ensures forall i :: 0 <= i < |rows| ==>
      results[i] == Ok(if offset <= i then rows[i - offset] else default)
  {
    results := Slide(Lag(offset, default), Options(false, false), rows, LagFrames(|rows|));
    forall i | 0 <= i < |rows|
      ensures results[i] == Ok(if offset <= i then rows[i - offset] else default)
    {
      var frame := rows[LagFrames(|rows|)[i].lo..LagFrames(|rows|)[i].hi];
      assert frame == rows[..i + 1];
      assert offset <= i ==> frame[i - offset] == rows[i - offset];
    }
  }
}
