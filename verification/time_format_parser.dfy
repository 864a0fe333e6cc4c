/** The scanner and the printer as they run (internal/function_time_parser.go:451-465, 795-845 and 1117-1262). */
module TimeFormatParser {
  import opened Wrappers
  import opened Decimal
  import opened TimeFormat
  import opened TimeRoundTrip

  /** Reads digits until a non-digit, the end of the text or the maximum's places. */
  method ParseDigitRespectingOptionalPlaces(text: string, min: nat, max: nat) returns (r: Result<(nat, nat)>)
    ensures r.Ok? <==> ReadNumber(text, min, max).Ok?
    ensures r.Ok? ==> r == ReadNumber(text, min, max)
  {
    if |text| == 0 {
      return Err("empty text");
    }
    var steps := if |text| < Places(max) then |text| else Places(max);
    var parts: string := "";
    var i := 0;
    assert text[0..] == text;
    while i < steps
      invariant 0 <= i <= steps && parts == text[..i] && AllDigits(parts)
      invariant LeadingDigits(text, Places(max)) == i + LeadingDigits(text[i..], Places(max) - i)
    {
      if !IsDigit(text[i]) {
        if |parts| == 0 {
          return Err("leading character is not a digit");
        }
        break;
      }
      assert text[i..][1..] == text[i + 1..];
      assert text[..i + 1] == text[..i] + [text[i]];
      parts := parts + [text[i]];
      i := i + 1;
    }
    if |parts| == 0 {
      return Err("leading character is not a digit");
    }
    var result := ParseDigits(parts);
    if result > max {
      return Err("part is greater than maximum value");
    }
    if result < min {
      return Err("part is less than minimum value");
    }
    return Ok((|parts|, result));
  }

  /** A number parser stores what it reads; a static parser insists on its text. */
  method RunParser(step: Step, text: string, t: Stamp) returns (r: Result<(nat, Stamp)>)
    ensures r.Ok? <==> RunStep(step, text, t).Ok?
    ensures r.Ok? ==> r == RunStep(step, text, t)
  {
    match step
    case Static(s) =>
      if |text| < |s| || text[..|s|] != s {
        return Err("text not found");
      }
      return Ok((|s|, t));
    case Number(field, min, max) =>
      var number := ParseDigitRespectingOptionalPlaces(text, min, max);
      if number.Err? {
        return Err(number.error);
      }
      return Ok((number.value.0, Store(t, field, number.value.1)));
  }

  /** What is read altogether, when some characters have been read and the rest reads on. */
  ghost predicate Advances(whole: Result<(nat, Stamp)>, progress: nat, rest: Result<(nat, Stamp)>) {
    (whole.Ok? <==> rest.Ok?) && (rest.Ok? ==> whole == Ok((progress + rest.value.0, rest.value.1)))
  }

  lemma AdvancesStep(
    whole: Result<(nat, Stamp)>, progress: nat, steps: seq<Step>, text: string, s: Stamp, n: nat, u: Stamp)
    requires steps != [] && Advances(whole, progress, RunSteps(steps, text, s))
    requires RunStep(steps[0], text, s) == Ok((n, u))
    ensures Advances(whole, progress + n, RunSteps(steps[1..], text[n..], u))
  {
  }

  lemma AdvancesNot(whole: Result<(nat, Stamp)>, progress: nat, steps: seq<Step>, text: string, s: Stamp)
    requires steps != [] && Advances(whole, progress, RunSteps(steps, text, s)) && RunStep(steps[0], text, s).Err?
    ensures whole.Err?
  {
  }

  /** One parser after the other, each on what the ones before it left. */
  method RunParsers(steps: seq<Step>, text: string, t: Stamp) returns (r: Result<(nat, Stamp)>)
    ensures r.Ok? <==> RunSteps(steps, text, t).Ok?
    ensures r.Ok? ==> r == RunSteps(steps, text, t)
  {
    hide RunStep;
    var progress: nat, s := 0, t;
    assert steps[0..] == steps && text[0..] == text;
    for i := 0 to |steps|
      invariant progress <= |text|
      invariant Advances(RunSteps(steps, text, t), progress, RunSteps(steps[i..], text[progress..], s))
    {
      ghost var whole, rest, left := RunSteps(steps, text, t), steps[i..], text[progress..];
      assert rest[0] == steps[i] && rest[1..] == steps[i + 1..];
      var step := RunParser(steps[i], text[progress..], s);
      if step.Err? {
        AdvancesNot(whole, progress, rest, left, s);
        return Err(step.error);
      }
      var n, u := step.value.0, step.value.1;
      AdvancesStep(whole, progress, rest, left, s, n, u);
      assert left[n..] == text[progress + n..];
      progress, s := progress + n, u;
    }
    assert steps[|steps|..] == [];
    return Ok((progress, s));
  }

  lemma SpacesStep(text: string, i: nat, j: nat)
    requires i <= j < |text| && text[j] == ' ' && j - i + Spaces(text, j) == Spaces(text, i)
    ensures j + 1 - i + Spaces(text, j + 1) == Spaces(text, i)
  {
  }

  method SlurpSpaces(text: string, i: nat) returns (j: nat)
    ensures j == i + Spaces(text, i)
  {
    j := i;
    while j < |text| && text[j] == ' '
      invariant i <= j && j - i + Spaces(text, j) == Spaces(text, i)
    {
      SpacesStep(text, i, j);
      j := j + 1;
    }
  }

  /** The two parsers agree from here on. */
  ghost predicate SameParse(a: Result<Stamp>, b: Result<Stamp>) {
    (a.Ok? <==> b.Ok?) && (a.Ok? ==> a == b)
  }

  method ParseTimeFormat(format: string, target: string, typ: FormatType) returns (r: Result<Stamp>)
    ensures SameParse(r, Parse(format, target, typ))
  {
    hide RunSteps, StepsOf, Spaces;
    var targetIdx: nat, formatIdx: nat := 0, 0;
    var ret := EPOCH;
    assert format[0..] == format;
    while formatIdx < |format|
      invariant formatIdx <= |format|
      invariant Parse(format, target, typ) == ParseFrom(format[formatIdx..], target, targetIdx, typ, ret)
    {
      ghost var rest := format[formatIdx..];
      var c := format[formatIdx];
      assert rest[0] == c && rest[1..] == format[formatIdx + 1..];
      if c == '%' {
        formatIdx := formatIdx + 1;
        if formatIdx >= |format| {
          return Err("invalid time format");
        }
        c := format[formatIdx];
        assert rest[1] == c && rest[2..] == format[formatIdx + 1..];
        if !IsSpec(c) {
          return Err("unexpected format type");
        }
        if !Available(c, typ) {
          return Err("unavailable format");
        }
        if targetIdx >= |target| {
          return Err("invalid target text");
        }
        var progress := RunParsers(StepsOf(c), target[targetIdx..], ret);
        if progress.Err? {
          return Err(progress.error);
        }
        ParseSpec(rest, typ, target, targetIdx, ret, progress.value.0, progress.value.1);
        targetIdx, ret := targetIdx + progress.value.0, progress.value.1;
        formatIdx := formatIdx + 1;
      } else if c == ' ' {
        formatIdx := formatIdx + 1;
        targetIdx := SlurpSpaces(target, targetIdx);
      } else {
        formatIdx := formatIdx + 1;
        targetIdx := targetIdx + 1;
      }
    }
    assert format[formatIdx..] == "";
    if targetIdx != |target| {
      return Err("found unparsed text");
    }
    return Ok(ret);
  }

  /** What is printed for the rest of a format, after a part that is printed already. */
  ghost predicate Completes(whole: Result<string>, done: string, rest: Result<string>) {
    (whole.Ok? <==> rest.Ok?) && (rest.Ok? ==> whole == Ok(done + rest.value))
  }

  lemma CompletesStep(whole: Result<string>, done: string, more: string, rest: Result<string>)
    requires Completes(whole, done, if rest.Ok? then Ok(more + rest.value) else rest)
    ensures Completes(whole, done + more, rest)
  {
    if rest.Ok? {
      Assoc(done, more, rest.value);
    }
  }

  method FormatTime(format: string, t: Stamp, typ: FormatType) returns (r: Result<string>)
    requires Proper(t)
    ensures r.Ok? <==> Print(format, t, typ).Ok?
    ensures r.Ok? ==> r == Print(format, t, typ)
  {
    var ret: string := "";
    var i := 0;
    assert format[0..] == format;
    assert forall s: string :: "" + s == s;
    while i < |format|
      invariant i <= |format|
      invariant Completes(Print(format, t, typ), ret, Print(format[i..], t, typ))
    {
      ghost var rest := format[i..];
      var c := format[i];
      assert rest[0] == c && rest[1..] == format[i + 1..];
      if c == '%' {
        i := i + 1;
        if i >= |format| {
          return Err("invalid time format");
        }
        c := format[i];
        assert rest[1] == c && rest[2..] == format[i + 1..];
        if !IsSpec(c) {
          return Err("unexpected format type");
        }
        if !Available(c, typ) {
          return Err("unavailable format");
        }
        CompletesStep(Print(format, t, typ), ret, PrintSpec(c, t), Print(format[i + 1..], t, typ));
        ret := ret + PrintSpec(c, t);
      } else {
        CompletesStep(Print(format, t, typ), ret, [c], Print(format[i + 1..], t, typ));
        ret := ret + [c];
      }
      i := i + 1;
    }
    assert format[i..] == "" && ret + "" == ret;
    return Ok(ret);
  }

  /** Printing and then parsing, end to end. */
  method PrintAndParse(format: string, t: Stamp, typ: FormatType) returns (r: Result<Stamp>)
    requires Proper(t) && Printable(format, typ) && YearsDelimited(format, t) && (Recovers(format) || !LeapDay(t))
    ensures r.Ok? && forall f :: f in Printed(format) ==> Agrees(f, r.value, t)
  {
    PrintableIffPrints(format, t, typ);
    RoundTrip(format, t, typ);
    var text := FormatTime(format, t, typ);
    r := ParseTimeFormat(format, text.value, typ);
  }
}
