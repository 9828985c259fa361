/** `printf_core` of `osrt/c/vfprintf.c` over a stream, loop by loop. */
module Printf {
  import opened Numerals
  import opened Fields
  import opened Formats

  method SkipText(s: string, i: nat) returns (e: nat)
    requires i <= |s|
    ensures e == TextEnd(s, i)
  {
    e := i;
    while e < |s| && s[e] != '%'
      invariant i <= e <= |s| && TextEnd(s, i) == TextEnd(s, e)
    {
      e := e + 1;
    }
  }

  /** `z` moves on by one character for every pair of percent signs. */
  method SkipPairs(s: string, i: nat) returns (z: nat, e: nat)
    requires i <= |s|
    ensures e == PairsEnd(s, i) && z == i + (e - i) / 2
  {
    z, e := i, i;
    while At(s, e) == '%' && At(s, e + 1) == '%'
      invariant i <= e <= |s| && PairsEnd(s, i) == PairsEnd(s, e) && e - i == 2 * (z - i)
      decreases |s| - e
    {
      z, e := z + 1, e + 2;
    }
  }

  method ReadFlags(s: string, i: nat) returns (fl: Flags, e: nat)
    requires i <= |s|
    ensures e == FlagsEnd(s, i) && i <= e <= |s| && fl == FlagsIn(s[i..e])
  {
    fl, e := {}, i;
    while e < |s| && IsFlag(s[e])
      invariant i <= e <= |s| && FlagsEnd(s, i) == FlagsEnd(s, e) && fl == FlagsIn(s[i..e])
    {
      assert s[i..e + 1] == s[i..e] + [s[e]];
      fl := fl + {s[e]};
      e := e + 1;
    }
  }

  method ReadWidth(s: string, i: nat, args: seq<int>, k: nat) returns (n: Number)
    requires i <= |s|
    ensures n == WidthAt(s, i, args, k)
  {
    if At(s, i) == '*' {
      if Positional(s, i + 1) {
        return NoNumber(NotModelled);
      }
      return Number(Cut(Arg(args, k), 32, true), true, i + 1, k + 1);
    }
    var v, e := GetInt(s, i);
    if v < 0 {
      return NoNumber(Overflow);
    }
    return Number(v, true, e, k);
  }

  method ReadPrecision(s: string, i: nat, args: seq<int>, k: nat) returns (n: Number)
    requires i <= |s|
    ensures n == PrecisionAt(s, i, args, k)
  {
    if At(s, i) == '.' && At(s, i + 1) == '*' {
      if Positional(s, i + 2) {
        return NoNumber(NotModelled);
      }
      var p := Cut(Arg(args, k), 32, true);
      return Number(p, p >= 0, i + 2, k + 1);
    } else if At(s, i) == '.' {
      var v, e := GetInt(s, i + 1);
      return Number(v, true, e, k);
    }
    return Number(-1, false, i, k);
  }

  method ReadEnding(s: string, i: nat) returns (e: Ending)
    requires i <= |s|
    ensures e == EndingAt(s, i, Bare)
  {
    hide States;
    var j, st := i, Bare;
    while true
      invariant i <= j <= |s| && EndingAt(s, i, Bare) == EndingAt(s, j, st)
      decreases |s| - j
    {
      if j == |s| {
        return NoEnding;
      }
      var next := States(st, s[j]);
      j := j + 1;
      match next {
        case Invalid => return NoEnding;
        case Take(kind) => return Ending(st, kind, j);
        case More(m) => st := m;
      }
    }
  }

  method ReadDirective(s: string, i: nat, args: seq<int>, k: nat) returns (d: Directive)
    requires i < |s|
    ensures d == DirectiveAt(s, i, args, k)
  {
    hide WidthAt, PrecisionAt, EndingAt, FlagsEnd, FlagsIn;
    if Positional(s, i + 1) {
      return Failed(NotModelled);
    }
    var fl, f := ReadFlags(s, i + 1);
    var w := ReadWidth(s, f, args, k);
    if w.NoNumber? {
      return Failed(w.why);
    }
    var width := w.value;
    if width < 0 {
      fl, width := fl + {'-'}, -width;
    }
    var p := ReadPrecision(s, w.end, args, w.used);
    if p.NoNumber? {
      return Failed(p.why);
    }
    var e := ReadEnding(s, p.end);
    if e.NoEnding? {
      return Failed(BadFormat);
    }
    return Directive(fl, width, p.value, p.given, e.mode, e.kind, s[e.end - 1], e.end, p.used);
  }

  /** What a round returns and writes is the step `r`. */
  twostate predicate Took(f: Stream, outcome: Outcome, l: nat, r: Step)
    reads f
  {
    match r
    case Stop(why) => outcome == why && f.out == old(f.out)
    case Go(text, _, _) => outcome == Done && l == |text| && f.out == old(f.out) + text
  }

  method PrintOne(f: Stream, buf: array<char>, args: seq<int>, d: Directive, cnt: nat)
    returns (outcome: Outcome, l: nat)
    requires d.Directive? && buf.Length == BUF_SIZE && cnt <= INT_MAX && (!d.xp ==> d.p < 0)
    requires States(d.mode, d.t) == Take(d.kind)
    modifies f, buf
    ensures Took(f, outcome, l, ConversionStep(args, d, cnt))
  {
    hide Field, CharField, Fits, Popped;
    l := 0;
    if Silent(d.mode, d.kind, d.t) {
      return Done, 0;
    }
    if !d.kind.Num? {
      return NotModelled, 0;
    }
    NumericEnds(d.mode, d.t);
    var a := Popped(Arg(args, d.used), d.kind.bits, d.kind.signed);
    var ok, n;
    if d.t == 'c' {
      ok, n := f.PrintChar(a, d.fl, d.w, cnt);
    } else {
      ok, n := f.PrintInteger(d.t, a, d.fl, d.w, d.p, d.xp, cnt, buf);
    }
    if !ok {
      return Overflow, 0;
    }
    return Done, n;
  }

  lemma {:induction false} DirectiveTakes(s: string, i: nat, args: seq<int>, k: nat)
    requires i < |s| && DirectiveAt(s, i, args, k).Directive?
    ensures var d := DirectiveAt(s, i, args, k); States(d.mode, d.t) == Take(d.kind)
  {
    hide States;
    var w := WidthAt(s, FlagsEnd(s, i + 1), args, k);
    var p := PrecisionAt(s, w.end, args, w.used);
    EndingTakes(s, p.end, Bare);
  }

  /** One round of the main loop. */
  method Round(f: Stream, buf: array<char>, fmt: string, s: nat, args: seq<int>, used: nat, cnt: nat)
      returns (outcome: Outcome, l: nat, s': nat, used': nat)
    requires buf.Length == BUF_SIZE && s < |fmt| && cnt <= INT_MAX
    modifies f, buf
    ensures var r := StepAt(fmt, s, args, used, cnt);
            Took(f, outcome, l, r) && (r.Go? ==> s' == r.end && used' == r.used)
  {
    hide DirectiveAt, ConversionStep, TextEnd, PairsEnd;
    l, s', used' := 0, s, used;
    var j := SkipText(fmt, s);
    var z, e := SkipPairs(fmt, j);
    if z - s > INT_MAX - cnt {
      return Overflow, l, s, used;
    }
    if z > s {
      f.Write(fmt[s..z]);
      return Done, z - s, e, used;
    }
    var d := ReadDirective(fmt, s, args, used);
    if d.Failed? {
      return d.why, l, s, used;
    }
    DirectiveTakes(fmt, s, args, used);
    outcome, l := PrintOne(f, buf, args, d, cnt);
    s', used' := d.end, d.used + 1;
  }

  /** `done` is written, and the rest of the format is to come. */
  ghost predicate Due(whole: Printed, done: string, s: string, i: nat, args: seq<int>, k: nat, cnt: nat) {
    && i <= |s| && cnt == |done| <= INT_MAX
    && whole.text == done + Print(s, i, args, k, cnt).text && whole.outcome == Print(s, i, args, k, cnt).outcome
  }

  lemma {:induction false} DueFirst(s: string, args: seq<int>)
    ensures Due(Print(s, 0, args, 0, 0), "", s, 0, args, 0, 0)
  {}

  lemma {:induction false} DueLast(whole: Printed, done: string, s: string, args: seq<int>, k: nat, cnt: nat)
    requires Due(whole, done, s, |s|, args, k, cnt)
    ensures whole == Printed(done, Done) && cnt == |done|
  {}

  lemma {:induction false} DueAfter(whole: Printed, done: string, s: string, i: nat, args: seq<int>, k: nat, cnt: nat)
    requires Due(whole, done, s, i, args, k, cnt) && i < |s|
    ensures match StepAt(s, i, args, k, cnt)
      case Stop(why) => whole.text == done && whole.outcome == why
      case Go(text, end, used) => Due(whole, done + text, s, end, args, used, cnt + |text|)
  {
    hide StepAt;
    var r := StepAt(s, i, args, k, cnt);
    if r.Go? {
      var rest := Print(s, r.end, args, r.used, cnt + |r.text|).text;
      assert done + (r.text + rest) == (done + r.text) + rest;
    }
  }

  /** The whole of `printf_core` with a stream: it writes what the format means, and the count it returns is the
      number of characters it wrote. */
  method PrintfCore(f: Stream, buf: array<char>, fmt: string, args: seq<int>) returns (outcome: Outcome, cnt: nat)
    requires buf.Length == BUF_SIZE
    modifies f, buf
    ensures outcome == Print(fmt, 0, args, 0, 0).outcome
    ensures f.out == old(f.out) + Print(fmt, 0, args, 0, 0).text
    ensures outcome == Done ==> cnt == |Print(fmt, 0, args, 0, 0).text| <= INT_MAX
  {
    hide StepAt, Print, Due;
    cnt := 0;
    var s: nat, used: nat := 0, 0;
    ghost var done := "";
    ghost var whole := Print(fmt, 0, args, 0, 0);
    DueFirst(fmt, args);
    while s < |fmt|
      invariant s <= |fmt| && cnt <= INT_MAX && f.out == old(f.out) + done && Due(whole, done, fmt, s, args, used, cnt)
      decreases |fmt| - s
    {
      ghost var r := StepAt(fmt, s, args, used, cnt);
      DueAfter(whole, done, fmt, s, args, used, cnt);
      var l, s', used';
      outcome, l, s', used' := Round(f, buf, fmt, s, args, used, cnt);
      if outcome != Done {
        return;
      }
      done := done + r.text;
      cnt, s, used := cnt + l, s', used';
    }
    DueLast(whole, done, fmt, args, used, cnt);
    outcome := Done;
  }
}
