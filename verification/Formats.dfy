/** Format strings of `osrt/c/vfprintf.c`: how a directive is read, and what a whole format prints. */
module Formats {
  import opened Numerals
  import opened Fields

  // ---- Length modifiers and argument types ------------------------------------------------------------------

  /** The length modifiers: none, `l`, `ll`, `h`, `hh`, `L`, `z` or `t`, `j`. */
  datatype Mode = Bare | Long | LongLong | Half | HalfHalf | BigLong | SizeT | IntMax

  datatype Kind = Num(bits: nat, signed: bool) | Pointer | Double | NoArgument

  /** An entry of the table `states`. */
  datatype Entry = Invalid | More(mode: Mode) | Take(kind: Kind)

  function IntegerBits(m: Mode): nat {
    match m
    case Bare => 32
    case Half => 16
    case HalfHalf => 8
    case _ => 64
  }

  function States(m: Mode, c: char): Entry {
    if c in {'d', 'i'} && !m.BigLong? then Take(Num(IntegerBits(m), true))
    else if c in {'o', 'u', 'x', 'X'} && !m.BigLong? then Take(Num(IntegerBits(m), false))
    else if c in {'e', 'f', 'g', 'a', 'E', 'F', 'G', 'A'} && m in {Bare, Long, BigLong} then Take(Double)
    else if c == 'n' then Take(Pointer)
    else if m == Bare then
      match c
      case 'c' => Take(Num(8, true))
      case 'C' => Take(Num(32, true))
      case 's' => Take(Pointer)
      case 'S' => Take(Pointer)
      case 'p' => Take(Num(64, false))
      case 'm' => Take(NoArgument)
      case 'l' => More(Long)
      case 'h' => More(Half)
      case 'L' => More(BigLong)
      case 'z' => More(SizeT)
      case 't' => More(SizeT)
      case 'j' => More(IntMax)
      case _ => Invalid
    else if m == Long then
      match c
      case 'c' => Take(Num(32, true))
      case 's' => Take(Pointer)
      case 'l' => More(LongLong)
      case _ => Invalid
    else if m == Half && c == 'h' then More(HalfHalf)
    else Invalid
  }

  function TwoTo(bits: nat): nat {
    if bits == 8 then 0x100 else if bits == 16 then 0x1_0000 else if bits == 32 then 0x1_0000_0000 else UINTMAX + 1
  }

  /** What is left of a value in a C integer type of so many bits. */
  function Cut(n: int, bits: nat, signed: bool): int {
    var m := n % TwoTo(bits);
    if signed && 2 * m >= TwoTo(bits) then m - TwoTo(bits) else m
  }

  /** The arguments as the caller wrote them; one that is missing reads as 0. */
  function Arg(args: seq<int>, k: nat): int {
    if k < |args| then args[k] else 0
  }

  /** `pop_arg`: the argument, in its type, as a `uintmax_t`. */
  function Popped(n: int, bits: nat, signed: bool): (a: nat)
    ensures a <= UINTMAX
  {
    Cut(n, bits, signed) % (UINTMAX + 1)
  }

  /** An argument that its type can hold is the number the conversion shows. */
  lemma {:induction false} PassedIsShown(m: Mode, t: char, n: int)
    requires States(m, t).Take? && States(m, t).kind.Num? && Integer(t)
    requires Cut(n, States(m, t).kind.bits, States(m, t).kind.signed) == n
    ensures Shown(t, Popped(n, States(m, t).kind.bits, States(m, t).kind.signed)) == n
  {}

  // ---- Reading a directive -----------------------------------------------------------------------------------

  /** How printing ends; `NotModelled` stands for a directive that this model does not cover. */
  datatype Outcome = Done | BadFormat | Overflow | NotModelled

  datatype Number = NoNumber(why: Outcome) | Number(value: int, given: bool, end: nat, used: nat)

  predicate IsFlag(c: char) {
    c in {'#', '0', '-', ' ', '+', '\''}
  }

  function FlagsEnd(s: string, i: nat): (e: nat)
    ensures e >= i && (e > i ==> e <= |s|)
    decreases |s| - i
  {
    if i < |s| && IsFlag(s[i]) then FlagsEnd(s, i + 1) else i
  }

  function FlagsIn(s: string): Flags {
    set c | c in s
  }

  predicate Positional(s: string, i: nat) {
    IsDigit(At(s, i)) && At(s, i + 1) == '$'
  }

  function IntOf(v: int): int {
    if v <= INT_MAX then v else -1
  }

  lemma {:induction false} DigitEndBounds(s: string, i: nat)
    ensures i <= DigitEnd(s, i) && (i <= |s| ==> DigitEnd(s, i) <= |s|)
    decreases |s| - i
  {
    if i < |s| && IsDigit(s[i]) { DigitEndBounds(s, i + 1); }
  }

  /** The digits from `i` on, as `getint` reads them. */
  function NumberAt(s: string, i: nat, used: nat): (n: Number)
    requires i <= |s|
    ensures n.Number? && i <= n.end <= |s|
  {
    DigitEndBounds(s, i);
    Number(IntOf(Read(s[i..DigitEnd(s, i)], 10)), true, DigitEnd(s, i), used)
  }

  function WidthAt(s: string, i: nat, args: seq<int>, k: nat): (n: Number)
    requires i <= |s|
    ensures if n.Number? then i <= n.end <= |s| else n.why != Done
  {
    if At(s, i) == '*' then
      if Positional(s, i + 1) then NoNumber(NotModelled) else Number(Cut(Arg(args, k), 32, true), true, i + 1, k + 1)
    else
      var n := NumberAt(s, i, k);
      if n.value < 0 then NoNumber(Overflow) else n
  }

  function PrecisionAt(s: string, i: nat, args: seq<int>, k: nat): (n: Number)
    requires i <= |s|
    ensures if n.Number? then i <= n.end <= |s| && (!n.given ==> n.value < 0) else n.why != Done
  {
    if At(s, i) != '.' then Number(-1, false, i, k)
    else if At(s, i + 1) == '*' then
      if Positional(s, i + 2) then NoNumber(NotModelled)
      else
        var p := Cut(Arg(args, k), 32, true);
        Number(p, p >= 0, i + 2, k + 1)
    else NumberAt(s, i + 1, k)
  }

  datatype Ending = NoEnding | Ending(mode: Mode, kind: Kind, end: nat)

  /** The state machine over length modifiers and conversion specifier. */
  function EndingAt(s: string, i: nat, m: Mode): (e: Ending)
    ensures e.Ending? ==> i < e.end <= |s|
    decreases |s| - i
  {
    if i >= |s| then NoEnding
    else
      match States(m, s[i])
      case Invalid => NoEnding
      case More(n) => EndingAt(s, i + 1, n)
      case Take(kind) => Ending(m, kind, i + 1)
  }

  datatype Directive = Failed(why: Outcome)
    | Directive(fl: Flags, w: int, p: int, xp: bool, mode: Mode, kind: Kind, t: char, end: nat, used: nat)

  /** A directive up to its specifier; `i` is at the `%`. */
  function DirectiveAt(s: string, i: nat, args: seq<int>, k: nat): (d: Directive)
    requires i < |s|
    ensures if d.Directive? then i < d.end <= |s| && (!d.xp ==> d.p < 0) else d.why != Done
  {
    if Positional(s, i + 1) then Failed(NotModelled)
    else
      var f := FlagsEnd(s, i + 1);
      var w := WidthAt(s, f, args, k);
      if w.NoNumber? then Failed(w.why)
      else
        var p := PrecisionAt(s, w.end, args, w.used);
        if p.NoNumber? then Failed(p.why)
        else
          var e := EndingAt(s, p.end, Bare);
          if e.NoEnding? then Failed(BadFormat)
          else
            var flags := FlagsIn(s[i + 1..f]);
            var fl := if w.value < 0 then flags + {'-'} else flags;
            Directive(fl, if w.value < 0 then -w.value else w.value, p.value, p.given, e.mode, e.kind,
                      s[e.end - 1], e.end,
              p.used)
  }

  // ---- What a format prints -----------------------------------------------------------------------------------

  datatype Printed = Printed(text: string, outcome: Outcome)

  function TextEnd(s: string, i: nat): (e: nat)
    requires i <= |s|
    ensures i <= e <= |s| && (forall j :: i <= j < e ==> s[j] != '%') && (e < |s| ==> s[e] == '%')
    decreases |s| - i
  {
    if i < |s| && s[i] != '%' then TextEnd(s, i + 1) else i
  }

  function PairsEnd(s: string, i: nat): (e: nat)
    requires i <= |s|
    ensures i <= e <= |s| && (e - i) % 2 == 0 && (forall j :: i <= j < e ==> s[j] == '%')
    ensures !(At(s, e) == '%' && At(s, e + 1) == '%')
    decreases |s| - i
  {
    if At(s, i) == '%' && At(s, i + 1) == '%' then PairsEnd(s, i + 2) else i
  }

  /** Conversions that take an argument and write nothing: floating point and wide characters. */
  predicate Silent(m: Mode, kind: Kind, t: char) {
    kind == Double || t in {'C', 'S'} || (m != Bare && t in {'c', 's'})
  }

  function FieldOf(t: char, a: nat, fl: Flags, w: int, p: int, xp: bool): string
    requires a <= UINTMAX
  {
    if t == 'c' then CharField(a, fl, w) else Field(t, a, fl, w, p, xp)
  }

  predicate FieldFits(t: char, a: nat, fl: Flags, p: int, xp: bool)
    requires a <= UINTMAX
  {
    t == 'c' || Fits(t, a, fl, p, xp)
  }

  /** One round of the main loop: it ends the printing, or writes some text and goes on further down the format. */
  datatype Step = Stop(why: Outcome) | Go(text: string, end: nat, used: nat)

  function ConversionStep(args: seq<int>, d: Directive, cnt: nat): (r: Step)
    requires d.Directive?
    ensures if r.Go? then r.end == d.end && r.used == d.used + 1 && (cnt <= INT_MAX ==> cnt + |r.text| <= INT_MAX)
            else r.why != Done
  {
    if Silent(d.mode, d.kind, d.t) then Go("", d.end, d.used + 1)
    else if !d.kind.Num? then Stop(NotModelled)
    else
      var a := Popped(Arg(args, d.used), d.kind.bits, d.kind.signed);
      var f := FieldOf(d.t, a, d.fl, d.w, d.p, d.xp);
      if !FieldFits(d.t, a, d.fl, d.p, d.xp) || cnt + |f| > INT_MAX then Stop(Overflow)
      else Go(f, d.end, d.used + 1)
  }

  function StepAt(s: string, i: nat, args: seq<int>, k: nat, cnt: nat): (r: Step)
    requires i < |s|
    ensures if r.Go? then i < r.end <= |s| && (cnt <= INT_MAX ==> cnt + |r.text| <= INT_MAX) else r.why != Done
  {
    var j := TextEnd(s, i);
    var e := PairsEnd(s, j);
    var l := (j - i) + (e - j) / 2;
    if l > INT_MAX - cnt then Stop(Overflow)
    else if l > 0 then Go(s[i..i + l], e, k)
    else
      var d := DirectiveAt(s, i, args, k);
      if d.Failed? then Stop(d.why) else ConversionStep(args, d, cnt)
  }

  /** What is printed from `i` on, if `k` arguments are used and `cnt` characters written before. */
  function Print(s: string, i: nat, args: seq<int>, k: nat, cnt: nat): Printed
    requires i <= |s|
    decreases |s| - i
  {
    if i == |s| then Printed("", Done)
    else
      match StepAt(s, i, args, k, cnt)
      case Stop(why) => Printed("", why)
      case Go(text, end, used) =>
        var rest := Print(s, end, args, used, cnt + |text|);
        Printed(text + rest.text, rest.outcome)
  }

  /** Every conversion with a numeric argument that is not silent writes a number or a character. */
  lemma {:induction false} NumericEnds(m: Mode, t: char)
    requires States(m, t).Take? && States(m, t).kind.Num? && !Silent(m, States(m, t).kind, t)
    ensures t == 'c' || Integer(t)
  {}

  lemma {:induction false} EndingTakes(s: string, i: nat, m: Mode)
    requires EndingAt(s, i, m).Ending?
    ensures var e := EndingAt(s, i, m); States(e.mode, s[e.end - 1]) == Take(e.kind)
    decreases |s| - i
  {
    if States(m, s[i]).More? { EndingTakes(s, i + 1, States(m, s[i]).mode); }
  }
}
