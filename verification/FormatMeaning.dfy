/** A format as a programmer means it: a list of texts and conversions. Spelled out as a format string it
    prints exactly those texts and fields. */
module FormatMeaning {
  import opened Numerals
  import opened Fields
  import opened Formats

  /** A width or precision: not given, given as a number, or taken from the arguments with `*`. */
  datatype Extent = Unset | Given(n: nat) | FromArgument

  datatype Item = Text(text: string) | Conv(flags: string, w: Extent, p: Extent, mode: Mode, t: char)

  predicate GoodExtent(e: Extent) {
    e.Given? ==> e.n <= INT_MAX
  }

  predicate Good(item: Item) {
    item.Conv? ==>
      && (forall c :: c in item.flags ==> IsFlag(c)) && GoodExtent(item.w) && GoodExtent(item.p)
      && States(item.mode, item.t).Take? && States(item.mode, item.t).kind.Num?
      && !Silent(item.mode, States(item.mode, item.t).kind, item.t)
  }

  // ---- Spelling ------------------------------------------------------------------------------------------

  /** A text with its percent signs doubled. */
  function Escaped(text: string): string {
    if text == "" then "" else (if text[0] == '%' then "%%" else [text[0]]) + Escaped(text[1..])
  }

  function ExtentText(e: Extent): string {
    match e
    case Unset => ""
    case Given(n) => Digits(n, 10, false)
    case FromArgument => "*"
  }

  function PrecisionText(e: Extent): string {
    if e.Unset? then "" else "." + ExtentText(e)
  }

  function ModeText(m: Mode): string {
    match m
    case Bare => ""
    case Long => "l"
    case LongLong => "ll"
    case Half => "h"
    case HalfHalf => "hh"
    case BigLong => "L"
    case SizeT => "z"
    case IntMax => "j"
  }

  function EndText(c: Item): string
    requires c.Conv?
  {
    ModeText(c.mode) + [c.t]
  }

  function Spell(item: Item): string {
    match item
    case Text(text) => Escaped(text)
    case Conv(flags, w, p, _, _) => "%" + (flags + (ExtentText(w) + (PrecisionText(p) + EndText(item))))
  }

  function SpellAll(items: seq<Item>): string {
    if items == [] then "" else Spell(items[0]) + SpellAll(items[1..])
  }

  // ---- Meaning -------------------------------------------------------------------------------------------

  function Stars(e: Extent): nat {
    if e.FromArgument? then 1 else 0
  }

  function UsedBy(item: Item): nat {
    if item.Text? then 0 else Stars(item.w) + Stars(item.p) + 1
  }

  /** The number an extent stands for; `other` if it is not given. */
  function Value(e: Extent, other: int, args: seq<int>, k: nat): int {
    match e
    case Unset => other
    case Given(n) => n
    case FromArgument => Cut(Arg(args, k), 32, true)
  }

  /** What the conversion amounts to when its `*` are replaced by arguments: a negative width is the `-` flag and
      a positive width, a negative precision is none. */
  function Settled(c: Item, args: seq<int>, k: nat, end: nat): (d: Directive)
    requires c.Conv? && Good(c)
    ensures d.Directive?
  {
    var w := Value(c.w, 0, args, k);
    var p := Value(c.p, -1, args, k + Stars(c.w));
    var flags := FlagsIn(c.flags);
    Directive(if w < 0 then flags + {'-'} else flags, if w < 0 then -w else w, p, !c.p.Unset? && p >= 0, c.mode,
      States(c.mode, c.t).kind, c.t, end, k + Stars(c.w) + Stars(c.p))
  }

  function ArgumentOf(c: Item, args: seq<int>, k: nat): (a: nat)
    requires c.Conv? && Good(c)
    ensures a <= UINTMAX
  {
    var kind := States(c.mode, c.t).kind;
    Popped(Arg(args, k + Stars(c.w) + Stars(c.p)), kind.bits, kind.signed)
  }

  function ItemText(item: Item, args: seq<int>, k: nat): string
    requires Good(item)
  {
    if item.Text? then item.text
    else
      var d := Settled(item, args, k, 0);
      FieldOf(item.t, ArgumentOf(item, args, k), d.fl, d.w, d.p, d.xp)
  }

  predicate ItemFits(item: Item, args: seq<int>, k: nat)
    requires Good(item)
  {
    item.Conv? ==>
      var d := Settled(item, args, k, 0);
      FieldFits(item.t, ArgumentOf(item, args, k), d.fl, d.p, d.xp)
  }

  predicate AllGood(items: seq<Item>) {
    forall n :: 0 <= n < |items| ==> Good(items[n])
  }

  function Meaning(items: seq<Item>, args: seq<int>, k: nat): string
    requires AllGood(items)
  {
    if items == [] then "" else ItemText(items[0], args, k) + Meaning(items[1..], args, k + UsedBy(items[0]))
  }

  predicate AllFit(items: seq<Item>, args: seq<int>, k: nat)
    requires AllGood(items)
  {
    items != [] ==> ItemFits(items[0], args, k) && AllFit(items[1..], args, k + UsedBy(items[0]))
  }

  // ---- Pieces of a string ---------------------------------------------------------------------------------

  /** `u` stands in `s` at `i`. */
  predicate Sub(s: string, i: nat, u: string) {
    i + |u| <= |s| && s[i..i + |u|] == u
  }

  lemma {:induction false} SubSplits(s: string, i: nat, u: string, v: string)
    requires Sub(s, i, u + v)
    ensures Sub(s, i, u) && Sub(s, i + |u|, v)
  {
    var x := s[i..i + |u + v|];
    assert s[i..i + |u|] == x[..|u|] == u;
    assert s[i + |u|..i + |u| + |v|] == x[|u|..] == v;
  }

  lemma {:induction false} SubAt(s: string, i: nat, u: string, n: nat)
    requires Sub(s, i, u) && n < |u|
    ensures At(s, i + n) == u[n]
  {
    assert s[i + n] == s[i..i + |u|][n];
  }

  lemma {:induction false} FlagsRun(s: string, i: nat, f: string)
    requires Sub(s, i, f) && (forall c :: c in f ==> IsFlag(c)) && !IsFlag(At(s, i + |f|))
    ensures FlagsEnd(s, i) == i + |f|
    decreases |f|
  {
    if f != "" {
      SubAt(s, i, f, 0);
      assert f == f[..1] + f[1..];
      SubSplits(s, i, f[..1], f[1..]);
      FlagsRun(s, i + 1, f[1..]);
    }
  }

  lemma {:induction false} LeadingDigit(n: nat)
    requires n > 0
    ensures |Digits(n, 10, false)| > 0 && Digits(n, 10, false)[0] != '0'
  {
    if n >= 10 {
      LeadingDigit(n / 10);
    } else {
      assert n in [1, 2, 3, 4, 5, 6, 7, 8, 9];
      assert Digits(n / 10, 10, false) == "";
    }
  }

  lemma {:induction false} NumberReads(s: string, i: nat, n: nat, k: nat)
    requires Sub(s, i, Digits(n, 10, false)) && !IsDigit(At(s, i + |Digits(n, 10, false)|))
    ensures NumberAt(s, i, k) == Number(IntOf(n), true, i + |Digits(n, 10, false)|, k)
  {
    hide Digits, Read;
    var d := Digits(n, 10, false);
    var before, after := s[..i], s[i + |d|..];
    assert s == before + d + after;
    assert At(after, 0) == At(s, i + |d|);
    GetIntInverts(before, n, after);
  }

  // ---- What stands at the start of each part of a directive ---------------------------------------------------

  /** A letter that ends or begins the last part of a directive. */
  predicate Letter(c: char) {
    'A' <= c <= 'Z' || 'a' <= c <= 'z'
  }

  lemma {:induction false} EndLetters(c: Item)
    requires c.Conv? && Good(c)
    ensures |EndText(c)| > 0 && forall n :: 0 <= n < |EndText(c)| ==> Letter(EndText(c)[n])
  {
    assert Letter(c.t);
  }

  lemma {:induction false} ExtentChars(e: Extent)
    ensures forall n :: 0 <= n < |ExtentText(e)| ==> IsDigit(ExtentText(e)[n]) || ExtentText(e)[n] == '*'
    ensures e.Given? ==> forall n :: 0 <= n < |ExtentText(e)| ==> IsDigit(ExtentText(e)[n])
    ensures ExtentText(e) != "" ==> !IsFlag(ExtentText(e)[0])
  {
    hide Digits;
    if e.Given? {
      DecimalDigits(e.n);
      NoDigits(10, false);
      if e.n > 0 { LeadingDigit(e.n); }
    }
  }

  /** The parts of a directive after its flags. */
  ghost predicate Parts(s: string, i: nat, c: Item)
    requires c.Conv?
  {
    var w, p := |ExtentText(c.w)|, |PrecisionText(c.p)|;
    Sub(s, i, ExtentText(c.w)) && Sub(s, i + w, PrecisionText(c.p)) && Sub(s, i + w + p, EndText(c))
  }

  lemma {:induction false} WidthHead(s: string, i: nat, c: Item)
    requires c.Conv? && Good(c) && Parts(s, i, c)
    ensures !IsFlag(At(s, i)) && (At(s, i) == '*' <==> c.w.FromArgument?)
    ensures !IsDigit(At(s, i + |ExtentText(c.w)|))
  {
    hide Digits, IsFlag, States, Good, EndText, PrecisionText;
    var w := ExtentText(c.w);
    AfterWidth(s, i + |w|, c);
    ExtentChars(c.w);
    if w != "" { SubAt(s, i, w, 0); }
  }

  lemma {:induction false} WidthReads(s: string, i: nat, c: Item, args: seq<int>, k: nat)
    requires c.Conv? && Good(c) && Parts(s, i, c)
    ensures WidthAt(s, i, args, k) == Number(Value(c.w, 0, args, k), true, i + |ExtentText(c.w)|, k + Stars(c.w))
    ensures !IsFlag(At(s, i))
  {
    hide Digits, NumberAt, IsFlag, States, At, EndText, PrecisionText, Positional;
    WidthHead(s, i, c);
    NoDigits(10, false);
    match c.w {
      case FromArgument => StarReads(s, i, c);
      case Given(n) => NumberReads(s, i, n, k);
      case Unset => NumberReads(s, i, 0, k);
    }
  }

  lemma {:induction false} StarReads(s: string, i: nat, c: Item)
    requires c.Conv? && Good(c) && Parts(s, i, c) && c.w.FromArgument?
    ensures !Positional(s, i + 1)
  {
    hide States, EndText, IsFlag, Good, PrecisionText;
    AfterWidth(s, i + 1, c);
  }

  /** Behind the width comes a dot or a letter. */
  lemma {:induction false} AfterWidth(s: string, i: nat, c: Item)
    requires c.Conv? && Good(c) && Sub(s, i, PrecisionText(c.p)) && Sub(s, i + |PrecisionText(c.p)|, EndText(c))
    ensures if c.p.Unset? then Letter(At(s, i)) else At(s, i) == '.'
    ensures !IsDigit(At(s, i)) && At(s, i) != '*' && !IsFlag(At(s, i))
  {
    hide EndText;
    EndLetters(c);
    SubAt(s, i + |PrecisionText(c.p)|, EndText(c), 0);
    if !c.p.Unset? { SubAt(s, i, PrecisionText(c.p), 0); }
  }

  /** Behind the dot comes a star, the digits, or the letter that ends the directive. */
  lemma {:induction false} AfterDot(s: string, i: nat, c: Item)
    requires c.Conv? && Good(c) && Sub(s, i, PrecisionText(c.p)) && Sub(s, i + |PrecisionText(c.p)|, EndText(c))
    requires !c.p.Unset?
    ensures Sub(s, i + 1, ExtentText(c.p)) && (At(s, i + 1) == '*' <==> c.p.FromArgument?)
    ensures Letter(At(s, i + |PrecisionText(c.p)|))
  {
    hide Digits, EndText, IsFlag, States, Good;
    EndLetters(c);
    SubAt(s, i + |PrecisionText(c.p)|, EndText(c), 0);
    var e := ExtentText(c.p);
    SubSplits(s, i, ".", e);
    ExtentChars(c.p);
    if e != "" { SubAt(s, i + 1, e, 0); }
  }

  lemma {:induction false} PrecisionReads(s: string, i: nat, c: Item, args: seq<int>, k: nat)
    requires c.Conv? && Good(c) && Sub(s, i, PrecisionText(c.p)) && Sub(s, i + |PrecisionText(c.p)|, EndText(c))
    ensures var p := Value(c.p, -1, args, k);
      PrecisionAt(s, i, args, k) == Number(p, !c.p.Unset? && p >= 0, i + |PrecisionText(c.p)|, k + Stars(c.p))
  {
    hide Digits, NumberAt, EndText, IsFlag, States, At, Sub;
    AfterWidth(s, i, c);
    if !c.p.Unset? {
      AfterDot(s, i, c);
      if c.p.Given? { NumberReads(s, i + 1, c.p.n, k); }
    }
  }

  lemma {:induction false} EndingReads(s: string, i: nat, c: Item)
    requires c.Conv? && Good(c) && Sub(s, i, EndText(c))
    ensures EndingAt(s, i, Bare) == Ending(c.mode, States(c.mode, c.t).kind, i + |EndText(c)|)
    ensures s[i + |EndText(c)| - 1] == c.t
  {
    var e := EndText(c);
    SubAt(s, i, e, 0);
    SubAt(s, i, e, |e| - 1);
    if |e| > 1 { SubAt(s, i, e, 1); }
    if |e| == 1 {
      assert EndingAt(s, i, c.mode) == Ending(c.mode, States(c.mode, c.t).kind, i + 1);
    } else if |e| == 2 {
      assert EndingAt(s, i + 1, c.mode) == Ending(c.mode, States(c.mode, c.t).kind, i + 2);
    } else {
      assert EndingAt(s, i + 2, c.mode) == Ending(c.mode, States(c.mode, c.t).kind, i + 3);
      assert EndingAt(s, i + 1, if c.mode == LongLong then Long else Half) == EndingAt(s, i + 2, c.mode);
    }
  }

  /** No directive looks like a positional one, or like a doubled percent sign. */
  lemma {:induction false} SecondChar(s: string, i: nat, c: Item)
    requires c.Conv? && Good(c) && Sub(s, i, Spell(c))
    ensures i < |s| && !Positional(s, i + 1) && At(s, i) == '%' && At(s, i + 1) != '%'
  {
    hide Digits, States, EndText;
    var u := Spell(c);
    ExtentChars(c.w);
    ExtentChars(c.p);
    EndLetters(c);
    forall n | 1 <= n < |u| ensures u[n] != '$' && u[n] != '%' { SpelledChar(c, n); }
    SubAt(s, i, u, 0);
    SubAt(s, i, u, 1);
    assert u[|u| - 1] == EndText(c)[|EndText(c)| - 1];
    if |u| > 2 { SubAt(s, i, u, 2); }
  }

  lemma {:induction false} SpelledChar(c: Item, n: nat)
    requires c.Conv? && Good(c) && 1 <= n < |Spell(c)|
    ensures var x := Spell(c)[n]; IsFlag(x) || IsDigit(x) || x == '*' || x == '.' || Letter(x)
  {
    hide Digits, States, EndText;
    ExtentChars(c.w);
    ExtentChars(c.p);
    EndLetters(c);
    var f, w, p := |c.flags|, |ExtentText(c.w)|, |PrecisionText(c.p)|;
    var x := Spell(c)[n];
    if n < 1 + f {
      assert x == c.flags[n - 1];
    } else if n < 1 + f + w {
      assert x == ExtentText(c.w)[n - 1 - f];
    } else if n < 1 + f + w + p {
      assert x == PrecisionText(c.p)[n - 1 - f - w];
    } else {
      assert x == EndText(c)[n - 1 - f - w - p];
    }
  }

  /** Reading a directive gives back what was spelled. */
  lemma {:induction false} DirectiveReads(s: string, i: nat, c: Item, args: seq<int>, k: nat)
    requires c.Conv? && Good(c) && Sub(s, i, Spell(c))
    ensures DirectiveAt(s, i, args, k) == Settled(c, args, k, i + |Spell(c)|)
  {
    hide Sub, Parts, Good, States, EndText, ExtentText, PrecisionText, Spell, FlagsEnd, FlagsIn, WidthAt, PrecisionAt,
      EndingAt, IsFlag, At, Positional, Value;
    SecondChar(s, i, c);
    SpellSplits(s, i, c);
    var w, p, f := ExtentText(c.w), PrecisionText(c.p), i + 1 + |c.flags|;
    WidthReads(s, f, c, args, k);
    FlagsFirst(s, i + 1, c);
    PrecisionReads(s, f + |w|, c, args, k + Stars(c.w));
    EndingReads(s, f + |w| + |p|, c);
  }

  lemma {:induction false} FlagsFirst(s: string, i: nat, c: Item)
    requires c.Conv? && Good(c) && Sub(s, i, c.flags) && !IsFlag(At(s, i + |c.flags|))
    ensures FlagsEnd(s, i) == i + |c.flags| && s[i..FlagsEnd(s, i)] == c.flags
  {
    hide States, IsFlag, FlagsEnd;
    FlagsRun(s, i, c.flags);
  }

  lemma {:induction false} SpellSplits(s: string, i: nat, c: Item)
    requires c.Conv? && Sub(s, i, Spell(c))
    ensures Sub(s, i + 1, c.flags) && Parts(s, i + 1 + |c.flags|, c)
    ensures var f, w, p := i + 1 + |c.flags|, |ExtentText(c.w)|, |PrecisionText(c.p)|;
      && Sub(s, f + w, PrecisionText(c.p)) && Sub(s, f + w + p, EndText(c))
      && f + w + p + |EndText(c)| == i + |Spell(c)|
  {
    hide Sub, EndText, ExtentText, PrecisionText;
    var w, p, e, f := ExtentText(c.w), PrecisionText(c.p), EndText(c), i + 1 + |c.flags|;
    SubSplits(s, i, "%", c.flags + (w + (p + e)));
    SubSplits(s, i + 1, c.flags, w + (p + e));
    SubSplits(s, f, w, p + e);
    SubSplits(s, f + |w|, p, e);
  }

  // ---- What the rounds of the main loop add up to ------------------------------------------------------------

  /** The outcome is the same, and if it is success, `first` is printed before the rest. */
  ghost predicate Leads(all: Printed, first: string, rest: Printed) {
    all.outcome == rest.outcome && (rest.outcome == Done ==> all.text == first + rest.text)
  }

  /** A round that meets text or doubled percent signs: `l` characters, up to `e`. */
  lemma {:induction false} TextRound(s: string, i: nat, args: seq<int>, k: nat, cnt: nat, e: nat, l: nat)
    requires i < |s| && e == PairsEnd(s, TextEnd(s, i)) && l == (TextEnd(s, i) - i) + (e - TextEnd(s, i)) / 2 && l > 0
    ensures if l > INT_MAX - cnt then Print(s, i, args, k, cnt).outcome == Overflow
      else
        var rest := Print(s, e, args, k, cnt + l);
        Print(s, i, args, k, cnt) == Printed(s[i..i + l] + rest.text, rest.outcome)
  {
    hide DirectiveAt, ConversionStep, TextEnd, PairsEnd;
  }

  lemma {:induction false} CharStep(s: string, i: nat, args: seq<int>, k: nat, cnt: nat)
    requires i < |s| && s[i] != '%' && cnt <= INT_MAX
    ensures if cnt == INT_MAX then Print(s, i, args, k, cnt).outcome == Overflow
      else Leads(Print(s, i, args, k, cnt), [s[i]], Print(s, i + 1, args, k, cnt + 1))
  {
    hide Print, PairsEnd;
    var j := TextEnd(s, i);
    var e := PairsEnd(s, j);
    var l := (j - i) + (e - j) / 2;
    TextRound(s, i, args, k, cnt, e, l);
    assert s[i..i + l] == [s[i]] + s[i + 1..i + l];
    if l > 1 {
      TextRound(s, i + 1, args, k, cnt + 1, e, l - 1);
      LeadsOn([s[i]], s[i + 1..i + l], Print(s, e, args, k, cnt + l).text);
    }
  }

  lemma {:induction false} LeadsOn(a: string, b: string, c: string)
    ensures (a + b) + c == a + (b + c)
  {}

  lemma {:induction false} PairsFrom(s: string, i: nat)
    requires At(s, i) == '%' && At(s, i + 1) == '%'
    ensures i + 2 <= |s| && TextEnd(s, i) == i && PairsEnd(s, i) == PairsEnd(s, i + 2)
    ensures PairsEnd(s, i) > i + 2 ==> TextEnd(s, i + 2) == i + 2
  {}

  lemma {:induction false} PairStep(s: string, i: nat, args: seq<int>, k: nat, cnt: nat)
    requires At(s, i) == '%' && At(s, i + 1) == '%' && cnt <= INT_MAX
    ensures if cnt == INT_MAX then Print(s, i, args, k, cnt).outcome == Overflow
      else Leads(Print(s, i, args, k, cnt), "%", Print(s, i + 2, args, k, cnt + 1))
  {
    hide Print, PairsEnd, TextEnd;
    PairsFrom(s, i);
    var e := PairsEnd(s, i);
    var l := (e - i) / 2;
    assert e == PairsEnd(s, i + 2);
    TextRound(s, i, args, k, cnt, e, l);
    assert s[i..i + l] == "%" + s[i + 1..i + l];
    if l > 1 {
      TextRound(s, i + 2, args, k, cnt + 1, e, l - 1);
      assert s[i + 1..i + l] == s[i + 2..i + 1 + l];
      LeadsOn("%", s[i + 1..i + l], Print(s, e, args, k, cnt + l).text);
    }
  }

  /** A text prints as itself. */
  lemma {:induction false} TextPrints(s: string, i: nat, text: string, args: seq<int>, k: nat, cnt: nat)
    requires Sub(s, i, Escaped(text)) && cnt <= INT_MAX
    ensures if cnt + |text| > INT_MAX then Print(s, i, args, k, cnt).outcome == Overflow
      else Leads(Print(s, i, args, k, cnt), text, Print(s, i + |Escaped(text)|, args, k, cnt + |text|))
    decreases |text|
  {
    hide Print;
    if text != "" {
      var u := if text[0] == '%' then "%%" else [text[0]];
      SubSplits(s, i, u, Escaped(text[1..]));
      SubAt(s, i, u, 0);
      if text[0] == '%' {
        SubAt(s, i, u, 1);
        PairStep(s, i, args, k, cnt);
      } else {
        CharStep(s, i, args, k, cnt);
      }
      if cnt < INT_MAX {
        TextPrints(s, i + |u|, text[1..], args, k, cnt + 1);
        assert text == [text[0]] + text[1..];
        var rest := Print(s, i + |Escaped(text)|, args, k, cnt + |text|).text;
        assert [text[0]] + (text[1..] + rest) == text + rest;
      }
    }
  }

  /** A conversion prints its field, if the field can be made and counted. */
  lemma {:induction false} ConversionPrints(s: string, i: nat, c: Item, args: seq<int>, k: nat, cnt: nat)
    requires c.Conv? && Good(c) && Sub(s, i, Spell(c)) && cnt <= INT_MAX
    ensures var f, all := ItemText(c, args, k), Print(s, i, args, k, cnt);
      if !ItemFits(c, args, k) || cnt + |f| > INT_MAX then all.outcome == Overflow
      else Leads(all, f, Print(s, i + |Spell(c)|, args, k + UsedBy(c), cnt + |f|))
  {
    hide StepAt, FieldOf, FieldFits, States, Spell, Popped, FlagsIn, Value;
    SecondChar(s, i, c);
    ConversionRound(s, i, c, args, k, cnt);
  }

  lemma {:induction false} ConversionRound(s: string, i: nat, c: Item, args: seq<int>, k: nat, cnt: nat)
    requires c.Conv? && Good(c) && Sub(s, i, Spell(c)) && cnt <= INT_MAX && i < |s|
    ensures StepAt(s, i, args, k, cnt) == ConversionStep(args, Settled(c, args, k, i + |Spell(c)|), cnt)
  {
    hide DirectiveAt, ConversionStep, States, Spell, Settled, TextEnd, PairsEnd;
    SecondChar(s, i, c);
    DirectiveReads(s, i, c, args, k);
    NoText(s, i);
  }

  lemma {:induction false} NoText(s: string, i: nat)
    requires i < |s| && At(s, i) == '%' && At(s, i + 1) != '%'
    ensures TextEnd(s, i) == i && PairsEnd(s, i) == i
  {}

  /** Printing a spelled format succeeds if and only if every field can be made and the whole is no longer than an
      `int` can count; then it prints just what the format means. It cannot fail in any other way. */
  lemma {:induction false} FormatMeans(s: string, i: nat, items: seq<Item>, args: seq<int>, k: nat, cnt: nat)
    requires AllGood(items) && i <= |s| && s[i..] == SpellAll(items) && cnt <= INT_MAX
    ensures var r := Print(s, i, args, k, cnt);
      && (r.outcome == Done <==> AllFit(items, args, k) && cnt + |Meaning(items, args, k)| <= INT_MAX)
      && (r.outcome == Done || r.outcome == Overflow)
      && (r.outcome == Done ==> r.text == Meaning(items, args, k))
    decreases |items|
  {
    hide Spell, ItemText, ItemFits, Print;
    if items == [] {
      PrintNothing(s, args, k, cnt);
    } else {
      var u, f := Spell(items[0]), ItemText(items[0], args, k);
      assert s[i..i + |u|] == SpellAll(items)[..|u|] == u;
      assert s[i + |u|..] == SpellAll(items)[|u|..] == SpellAll(items[1..]);
      ItemPrints(s, i, items[0], args, k, cnt);
      if cnt + |f| <= INT_MAX {
        FormatMeans(s, i + |u|, items[1..], args, k + UsedBy(items[0]), cnt + |f|);
      }
    }
  }

  lemma {:induction false} PrintNothing(s: string, args: seq<int>, k: nat, cnt: nat)
    ensures Print(s, |s|, args, k, cnt) == Printed("", Done)
  {}

  lemma {:induction false} ItemPrints(s: string, i: nat, item: Item, args: seq<int>, k: nat, cnt: nat)
    requires Good(item) && Sub(s, i, Spell(item)) && cnt <= INT_MAX
    ensures var f, all := ItemText(item, args, k), Print(s, i, args, k, cnt);
      if !ItemFits(item, args, k) || cnt + |f| > INT_MAX then all.outcome == Overflow
      else Leads(all, f, Print(s, i + |Spell(item)|, args, k + UsedBy(item), cnt + |f|))
  {
    hide Print, Leads, Good, Escaped, Settled, FieldOf, FieldFits;
    if item.Conv? {
      ConversionPrints(s, i, item, args, k, cnt);
    } else {
      TextPrints(s, i, item.text, args, k, cnt);
    }
  }
}
