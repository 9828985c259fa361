/** One integer or character conversion of `osrt/c/vfprintf.c`: what the field shows, and the code that
    writes it to a stream. */
module Fields {
  import opened Numerals

  /** The flags of a conversion, each by its own character: `#`, `0`, `-`, space, `+` and `'`. */
  type Flags = set<char>

  predicate Integer(t: char) {
    t in {'d', 'i', 'u', 'o', 'x', 'X', 'p'}
  }

  predicate Signed(t: char) {
    t == 'd' || t == 'i'
  }

  function Base(t: char): nat {
    if t in {'x', 'X', 'p'} then 16 else if t == 'o' then 8 else 10
  }

  predicate Negative(t: char, a: nat) {
    Signed(t) && a > INTMAX
  }

  /** The absolute value of the argument. */
  function Magnitude(t: char, a: nat): nat
    requires a <= UINTMAX
  {
    if Negative(t, a) then UINTMAX + 1 - a else a
  }

  function Numeral(t: char, a: nat): string
    requires a <= UINTMAX
  {
    Digits(Magnitude(t, a), Base(t), t != 'X')
  }

  function Max(a: int, b: int): int {
    if a > b then a else b
  }

  // ---- What a field shows, as section 7.21.6.1 of ISO/IEC 9899:2011 has it --------------------------------

  /** The sign or the base mark. */
  function Prefix(t: char, a: nat, fl: Flags): string {
    if Signed(t) then
      if a > INTMAX then "-" else if '+' in fl then "+" else if ' ' in fl then " " else ""
    else if t == 'p' || (t in {'x', 'X'} && '#' in fl) then
      if a == 0 then "" else if t == 'X' then "0X" else "0x"
    else ""
  }

  /** The least number of digits: the precision, 1 if there is none; `#` asks for a leading zero in base 8. */
  function Least(t: char, a: nat, fl: Flags, p: int, xp: bool): int
    requires a <= UINTMAX
  {
    var given := if !xp then 1 else if t == 'p' && p >= 0 then Max(p, 16) else p;
    if t == 'o' && '#' in fl then Max(given, |Numeral(t, a)| + 1) else given
  }

  /** The digits with the leading zeros that the precision asks for. */
  function Body(t: char, a: nat, fl: Flags, p: int, xp: bool): string
    requires a <= UINTMAX
  {
    var n := Numeral(t, a);
    Rep('0', Max(0, Least(t, a, fl, p, xp) - |n|)) + n
  }

  /** A prefix and a body laid out in a field of width `w`, which may be too narrow for them. */
  function Laid(pre: string, body: string, w: int, left: bool, zero: bool): string {
    var gap := Max(0, w - |pre| - |body|);
    if left then pre + body + Rep(' ', gap)
    else if zero then pre + Rep('0', gap) + body
    else Rep(' ', gap) + pre + body
  }

  /** The `0` flag yields to the `-` flag and to a precision. */
  function Field(t: char, a: nat, fl: Flags, w: int, p: int, xp: bool): string
    requires a <= UINTMAX
  {
    Laid(Prefix(t, a, fl), Body(t, a, fl, p, xp), w, '-' in fl, '0' in fl && !xp)
  }

  /** The field can be made: the precision, unless `#` in base 8 overrides it, and prefix and digits together are
      no more than an `int` holds. */
  predicate Fits(t: char, a: nat, fl: Flags, p: int, xp: bool)
    requires a <= UINTMAX
  {
    Least(t, a, fl, p, xp) >= 0 && |Prefix(t, a, fl)| + |Body(t, a, fl, p, xp)| <= INT_MAX
  }

  function CharField(a: nat, fl: Flags, w: int): string {
    Laid("", [(a % 256) as char], w, '-' in fl, false)
  }

  /** The field is as wide as asked for, or as prefix and digits need. */
  lemma {:induction false} FieldWidth(t: char, a: nat, fl: Flags, w: int, p: int, xp: bool)
    requires a <= UINTMAX
    ensures |Body(t, a, fl, p, xp)| == Max(|Numeral(t, a)|, Least(t, a, fl, p, xp))
    ensures |Field(t, a, fl, w, p, xp)| == Max(w, |Prefix(t, a, fl)| + |Body(t, a, fl, p, xp)|)
  {
    hide Numeral;
  }

  // ---- The field reads back as the argument --------------------------------------------------------------------

  function ReadSigned(s: string, base: nat): int {
    if '-' in s then -Read(s, base) else Read(s, base)
  }

  /** The value that the argument has for the conversion. */
  function Shown(t: char, a: nat): int {
    if Negative(t, a) then a - (UINTMAX + 1) else a
  }

  lemma {:induction false} NoSign(x: nat, base: nat, lower: bool)
    requires 2 <= base <= 16
    ensures '-' !in Digits(x, base, lower)
  {
    if x > 0 {
      NoSign(x / base, base, lower);
      assert '-' !in "0123456789abcdef" && '-' !in "0123456789ABCDEF";
    }
  }

  lemma {:induction false} BodyReads(t: char, a: nat, fl: Flags, p: int, xp: bool)
    requires a <= UINTMAX
    ensures Read(Body(t, a, fl, p, xp), Base(t)) == Magnitude(t, a) && '-' !in Body(t, a, fl, p, xp)
  {
    hide Read, Digits, DigitChar;
    var n := Numeral(t, a);
    var zeros := Rep('0', Max(0, Least(t, a, fl, p, xp) - |n|));
    RepReads('0', |zeros|, Base(t));
    ReadAfter(zeros, n, Base(t));
    DigitsReadBack(Magnitude(t, a), Base(t), t != 'X');
    NoSign(Magnitude(t, a), Base(t), t != 'X');
  }

  lemma {:induction false} PrefixReads(t: char, a: nat, fl: Flags)
    ensures Read(Prefix(t, a, fl), Base(t)) == 0
    ensures '-' in Prefix(t, a, fl) <==> Negative(t, a)
  {
    var s := Prefix(t, a, fl);
    if |s| > 0 {
      assert Read(s[..0], Base(t)) == 0;
      assert |s| == 2 ==> s[..1][..0] == "";
    }
  }

  /** Padding of either kind, on either side, changes no number. */
  lemma {:induction false} LaidReads(pre: string, body: string, w: int, left: bool, zero: bool, base: nat)
    requires base in {8, 10, 16} && Read(pre, base) == 0
    ensures Read(Laid(pre, body, w, left, zero), base) == Read(body, base)
    ensures '-' in Laid(pre, body, w, left, zero) <==> '-' in pre || '-' in body
  {
    hide Read;
    var gap := Max(0, w - |pre| - |body|);
    RepReads(' ', gap, base);
    RepReads('0', gap, base);
    ReadAfter(pre, body, base);
    if left {
      ReadBefore(pre + body, Rep(' ', gap), base);
    } else if zero {
      ReadAfter(pre, Rep('0', gap), base);
      ReadAfter(pre + Rep('0', gap), body, base);
    } else {
      ReadAfter(Rep(' ', gap), pre, base);
      ReadAfter(Rep(' ', gap) + pre, body, base);
    }
  }

  /** Whatever the flags, the width and the precision, the field shows the argument. */
  lemma {:induction false} FieldReadsBack(t: char, a: nat, fl: Flags, w: int, p: int, xp: bool)
    requires a <= UINTMAX
    ensures ReadSigned(Field(t, a, fl, w, p, xp), Base(t)) == Shown(t, a)
  {
    hide Prefix, Body, Laid, Read;
    BodyReads(t, a, fl, p, xp);
    PrefixReads(t, a, fl);
    LaidReads(Prefix(t, a, fl), Body(t, a, fl, p, xp), w, '-' in fl, '0' in fl && !xp, Base(t));
  }

  /** After the spaces that pad it, the field starts with `mark`. */
  predicate Leads(field: string, mark: string) {
    exists i :: 0 <= i <= |field| - |mark| && field[i..i + |mark|] == mark && OnlySpaces(field, i)
  }

  predicate OnlySpaces(field: string, n: nat)
    requires n <= |field|
  {
    forall j :: 0 <= j < n ==> field[j] == ' '
  }

  lemma {:induction false} LaidLeads(pre: string, body: string, w: int, left: bool, zero: bool)
    ensures Leads(Laid(pre, body, w, left, zero), pre)
  {
    var f := Laid(pre, body, w, left, zero);
    var i := if left || zero then 0 else Max(0, w - |pre| - |body|);
    assert f[i..i + |pre|] == pre && OnlySpaces(f, i);
  }

  /** What a field shows besides its padding. */
  lemma {:induction false} LaidHas(pre: string, body: string, w: int, left: bool, zero: bool)
    ensures forall c :: c in Laid(pre, body, w, left, zero) ==> c in pre || c in body || c in " 0"
    ensures forall c :: c in pre || c in body ==> c in Laid(pre, body, w, left, zero)
    ensures w <= |pre| + |body| ==> Laid(pre, body, w, left, zero) == pre + body
  {
    var gap := Max(0, w - |pre| - |body|);
    assert Rep(' ', 0) == "" && Rep('0', 0) == "";
    assert forall c :: c in Rep(' ', gap) ==> c == ' ';
    assert forall c :: c in Rep('0', gap) ==> c == '0';
  }

  lemma {:induction false} OnlyDigits(x: nat, base: nat, lower: bool, c: char)
    requires 2 <= base <= 16 && c in "+ xX"
    ensures c !in Digits(x, base, lower)
  {
    if x > 0 {
      OnlyDigits(x / base, base, lower, c);
      assert c !in "0123456789abcdef" && c !in "0123456789ABCDEF";
    }
  }

  lemma {:induction false} NotInBody(t: char, a: nat, fl: Flags, p: int, xp: bool, c: char)
    requires a <= UINTMAX && c in "+ xX"
    ensures c !in Body(t, a, fl, p, xp)
  {
    hide Digits, DigitChar;
    OnlyDigits(Magnitude(t, a), Base(t), t != 'X', c);
  }

  /** The field shows a sign or a mark of the base just where the conversion asks for one: `-` before a negative
      number, `+` or else a space before another signed one if the flag is set, `0x` or `0X` before a pointer and,
      with the flag `#`, before a number in base 16, unless it is zero. */
  lemma {:induction false} MarkShown(t: char, a: nat, fl: Flags, w: int, p: int, xp: bool)
    requires a <= UINTMAX
    ensures var f := Field(t, a, fl, w, p, xp);
            && ('-' in f <==> Signed(t) && a > INTMAX) && ('-' in f ==> Leads(f, "-"))
            && ('+' in f <==> Signed(t) && a <= INTMAX && '+' in fl) && ('+' in f ==> Leads(f, "+"))
            && ('x' in f <==> a > 0 && (t == 'p' || (t == 'x' && '#' in fl))) && ('x' in f ==> Leads(f, "0x"))
            && ('X' in f <==> a > 0 && t == 'X' && '#' in fl) && ('X' in f ==> Leads(f, "0X"))
    ensures Signed(t) && a <= INTMAX && '+' !in fl && ' ' in fl ==> Leads(Field(t, a, fl, w, p, xp), " ")
    ensures ' ' in Field(t, a, fl, 0, p, xp) <==> Signed(t) && a <= INTMAX && '+' !in fl && ' ' in fl
  {
    hide Body, Leads, Read, Laid;
    var pre, body := Prefix(t, a, fl), Body(t, a, fl, p, xp);
    BodyReads(t, a, fl, p, xp);
    NotInBody(t, a, fl, p, xp, '+');
    NotInBody(t, a, fl, p, xp, ' ');
    NotInBody(t, a, fl, p, xp, 'x');
    NotInBody(t, a, fl, p, xp, 'X');
    LaidLeads(pre, body, w, '-' in fl, '0' in fl && !xp);
    LaidHas(pre, body, w, '-' in fl, '0' in fl && !xp);
    LaidHas(pre, body, 0, '-' in fl, '0' in fl && !xp);
  }

  // ---- Writing it ------------------------------------------------------------------------------------------------

  function Toggle(fl: Flags, c: char): Flags {
    if c in fl then fl - {c} else fl + {c}
  }

  /** What `pad` writes. */
  function Padding(c: char, w: int, l: int, fl: Flags): string {
    if '-' in fl || '0' in fl || l >= w then "" else Rep(c, w - l)
  }

  /** Of the three pads to the width exactly one can write: before the prefix, behind it, or at the end. */
  lemma {:induction false} OneWidthPad(fl: Flags, w: int, l: int)
    requires !('-' in fl && '0' in fl)
    ensures |Padding(' ', w, l, fl)| + |Padding('0', w, l, Toggle(fl, '0'))| + |Padding(' ', w, l, Toggle(fl, '-'))|
      == Max(0, w - l)
    ensures Padding(' ', w, l, fl) != "" ==>
              Padding('0', w, l, Toggle(fl, '0')) == Padding(' ', w, l, Toggle(fl, '-')) == ""
    ensures Padding('0', w, l, Toggle(fl, '0')) != "" ==> Padding(' ', w, l, Toggle(fl, '-')) == ""
  {
    TogglesIn(fl);
  }

  const BUF_SIZE: nat := 43
  const PAD_SIZE: nat := 256

  class Stream {
    var out: string

    constructor ()
      ensures out == ""
    {
      out := "";
    }

    method Write(s: string)
      modifies this
      ensures out == old(out) + s
    {
      out := out + s;
    }

    /** `pad`: in pieces of at most 256 characters. */
    method Pad(c: char, w: int, l: int, fl: Flags)
      modifies this
      ensures out == old(out) + Padding(c, w, l, fl)
    {
      if '-' in fl || '0' in fl || l >= w {
        return;
      }
      var n := w - l;
      var piece := Rep(c, if n > PAD_SIZE then PAD_SIZE else n);
      while n >= PAD_SIZE
        invariant 0 <= n <= w - l && out == old(out) + Rep(c, w - l - n)
        invariant |piece| >= (if n > PAD_SIZE then PAD_SIZE else n)
        decreases n
      {
        Write(piece[..PAD_SIZE]);
        n := n - PAD_SIZE;
        assert Rep(c, w - l - n) == Rep(c, w - l - n - PAD_SIZE) + piece[..PAD_SIZE];
      }
      Write(piece[..n]);
      assert Rep(c, w - l) == Rep(c, w - l - n) + piece[..n];
    }

    /** The six writes at the end of a conversion. */
    method Emit(pre: string, digits: string, p: int, w: int, fl: Flags)
      requires p >= |digits| && w >= |pre| + p && !('-' in fl && '0' in fl)
      modifies this
      ensures out == old(out) + Laid(pre, Rep('0', p - |digits|) + digits, w, '-' in fl, '0' in fl)
    {
      hide Rep;
      Pad(' ', w, |pre| + p, fl);
      Write(pre);
      Pad('0', w, |pre| + p, Toggle(fl, '0'));
      Pad('0', p, |digits|, {});
      Write(digits);
      Pad(' ', w, |pre| + p, Toggle(fl, '-'));
      Pieces(old(out), pre, digits, p, w, fl);
    }

    /** The cases `p`, `x`, `X`, `o`, `d`, `i` and `u` of `printf_core`, and the writes behind them. */
    method PrintInteger(t0: char, arg: nat, fl0: Flags, w0: int, p0: int, xp: bool, cnt: int, buf: array<char>)
        returns (ok: bool, l: int)
      requires Integer(t0) && arg <= UINTMAX && buf.Length == BUF_SIZE && 0 <= cnt <= INT_MAX && (!xp ==> p0 < 0)
      modifies this, buf
      ensures ok <==> Fits(t0, arg, fl0, p0, xp) && cnt + |Field(t0, arg, fl0, w0, p0, xp)| <= INT_MAX
      ensures out == if ok then old(out) + Field(t0, arg, fl0, w0, p0, xp) else old(out)
      ensures ok ==> l == |Field(t0, arg, fl0, w0, p0, xp)|
    {
      hide Laid, Digits, Rep, Body, Read, DigitChar;
      var t, fl, p := t0, fl0, p0;
      l := 0;
      if '-' in fl { fl := fl - {'0'}; }
      if t == 'p' {
        // The maximum is taken of unsigned values: a negative precision stays.
        if 0 <= p < 16 { p := 16; }
        t := 'x';
        fl := fl + {'#'};
      }
      var i, pre := Sign(t, arg, fl);
      var digits := Convert(t, i, buf);
      var n := |digits|;
      NoNumeral(t0, arg);
      if t == 'o' && '#' in fl && p < n + 1 { p := n + 1; }
      if t in {'x', 'X'} && i != 0 && '#' in fl {
        pre := if t == 'x' then "0x" else "0X";
      }
      if xp && p < 0 {
        return false, 0;
      }
      if xp { fl := fl - {'0'}; }
      if !(i == 0 && p == 0) {
        p := Max(p, n + if i == 0 then 1 else 0);
      }
      FieldWidth(t0, arg, fl0, w0, p0, xp);
      BodyIs(t0, arg, fl0, p0, xp, p);
      ok, l := Finish(pre, digits, p, w0, fl, cnt);
      LeftWins(pre, Body(t0, arg, fl0, p0, xp), w0, '0' in fl0 && !xp);
    }

    /** The sign of `d` and `i`, and the absolute value. */
    method Sign(t: char, arg: nat, fl: Flags) returns (i: nat, pre: string)
      requires arg <= UINTMAX
      ensures i == Magnitude(t, arg) && pre == if Signed(t) then Prefix(t, arg, fl) else ""
    {
      i, pre := arg, "";
      if Signed(t) {
        if i > INTMAX {
          i := UINTMAX + 1 - i;
          pre := "-";
        } else if '+' in fl {
          pre := "+";
        } else if ' ' in fl {
          pre := " ";
        }
      }
    }

    /** What every conversion ends with: the checks against `INT_MAX`, then the writes. */
    method Finish(pre: string, digits: string, p0: int, w0: int, fl: Flags, cnt: int) returns (ok: bool, l: int)
      requires 0 <= cnt <= INT_MAX && !('-' in fl && '0' in fl)
      modifies this
      ensures var body := Rep('0', Max(0, p0 - |digits|)) + digits;
        && (ok <==> |pre| + |body| <= INT_MAX && cnt + |Laid(pre, body, w0, '-' in fl, '0' in fl)| <= INT_MAX)
        && out == (if ok then old(out) + Laid(pre, body, w0, '-' in fl, '0' in fl) else old(out))
        && (ok ==> l == |Laid(pre, body, w0, '-' in fl, '0' in fl)|)
    {
      hide Laid;
      var p, w := p0, w0;
      if p < |digits| { p := |digits|; }
      ghost var body := Rep('0', p - |digits|) + digits;
      LaidWidth(pre, body, w0, '-' in fl, '0' in fl);
      if p > INT_MAX - |pre| {
        return false, 0;
      }
      if w < |pre| + p { w := |pre| + p; }
      if w > INT_MAX - cnt {
        return false, 0;
      }
      Emit(pre, digits, p, w, fl);
      WiderIsSame(pre, body, w0, w, '-' in fl, '0' in fl);
      return true, w;
    }

    /** The digit loop of the conversion; `z - a` characters at the end of the buffer. */
    method Convert(t: char, i: nat, buf: array<char>) returns (digits: string)
      requires Integer(t) && t != 'p' && i <= UINTMAX && buf.Length == BUF_SIZE
      modifies buf
      ensures digits == Digits(i, Base(t), t != 'X')
    {
      hide Digits;
      WordFits(i, Base(t), t != 'X');
      var a: nat;
      if t in {'x', 'X'} {
        a := FmtShift(i, buf, BUF_SIZE, 16, t == 'x');
      } else if t == 'o' {
        a := FmtShift(i, buf, BUF_SIZE, 8, true);
      } else {
        SameDecimal(i);
        a := FmtU(i, buf, BUF_SIZE);
      }
      digits := buf[a..BUF_SIZE];
    }

    /** The case `c`. */
    method PrintChar(arg: nat, fl0: Flags, w0: int, cnt: int) returns (ok: bool, l: int)
      requires 0 <= cnt <= INT_MAX
      modifies this
      ensures ok <==> cnt + |CharField(arg, fl0, w0)| <= INT_MAX
      ensures out == if ok then old(out) + CharField(arg, fl0, w0) else old(out)
      ensures ok ==> l == |CharField(arg, fl0, w0)|
    {
      var fl, c := fl0 - {'0'}, [(arg % 256) as char];
      assert Rep('0', 0) + c == c;
      ok, l := Finish("", c, 1, w0, fl, cnt);
    }
  }

  lemma {:induction false} LaidWidth(pre: string, body: string, w: int, left: bool, zero: bool)
    ensures |Laid(pre, body, w, left, zero)| == Max(w, |pre| + |body|)
  {}

  lemma {:induction false} LeftWins(pre: string, body: string, w: int, zero: bool)
    ensures Laid(pre, body, w, true, zero) == Laid(pre, body, w, true, false)
  {}

  /** A width below what is needed counts as what is needed. */
  lemma {:induction false} WiderIsSame(pre: string, body: string, w0: int, w: int, left: bool, zero: bool)
    requires w == Max(w0, |pre| + |body|)
    ensures Laid(pre, body, w0, left, zero) == Laid(pre, body, w, left, zero)
  {}

  lemma {:induction false} SameDecimal(x: nat)
    ensures Digits(x, 10, true) == Digits(x, 10, false)
  {
    if x > 0 {
      SameDecimal(x / 10);
      assert x % 10 in [0, 1, 2, 3, 4, 5, 6, 7, 8, 9];
    }
  }

  lemma {:induction false} BodyIs(t: char, a: nat, fl: Flags, p0: int, xp: bool, p: int)
    requires a <= UINTMAX
    requires var n := |Numeral(t, a)|; Max(p, n) == Max(Least(t, a, fl, p0, xp), n)
    ensures var n := Numeral(t, a); Body(t, a, fl, p0, xp) == Rep('0', Max(0, p - |n|)) + n
  {}

  lemma {:induction false} NoNumeral(t: char, a: nat)
    requires a <= UINTMAX
    ensures Magnitude(t, a) == 0 <==> |Numeral(t, a)| == 0
  {}

  lemma {:induction false} TogglesIn(fl: Flags)
    ensures ('0' in Toggle(fl, '0') <==> '0' !in fl) && ('-' in Toggle(fl, '0') <==> '-' in fl)
    ensures ('-' in Toggle(fl, '-') <==> '-' !in fl) && ('0' in Toggle(fl, '-') <==> '0' in fl)
  {}

  lemma {:induction false} Pieces(o: string, pre: string, digits: string, p: int, w: int, fl: Flags)
    requires p >= |digits| && w >= |pre| + p && !('-' in fl && '0' in fl)
    ensures var l := |pre| + p;
      o + Padding(' ', w, l, fl) + pre + Padding('0', w, l, Toggle(fl, '0')) + Padding('0', p, |digits|, {}) + digits
        + Padding(' ', w, l, Toggle(fl, '-'))
      == o + Laid(pre, Rep('0', p - |digits|) + digits, w, '-' in fl, '0' in fl)
  {
    hide Rep, Toggle;
    var l := |pre| + p;
    TogglesIn(fl);
    assert Padding('0', p, |digits|, {}) == Rep('0', p - |digits|);
    assert w == l ==> Rep('0', w - l) == "" == Rep(' ', w - l);
  }
}
