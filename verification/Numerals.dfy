/** Numbers as digit strings: the digit loops and `getint` of `osrt/c/vfprintf.c`. */
module Numerals {
  const UINTMAX: nat := 0xFFFF_FFFF_FFFF_FFFF
  const INTMAX: nat := 0x7FFF_FFFF_FFFF_FFFF
  const ULONG_MAX: nat := UINTMAX
  const INT_MAX: nat := 0x7FFF_FFFF

  /** `xdigits[d] | lower`. */
  function DigitChar(d: nat, lower: bool): char
    requires d < 16
  {
    if lower then "0123456789abcdef"[d] else "0123456789ABCDEF"[d]
  }

  /** What a character stands for in a number of the given base; none if it is no digit of that base. */
  function DigitValue(c: char, base: nat): int {
    var d := if '0' <= c <= '9' then c as int - '0' as int
             else if 'a' <= c <= 'f' then c as int - 'a' as int + 10
             else if 'A' <= c <= 'F' then c as int - 'A' as int + 10
             else -1;
    if d < base then d else -1
  }

  lemma {:induction false} DigitReadsBack(d: nat, base: nat, lower: bool)
    requires d < base <= 16
    ensures DigitValue(DigitChar(d, lower), base) == d
  {
    assert d in [0, 1, 2, 3, 4, 5, 6, 7, 8, 9, 10, 11, 12, 13, 14, 15];
  }

  /** The digits of `x`, most significant first; zero has none. */
  function Digits(x: nat, base: nat, lower: bool): string
    requires 2 <= base <= 16
  {
    if x == 0 then "" else Digits(x / base, base, lower) + [DigitChar(x % base, lower)]
  }

  /** The number a text shows: its digits in order, all other characters passed over. */
  function Read(s: string, base: nat): int {
    if s == "" then 0
    else
      var v := Read(s[..|s| - 1], base);
      var d := DigitValue(s[|s| - 1], base);
      if d < 0 then v else base * v + d
  }

  lemma {:induction false} NothingRead(base: nat)
    ensures Read("", base) == 0
  {}

  lemma {:induction false} ReadDigit(s: string, c: char, base: nat)
    ensures Read(s + [c], base)
            == if DigitValue(c, base) < 0 then Read(s, base) else base * Read(s, base) + DigitValue(c, base)
  {
    hide DigitValue;
    assert (s + [c])[..|s|] == s;
  }

  lemma {:induction false} DigitsReadBack(x: nat, base: nat, lower: bool)
    requires 2 <= base <= 16
    ensures Read(Digits(x, base, lower), base) == x
  {
    hide DigitChar, DigitValue, Read;
    if x == 0 {
      NothingRead(base);
    } else {
      DigitsReadBack(x / base, base, lower);
      DigitReadsBack(x % base, base, lower);
      ReadDigit(Digits(x / base, base, lower), DigitChar(x % base, lower), base);
    }
  }

  /** What shows nothing, or zero, may stand before a number. */
  lemma {:induction false} ReadAfter(s: string, t: string, base: nat)
    requires Read(s, base) == 0
    ensures Read(s + t, base) == Read(t, base)
  {
    if t == "" {
      assert s + t == s;
    } else {
      var u := s + t;
      assert u[..|u| - 1] == s + t[..|t| - 1];
      ReadAfter(s, t[..|t| - 1], base);
    }
  }

  /** Characters that are no digits may stand behind it. */
  lemma {:induction false} ReadBefore(s: string, t: string, base: nat)
    requires forall k :: 0 <= k < |t| ==> DigitValue(t[k], base) < 0
    ensures Read(s + t, base) == Read(s, base)
  {
    if t == "" {
      assert s + t == s;
    } else {
      var u := s + t;
      assert u[..|u| - 1] == s + t[..|t| - 1];
      ReadBefore(s, t[..|t| - 1], base);
    }
  }

  function Rep(c: char, n: nat): (s: string)
    ensures |s| == n && forall k :: 0 <= k < n ==> s[k] == c
  {
    seq(n, _ => c)
  }

  lemma {:induction false} RepReads(c: char, n: nat, base: nat)
    requires DigitValue(c, base) <= 0
    ensures Read(Rep(c, n), base) == 0
  {
    if n > 0 {
      assert Rep(c, n)[..n - 1] == Rep(c, n - 1);
      RepReads(c, n - 1, base);
    }
  }

  // ---- How many digits ------------------------------------------------------------------------------------

  function Power(base: nat, n: nat): nat {
    if n == 0 then 1 else base * Power(base, n - 1)
  }

  lemma {:induction false} PowerSum(base: nat, m: nat, n: nat)
    ensures Power(base, m + n) == Power(base, m) * Power(base, n)
  {
    if m > 0 {
      PowerSum(base, m - 1, n);
      var a, b := Power(base, m - 1), Power(base, n);
      assert base * (a * b) == (base * a) * b;
    }
  }

  lemma {:induction false} QuotientBelow(x: nat, base: nat, q: nat)
    requires base > 0 && x < base * q
    ensures x / base < q
  {
    var k := x / base;
    assert k >= q ==> base * k >= base * q;
  }

  lemma {:induction false} DigitsFit(x: nat, base: nat, lower: bool, n: nat)
    requires 2 <= base <= 16 && x < Power(base, n)
    ensures |Digits(x, base, lower)| <= n
  {
    hide DigitChar;
    if x > 0 {
      QuotientBelow(x, base, Power(base, n - 1));
      DigitsFit(x / base, base, lower, n - 1);
    }
  }

  lemma {:induction false} WordPowers()
    ensures Power(8, 22) > UINTMAX && Power(10, 20) > UINTMAX && Power(16, 16) > UINTMAX
  {
    hide Power;
    SmallPowers();
    PowerSum(8, 6, 4); PowerSum(8, 6, 6); PowerSum(8, 12, 10);
    PowerSum(10, 4, 4); PowerSum(10, 8, 8); PowerSum(10, 16, 4);
    PowerSum(16, 4, 4); PowerSum(16, 8, 8);
  }

  lemma {:induction false} SmallPowers()
    ensures Power(8, 4) == 4096 && Power(8, 6) == 262144 && Power(10, 4) == 10000 && Power(16, 4) == 65536
  {
    assert Power(8, 2) == 64 && Power(10, 2) == 100 && Power(16, 2) == 256;
    assert Power(8, 4) == 4096;
  }

  /** No 64-bit value has more than 22 digits in base 8, 10 or 16. */
  lemma {:induction false} WordFits(x: nat, base: nat, lower: bool)
    requires x <= UINTMAX && base in {8, 10, 16}
    ensures |Digits(x, base, lower)| <= 22
  {
    WordPowers();
    hide Power, Digits;
    if base == 8 { DigitsFit(x, 8, lower, 22); }
    if base == 10 { DigitsFit(x, 10, lower, 20); }
    if base == 16 { DigitsFit(x, 16, lower, 16); }
  }

  // ---- The digit loops, backwards into a buffer --------------------------------------------------------------

  /** What every digit loop does to the buffer: digits from `s` to `z`, nothing else. */
  ghost predicate Wrote(before: string, after: string, s: nat, z: nat, digits: string) {
    && s + |digits| == z <= |before| == |after|
    && after[..s] == before[..s] && after[s..z] == digits && after[z..] == before[z..]
  }

  /** The loop has written the digits that `x` has beyond those of `y`. */
  ghost predicate Writing(before: string, now: string, s: nat, z: nat, x: nat, y: nat, base: nat, lower: bool)
    requires 2 <= base <= 16
  {
    && s <= z <= |before| == |now| && now[..s] == before[..s] && now[z..] == before[z..]
    && Digits(x, base, lower) == Digits(y, base, lower) + now[s..z]
  }

  lemma {:induction false} WriteDigit(before: string, now: string, s: nat, z: nat, x: nat, y: nat, base: nat,
      lower: bool)
    requires 2 <= base <= 16 && y > 0 && Writing(before, now, s, z, x, y, base, lower)
    requires |Digits(x, base, lower)| <= z
    ensures s > 0
    ensures Writing(before, now[s - 1 := DigitChar(y % base, lower)], s - 1, z, x, y / base, base, lower)
  {
    hide DigitChar;
    var d := DigitChar(y % base, lower);
    var after := now[s - 1 := d];
    assert Digits(y, base, lower) == Digits(y / base, base, lower) + [d];
    assert after[s - 1..z] == [d] + now[s..z];
    assert after[..s - 1] == now[..s][..s - 1];
  }

  /** `fmt_x` and `fmt_o`: the value is shifted right by the width of a digit. */
  method FmtShift(x: nat, buf: array<char>, z: nat, base: nat, lower: bool) returns (s: nat)
    requires base in {8, 16} && |Digits(x, base, lower)| <= z <= buf.Length
    modifies buf
    ensures Wrote(old(buf[..]), buf[..], s, z, Digits(x, base, lower))
  {
    hide Digits, DigitChar;
    s := z;
    var y: nat := x;
    ghost var now := buf[..];
    assert now[z..z] == "";
    while y != 0
      invariant buf[..] == now && Writing(old(buf[..]), now, s, z, x, y, base, lower)
      decreases y
    {
      WriteDigit(old(buf[..]), now, s, z, x, y, base, lower);
      s := s - 1;
      buf[s] := DigitChar(y % base, lower);
      now := now[s := DigitChar(y % base, lower)];
      y := y / base;
    }
    NoDigits(base, lower);
  }

  lemma {:induction false} NoDigits(base: nat, lower: bool)
    requires 2 <= base <= 16
    ensures Digits(0, base, lower) == ""
  {}

  /** `fmt_u`: a loop for values beyond `ULONG_MAX`, and one for the rest. */
  method FmtU(x: nat, buf: array<char>, z: nat) returns (s: nat)
    requires |Digits(x, 10, false)| <= z <= buf.Length
    modifies buf
    ensures Wrote(old(buf[..]), buf[..], s, z, Digits(x, 10, false))
  {
    hide Digits, DigitChar;
    s := z;
    var y: nat := x;
    ghost var now := buf[..];
    assert now[z..z] == "";
    while y > ULONG_MAX
      invariant buf[..] == now && Writing(old(buf[..]), now, s, z, x, y, 10, false)
      decreases y
    {
      WriteDigit(old(buf[..]), now, s, z, x, y, 10, false);
      s := s - 1;
      buf[s] := DigitChar(y % 10, false);
      now := now[s := DigitChar(y % 10, false)];
      y := y / 10;
    }
    while y != 0
      invariant buf[..] == now && Writing(old(buf[..]), now, s, z, x, y, 10, false)
      decreases y
    {
      WriteDigit(old(buf[..]), now, s, z, x, y, 10, false);
      s := s - 1;
      buf[s] := DigitChar(y % 10, false);
      now := now[s := DigitChar(y % 10, false)];
      y := y / 10;
    }
    NoDigits(10, false);
  }

  // ---- Reading a number --------------------------------------------------------------------------------------

  predicate IsDigit(c: char) {
    '0' <= c <= '9'
  }

  function At(s: string, i: nat): char {
    if i < |s| then s[i] else '\0'
  }

  /** The end of the run of digits from `i` on. */
  function DigitEnd(s: string, i: nat): nat
    decreases |s| - i
  {
    if i < |s| && IsDigit(s[i]) then DigitEnd(s, i + 1) else i
  }

  /** `getint`: the number that the run of digits from `i` on shows, or -1 if an `int` cannot hold it. */
  method GetInt(s: string, i: nat) returns (v: int, end: nat)
    requires i <= |s|
    ensures i <= end <= |s| && end == DigitEnd(s, i)
    ensures v == if Read(s[i..end], 10) <= INT_MAX then Read(s[i..end], 10) else -1
  {
    v, end := 0, i;
    assert s[i..i] == "";
    while IsDigit(At(s, end))
      invariant i <= end <= |s| && DigitEnd(s, i) == DigitEnd(s, end)
      invariant v == if Read(s[i..end], 10) <= INT_MAX then Read(s[i..end], 10) else -1
      invariant Read(s[i..end], 10) >= 0
      decreases |s| - end
    {
      var d := s[end] as int - '0' as int;
      assert s[i..end + 1][..end - i] == s[i..end];
      if v < 0 || v > INT_MAX / 10 || d > INT_MAX - 10 * v {
        v := -1;
      } else {
        v := 10 * v + d;
      }
      end := end + 1;
    }
  }

  lemma {:induction false} DecimalDigits(x: nat)
    ensures forall k :: 0 <= k < |Digits(x, 10, false)| ==> IsDigit(Digits(x, 10, false)[k])
  {
    if x > 0 { DecimalDigits(x / 10); }
  }

  lemma {:induction false} EndOfRun(s: string, i: nat, j: nat)
    requires i <= j <= |s| && (forall k :: i <= k < j ==> IsDigit(s[k])) && !IsDigit(At(s, j))
    ensures DigitEnd(s, i) == j
    decreases j - i
  {
    if i < j { EndOfRun(s, i + 1, j); }
  }

  /** `getint` reads what `fmt_u` writes, wherever it stands in a text. */
  lemma {:induction false} GetIntInverts(before: string, x: nat, after: string)
    requires !IsDigit(At(after, 0))
    ensures var s := before + Digits(x, 10, false) + after;
      var end := DigitEnd(s, |before|);
      end == |before| + |Digits(x, 10, false)| && Read(s[|before|..end], 10) == x
  {
    var d := Digits(x, 10, false);
    var s := before + d + after;
    var j := |before| + |d|;
    DecimalDigits(x);
    assert forall k :: |before| <= k < j ==> s[k] == d[k - |before|];
    assert At(s, j) == At(after, 0);
    EndOfRun(s, |before|, j);
    assert s[|before|..j] == d;
    DigitsReadBack(x, 10, false);
  }
}
