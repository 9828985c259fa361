/** Tree-bin arithmetic of `osrt/c/dlmalloc.c`: which of the 32 tree bins holds a chunk
    size, the least size of a bin, and the bits of a size that steer the walk in its trie. */
module BinIndex {
  import opened Words
  import opened BitMaps

  const NTREEBINS: nat := 32
  const LAST_BIN: nat := 31
  const MIN_LARGE_SIZE: nat := 256
  /** The size at which `S >> TREEBIN_SHIFT` no longer fits the 32-bit `X`. */
  const INDEX_LIMIT: nat := 0x100_0000_0000
  /** `minsize_for_tree_index(NTREEBINS - 1)`. */
  const LAST_BIN_MIN: nat := 0xC0_0000

  /** `31 - __builtin_clz(x)`: the position of the highest set bit. */
  function Log2(x: nat): (k: nat)
    requires x > 0
    ensures Pow2(k) <= x < Pow2(k + 1)
  {
    if x == 1 then 0 else 1 + Log2(x / 2)
  }

  lemma {:induction false} Pow2Mono(a: nat, b: nat)
    requires a <= b
    ensures Pow2(a) <= Pow2(b)
    ensures a < b ==> Pow2(a) < Pow2(b)
  {
    if a < b { Pow2Mono(a, b - 1); }
  }

  /** `compute_tree_index(S, I)`, with `X` an `unsigned int`. */
  function TreeIndex(s: nat): (i: nat)
    ensures i < NTREEBINS
  {
    IndexFrom(s, (s / 0x100) % 0x1_0000_0000)
  }

  function IndexFrom(s: nat, x: nat): (i: nat)
    ensures i < NTREEBINS
  {
    if x == 0 then 0
    else if x > 0xFFFF then LAST_BIN
    else Log2Bound(x); MiddleIndex(s, Log2(x))
  }

  /** `(K << 1) + (S >> (K + 7) & 1)`. */
  function MiddleIndex(s: nat, k: nat): nat {
    if BitAt(s, k + 7) then 2 * k + 1 else 2 * k
  }

  lemma {:induction false} Log2Bound(x: nat)
    requires 0 < x <= 0xFFFF
    ensures Log2(x) < 16
  {
    Pow2Values();
    if Log2(x) >= 16 { Pow2Mono(16, Log2(x)); }
  }

  /** `minsize_for_tree_index(i)`; the two or'ed terms share no bit. */
  function MinSize(i: nat): nat {
    if i % 2 == 0 then Pow2(i / 2 + 8) else Pow2(i / 2 + 8) + Pow2(i / 2 + 7)
  }

  /** `leftshift_for_tree_index(i)`. */
  function LeftShift(i: nat): nat
    requires i < NTREEBINS
  {
    if i == LAST_BIN then 0 else 63 - (i / 2 + 6)
  }

  /** `S << leftshift_for_tree_index(I)`: the word whose top bits steer the walk. */
  function StartBits(s: nat): (k: nat)
    requires s < WORD
    ensures k < WORD
  {
    Shl(s, LeftShift(TreeIndex(s)))
  }

  /** `k << n` on a 64-bit word. */
  function Shl(k: nat, n: nat): (r: nat)
    requires k < WORD
    ensures r < WORD
  {
    if n == 0 then k else Shl1(Shl(k, n - 1))
  }

  lemma {:induction false} ShlValue(k: nat, n: nat)
    requires k < WORD
    ensures Shl(k, n) == (k * Pow2(n)) % WORD
  {
    if n != 0 {
      ShlValue(k, n - 1);
      assert k * Pow2(n) == 2 * (k * Pow2(n - 1));
      ShiftMeaning(Shl(k, n - 1));
      DoubleMod(k * Pow2(n - 1));
    }
  }

  lemma {:induction false} DoubleMod(x: nat)
    ensures (2 * (x % WORD)) % WORD == (2 * x) % WORD
  {}

  // ---- Bin ranges ------------------------------------------------------------------

  /** What `do_check_tree` asserts of a size and its bin (`osrt/c/dlmalloc.c:3309-3310`). */
  predicate InBinRange(s: nat) {
    && MinSize(TreeIndex(s)) <= s
    && (TreeIndex(s) == LAST_BIN || s < MinSize(TreeIndex(s) + 1))
  }

  /** The caller's test for the sizes that the 32-bit `X` does not misfile. */
  predicate Proper(s: nat) {
    s < INDEX_LIMIT || s % INDEX_LIMIT >= LAST_BIN_MIN
  }

  lemma {:induction false} LastBinMin()
    ensures MinSize(LAST_BIN) == LAST_BIN_MIN
  {
    Pow2Values();
    Pow2Add(8, 15);
    Pow2Add(8, 14);
    assert Pow2(16) == 4 * Pow2(14);
  }

  /** The bit below the leading one tells the lower half of a power of two from the upper. */
  lemma {:induction false} SecondBit(s: nat, b: nat)
    requires 2 * Pow2(b) <= s < 4 * Pow2(b)
    ensures BitAt(s, b) <==> 3 * Pow2(b) <= s
  {
    if b != 0 { SecondBit(s / 2, b - 1); }
  }

  lemma {:induction false} LeadingBit(s: nat, k: nat, n: nat)
    requires Pow2(k) <= s / Pow2(n) < Pow2(k + 1)
    ensures Pow2(k + n) <= s < Pow2(k + 1 + n)
  {
    if n != 0 {
      assert s / Pow2(n) == (s / 2) / Pow2(n - 1) by { DivDiv(s, Pow2(n - 1)); }
      LeadingBit(s / 2, k, n - 1);
    }
  }

  lemma {:induction false} DivDiv(s: nat, p: nat)
    requires p > 0
    ensures s / (2 * p) == (s / 2) / p
  {
    var q := (s / 2) / p;
    assert q * p <= s / 2 < q * p + p;
    assert q * (2 * p) == 2 * (q * p);
    DivIs(s, 2 * p, q);
  }

  lemma {:induction false} DivIs(s: nat, p: nat, q: nat)
    requires p > 0
    requires q * p <= s < q * p + p
    ensures s / p == q
  {
    var d := s / p;
    assert d * p <= s < d * p + p;
    if d < q { MulGap(d, q, p); }
    if q < d { MulGap(q, d, p); }
  }

  lemma {:induction false} MulGap(d: nat, q: nat, p: nat)
    requires d < q
    ensures d * p + p <= q * p
  {
    assert q * p == (q - 1) * p + p;
    if d < q - 1 { MulGap(d, q - 1, p); }
  }

  /** The middle branch of `compute_tree_index`: half a power of two per bin. */
  lemma {:induction false} MiddleBin(s: nat, k: nat)
    requires Pow2(k + 8) <= s < Pow2(k + 9)
    ensures var i := MiddleIndex(s, k); MinSize(i) <= s < MinSize(i + 1)
  {
    SecondBit(s, k + 7);
  }

  lemma {:induction false} IndexLeadingBit(s: nat)
    requires 0x100 <= s < 0x100_0000
    ensures var k := Log2(s / 0x100); Pow2(k + 8) <= s < Pow2(k + 9)
  {
    Pow2Values();
    LeadingBit(s, Log2(s / 0x100), 8);
  }

  lemma {:induction false} IndexBelowLimit(s: nat)
    requires 0x100 <= s < 0x100_0000
    ensures TreeIndex(s) == MiddleIndex(s, Log2(s / 0x100))
    ensures MinSize(TreeIndex(s)) <= s < MinSize(TreeIndex(s) + 1)
  {
    hide MinSize, Pow2, BitAt, Log2, MiddleIndex;
    assert (s / 0x100) % 0x1_0000_0000 == s / 0x100 <= 0xFFFF;
    IndexLeadingBit(s);
    MiddleBin(s, Log2(s / 0x100));
  }

  lemma {:induction false} MinSizeMono(i: nat, j: nat)
    requires i <= j
    ensures MinSize(i) <= MinSize(j)
    decreases j - i
  {
    if i < j {
      MinSizeStep(i);
      MinSizeMono(i + 1, j);
    }
  }

  lemma {:induction false} MinSizeStep(i: nat)
    ensures MinSize(i + 1) == MinSize(i) + Pow2(i / 2 + 7)
  {
    if i % 2 == 0 { assert (i + 1) / 2 == i / 2; } else { assert (i + 1) / 2 == i / 2 + 1; }
  }

  lemma {:induction false} TopBinBelowLimit(s: nat)
    requires 0x100_0000 <= s < INDEX_LIMIT
    ensures TreeIndex(s) == LAST_BIN
  {
    assert (s / 0x100) % 0x1_0000_0000 == s / 0x100;
  }

  lemma {:induction false} InRangeBelowLimit(s: nat)
    requires MIN_LARGE_SIZE <= s < INDEX_LIMIT
    ensures InBinRange(s)
    ensures TreeIndex(s) == LAST_BIN <==> s >= LAST_BIN_MIN
  {
    hide TreeIndex, MinSize;
    LastBinMin();
    if s < 0x100_0000 {
      IndexBelowLimit(s);
      var i := TreeIndex(s);
      if i < LAST_BIN { MinSizeMono(i + 1, LAST_BIN); }
    } else {
      TopBinBelowLimit(s);
    }
  }

  lemma {:induction false} LowBit(s: nat, b: nat, n: nat)
    requires b < n
    ensures BitAt(s, b) <==> BitAt(s % Pow2(n), b)
  {
    ModHalf(s, Pow2(n - 1));
    if b != 0 { LowBit(s / 2, b - 1, n - 1); }
  }

  lemma {:induction false} ModHalf(s: nat, p: nat)
    requires p > 0
    ensures (s % (2 * p)) / 2 == (s / 2) % p
    ensures (s % (2 * p)) % 2 == s % 2
  {
    DivDiv(s, p);
    var q := (s / 2) / p;
    assert q * (2 * p) == 2 * (q * p);
  }

  /** Only the low 40 bits of a size decide its bin. */
  lemma {:induction false} IndexOfLowBits(s: nat)
    ensures TreeIndex(s) == TreeIndex(s % INDEX_LIMIT)
  {
    var x := (s / 0x100) % 0x1_0000_0000;
    assert x == (s % INDEX_LIMIT / 0x100) % 0x1_0000_0000;
    IndexFromLowBits(s, x);
  }

  lemma {:induction false} IndexFromLowBits(s: nat, x: nat)
    ensures IndexFrom(s, x) == IndexFrom(s % INDEX_LIMIT, x)
  {
    if 0 < x <= 0xFFFF {
      Log2Bound(x);
      Pow2Values();
      Pow2Add(8, 32);
      LowBit(s, Log2(x) + 7, 40);
    }
  }

  /** The bin a size is filed in is the bin whose range holds it, exactly when the size is
      below 2^40 or its low 40 bits select the last bin. */
  lemma {:induction false} BinRange(s: nat)
    requires MIN_LARGE_SIZE <= s
    ensures InBinRange(s) <==> Proper(s)
  {
    if s < INDEX_LIMIT { InRangeBelowLimit(s); } else { BinRangeAboveLimit(s); }
  }

  lemma {:induction false} BinRangeAboveLimit(s: nat)
    requires INDEX_LIMIT <= s
    ensures InBinRange(s) <==> s % INDEX_LIMIT >= LAST_BIN_MIN
  {
    LastBinMin();
    var r, i := s % INDEX_LIMIT, TreeIndex(s);
    IndexOfLowBits(s);
    assert i == LAST_BIN <==> r >= LAST_BIN_MIN by {
      if r >= MIN_LARGE_SIZE { InRangeBelowLimit(r); }
    }
    if i < LAST_BIN { MinSizeMono(i + 1, LAST_BIN); }
  }

  /** A chunk of 1 TB is filed in bin 0, with the 256-byte chunks. */
  lemma {:induction false} MisfiledSize()
    ensures TreeIndex(INDEX_LIMIT) == 0 && !InBinRange(INDEX_LIMIT)
  {
    var s := INDEX_LIMIT;
    assert (s / 0x100) % 0x1_0000_0000 == 0;
    BinRangeAboveLimit(s);
  }

  // ---- Order -----------------------------------------------------------------------

  /** Bins are ordered: a smaller index means smaller sizes. */
  lemma {:induction false} BinsOrdered(s: nat, t: nat)
    requires MIN_LARGE_SIZE <= s && MIN_LARGE_SIZE <= t
    requires Proper(s) && Proper(t)
    requires TreeIndex(s) < TreeIndex(t)
    ensures s < t
  {
    BinRange(s);
    BinRange(t);
    MinSizeMono(TreeIndex(s) + 1, TreeIndex(t));
  }

  /** The number of sizes that bin `i` spans. */
  function BinWidth(i: nat): nat
    requires i < NTREEBINS
  {
    Pow2(64 - LeftShift(i))
  }

  lemma {:induction false} BinGeometry(i: nat)
    requires i < LAST_BIN
    ensures MinSize(i) == (2 + i % 2) * BinWidth(i)
    ensures MinSize(i + 1) == MinSize(i) + BinWidth(i)
  {
    MinSizeStep(i);
    if i % 2 == 0 { assert (2 + i % 2) * BinWidth(i) == 2 * BinWidth(i); }
    else { assert (2 + i % 2) * BinWidth(i) == 3 * BinWidth(i); }
  }

  lemma {:induction false} BinScale(i: nat)
    requires i < NTREEBINS
    ensures BinWidth(i) * Pow2(LeftShift(i)) == WORD
  {
    Pow2Values();
    Pow2Add(64 - LeftShift(i), LeftShift(i));
  }

  function BinPrefixBits(i: nat): nat {
    if i == LAST_BIN then 0 else 2 + i % 2
  }

  lemma {:induction false} PrefixOfMiddleBin(s: nat, i: nat)
    requires i < LAST_BIN && MinSize(i) <= s < MinSize(i + 1)
    ensures s / BinWidth(i) == BinPrefixBits(i)
  {
    BinGeometry(i);
    DivIs(s, BinWidth(i), 2 + i % 2);
  }

  lemma {:induction false} PrefixOfLastBin(s: nat)
    requires s < WORD
    ensures BinWidth(LAST_BIN) == WORD && s / BinWidth(LAST_BIN) == 0
  {
    Pow2Values();
  }

  /** All sizes of a bin agree on every bit above the first one the walk inspects, bit
      `63 - leftshift`; the walk in the last bin inspects all 64 bits. */
  lemma {:induction false} BinPrefix(s: nat, t: nat)
    requires MIN_LARGE_SIZE <= s < WORD && MIN_LARGE_SIZE <= t < WORD
    requires Proper(s) && Proper(t)
    requires TreeIndex(s) == TreeIndex(t)
    ensures s / BinWidth(TreeIndex(s)) == t / BinWidth(TreeIndex(t))
  {
    PrefixIs(s);
    PrefixIs(t);
  }

  lemma {:induction false} PrefixIs(s: nat)
    requires MIN_LARGE_SIZE <= s < WORD && Proper(s)
    ensures s / BinWidth(TreeIndex(s)) == BinPrefixBits(TreeIndex(s))
  {
    BinRange(s);
    if TreeIndex(s) == LAST_BIN { PrefixOfLastBin(s); } else { PrefixOfMiddleBin(s, TreeIndex(s)); }
  }


  /** The steering word of a size is its offset in the bin, scaled to the full word. */
  lemma {:induction false} StartBitsValue(s: nat)
    requires MIN_LARGE_SIZE <= s < WORD && Proper(s)
    ensures BinBase(TreeIndex(s)) <= s
    ensures StartBits(s) == (s - BinBase(TreeIndex(s))) * Pow2(LeftShift(TreeIndex(s)))
  {
    if TreeIndex(s) < LAST_BIN {
      BinRange(s);
      ShiftInBin(s, TreeIndex(s));
    }
  }

  function BinBase(i: nat): nat {
    if i == LAST_BIN then 0 else MinSize(i)
  }

  lemma {:induction false} ShiftInBin(s: nat, i: nat)
    requires s < WORD
    requires i < LAST_BIN && MinSize(i) <= s < MinSize(i + 1)
    ensures Shl(s, LeftShift(i)) == (s - MinSize(i)) * Pow2(LeftShift(i))
  {
    BinGeometry(i);
    BinScale(i);
    ShlValue(s, LeftShift(i));
    ShiftOffset(2 + i % 2, BinWidth(i), Pow2(LeftShift(i)), s - MinSize(i));
  }

  lemma {:induction false} ShiftOffset(q: nat, w: nat, c: nat, r: nat)
    requires w * c == WORD && r < w
    ensures ((q * w + r) * c) % WORD == r * c
  {
    assert (q * w + r) * c == q * (w * c) + r * c;
    assert r * c < w * c by { MulLess(r, w, c); }
    AddMultiples(q, r * c);
  }

  lemma {:induction false} MulLess(a: nat, b: nat, c: nat)
    requires a < b && c > 0
    ensures a * c < b * c
  {
    assert (b - a) * c > 0;
  }

  lemma {:induction false} AddMultiples(q: nat, x: nat)
    requires x < WORD
    ensures (q * WORD + x) % WORD == x
  {
    if q != 0 { AddMultiples(q - 1, x); }
  }

  lemma {:induction false} ScaledLess(s: nat, t: nat, base: nat, p: nat, ks: int, kt: int)
    requires base <= s < t && p > 0 && ks == (s - base) * p && kt == (t - base) * p
    ensures ks < kt
  {
    MulLess(s - base, t - base, p);
  }

  lemma {:induction false} StartBitsMono(s: nat, t: nat)
    requires MIN_LARGE_SIZE <= s < WORD && MIN_LARGE_SIZE <= t < WORD
    requires Proper(s) && Proper(t)
    requires TreeIndex(s) == TreeIndex(t)
    requires s < t
    ensures StartBits(s) < StartBits(t)
  {
    StartBitsValue(s);
    StartBitsValue(t);
    ScaledLess(s, t, BinBase(TreeIndex(s)), Pow2(LeftShift(TreeIndex(s))), StartBits(s), StartBits(t));
  }
}
