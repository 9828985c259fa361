/** The bin maps of `osrt/c/dlmalloc.c`: one bit per bin in a 32-bit word, and the
    bit tricks that find the next non-empty bin without looking at the bins. */
module BitMaps {
  import opened Words

  const MAP: nat := 0x1_0000_0000
  const MAP_BITS: nat := 32

  // ---- Bits and the C operators on them ------------------------------------------

  predicate BitAt(x: nat, i: nat) {
    if i == 0 then x % 2 == 1 else BitAt(x / 2, i - 1)
  }

  function And(x: nat, y: nat): nat {
    if x == 0 || y == 0 then 0 else (x % 2) * (y % 2) + 2 * And(x / 2, y / 2)
  }

  function Or(x: nat, y: nat): nat {
    if x == 0 then y else if y == 0 then x
    else (if x % 2 == 1 then 1 else y % 2) + 2 * Or(x / 2, y / 2)
  }

  /** `-x` and `~x` on a word of `n` bits. */
  function Neg(x: nat, n: nat): nat
    requires x < Pow2(n)
  {
    if x == 0 then 0 else Pow2(n) - x
  }

  function Not(x: nat, n: nat): nat
    requires x < Pow2(n)
  {
    Pow2(n) - 1 - x
  }

  /** `x << 1` on a word of `n` bits. */
  function Double(x: nat, n: nat): (r: nat)
    requires x < Pow2(n)
    ensures r < Pow2(n)
  {
    if 2 * x < Pow2(n) then 2 * x else 2 * x - Pow2(n)
  }

  /** `idx2bit(i)`. */
  function Idx2Bit(i: nat): nat {
    Pow2(i)
  }

  /** `least_bit(x)`: `x & -x`. */
  function LeastBit(x: nat, n: nat): nat
    requires x < Pow2(n)
  {
    And(x, Neg(x, n))
  }

  /** `left_bits(x)`: `(x << 1) | -(x << 1)`. */
  function LeftBits(x: nat, n: nat): nat
    requires x < Pow2(n)
  {
    var y := Double(x, n);
    Or(y, Neg(y, n))
  }

  /** `compute_bit2idx`: the number of trailing zeros. */
  function Bit2Idx(x: nat): nat
    requires x != 0
  {
    if x % 2 == 1 then 0 else 1 + Bit2Idx(x / 2)
  }

  // ---- Bitwise meaning of the operators --------------------------------------------

  lemma {:induction false} AndBit(x: nat, y: nat, i: nat)
    ensures BitAt(And(x, y), i) <==> BitAt(x, i) && BitAt(y, i)
  {
    if x == 0 || y == 0 {
      ZeroBit(i);
    } else if i != 0 {
      AndBit(x / 2, y / 2, i - 1);
    }
  }

  lemma {:induction false} OrBit(x: nat, y: nat, i: nat)
    ensures BitAt(Or(x, y), i) <==> BitAt(x, i) || BitAt(y, i)
  {
    if x == 0 || y == 0 {
      ZeroBit(i);
    } else if i != 0 {
      OrBit(x / 2, y / 2, i - 1);
    }
  }

  lemma {:induction false} ZeroBit(i: nat)
    ensures !BitAt(0, i)
  {
    if i != 0 { ZeroBit(i - 1); }
  }

  lemma {:induction false} NotBit(x: nat, n: nat, i: nat)
    requires x < Pow2(n)
    ensures BitAt(Not(x, n), i) <==> i < n && !BitAt(x, i)
  {
    if n == 0 {
      ZeroBit(i);
    } else if i != 0 {
      assert Not(x, n) / 2 == Not(x / 2, n - 1);
      NotBit(x / 2, n - 1, i - 1);
    }
  }

  lemma {:induction false} HighBits(x: nat, n: nat, i: nat)
    requires x < Pow2(n) && n <= i
    ensures !BitAt(x, i)
  {
    if n == 0 { ZeroBit(i); } else { HighBits(x / 2, n - 1, i - 1); }
  }

  lemma {:induction false} Idx2BitBit(i: nat, j: nat)
    ensures BitAt(Idx2Bit(i), j) <==> i == j
  {
    if j == 0 {
    } else if i == 0 {
      ZeroBit(j - 1);
    } else {
      Idx2BitBit(i - 1, j - 1);
    }
  }

  lemma {:induction false} Idx2BitRange(i: nat, n: nat)
    requires i < n
    ensures Idx2Bit(i) < Pow2(n)
  {
    if i != 0 { Idx2BitRange(i - 1, n - 1); }
  }

  lemma {:induction false} AndRange(x: nat, y: nat)
    ensures And(x, y) <= x && And(x, y) <= y
  {
    if x != 0 && y != 0 { AndRange(x / 2, y / 2); }
  }

  lemma {:induction false} OrRange(x: nat, y: nat, n: nat)
    requires x < Pow2(n) && y < Pow2(n)
    ensures Or(x, y) < Pow2(n)
  {
    if x != 0 && y != 0 { OrRange(x / 2, y / 2, n - 1); }
  }

  // ---- Marking, clearing and scanning ----------------------------------------------

  lemma {:induction false} MarkBit(m: nat, i: nat, j: nat)
    ensures BitAt(Or(m, Idx2Bit(i)), j) <==> i == j || BitAt(m, j)
  {
    OrBit(m, Idx2Bit(i), j);
    Idx2BitBit(i, j);
  }

  lemma {:induction false} ClearBit(m: nat, n: nat, i: nat, j: nat)
    requires m < Pow2(n) && i < n
    requires Idx2Bit(i) < Pow2(n)
    ensures BitAt(And(m, Not(Idx2Bit(i), n)), j) <==> i != j && BitAt(m, j)
  {
    AndBit(m, Not(Idx2Bit(i), n), j);
    NotBit(Idx2Bit(i), n, j);
    Idx2BitBit(i, j);
    if j >= n { HighBits(m, n, j); }
  }

  /** A word with a set bit is non-zero, and a non-zero word has a set bit, at `Bit2Idx`,
      with no set bit below it. */
  lemma {:induction false} Bit2IdxIsLeast(x: nat, n: nat)
    requires 0 < x < Pow2(n)
    ensures Bit2Idx(x) < n && BitAt(x, Bit2Idx(x))
    ensures forall j :: 0 <= j < Bit2Idx(x) ==> !BitAt(x, j)
  {
    if x % 2 == 0 {
      Bit2IdxIsLeast(x / 2, n - 1);
      forall j | 0 <= j < Bit2Idx(x) ensures !BitAt(x, j) {
        if j != 0 { assert !BitAt(x / 2, j - 1); }
      }
    }
  }

  lemma {:induction false} AndNotSelf(x: nat, n: nat)
    requires x < Pow2(n)
    ensures And(x, Not(x, n)) == 0
  {
    if n != 0 {
      assert Not(x, n) / 2 == Not(x / 2, n - 1);
      AndNotSelf(x / 2, n - 1);
    }
  }

  /** `x & -x` isolates the lowest set bit. */
  lemma {:induction false} LeastBitIsLeast(x: nat, n: nat)
    requires 0 < x < Pow2(n)
    ensures LeastBit(x, n) == Idx2Bit(Bit2Idx(x))
  {
    if x % 2 == 0 {
      assert Neg(x, n) == 2 * Neg(x / 2, n - 1);
      LeastBitIsLeast(x / 2, n - 1);
    } else {
      assert Neg(x, n) % 2 == 1 && Neg(x, n) / 2 == Not(x / 2, n - 1);
      AndNotSelf(x / 2, n - 1);
    }
  }

  lemma {:induction false} Bit2IdxOfBit(i: nat)
    ensures Bit2Idx(Idx2Bit(i)) == i
  {
    if i != 0 { Bit2IdxOfBit(i - 1); }
  }

  /** A single bit or'ed with its negation covers every position from that bit up. */
  lemma {:induction false} SameOrLeft(i: nat, n: nat, j: nat)
    requires i < n
    requires Idx2Bit(i) < Pow2(n)
    ensures BitAt(Or(Idx2Bit(i), Neg(Idx2Bit(i), n)), j) <==> i <= j < n
  {
    var x := Idx2Bit(i);
    OrBit(x, Neg(x, n), j);
    Idx2BitBit(i, j);
    if i == 0 {
      if j != 0 {
        assert Neg(1, n) / 2 == Not(0, n - 1);
        NotBit(0, n - 1, j - 1);
        ZeroBit(j - 1);
      }
    } else {
      assert Neg(x, n) == 2 * Neg(Idx2Bit(i - 1), n - 1);
      if j != 0 {
        SameOrLeft(i - 1, n - 1, j - 1);
        OrBit(Idx2Bit(i - 1), Neg(Idx2Bit(i - 1), n - 1), j - 1);
        Idx2BitBit(i - 1, j - 1);
      }
    }
  }

  lemma {:induction false} LeftBitsBit(i: nat, n: nat, j: nat)
    requires i < n
    requires Idx2Bit(i) < Pow2(n)
    ensures BitAt(LeftBits(Idx2Bit(i), n), j) <==> i < j < n
  {
    assert Idx2Bit(i + 1) == 2 * Idx2Bit(i);
    if i + 1 == n {
      ZeroBit(j);
    } else {
      Idx2BitRange(i + 1, n);
      SameOrLeft(i + 1, n, j);
    }
  }

  /** The scan `least_bit(left_bits(idx2bit(i)) & map)` finds the first marked bin above `i`;
      a zero intermediate result means that there is none. */
  function BinsAbove(map_: nat, i: nat): nat
    requires i < MAP_BITS && map_ < MAP
  {
    Idx2BitRange(i, MAP_BITS);
    Pow2Values();
    And(LeftBits(Idx2Bit(i), MAP_BITS), map_)
  }

  lemma {:induction false} BinsAboveBit(map_: nat, i: nat, j: nat)
    requires i < MAP_BITS && map_ < MAP
    ensures BitAt(BinsAbove(map_, i), j) <==> i < j && BitAt(map_, j)
  {
    Idx2BitRange(i, MAP_BITS);
    Pow2Values();
    AndBit(LeftBits(Idx2Bit(i), MAP_BITS), map_, j);
    LeftBitsBit(i, MAP_BITS, j);
    if j >= MAP_BITS { HighBits(map_, MAP_BITS, j); }
  }

  lemma {:induction false} NextBin(map_: nat, i: nat)
    requires i < MAP_BITS && map_ < MAP
    ensures BinsAbove(map_, i) < MAP == Pow2(MAP_BITS)
    ensures BinsAbove(map_, i) == 0 ==> forall j :: i < j ==> !BitAt(map_, j)
    ensures BinsAbove(map_, i) != 0 ==>
              var least := LeastBit(BinsAbove(map_, i), MAP_BITS);
              && least != 0
              && i < Bit2Idx(least) < MAP_BITS && BitAt(map_, Bit2Idx(least))
              && forall j :: i < j < Bit2Idx(least) ==> !BitAt(map_, j)
  {
    Pow2Values();
    var x := BinsAbove(map_, i);
    Idx2BitRange(i, MAP_BITS);
    AndRange(LeftBits(Idx2Bit(i), MAP_BITS), map_);
    if x == 0 {
      forall j | i < j ensures !BitAt(map_, j) {
        BinsAboveBit(map_, i, j);
        ZeroBit(j);
      }
    } else {
      FirstSetBit(x);
      var k := Bit2Idx(LeastBit(x, MAP_BITS));
      BinsAboveBit(map_, i, k);
      forall j | i < j < k ensures !BitAt(map_, j) {
        BinsAboveBit(map_, i, j);
      }
    }
  }

  /** `compute_bit2idx(least_bit(x))` is the first set bit of a non-zero map. */
  lemma {:induction false} FirstSetBit(x: nat)
    requires 0 < x < MAP
    ensures x < Pow2(MAP_BITS)
    ensures LeastBit(x, MAP_BITS) != 0
    ensures var k := Bit2Idx(LeastBit(x, MAP_BITS));
            k < MAP_BITS && BitAt(x, k) && forall j :: 0 <= j < k ==> !BitAt(x, j)
  {
    Pow2Values();
    Bit2IdxIsLeast(x, MAP_BITS);
    LeastBitIsLeast(x, MAP_BITS);
    Bit2IdxOfBit(Bit2Idx(x));
  }
}
