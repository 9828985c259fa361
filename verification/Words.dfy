/** Unsigned machine arithmetic, written out over unbounded integers.

    `size_t` values are naturals below `WORD`, `binmap_t` values naturals below
    `MAP`; every operation that wraps in C wraps explicitly here. */
module Words {

  const WORD: nat := 0x1_0000_0000_0000_0000
  const HALF: nat := 0x8000_0000_0000_0000

  function Pow2(n: nat): (r: nat)
    ensures r >= 1
  {
    if n == 0 then 1 else 2 * Pow2(n - 1)
  }

  /** `a - b` on 64-bit unsigned words. */
  function Sub(a: nat, b: nat): (r: nat)
    requires a < WORD && b < WORD
    ensures r < WORD
    ensures b <= a ==> r == a - b
    ensures a < b ==> r == WORD - (b - a)
  {
    if b <= a then a - b else WORD + a - b
  }

  /** The top bit of a 64-bit word: `k >> 63`. */
  function TopBit(k: nat): (b: nat)
    requires k < WORD
    ensures b <= 1
  {
    if k < HALF then 0 else 1
  }

  /** `k << 1` on a 64-bit word. */
  function Shl1(k: nat): (r: nat)
    requires k < WORD
    ensures r < WORD
  {
    if k < HALF then 2 * k else 2 * k - WORD
  }

  /** The case splits above are the C expressions `k >> 63` and `k << 1`. */
  lemma {:induction false} ShiftMeaning(k: nat)
    requires k < WORD
    ensures TopBit(k) == k / HALF && Shl1(k) == (2 * k) % WORD
  {}

  lemma {:induction false} Pow2Add(a: nat, b: nat)
    ensures Pow2(a + b) == Pow2(a) * Pow2(b)
  {
    if a != 0 {
      Pow2Add(a - 1, b);
      assert Pow2(a + b) == 2 * Pow2(a - 1 + b);
      assert 2 * (Pow2(a - 1) * Pow2(b)) == (2 * Pow2(a - 1)) * Pow2(b);
    }
  }

  /** The powers that name the word sizes. */
  lemma {:induction false} Pow2Values()
    ensures Pow2(8) == 0x100 && Pow2(16) == 0x1_0000 && Pow2(32) == 0x1_0000_0000
    ensures Pow2(63) == HALF && Pow2(64) == WORD
  {
    assert Pow2(4) == 16;
    Pow2Add(4, 4);
    Pow2Add(8, 8);
    Pow2Add(16, 16);
    Pow2Add(32, 32);
    assert Pow2(64) == 2 * Pow2(63);
  }
}
