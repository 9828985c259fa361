/** Positions in a bitwise digital trie, and the path that a steering word takes from the
    root: at each level the top bit of the word picks the child and the word shifts left. */
module TriePaths {
  import opened Words

  /** A place in the trie of bin `bin`: `depth` levels below the root, reached by taking
      the branches that `pre` spells out in binary. */
  datatype Pos = Pos(bin: int, depth: nat, pre: nat)

  function Root(bin: int): Pos {
    Pos(bin, 0, 0)
  }

  function Down(p: Pos, branch: nat): Pos {
    Pos(p.bin, p.depth + 1, 2 * p.pre + branch)
  }

  function Up(p: Pos): Pos {
    if p.depth == 0 then p else Pos(p.bin, p.depth - 1, p.pre / 2)
  }

  /** The steering word after `d` levels. */
  function Steer(k: nat, d: nat): (r: nat)
    requires k < WORD
    ensures r < WORD
  {
    if d == 0 then k else Shl1(Steer(k, d - 1))
  }

  /** The branches taken in the first `d` levels. */
  function Prefix(k: nat, d: nat): nat
    requires k < WORD
  {
    if d == 0 then 0 else 2 * Prefix(k, d - 1) + TopBit(Steer(k, d - 1))
  }

  /** Where the path of steering word `k` in bin `bin` stands at depth `d`. */
  function Path(bin: int, k: nat, d: nat): Pos
    requires k < WORD
  {
    Pos(bin, d, Prefix(k, d))
  }

  function Branch(k: nat, d: nat): (b: nat)
    requires k < WORD
    ensures b <= 1
  {
    TopBit(Steer(k, d))
  }

  lemma {:induction false} PathStep(bin: int, k: nat, d: nat)
    requires k < WORD
    ensures Path(bin, k, d + 1) == Down(Path(bin, k, d), Branch(k, d))
    ensures Up(Path(bin, k, d + 1)) == Path(bin, k, d)
  {}

  lemma {:induction false} PrefixStep(k: nat, d: nat)
    requires k < WORD
    ensures Prefix(k, d + 1) == 2 * Prefix(k, d) + Branch(k, d)
  {}

  lemma {:induction false} DownInjective(p: Pos, b: nat, q: Pos, c: nat)
    requires b <= 1 && c <= 1
    requires Down(p, b) == Down(q, c)
    ensures p == q && b == c
  {}

  lemma {:induction false} UpDown(p: Pos, b: nat)
    requires b <= 1
    ensures Up(Down(p, b)) == p
  {}

  // ---- Order -----------------------------------------------------------------------

  /** Taking branches keeps the order of steering words: prefixes compare like the words,
      and words with equal prefixes compare like what is left of them. */
  lemma {:induction false} PrefixMono(k: nat, l: nat, d: nat)
    requires k <= l < WORD
    ensures Prefix(k, d) < Prefix(l, d) || (Prefix(k, d) == Prefix(l, d) && Steer(k, d) <= Steer(l, d))
  {
    if d != 0 { PrefixMono(k, l, d - 1); }
  }

  lemma {:induction false} PrefixOrder(k: nat, l: nat, d: nat)
    requires k < WORD && l < WORD
    requires Prefix(k, d) < Prefix(l, d)
    ensures k < l
  {
    if l <= k { PrefixMono(l, k, d); }
  }

  /** Two words that share a prefix share every shorter one. */
  lemma {:induction false} PrefixShared(k: nat, l: nat, d: nat, e: nat)
    requires k < WORD && l < WORD && d <= e
    requires Prefix(k, e) == Prefix(l, e)
    ensures Prefix(k, d) == Prefix(l, d)
    decreases e
  {
    if d < e { PrefixShared(k, l, d, e - 1); }
  }

  /** Words that part ways at depth `d` are ordered by the branch they take there, however
      far they go on. */
  lemma {:induction false} BranchOrder(k: nat, l: nat, d: nat)
    requires k < WORD && l < WORD
    requires Prefix(k, d) == Prefix(l, d)
    requires Branch(k, d) < Branch(l, d)
    ensures k < l
  {
    PrefixOrder(k, l, d + 1);
  }
}
