/** The search of `tmalloc_large` and `tmalloc_small` (`osrt/c/dlmalloc.c:4433-4519`) over
    every valid set of tree bins, and what it finds: the least size that fits.

    The walks are stated on trie positions; `LargeBins.TreeBins` proves that the pointer
    code follows them. */
module BestFit {
  import opened Sets
  import opened Words
  import opened BitMaps
  import opened BinIndex
  import opened TriePaths
  import opened TrieMemory

  // ---- Walks end -----------------------------------------------------------------------

  /** The ancestors of a position in use are in use, so no position is deeper than there are
      positions. */
  lemma {:induction false} Ancestors(g: Shape, p: Pos) returns (s: set<Pos>)
    requires Partition(g) && p in g.ring
    ensures s <= g.ring.Keys && |s| == p.depth + 1
    ensures forall q :: q in s ==> q.depth <= p.depth
    decreases p.depth
  {
    if p.depth == 0 {
      s := {p};
    } else {
      assert Up(p) in g.ring;
      s := Ancestors(g, Up(p));
      s := s + {p};
    }
  }

  /** How many levels there can still be below depth `d`. */
  ghost function LevelsBelow(g: Shape, d: nat): int {
    |g.ring| - d
  }

  lemma {:induction false} LevelsLeft(g: Shape, p: Pos)
    requires Partition(g) && p in g.ring
    ensures LevelsBelow(g, p.depth) > 0
  {
    var s := Ancestors(g, p);
    SubsetSize(s, g.ring.Keys);
  }

  // ---- The best chunk so far -------------------------------------------------------------

  /** Chunk fields and shape belong together. */
  ghost predicate Trie(c: Chunks, g: Shape) {
    c.Keys == g.spot.Keys && Partition(g) && WordSizes(c)
  }

  ghost predicate WordSizes(c: Chunks) {
    forall a {:trigger c[a].size} :: a in c ==> 0 <= c[a].size < WORD
  }

  /** The tree node at a position in use. */
  ghost function NodeAt(c: Chunks, g: Shape, p: Pos): (t: int)
    requires Trie(c, g) && p in g.ring
    ensures t in c && t != 0 && g.spot[t].pos == p && g.spot[t].rank == 0
  {
    g.ring[p][0]
  }

  /** `rsize`: the remainder of the best chunk so far, `-nb` when there is none. */
  function RSize(c: Chunks, nb: nat, v: int): nat
    requires 0 < nb < WORD && (v != 0 ==> v in c && 0 <= c[v].size < WORD)
  {
    if v == 0 then WORD - nb else Sub(c[v].size, nb)
  }

  /** The choice made at each node: `trem < rsize`. */
  function Better(c: Chunks, nb: nat, v: int, t: int): int
    requires 0 < nb < WORD && t in c && 0 <= c[t].size < WORD
    requires v != 0 ==> v in c && 0 <= c[v].size < WORD
  {
    if Sub(c[t].size, nb) < RSize(c, nb, v) then t else v
  }

  /** `trem < rsize` and then `(rsize = trem) == 0`. */
  predicate ExactFit(c: Chunks, nb: nat, v: int, t: int)
    requires 0 < nb < WORD && t in c && 0 <= c[t].size < WORD
    requires v != 0 ==> v in c && 0 <= c[v].size < WORD
  {
    Sub(c[t].size, nb) < RSize(c, nb, v) && Sub(c[t].size, nb) == 0
  }

  ghost predicate Fits(c: Chunks, nb: nat, v: int) {
    v != 0 ==> v in c && c[v].size >= nb
  }

  /** The size to beat. */
  ghost function Best(c: Chunks, v: int): int
    requires v != 0 ==> v in c
  {
    if v == 0 then WORD else c[v].size
  }

  /** The wrapped comparison `trem < rsize` picks `t` exactly when it fits and is smaller. */
  lemma {:induction false} BetterIsLess(c: Chunks, nb: nat, v: int, t: int)
    requires 0 < nb < WORD && WordSizes(c) && t in c && t != 0 && Fits(c, nb, v)
    ensures var v' := Better(c, nb, v, t);
            && Fits(c, nb, v')
            && Best(c, v') == (if nb <= c[t].size < Best(c, v) then c[t].size else Best(c, v))
            && (v' == t || v' == v)
  {}

  // ---- Subtrees and order ------------------------------------------------------------------

  ghost predicate HasWord(g: Shape, a: int) {
    a in g.spot && 0 <= g.spot[a].word < WORD
  }

  /** Chunk `a` hangs at position `p` or below it. */
  ghost predicate Under(g: Shape, a: int, p: Pos) {
    && HasWord(g, a) && g.spot[a].pos.bin == p.bin
    && p.depth <= g.spot[a].pos.depth && Prefix(g.spot[a].word, p.depth) == p.pre
  }

  /** Chunk `a` hangs below `p`, or in its bin to the right of everything below `p`. */
  ghost predicate AtOrBeyond(g: Shape, a: int, p: Pos) {
    Under(g, a, p) || (HasWord(g, a) && g.spot[a].pos.bin == p.bin && Prefix(g.spot[a].word, p.depth) > p.pre)
  }

  /** Every size is filed in the bin of its range. */
  ghost predicate Ordered(c: Chunks) {
    forall a {:trigger Proper(c[a].size)} :: a in c ==> 0 <= c[a].size && Proper(c[a].size)
  }

  /** Within a bin, steering words and sizes have the same order. */
  lemma {:induction false} WordOrder(c: Chunks, g: Shape, a: int, b: int)
    requires Keyed(c, g) && Ordered(c) && a in c && b in c
    requires g.spot[a].pos.bin == g.spot[b].pos.bin
    ensures HasWord(g, a) && HasWord(g, b)
    ensures g.spot[a].word < g.spot[b].word ==> c[a].size < c[b].size
  {
    var s, t := c[a].size, c[b].size;
    assert Proper(s) && Proper(t);
    assert TreeIndex(s) == TreeIndex(t);
    assert g.spot[a].word == StartBits(s) && g.spot[b].word == StartBits(t);
    if t < s { StartBitsMono(t, s); }
  }

  lemma {:induction false} WordOrderNb(c: Chunks, g: Shape, a: int, nb: nat)
    requires Keyed(c, g) && Ordered(c) && a in c
    requires MIN_LARGE_SIZE <= nb < WORD && Proper(nb) && g.spot[a].pos.bin == TreeIndex(nb)
    ensures HasWord(g, a)
    ensures c[a].size >= nb ==> g.spot[a].word >= StartBits(nb)
    ensures g.spot[a].word > StartBits(nb) ==> c[a].size > nb
  {
    var s := c[a].size;
    assert Proper(s) && TreeIndex(s) == TreeIndex(nb);
    assert g.spot[a].word == StartBits(s);
    if s < nb { StartBitsMono(s, nb); }
    if nb < s { StartBitsMono(nb, s); }
  }

  lemma {:induction false} NodeUnderItself(c: Chunks, g: Shape, p: Pos)
    requires Trie(c, g) && OnPath(g) && p in g.ring
    ensures Under(g, NodeAt(c, g, p), p)
  {
    var s := g.spot[NodeAt(c, g, p)];
    assert s.pos == Path(s.pos.bin, s.word, s.pos.depth);
  }

  /** What hangs below a position other than its own ring hangs below one of its children. */
  lemma {:induction false} UnderChild(g: Shape, p: Pos, a: int)
    requires Partition(g) && OnPath(g) && Under(g, a, p) && g.spot[a].pos != p
    ensures var b := Branch(g.spot[a].word, p.depth);
            Under(g, a, Down(p, b)) && Down(p, b) in g.ring
  {
    var q, w := g.spot[a].pos, g.spot[a].word;
    assert q == Path(q.bin, w, q.depth);
    assert p == Path(p.bin, w, p.depth);
    PathStep(p.bin, w, p.depth);
    PathPopulated(g, q.bin, w, p.depth + 1, q.depth);
  }

  /** A chunk to the right of a subtree is larger than the chunks in it. */
  lemma {:induction false} BeyondIsLarger(c: Chunks, g: Shape, p: Pos, u: int, a: int)
    requires Keyed(c, g) && Ordered(c) && u in c && a in c
    requires Under(g, u, p) && AtOrBeyond(g, a, p) && !Under(g, a, p)
    ensures c[u].size < c[a].size
  {
    PrefixOrder(g.spot[u].word, g.spot[a].word, p.depth);
    WordOrder(c, g, u, a);
  }

  // ---- The walk to the leftmost leaf ---------------------------------------------------------

  /** `leftmost_child` of the node at `p`; `p` itself stands for none. */
  ghost function LeftmostBelow(g: Shape, p: Pos): Pos {
    if Down(p, 0) in g.ring then Down(p, 0)
    else if Down(p, 1) in g.ring then Down(p, 1)
    else p
  }

  /** The second loop of `tmalloc_large` and the loop of `tmalloc_small`. */
  ghost function SecondPass(c: Chunks, g: Shape, p: Pos, nb: nat, v: int): (r: int)
    requires Trie(c, g) && p in g.ring && 0 < nb < WORD && (v != 0 ==> v in c)
    ensures r != 0 ==> r in c
    decreases LevelsBelow(g, p.depth)
  {
    var v' := Better(c, nb, v, NodeAt(c, g, p));
    var q := LeftmostBelow(g, p);
    if q == p then v'
    else LevelsLeft(g, q); SecondPass(c, g, q, nb, v')
  }

  ghost predicate AllFit(c: Chunks, g: Shape, p: Pos, nb: nat) {
    forall a {:trigger Under(g, a, p)} :: a in c && Under(g, a, p) ==> c[a].size >= nb
  }

  lemma {:induction false} UnderDown(g: Shape, a: int, p: Pos, b: nat)
    requires b <= 1 && Under(g, a, Down(p, b))
    ensures Under(g, a, p) && Branch(g.spot[a].word, p.depth) == b
  {}

  lemma {:induction false} AllFitBelow(c: Chunks, g: Shape, p: Pos, nb: nat, b: nat)
    requires b <= 1 && AllFit(c, g, p, nb)
    ensures AllFit(c, g, Down(p, b), nb)
  {
    forall a | a in c && Under(g, a, Down(p, b)) ensures c[a].size >= nb { UnderDown(g, a, p, b); }
  }

  lemma {:induction false} SecondPassFits(c: Chunks, g: Shape, p: Pos, nb: nat, v: int)
    requires Trie(c, g) && p in g.ring && 0 < nb < WORD && Fits(c, nb, v)
    ensures var r := SecondPass(c, g, p, nb, v); Fits(c, nb, r) && Best(c, r) <= Best(c, v)
    decreases LevelsBelow(g, p.depth)
  {
    BetterIsLess(c, nb, v, NodeAt(c, g, p));
    var q := LeftmostBelow(g, p);
    if q != p {
      LevelsLeft(g, q);
      SecondPassFits(c, g, q, nb, Better(c, nb, v, NodeAt(c, g, p)));
    }
  }

  /** Where the walk goes next, seen from a chunk `a` of the subtree: it stays above `a`, or
      `a` lies to the right of everything it meets from here on. */
  lemma {:induction false} LeftmostStep(g: Shape, p: Pos, a: int)
    requires Partition(g) && OnPath(g) && Under(g, a, p) && g.spot[a].pos != p
    ensures LeftmostBelow(g, p) != p && AtOrBeyond(g, a, LeftmostBelow(g, p))
  {
    UnderChild(g, p, a);
    PrefixStep(g.spot[a].word, p.depth);
  }

  /** No chunk of the subtree, and none to its right, is smaller than what the walk to the
      leftmost leaf finds: the least size lies on that path. */
  lemma {:induction false} SecondPassLeast(c: Chunks, g: Shape, p: Pos, nb: nat, v: int, a: int)
    requires Trie(c, g) && OnPath(g) && Keyed(c, g) && Ordered(c) && Sizes(c, g)
    requires p in g.ring && 0 < nb < WORD && Fits(c, nb, v)
    requires AllFit(c, g, p, nb) && a in c && AtOrBeyond(g, a, p)
    ensures Best(c, SecondPass(c, g, p, nb, v)) <= c[a].size
    decreases LevelsBelow(g, p.depth)
  {
    var t, q := NodeAt(c, g, p), LeftmostBelow(g, p);
    var v' := Better(c, nb, v, t);
    BetterIsLess(c, nb, v, t);
    NodeUnderItself(c, g, p);
    if q != p {
      LevelsLeft(g, q);
      SecondPassFits(c, g, q, nb, v');
    }
    if !Under(g, a, p) {
      BeyondIsLarger(c, g, p, t, a);
    } else if g.spot[a].pos == p {
      assert SameSize(c[a], c[t]);
    } else {
      LeftmostStep(g, p, a);
      AllFitBelow(c, g, p, nb, 0);
      AllFitBelow(c, g, p, nb, 1);
      SecondPassLeast(c, g, q, nb, v', a);
    }
  }

  // ---- The walk along the path of the request --------------------------------------------------

  /** How the first loop of `tmalloc_large` ends: at an exact fit, or at the end of the path with
      the best chunk `v` on it and `rst`, the depth of the deepest path node that has a right
      subtree the path did not take (-1 if none). */
  datatype Walk = Exact(v: int) | PathEnd(v: int, rst: int)

  /** The right subtree next to the path of word `w` at depth `e`. */
  function RightOf(bin: int, w: nat, e: nat): Pos
    requires w < WORD
  {
    Down(Path(bin, w, e), 1)
  }

  ghost function NextRst(g: Shape, bin: int, w: nat, d: nat, rst: int): int
    requires w < WORD
  {
    if Branch(w, d) == 0 && RightOf(bin, w, d) in g.ring then d else rst
  }

  ghost function FirstPass(c: Chunks, g: Shape, nb: nat, bin: int, w: nat, d: nat, v: int, rst: int): (r: Walk)
    requires Trie(c, g) && 0 < nb < WORD && w < WORD && (v != 0 ==> v in c)
    requires Path(bin, w, d) in g.ring
    ensures r.v != 0 ==> r.v in c
    ensures r.Exact? ==> r.v != 0 && g.spot[r.v].rank == 0
    decreases LevelsBelow(g, d)
  {
    var t := NodeAt(c, g, Path(bin, w, d));
    var v' := Better(c, nb, v, t);
    if ExactFit(c, nb, v, t) then Exact(t)
    else
      var rst' := NextRst(g, bin, w, d, rst);
      if Path(bin, w, d + 1) in g.ring then
        LevelsLeft(g, Path(bin, w, d + 1));
        FirstPass(c, g, nb, bin, w, d + 1, v', rst')
      else PathEnd(v', rst')
  }

  /** `rst` names a populated right subtree above depth `d` where the path went left. */
  ghost predicate RstOk(g: Shape, bin: int, w: nat, d: nat, rst: int)
    requires w < WORD
  {
    rst == -1 || (0 <= rst < d && Branch(w, rst) == 0 && RightOf(bin, w, rst) in g.ring)
  }

  /** A candidate not yet beaten is still ahead: below the path position at `d`, or at the
      right subtree remembered in `rst` or beyond it. */
  ghost predicate Ahead(c: Chunks, g: Shape, bin: int, w: nat, d: nat, v: int, rst: int, a: int)
    requires (v != 0 ==> v in c) && w < WORD && a in c
  {
    || Best(c, v) <= c[a].size
    || Under(g, a, Path(bin, w, d))
    || (rst >= 0 && AtOrBeyond(g, a, RightOf(bin, w, rst)))
  }

  /** Once a word runs ahead of `w`, it stays ahead. */
  lemma {:induction false} PrefixGap(k: nat, w: nat, d: nat, e: nat)
    requires k < WORD && w < WORD && d <= e
    requires Prefix(k, d) > Prefix(w, d)
    ensures Prefix(k, e) > Prefix(w, e)
    decreases e
  {
    if d < e { PrefixGap(k, w, d, e - 1); }
  }

  /** A candidate below the path position is below the next one, or at the right subtree left
      behind. */
  lemma {:induction false} UnderStaysAhead(g: Shape, bin: int, w: nat, d: nat, rst: int, a: int)
    requires Partition(g) && OnPath(g) && w < WORD
    requires Under(g, a, Path(bin, w, d)) && g.spot[a].word >= w && g.spot[a].pos != Path(bin, w, d)
    ensures var rst' := NextRst(g, bin, w, d, rst);
            || (Under(g, a, Path(bin, w, d + 1)) && Path(bin, w, d + 1) in g.ring)
            || (rst' >= 0 && AtOrBeyond(g, a, RightOf(bin, w, rst')))
  {
    var x := g.spot[a].word;
    UnderChild(g, Path(bin, w, d), a);
    PathStep(bin, w, d);
    if Branch(x, d) < Branch(w, d) { BranchOrder(x, w, d); }
  }

  /** A candidate at `rst` or beyond is at the next `rst` or beyond. */
  lemma {:induction false} BeyondStaysAhead(g: Shape, bin: int, w: nat, d: nat, rst: int, a: int)
    requires w < WORD && rst >= 0 && RstOk(g, bin, w, d, rst) && AtOrBeyond(g, a, RightOf(bin, w, rst))
    ensures var rst' := NextRst(g, bin, w, d, rst);
            rst' >= 0 && AtOrBeyond(g, a, RightOf(bin, w, rst'))
  {
    var x := g.spot[a].word;
    PrefixStep(w, rst);
    PrefixGap(x, w, rst + 1, d);
    PrefixStep(x, d);
  }

  /** One step of the walk leaves every candidate beaten or ahead. */
  lemma {:induction false} StepAhead(c: Chunks, g: Shape, nb: nat, bin: int, w: nat, d: nat, v: int, rst: int, a: int)
    requires Trie(c, g) && OnPath(g) && Sizes(c, g) && 0 < nb < WORD && w < WORD && Fits(c, nb, v)
    requires Path(bin, w, d) in g.ring && RstOk(g, bin, w, d, rst)
    requires a in c && c[a].size >= nb && HasWord(g, a) && g.spot[a].word >= w
    requires Ahead(c, g, bin, w, d, v, rst, a)
    ensures var v', rst' := Better(c, nb, v, NodeAt(c, g, Path(bin, w, d))), NextRst(g, bin, w, d, rst);
            || Best(c, v') <= c[a].size
            || (Under(g, a, Path(bin, w, d + 1)) && Path(bin, w, d + 1) in g.ring)
            || (rst' >= 0 && AtOrBeyond(g, a, RightOf(bin, w, rst')))
  {
    var p := Path(bin, w, d);
    BetterIsLess(c, nb, v, NodeAt(c, g, p));
    if Best(c, v) <= c[a].size {
    } else if !Under(g, a, p) {
      BeyondStaysAhead(g, bin, w, d, rst, a);
    } else if g.spot[a].pos == p {
      assert SameSize(c[a], c[NodeAt(c, g, p)]);
    } else {
      UnderStaysAhead(g, bin, w, d, rst, a);
    }
  }

  lemma {:induction false} FirstPassCovers(c: Chunks, g: Shape, nb: nat, bin: int, w: nat, d: nat, v: int, rst: int,
                                           a: int)
    requires Trie(c, g) && OnPath(g) && Sizes(c, g) && 0 < nb < WORD && w < WORD && Fits(c, nb, v)
    requires Path(bin, w, d) in g.ring && RstOk(g, bin, w, d, rst)
    requires a in c && c[a].size >= nb && HasWord(g, a) && g.spot[a].word >= w
    requires Ahead(c, g, bin, w, d, v, rst, a)
    ensures match FirstPass(c, g, nb, bin, w, d, v, rst)
            case Exact(u) => u in c && c[u].size <= c[a].size
            case PathEnd(u, e) => Best(c, u) <= c[a].size || (e >= 0 && AtOrBeyond(g, a, RightOf(bin, w, e)))
    decreases LevelsBelow(g, d)
  {
    var t := NodeAt(c, g, Path(bin, w, d));
    var v', rst' := Better(c, nb, v, t), NextRst(g, bin, w, d, rst);
    BetterIsLess(c, nb, v, t);
    StepAhead(c, g, nb, bin, w, d, v, rst, a);
    if Path(bin, w, d + 1) in g.ring && !ExactFit(c, nb, v, t) {
      LevelsLeft(g, Path(bin, w, d + 1));
      FirstPassCovers(c, g, nb, bin, w, d + 1, v', rst', a);
    }
  }

  /** What the walk ends with: a chunk of the bin that fits, and a populated right subtree. */
  lemma {:induction false} FirstPassEnds(c: Chunks, g: Shape, nb: nat, bin: int, w: nat, d: nat, v: int, rst: int)
    requires Trie(c, g) && 0 < nb < WORD && w < WORD && Fits(c, nb, v)
    requires Path(bin, w, d) in g.ring && RstOk(g, bin, w, d, rst)
    requires v != 0 ==> g.spot[v].pos.bin == bin
    ensures var r := FirstPass(c, g, nb, bin, w, d, v, rst);
            && Fits(c, nb, r.v) && (r.v != 0 ==> g.spot[r.v].pos.bin == bin)
            && match r
               case Exact(u) => u != 0 && u in c && c[u].size == nb
               case PathEnd(u, e) => e == -1 || (e >= 0 && Branch(w, e) == 0 && RightOf(bin, w, e) in g.ring)
    decreases LevelsBelow(g, d)
  {
    var t := NodeAt(c, g, Path(bin, w, d));
    var v', rst' := Better(c, nb, v, t), NextRst(g, bin, w, d, rst);
    BetterIsLess(c, nb, v, t);
    if Path(bin, w, d + 1) in g.ring && !ExactFit(c, nb, v, t) {
      LevelsLeft(g, Path(bin, w, d + 1));
      FirstPassEnds(c, g, nb, bin, w, d + 1, v', rst');
    }
  }

  // ---- The whole search --------------------------------------------------------------------------

  /** The chunk `v` that `tmalloc_large` ends up with, 0 if none. */
  ghost function Chosen(c: Chunks, bins: seq<int>, treemap: nat, g: Shape, nb: nat): (v: int)
    requires Trie(c, g) && Roots(bins, treemap, g) && MIN_LARGE_SIZE <= nb < WORD
    ensures v != 0 ==> v in c
  {
    var bin, w := TreeIndex(nb), StartBits(nb);
    if Root(bin) in g.ring then
      match FirstPass(c, g, nb, bin, w, 0, 0, -1)
      case Exact(v) => SecondPass(c, g, g.spot[v].pos, nb, v)
      case PathEnd(v, rst) =>
        if rst >= 0 && RightOf(bin, w, rst) in g.ring then SecondPass(c, g, RightOf(bin, w, rst), nb, v)
        else if v == 0 then FromNextBin(c, g, treemap, bin, nb)
        else v
    else FromNextBin(c, g, treemap, bin, nb)
  }

  ghost function FromNextBin(c: Chunks, g: Shape, treemap: nat, bin: nat, nb: nat): (v: int)
    requires Trie(c, g) && treemap < MAP && bin < NTREEBINS && 0 < nb < WORD
    ensures v != 0 ==> v in c
  {
    NextBin(treemap, bin);
    if BinsAbove(treemap, bin) == 0 then 0
    else
      var p := Root(Bit2Idx(LeastBit(BinsAbove(treemap, bin), MAP_BITS)));
      if p in g.ring then SecondPass(c, g, p, nb, 0) else 0
  }

  /** Everything that the search relies on. */
  ghost predicate Searchable(c: Chunks, bins: seq<int>, treemap: nat, g: Shape) {
    && Trie(c, g) && OnPath(g) && Sizes(c, g) && Keyed(c, g)
    && Roots(bins, treemap, g)
  }

  lemma {:induction false} ValidIsSearchable(c: Chunks, bins: seq<int>, treemap: nat, g: Shape)
    requires Inv(c, bins, treemap, g) && Keyed(c, g)
    ensures Searchable(c, bins, treemap, g)
  {}

  lemma {:induction false} FromNextBinFits(c: Chunks, g: Shape, treemap: nat, bin: nat, nb: nat)
    requires Trie(c, g) && treemap < MAP && bin < NTREEBINS && 0 < nb < WORD
    ensures Fits(c, nb, FromNextBin(c, g, treemap, bin, nb))
  {
    NextBin(treemap, bin);
    if BinsAbove(treemap, bin) != 0 {
      var p := Root(Bit2Idx(LeastBit(BinsAbove(treemap, bin), MAP_BITS)));
      if p in g.ring { SecondPassFits(c, g, p, nb, 0); }
    }
  }

  /** Whatever the bins hold, a chunk that the search returns is large enough. */
  lemma {:induction false} ChosenFits(c: Chunks, bins: seq<int>, treemap: nat, g: Shape, nb: nat)
    requires Trie(c, g) && Roots(bins, treemap, g) && MIN_LARGE_SIZE <= nb < WORD
    ensures Fits(c, nb, Chosen(c, bins, treemap, g, nb))
  {
    var bin, w := TreeIndex(nb), StartBits(nb);
    FromNextBinFits(c, g, treemap, bin, nb);
    if Root(bin) in g.ring {
      FirstPassEnds(c, g, nb, bin, w, 0, 0, -1);
      match FirstPass(c, g, nb, bin, w, 0, 0, -1)
      case Exact(v) => SecondPassFits(c, g, g.spot[v].pos, nb, v);
      case PathEnd(v, rst) =>
        if rst >= 0 { SecondPassFits(c, g, RightOf(bin, w, rst), nb, v); }
    }
  }

  /** A bin that holds a chunk has a root. */
  lemma {:induction false} BinHasRoot(c: Chunks, g: Shape, a: int)
    requires Trie(c, g) && OnPath(g) && a in c
    ensures Root(g.spot[a].pos.bin) in g.ring
    ensures Under(g, a, Root(g.spot[a].pos.bin))
  {
    var s := g.spot[a];
    assert s.pos == Path(s.pos.bin, s.word, s.pos.depth);
    PathPopulated(g, s.pos.bin, s.word, 0, s.pos.depth);
  }

  /** Chunks of higher bins are larger. */
  lemma {:induction false} HigherBinLarger(c: Chunks, g: Shape, a: int, b: int)
    requires Keyed(c, g) && Ordered(c) && a in c && b in c
    requires g.spot[a].pos.bin < g.spot[b].pos.bin
    ensures c[a].size < c[b].size
  {
    assert Proper(c[a].size) && Proper(c[b].size);
    assert g.spot[a].pos.bin == TreeIndex(c[a].size) && g.spot[b].pos.bin == TreeIndex(c[b].size);
    BinsOrdered(c[a].size, c[b].size);
  }

  lemma {:induction false} BinAgainstRequest(c: Chunks, g: Shape, a: int, nb: nat)
    requires Keyed(c, g) && Ordered(c) && a in c && MIN_LARGE_SIZE <= nb < WORD && Proper(nb)
    ensures g.spot[a].pos.bin < TreeIndex(nb) ==> c[a].size < nb
    ensures g.spot[a].pos.bin > TreeIndex(nb) ==> c[a].size > nb
  {
    assert Proper(c[a].size);
    assert g.spot[a].pos.bin == TreeIndex(c[a].size);
    if TreeIndex(c[a].size) < TreeIndex(nb) { BinsOrdered(c[a].size, nb); }
    if TreeIndex(c[a].size) > TreeIndex(nb) { BinsOrdered(nb, c[a].size); }
  }

  /** From the next non-empty bin, the search finds the least chunk of all higher bins. */
  lemma {:induction false} NextBinLeast(c: Chunks, bins: seq<int>, treemap: nat, g: Shape, nb: nat, a: int)
    requires Searchable(c, bins, treemap, g) && Ordered(c)
    requires MIN_LARGE_SIZE <= nb < WORD && Proper(nb)
    requires a in c && g.spot[a].pos.bin > TreeIndex(nb)
    ensures var v := FromNextBin(c, g, treemap, TreeIndex(nb), nb); v != 0 && c[v].size <= c[a].size
  {
    var bin := TreeIndex(nb);
    BinHasRoot(c, g, a);
    assert BitAt(treemap, g.spot[a].pos.bin);
    NextBin(treemap, bin);
    var k := Bit2Idx(LeastBit(BinsAbove(treemap, bin), MAP_BITS));
    var p := Root(k);
    assert p in g.ring;
    var u := NodeAt(c, g, p);
    NodeUnderItself(c, g, p);
    forall b | b in c && Under(g, b, p) ensures c[b].size >= nb { BinAgainstRequest(c, g, b, nb); }
    SecondPassLeast(c, g, p, nb, 0, u);
    if g.spot[a].pos.bin == k {
      SecondPassLeast(c, g, p, nb, 0, a);
    } else {
      HigherBinLarger(c, g, u, a);
    }
  }

  /** Everything in a right subtree that the path of the request passed by is large enough. */
  lemma {:induction false} RightOfFits(c: Chunks, g: Shape, nb: nat, e: nat)
    requires Keyed(c, g) && Ordered(c) && MIN_LARGE_SIZE <= nb < WORD && Proper(nb)
    requires Branch(StartBits(nb), e) == 0
    ensures AllFit(c, g, RightOf(TreeIndex(nb), StartBits(nb), e), nb)
  {
    var w := StartBits(nb);
    var p := RightOf(TreeIndex(nb), w, e);
    PrefixStep(w, e);
    forall a | a in c && Under(g, a, p) ensures c[a].size >= nb {
      PrefixOrder(w, g.spot[a].word, e + 1);
      WordOrderNb(c, g, a, nb);
    }
  }

  lemma {:induction false} ChosenLeastInBin(c: Chunks, bins: seq<int>, treemap: nat, g: Shape, nb: nat, a: int)
    requires Searchable(c, bins, treemap, g) && Ordered(c)
    requires MIN_LARGE_SIZE <= nb < WORD && Proper(nb)
    requires a in c && c[a].size >= nb && g.spot[a].pos.bin == TreeIndex(nb)
    ensures var v := Chosen(c, bins, treemap, g, nb); v != 0 && c[v].size <= c[a].size
  {
    var bin, w := TreeIndex(nb), StartBits(nb);
    BinHasRoot(c, g, a);
    WordOrderNb(c, g, a, nb);
    FirstPassEnds(c, g, nb, bin, w, 0, 0, -1);
    FirstPassCovers(c, g, nb, bin, w, 0, 0, -1, a);
    match FirstPass(c, g, nb, bin, w, 0, 0, -1)
    case Exact(v) => SecondPassFits(c, g, g.spot[v].pos, nb, v);
    case PathEnd(v, rst) =>
      if rst >= 0 {
        RightOfFits(c, g, nb, rst);
        SecondPassFits(c, g, RightOf(bin, w, rst), nb, v);
        if Best(c, v) > c[a].size { SecondPassLeast(c, g, RightOf(bin, w, rst), nb, v, a); }
      }
  }

  lemma {:induction false} ChosenLeastAbove(c: Chunks, bins: seq<int>, treemap: nat, g: Shape, nb: nat, a: int)
    requires Searchable(c, bins, treemap, g) && Ordered(c)
    requires MIN_LARGE_SIZE <= nb < WORD && Proper(nb)
    requires a in c && g.spot[a].pos.bin > TreeIndex(nb)
    ensures var v := Chosen(c, bins, treemap, g, nb); v != 0 && c[v].size <= c[a].size
  {
    var bin, w := TreeIndex(nb), StartBits(nb);
    NextBinLeast(c, bins, treemap, g, nb, a);
    if Root(bin) in g.ring {
      FirstPassEnds(c, g, nb, bin, w, 0, 0, -1);
      match FirstPass(c, g, nb, bin, w, 0, 0, -1)
      case Exact(v) =>
        SecondPassFits(c, g, g.spot[v].pos, nb, v);
        BinAgainstRequest(c, g, a, nb);
      case PathEnd(v, rst) =>
        if rst >= 0 {
          var p := RightOf(bin, w, rst);
          var u := NodeAt(c, g, p);
          RightOfFits(c, g, nb, rst);
          NodeUnderItself(c, g, p);
          SecondPassLeast(c, g, p, nb, v, u);
          HigherBinLarger(c, g, u, a);
        } else if v != 0 {
          HigherBinLarger(c, g, v, a);
        }
    }
  }

  /** Best fit: if any tree-binned chunk is large enough, the search returns one of the least
      size that is. */
  lemma {:induction false} ChosenLeast(c: Chunks, bins: seq<int>, treemap: nat, g: Shape, nb: nat, a: int)
    requires Searchable(c, bins, treemap, g) && Ordered(c)
    requires MIN_LARGE_SIZE <= nb < WORD && Proper(nb)
    requires a in c && c[a].size >= nb
    ensures var v := Chosen(c, bins, treemap, g, nb); v != 0 && nb <= c[v].size <= c[a].size
  {
    ChosenFits(c, bins, treemap, g, nb);
    BinAgainstRequest(c, g, a, nb);
    if g.spot[a].pos.bin == TreeIndex(nb) {
      ChosenLeastInBin(c, bins, treemap, g, nb, a);
    } else {
      ChosenLeastAbove(c, bins, treemap, g, nb, a);
    }
  }

  /** `tmalloc_small`: from the root of the first non-empty bin to its leftmost leaf. */
  ghost function Smallest(c: Chunks, bins: seq<int>, treemap: nat, g: Shape, nb: nat): (v: int)
    requires Trie(c, g) && Roots(bins, treemap, g) && treemap != 0 && 0 < nb < WORD
    ensures v != 0 ==> v in c
  {
    FirstSetBit(treemap);
    SecondPass(c, g, Root(Bit2Idx(LeastBit(treemap, MAP_BITS))), nb, 0)
  }

  /** The chunk taken for a small request is the smallest of all tree-binned chunks. */
  lemma {:induction false} SmallestIsLeast(c: Chunks, bins: seq<int>, treemap: nat, g: Shape, nb: nat, a: int)
    requires Searchable(c, bins, treemap, g) && Ordered(c) && treemap != 0
    requires 0 < nb <= MIN_LARGE_SIZE && a in c
    ensures var v := Smallest(c, bins, treemap, g, nb); v != 0 && c[v].size <= c[a].size
  {
    FirstSetBit(treemap);
    var k := Bit2Idx(LeastBit(treemap, MAP_BITS));
    var p := Root(k);
    assert p in g.ring;
    var u := NodeAt(c, g, p);
    BinHasRoot(c, g, a);
    assert BitAt(treemap, g.spot[a].pos.bin);
    NodeUnderItself(c, g, p);
    SecondPassLeast(c, g, p, nb, 0, u);
    if g.spot[a].pos.bin == k {
      SecondPassLeast(c, g, p, nb, 0, a);
    } else {
      HigherBinLarger(c, g, u, a);
    }
  }

  // ---- Requests the search cannot serve -----------------------------------------------------------

  lemma {:induction false} MinSizeRange(i: nat)
    requires i < NTREEBINS
    ensures MIN_LARGE_SIZE <= MinSize(i) <= LAST_BIN_MIN
  {
    MinSizeMono(i, LAST_BIN);
    LastBinMin();
    MinSizeMono(0, i);
    Pow2Values();
    assert MinSize(0) == 256;
  }

  lemma {:induction false} BinOfMinSize(i: nat, j: nat)
    requires i < NTREEBINS && j < NTREEBINS
    requires MinSize(j) <= MinSize(i) && (j == LAST_BIN || MinSize(i) < MinSize(j + 1))
    ensures i == j
  {
    if j < i { MinSizeMono(j + 1, i); }
    if i < j { MinSizeStep(i); MinSizeMono(i + 1, j); }
  }

  /** The least size of a bin is filed in that bin. */
  lemma {:induction false} MinSizeIndex(i: nat)
    requires i < NTREEBINS
    ensures MIN_LARGE_SIZE <= MinSize(i) <= LAST_BIN_MIN && TreeIndex(MinSize(i)) == i
  {
    MinSizeRange(i);
    BinRange(MinSize(i));
    BinOfMinSize(i, TreeIndex(MinSize(i)));
  }

  const LARGEST: nat := WORD - 16

  lemma {:induction false} LargestIndex()
    ensures TreeIndex(LARGEST) == LAST_BIN && Proper(LARGEST)
  {
    assert LARGEST % INDEX_LIMIT == INDEX_LIMIT - 16;
    IndexOfLowBits(LARGEST);
    InRangeBelowLimit(INDEX_LIMIT - 16);
  }

  lemma {:induction false} NextMarked(treemap: nat, i: nat)
    requires treemap < MAP && i + 1 < MAP_BITS && BitAt(treemap, i + 1)
    ensures BinsAbove(treemap, i) != 0 && BinsAbove(treemap, i) < Pow2(MAP_BITS)
    ensures LeastBit(BinsAbove(treemap, i), MAP_BITS) != 0
    ensures Bit2Idx(LeastBit(BinsAbove(treemap, i), MAP_BITS)) == i + 1
  {
    NextBin(treemap, i);
  }

  lemma {:induction false} FromNextMarked(c: Chunks, g: Shape, treemap: nat, i: nat, nb: nat)
    requires Trie(c, g) && treemap < MAP && i + 1 < NTREEBINS && 0 < nb < WORD
    requires BitAt(treemap, i + 1) && Root(i + 1) in g.ring
    ensures FromNextBin(c, g, treemap, i, nb) == SecondPass(c, g, Root(i + 1), nb, 0)
  {
    NextMarked(treemap, i);
  }

  lemma {:induction false} EmptyBinSkipped(c: Chunks, bins: seq<int>, treemap: nat, g: Shape, nb: nat)
    requires Trie(c, g) && Roots(bins, treemap, g) && MIN_LARGE_SIZE <= nb < WORD
    requires Root(TreeIndex(nb)) !in g.ring
    ensures Chosen(c, bins, treemap, g, nb) == FromNextBin(c, g, treemap, TreeIndex(nb), nb)
  {}

  /** A request in an empty bin whose next bin holds a single chunk that is too small finds nothing. */
  lemma {:induction false} MissedInNextBin(c: Chunks, bins: seq<int>, treemap: nat, g: Shape, nb: nat, i: nat)
    requires Trie(c, g) && Roots(bins, treemap, g) && MIN_LARGE_SIZE <= nb < WORD && i == TreeIndex(nb) < 30
    requires Root(i) !in g.ring && Root(i + 1) in g.ring
    requires Down(Root(i + 1), 0) !in g.ring && Down(Root(i + 1), 1) !in g.ring
    requires c[NodeAt(c, g, Root(i + 1))].size < nb
    ensures Chosen(c, bins, treemap, g, nb) == 0
  {
    assert BitAt(treemap, i + 1);
    EmptyBinSkipped(c, bins, treemap, g, nb);
    FromNextMarked(c, g, treemap, i, nb);
    MissedWalk(c, g, nb, i + 1);
  }

  lemma {:induction false} MissedWalk(c: Chunks, g: Shape, nb: nat, j: nat)
    requires Trie(c, g) && 0 < nb < WORD && Root(j) in g.ring
    requires Down(Root(j), 0) !in g.ring && Down(Root(j), 1) !in g.ring
    requires c[NodeAt(c, g, Root(j))].size < nb
    ensures SecondPass(c, g, Root(j), nb, 0) == 0
  {}
}
