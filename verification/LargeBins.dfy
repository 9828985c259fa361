/** The tree bins as `osrt/c/dlmalloc.c` operates them: `insert_large_chunk`,
    `unlink_large_chunk` and the searches of `tmalloc_large` and `tmalloc_small`. */
module LargeBins {
  import opened Words
  import opened BitMaps
  import opened BinIndex
  import opened TriePaths
  import opened TrieMemory
  import opened TrieUnlink
  import opened TrieRelink
  import opened BestFit

  // ---- The walk of an insertion --------------------------------------------------------

  /** The walk for size `s` stands at tree node `t`, at depth `d` of the path of `w`; a chunk
      of that size, if there is one, is not above it. */
  ghost predicate InsertPoint(c: Chunks, g: Shape, t: int, i: int, w: nat, d: nat, s: int) {
    && c.Keys == g.spot.Keys && t in c && w < WORD
    && g.spot[t].rank == 0 && g.spot[t].pos == Path(i, w, d)
    && (forall a {:trigger c[a].size} :: a in c && c[a].size == s ==> g.spot[a].pos.depth >= d)
  }

  /** A chunk lies on the path of its size. */
  lemma {:induction false} OnPathOfSize(c: Chunks, g: Shape, a: int, s: nat)
    requires Keyed(c, g) && OnPath(g) && a in c && c[a].size == s && s < WORD
    ensures g.spot[a].pos == Path(TreeIndex(s), StartBits(s), g.spot[a].pos.depth)
  {
    assert TreeIndex(c[a].size) == TreeIndex(s);
    assert StartBits(c[a].size) == StartBits(s);
  }

  lemma {:induction false} NoSizeInEmptyBin(c: Chunks, bins: seq<int>, treemap: nat, g: Shape, s: nat)
    requires Inv(c, bins, treemap, g) && Keyed(c, g) && s < WORD
    requires !BitAt(treemap, TreeIndex(s))
    ensures Root(TreeIndex(s)) !in g.ring
    ensures forall a {:trigger c[a].size} :: a in c ==> c[a].size != s
  {
    forall a | a in c ensures c[a].size != s {
      if c[a].size == s {
        OnPathOfSize(c, g, a, s);
        PathPopulated(g, TreeIndex(s), StartBits(s), 0, g.spot[a].pos.depth);
      }
    }
  }

  lemma {:induction false} StartsAtRoot(c: Chunks, bins: seq<int>, treemap: nat, g: Shape, s: nat)
    requires Inv(c, bins, treemap, g) && Keyed(c, g) && s < WORD
    requires BitAt(treemap, TreeIndex(s))
    ensures InsertPoint(c, g, bins[TreeIndex(s)], TreeIndex(s), StartBits(s), 0, s)
  {
    var p := Root(TreeIndex(s));
    assert p in g.ring && bins[TreeIndex(s)] == g.ring[p][0];
  }

  lemma {:induction false} InsertStep(c: Chunks, bins: seq<int>, treemap: nat, g: Shape, t: int, d: nat, s: nat)
    requires Inv(c, bins, treemap, g) && Keyed(c, g) && s < WORD
    requires InsertPoint(c, g, t, TreeIndex(s), StartBits(s), d, s) && c[t].size != s
    ensures var b := Branch(StartBits(s), d);
            var child := if b == 0 then c[t].child0 else c[t].child1;
            && (child != 0 ==> InsertPoint(c, g, child, TreeIndex(s), StartBits(s), d + 1, s)
                               && LevelsBelow(g, d + 1) > 0)
            && (child == 0 ==> Down(g.spot[t].pos, b) !in g.ring
                               && forall a {:trigger c[a].size} :: a in c ==> c[a].size != s)
  {
    var i, w := TreeIndex(s), StartBits(s);
    var b := Branch(w, d);
    var child := if b == 0 then c[t].child0 else c[t].child1;
    var q := Path(i, w, d + 1);
    PathStep(i, w, d);
    assert LinkAt(c[t], g, g.spot[t]);
    assert child == Look(g.ring, q);
    forall a | a in c && c[a].size == s
      ensures g.spot[a].pos.depth >= d + 1 && q in g.ring
    {
      OnPathOfSize(c, g, a, s);
      assert !SameSize(c[a], c[t]);
      PathPopulated(g, i, w, d + 1, g.spot[a].pos.depth);
    }
    if q in g.ring {
      LevelsLeft(g, q);
      assert g.ring[q][0] in g.spot;
    }
  }

  lemma {:induction false} AttachKeyed(c: Chunks, g: Shape, c': Chunks, x: int, s: nat, p: Pos)
    requires Keyed(c, g) && MIN_LARGE_SIZE <= s < WORD && x !in c
    requires Grown(c, c', x) && c'[x].size == s && p.bin == TreeIndex(s)
    ensures Keyed(c', Attached(g, x, StartBits(s), p))
  {}

  lemma {:induction false} JoinKeyed(c: Chunks, g: Shape, c': Chunks, x: int, s: nat, p: Pos)
    requires Keyed(c, g) && MIN_LARGE_SIZE <= s < WORD && x !in c && p in g.ring && |g.ring[p]| > 0
    requires c'.Keys == c.Keys + {x} && c'[x].size == s && p.bin == TreeIndex(s)
    requires forall a {:trigger c'[a]} :: a in c ==> c'[a].size == c[a].size
    ensures Keyed(c', Joined(g, x, StartBits(s), p))
  {
    var g' := Joined(g, x, StartBits(s), p);
    forall a | a in c
      ensures g'.spot[a].pos == g.spot[a].pos && g'.spot[a].word == g.spot[a].word
    {}
  }

  /** The sizes that a chunk map records. */
  ghost function SizesOf(c: Chunks): map<int, int> {
    map a | a in c :: c[a].size
  }

  // ---- The three stores of an insertion, as values -------------------------------------------

  function RootMem(c: Chunks, x: int, s: int, i: int): Chunks {
    c[x := TreeChunk(s, x, x, 0, 0, Header(i), i)]
  }

  function LeafMem(c: Chunks, x: int, s: int, i: int, t: int, b: nat): Chunks
    requires t in c
  {
    var c1 := c[x := TreeChunk(s, x, x, 0, 0, Node(t), i)];
    c1[t := if b == 0 then c1[t].(child0 := x) else c1[t].(child1 := x)]
  }

  function RingMem(c: Chunks, x: int, s: int, i: int, t: int): Chunks
    requires t in c && c[t].fd in c
  {
    var f := c[t].fd;
    var c1 := c[x := TreeChunk(s, f, t, 0, 0, NoParent, i)];
    var c2 := c1[t := c1[t].(fd := x)];
    c2[f := c2[f].(bk := x)]
  }

  lemma {:induction false} RootMemIs(c: Chunks, x: int, s: int, i: int)
    requires x !in c
    ensures var c' := RootMem(c, x, s, i);
            Grown(c, c', x) && c'[x].size == s && SizesOf(c') == SizesOf(c)[x := s]
  {}

  lemma {:induction false} LeafMemIs(c: Chunks, x: int, s: int, i: int, t: int, b: nat)
    requires t in c && x !in c && b <= 1
    ensures var c' := LeafMem(c, x, s, i, t, b);
            && Grown(c, c', x) && LeafStored(c, c', x, t, b)
            && c'[x] == TreeChunk(s, x, x, 0, 0, Node(t), i)
            && SizesOf(c') == SizesOf(c)[x := s]
  {}

  lemma {:induction false} RingMemIs(c: Chunks, x: int, s: int, i: int, t: int)
    requires t in c && c[t].fd in c && x !in c && c[t].size == s && c[t].index == i
    ensures var c' := RingMem(c, x, s, i, t);
            RingStored(c, c', x, t) && SizesOf(c') == SizesOf(c)[x := s]
  {}

  lemma {:induction false} RootInserted(c: Chunks, bins: seq<int>, treemap: nat, g: Shape, x: int, s: nat)
    requires Inv(c, bins, treemap, g) && Keyed(c, g)
    requires x != 0 && x !in c && MIN_LARGE_SIZE <= s < WORD && !BitAt(treemap, TreeIndex(s))
    ensures var i := TreeIndex(s);
            var c' := RootMem(c, x, s, i);
            var g' := Attached(g, x, StartBits(s), Root(i));
            && Inv(c', bins[i := x], Or(treemap, Idx2Bit(i)), g') && Keyed(c', g')
            && SizesOf(c') == SizesOf(c)[x := s]
  {
    NoSizeInEmptyBin(c, bins, treemap, g, s);
    AttachRootKeeps(c, bins, treemap, g, x, s, StartBits(s), TreeIndex(s));
    RootMemIs(c, x, s, TreeIndex(s));
    AttachKeyed(c, g, RootMem(c, x, s, TreeIndex(s)), x, s, Root(TreeIndex(s)));
  }

  lemma {:induction false} LeafInserted(c: Chunks, bins: seq<int>, treemap: nat, g: Shape, x: int, s: nat, t: int,
                                        d: nat)
    requires Inv(c, bins, treemap, g) && Keyed(c, g)
    requires x != 0 && x !in c && MIN_LARGE_SIZE <= s < WORD
    requires InsertPoint(c, g, t, TreeIndex(s), StartBits(s), d, s)
    requires Down(g.spot[t].pos, Branch(StartBits(s), d)) !in g.ring
    requires forall a {:trigger c[a].size} :: a in c ==> c[a].size != s
    ensures var b := Branch(StartBits(s), d);
            var c' := LeafMem(c, x, s, TreeIndex(s), t, b);
            var g' := Attached(g, x, StartBits(s), Down(g.spot[t].pos, b));
            && Inv(c', bins, treemap, g') && Keyed(c', g')
            && SizesOf(c') == SizesOf(c)[x := s]
  {
    var b := Branch(StartBits(s), d);
    var c' := LeafMem(c, x, s, TreeIndex(s), t, b);
    LeafMemIs(c, x, s, TreeIndex(s), t, b);
    AttachLeafKeeps(c, bins, treemap, g, c', x, StartBits(s), t, b);
    AttachKeyed(c, g, c', x, s, Down(g.spot[t].pos, b));
  }

  lemma {:induction false} RingInserted(c: Chunks, bins: seq<int>, treemap: nat, g: Shape, x: int, s: nat, t: int,
                                        d: nat)
    requires Inv(c, bins, treemap, g) && Keyed(c, g)
    requires x != 0 && x !in c && MIN_LARGE_SIZE <= s < WORD
    requires InsertPoint(c, g, t, TreeIndex(s), StartBits(s), d, s) && c[t].size == s
    ensures c[t].fd in c
    ensures var c' := RingMem(c, x, s, TreeIndex(s), t);
            var p := g.spot[t].pos;
            && p in g.ring && |g.ring[p]| > 0
            && var g' := Joined(g, x, StartBits(s), p);
               && Inv(c', bins, treemap, g') && Keyed(c', g')
               && SizesOf(c') == SizesOf(c)[x := s]
  {
    NextInRing(c, g, t);
    var c' := RingMem(c, x, s, TreeIndex(s), t);
    assert c[t].index == g.spot[t].pos.bin;
    RingMemIs(c, x, s, TreeIndex(s), t);
    JoinKeeps(c, bins, treemap, g, c', x, StartBits(s), t);
    JoinKeyed(c, g, c', x, s, g.spot[t].pos);
  }

  lemma {:induction false} NextInRing(c: Chunks, g: Shape, t: int)
    requires c.Keys == g.spot.Keys && Partition(g) && Circular(c, g) && t in c
    ensures c[t].fd in c && c[t].bk in c
  {
    var r := g.ring[g.spot[t].pos];
    assert r[Next(g.spot[t].rank, |r|)] in g.spot;
    assert r[Prev(g.spot[t].rank, |r|)] in g.spot;
  }

  // ---- The four removals, as values -------------------------------------------------------------

  /** Sizes, bins and steering words survive when only `x` goes. */
  lemma {:induction false} KeyedFrom(c: Chunks, g: Shape, c': Chunks, g': Shape, x: int)
    requires Keyed(c, g) && SizesKept(c, c', x) && g'.spot.Keys == c'.Keys
    requires forall a {:trigger g'.spot[a]} :: a in c' ==>
               g'.spot[a].pos.bin == g.spot[a].pos.bin && g'.spot[a].word == g.spot[a].word
    ensures Keyed(c', g')
    ensures SizesOf(c') == SizesOf(c) - {x}
  {
    SizesWithout(c, c', x);
  }

  lemma {:induction false} SizesWithout(c: Chunks, c': Chunks, x: int)
    requires SizesKept(c, c', x)
    ensures SizesOf(c') == SizesOf(c) - {x}
  {
    assert SizesOf(c').Keys == (SizesOf(c) - {x}).Keys;
    forall a | a in c' ensures SizesOf(c')[a] == (SizesOf(c) - {x})[a] { assert c'[a].size == c[a].size; }
  }

  lemma {:induction false} CutMemFields(c: Chunks, x: int)
    requires x in c && c[x].fd in c && c[x].bk in c && c[x].fd != x && c[x].bk != x
    ensures var c' := CutMem(c, x);
            && c'.Keys == c.Keys && c'[x] == c[x]
            && (forall a {:trigger c'[a]} :: a in c ==>
                  && c'[a].child0 == c[a].child0 && c'[a].child1 == c[a].child1 && c'[a].parent == c[a].parent
                  && c'[a].size == c[a].size && c'[a].index == c[a].index
                  && c'[a].fd == (if a == c[x].bk then c[x].fd else c[a].fd)
                  && c'[a].bk == (if a == c[x].fd then c[x].bk else c[a].bk))
  {}

  lemma {:induction false} CutMemIs(c: Chunks, x: int)
    requires x in c && c[x].fd in c && c[x].bk in c && c[x].fd != x && c[x].bk != x
    ensures var c' := CutMem(c, x) - {x};
            RingCut(c, c', x) && SizesKept(c, c', x) && TreeKept(c, c', x)
  {
    CutMemFields(c, x);
    var c1, c' := CutMem(c, x), CutMem(c, x) - {x};
    forall a | a in c' ensures c'[a] == c1[a] {}
  }

  /** A chunk with a ring neighbour has neighbours on both sides. */
  lemma {:induction false} RingNeighbours(c: Chunks, g: Shape, x: int)
    requires c.Keys == g.spot.Keys && Partition(g) && Circular(c, g) && x in c && c[x].bk != x
    ensures c[x].fd in c && c[x].bk in c && c[x].fd != x
  {
    NextInRing(c, g, x);
    Neighbours(c, g, x, x);
  }

  /** The integrity test of `unlink_large_chunk` on the ring always passes. */
  lemma {:induction false} RingTests(c: Chunks, g: Shape, x: int)
    requires c.Keys == g.spot.Keys && Partition(g) && Circular(c, g) && x in c
    ensures c[x].fd in c && c[x].bk in c && c[c[x].fd].bk == x && c[c[x].bk].fd == x
  {
    var s := g.spot[x];
    var r := g.ring[s.pos];
    var f, b := r[Next(s.rank, |r|)], r[Prev(s.rank, |r|)];
    assert c[x].fd == f && c[x].bk == b;
    assert g.spot[f].rank == Next(s.rank, |r|) && g.spot[b].rank == Prev(s.rank, |r|);
    assert c[f].bk == r[Prev(g.spot[f].rank, |r|)] && c[b].fd == r[Next(g.spot[b].rank, |r|)];
  }

  lemma {:induction false} MemberUnlinked(c: Chunks, bins: seq<int>, treemap: nat, g: Shape, x: int)
    requires Inv(c, bins, treemap, g) && Keyed(c, g) && x in c && c[x].bk != x && c[x].parent == NoParent
    ensures c[x].fd in c && c[x].bk in c && g.spot[x].rank > 0
    ensures var c' := CutMem(c, x) - {x};
            && Inv(c', bins, treemap, WithoutMember(g, x)) && Keyed(c', WithoutMember(g, x))
            && SizesOf(c') == SizesOf(c) - {x}
  {
    assert LinkAt(c[x], g, g.spot[x]);
    RingNeighbours(c, g, x);
    CutMemIs(c, x);
    MemberKeeps(c, bins, treemap, g, CutMem(c, x) - {x}, x);
    KeyedFrom(c, g, CutMem(c, x) - {x}, WithoutMember(g, x), x);
  }

  /** The headers once `r` has replaced the tree node `x`. */
  function HeaderMem(bins: seq<int>, t: TreeChunk, r: int): seq<int> {
    if t.parent.Header? && 0 <= t.parent.bin < |bins| then bins[t.parent.bin := r] else bins
  }

  /** A ring has more than one member exactly when `bk` leads elsewhere. */
  lemma {:induction false} RingSize(c: Chunks, g: Shape, x: int)
    requires c.Keys == g.spot.Keys && Partition(g) && Circular(c, g) && x in c && g.spot[x].rank == 0
    ensures var r := g.ring[g.spot[x].pos];
            c[x].bk == r[|r| - 1] && (c[x].bk == x <==> |r| == 1)
  {
    assert c[x].bk == c[x].bk;
  }

  /** The bin and the header flag of a tree node. */
  lemma {:induction false} HeaderOf(c: Chunks, bins: seq<int>, treemap: nat, g: Shape, x: int)
    requires Inv(c, bins, treemap, g) && x in c && g.spot[x].rank == 0
    ensures 0 <= c[x].index < NTREEBINS && c[x].index == g.spot[x].pos.bin
    ensures c[x].parent == (if g.spot[x].pos.depth == 0 then Header(c[x].index) else c[x].parent)
    ensures c[x].parent.Header? <==> g.spot[x].pos.depth == 0
    ensures bins[c[x].index] == x <==> c[x].parent.Header?
    ensures g.spot[x].pos.depth == 0 ==> g.spot[x].pos == Root(g.spot[x].pos.bin)
  {
    var s := g.spot[x];
    assert c[x].index == s.pos.bin;
    assert s.pos == Path(s.pos.bin, s.word, s.pos.depth);
    Neighbourhood(c, g, x);
    LinkOf(c, g, x);
    LookIs(g, x, Root(s.pos.bin));
  }

  lemma {:induction false} PromotedUnlinked(c: Chunks, bins: seq<int>, treemap: nat, g: Shape, x: int)
    requires Inv(c, bins, treemap, g) && Keyed(c, g) && x in c && c[x].bk != x && c[x].parent != NoParent
    ensures c[x].fd in c && c[x].bk in c && HasRing(g, x) && Adoptable(CutMem(c, x), x, c[x].bk)
    ensures var c' := RelinkMem(CutMem(c, x), x, c[x].bk) - {x};
            && Inv(c', HeaderMem(bins, c[x], c[x].bk), treemap, Promoted(g, x)) && Keyed(c', Promoted(g, x))
            && SizesOf(c') == SizesOf(c) - {x}
  {
    assert LinkAt(c[x], g, g.spot[x]);
    RingSize(c, g, x);
    RingNeighbours(c, g, x);
    CutMemFields(c, x);
    CutMemIs(c, x);
    PromoteRelinks(c, g, CutMem(c, x), x);
    HeaderOf(c, bins, treemap, g, x);
    var c1, c' := CutMem(c, x), RelinkMem(CutMem(c, x), x, c[x].bk) - {x};
    forall a | a in c' ensures SameRing(c'[a], c1[a]) {}
    assert RingCut(c, c', x) && SizesKept(c, c', x) by { CutRings(c, c1, c', x); }
    PromoteKeeps(c, bins, treemap, g, c', HeaderMem(bins, c[x], c[x].bk), x);
    PromotedWords(g, x);
    KeyedFrom(c, g, c', Promoted(g, x), x);
  }

  lemma {:induction false} CutRings(c: Chunks, c1: Chunks, c': Chunks, x: int)
    requires RingCut(c, c1 - {x}, x) && SizesKept(c, c1 - {x}, x) && c'.Keys == c.Keys - {x}
    requires forall a :: a in c' ==> a in c1 && SameRing(c'[a], c1[a])
    ensures RingCut(c, c', x) && SizesKept(c, c', x)
  {
    forall a | a in c'
      ensures c'[a].fd == (if a == c[x].bk then c[x].fd else c[a].fd)
      ensures c'[a].bk == (if a == c[x].fd then c[x].bk else c[a].bk)
      ensures c'[a].size == c[a].size && c'[a].index == c[a].index
    {
      var d := c1 - {x};
      assert d[a] == c1[a];
    }
  }

  lemma {:induction false} PromotedWords(g: Shape, x: int)
    requires HasRing(g, x)
    ensures Promoted(g, x).spot.Keys == g.spot.Keys - {x}
    ensures forall a {:trigger Promoted(g, x).spot[a]} :: a in g.spot && a != x ==>
              && Promoted(g, x).spot[a].pos.bin == g.spot[a].pos.bin
              && Promoted(g, x).spot[a].word == g.spot[a].word
  {
    var r := g.ring[g.spot[x].pos];
    assert r[|r| - 1] in g.spot;
  }

  lemma {:induction false} KeptFromRing(c: Chunks, c': Chunks, x: int)
    requires c'.Keys == c.Keys - {x}
    requires forall a :: a in c' ==> SameRing(c'[a], c[a])
    ensures SizesKept(c, c', x) && RingsKept(c, c', x)
  {}

  lemma {:induction false} LeafUnlinked(c: Chunks, bins: seq<int>, treemap: nat, g: Shape, bins': seq<int>,
                                        treemap': nat, x: int)
    requires Inv(c, bins, treemap, g) && Keyed(c, g) && LoneLeaf(g, x)
    requires 0 <= g.spot[x].pos.bin < NTREEBINS && LeafBins(bins, treemap, g, bins', treemap', x)
    ensures Adoptable(c, x, 0)
    ensures var c' := RelinkMem(c, x, 0) - {x};
            && Inv(c', bins', treemap', WithoutLeaf(g, x)) && Keyed(c', WithoutLeaf(g, x))
            && SizesOf(c') == SizesOf(c) - {x}
  {
    LeafRelinks(c, g, x);
    var c' := RelinkMem(c, x, 0) - {x};
    KeptFromRing(c, c', x);
    LeafKeeps(c, bins, treemap, g, c', bins', treemap', x);
    KeyedFrom(c, g, c', WithoutLeaf(g, x), x);
  }

  lemma {:induction false} MovedUnlinked(c: Chunks, bins: seq<int>, treemap: nat, g: Shape, x: int, z: int, o: int,
                                         b: nat)
    requires Inv(c, bins, treemap, g) && Keyed(c, g) && LeafBelow(g, x, z) && CutsOff(c, z, o, b)
    ensures Adoptable(NullMem(c, o, b), x, z)
    ensures var c' := RelinkMem(NullMem(c, o, b), x, z) - {x};
            && Inv(c', HeaderMem(bins, c[x], z), treemap, Moved(g, x, z)) && Keyed(c', Moved(g, x, z))
            && SizesOf(c') == SizesOf(c) - {x}
  {
    MoveRelinks(c, g, x, z, o, b);
    HeaderOf(c, bins, treemap, g, x);
    var c' := RelinkMem(NullMem(c, o, b), x, z) - {x};
    KeptFromRing(c, c', x);
    MoveKeeps(c, bins, treemap, g, c', HeaderMem(bins, c[x], z), x, z);
    MovedWords(g, x, z);
    KeyedFrom(c, g, c', Moved(g, x, z), x);
  }

  lemma {:induction false} MovedWords(g: Shape, x: int, z: int)
    requires LeafBelow(g, x, z)
    ensures Moved(g, x, z).spot.Keys == g.spot.Keys - {x}
    ensures forall a {:trigger Moved(g, x, z).spot[a]} :: a in g.spot && a != x ==>
              && Moved(g, x, z).spot[a].pos.bin == g.spot[a].pos.bin
              && Moved(g, x, z).spot[a].word == g.spot[a].word
  {}

  // ---- The descent to a leaf ------------------------------------------------------------------

  /** `r` is a tree node below `x`, stored as child `b` of `o`. */
  ghost predicate Descending(c: Chunks, g: Shape, x: int, r: int, o: int, b: nat) {
    && c.Keys == g.spot.Keys && x in c && r in c && CutsOff(c, r, o, b)
    && g.spot[x].rank == 0 && g.spot[r].rank == 0
    && g.spot[x].pos.depth < g.spot[r].pos.depth
    && 0 <= g.spot[r].word < WORD
    && g.spot[x].pos == Path(g.spot[r].pos.bin, g.spot[r].word, g.spot[x].pos.depth)
  }

  /** Any child of a node is one level down and shares its prefix. */
  lemma {:induction false} ChildBelow(c: Chunks, g: Shape, r: int, b: nat)
    requires WellLinked(c, g) && OnPath(g) && r in c && g.spot[r].rank == 0 && b <= 1
    requires (if b == 0 then c[r].child0 else c[r].child1) != 0
    ensures var u := if b == 0 then c[r].child0 else c[r].child1;
            && u in c && g.spot[u].rank == 0 && g.spot[u].pos == Down(g.spot[r].pos, b)
            && 0 <= g.spot[u].word < WORD && 0 <= g.spot[r].word < WORD
            && (forall d: nat :: d <= g.spot[r].pos.depth ==> Prefix(g.spot[u].word, d) == Prefix(g.spot[r].word, d))
            && LevelsBelow(g, g.spot[u].pos.depth) > 0
  {
    Neighbourhood(c, g, r);
    var u := if b == 0 then c[r].child0 else c[r].child1;
    var p, q := g.spot[r].pos, g.spot[u].pos;
    assert q == Path(q.bin, g.spot[u].word, q.depth);
    assert p == Path(p.bin, g.spot[r].word, p.depth);
    PathStep(q.bin, g.spot[u].word, p.depth);
    UpDown(p, b);
    forall d: nat | d <= p.depth ensures Prefix(g.spot[u].word, d) == Prefix(g.spot[r].word, d) {
      PrefixShared(g.spot[u].word, g.spot[r].word, d, p.depth);
    }
    LevelsLeft(g, q);
  }

  lemma {:induction false} FirstChild(c: Chunks, g: Shape, x: int, b: nat)
    requires WellLinked(c, g) && OnPath(g) && x in c && g.spot[x].rank == 0 && b <= 1
    requires (if b == 0 then c[x].child0 else c[x].child1) != 0
    ensures Descending(c, g, x, if b == 0 then c[x].child0 else c[x].child1, x, b)
  {
    ChildBelow(c, g, x, b);
    assert g.spot[x].pos == Path(g.spot[x].pos.bin, g.spot[x].word, g.spot[x].pos.depth);
  }

  lemma {:induction false} DescendStep(c: Chunks, g: Shape, x: int, r: int, o: int, b: nat, b': nat)
    requires WellLinked(c, g) && OnPath(g) && Descending(c, g, x, r, o, b) && b' <= 1
    requires (if b' == 0 then c[r].child0 else c[r].child1) != 0
    ensures var u := if b' == 0 then c[r].child0 else c[r].child1;
            && Descending(c, g, x, u, r, b')
            && g.spot[u].pos.depth == g.spot[r].pos.depth + 1 && LevelsBelow(g, g.spot[u].pos.depth) > 0
  {
    ChildBelow(c, g, r, b');
  }

  lemma {:induction false} DescentEnds(c: Chunks, g: Shape, x: int, r: int, o: int, b: nat)
    requires WellLinked(c, g) && OnPath(g) && Descending(c, g, x, r, o, b)
    requires c[r].child0 == 0 && c[r].child1 == 0 && |g.ring[g.spot[x].pos]| == 1
    ensures LeafBelow(g, x, r)
  {
    NoChildren(c, g, r);
  }

  lemma {:induction false} NoChildren(c: Chunks, g: Shape, r: int)
    requires WellLinked(c, g) && r in c && g.spot[r].rank == 0
    requires c[r].child0 == 0 && c[r].child1 == 0
    ensures IsLeaf(g, g.spot[r].pos)
  {
    LinkOf(c, g, r);
    var p := g.spot[r].pos;
    LookNonNull(g, Down(p, 0));
    LookNonNull(g, Down(p, 1));
  }

  /** A position in use has a tree node. */
  lemma {:induction false} LookNonNull(g: Shape, p: Pos)
    requires Partition(g)
    ensures p in g.ring <==> Look(g.ring, p) != 0
    ensures p in g.ring ==> Look(g.ring, p) in g.spot
  {
    if p in g.ring { assert g.ring[p][0] in g.spot; }
  }

  // ---- Following the walks of a search --------------------------------------------------------

  /** Pointer `t` stands at position `p`. */
  ghost predicate StandsAt(c: Chunks, g: Shape, t: int, p: Pos) {
    t in c && t in g.spot && g.spot[t].rank == 0 && g.spot[t].pos == p && p in g.ring
  }

  lemma {:induction false} ChildStands(c: Chunks, g: Shape, t: int, p: Pos)
    requires WellLinked(c, g) && StandsAt(c, g, t, p)
    ensures c[t].child0 == Look(g.ring, Down(p, 0)) && c[t].child1 == Look(g.ring, Down(p, 1))
    ensures c[t].child0 != 0 <==> Down(p, 0) in g.ring
    ensures c[t].child1 != 0 <==> Down(p, 1) in g.ring
    ensures c[t].child0 != 0 ==> StandsAt(c, g, c[t].child0, Down(p, 0))
    ensures c[t].child1 != 0 ==> StandsAt(c, g, c[t].child1, Down(p, 1))
    ensures c[t].child0 != 0 ==> c[t].child0 != c[t].child1
  {
    LinkOf(c, g, t);
    assert Down(p, 0) != Down(p, 1);
    if Down(p, 0) in g.ring { assert g.ring[Down(p, 0)][0] in g.spot; }
    if Down(p, 1) in g.ring { assert g.ring[Down(p, 1)][0] in g.spot; }
  }

  /** A chunk alone in its ring is a tree node. */
  lemma {:induction false} LoneIsNode(c: Chunks, g: Shape, x: int)
    requires c.Keys == g.spot.Keys && Partition(g) && Circular(c, g) && x in c && c[x].bk == x
    ensures g.spot[x].rank == 0 && |g.ring[g.spot[x].pos]| == 1
  {
    Neighbours(c, g, x, x);
  }

  /** Cutting off a leaf leaves the parent and the index of `x` alone. */
  lemma {:induction false} NullKeepsX(c: Chunks, x: int, z: int, o: int, b: nat)
    requires x in c && CutsOff(c, z, o, b)
    ensures var c1 := NullMem(c, o, b); c1[x].parent == c[x].parent && c1[x].index == c[x].index
  {}

  /** What `Replace` needs to know about `x`. */
  ghost predicate Replaceable(c: Chunks, bins: seq<int>, treemap: nat, x: int, r: int) {
    && Adoptable(c, x, r)
    && |bins| == NTREEBINS && treemap < MAP && 0 <= c[x].index < NTREEBINS
    && c[x].parent != NoParent
    && (c[x].parent.Header? ==> c[x].parent == Header(c[x].index))
    && (bins[c[x].index] == x <==> c[x].parent.Header?)
  }

  /** Replacing `x` by `r` leaves valid bins of shape `g`. */
  ghost predicate Substituted(c: Chunks, bins: seq<int>, treemap: nat, x: int, r: int, g: Shape)
    requires Replaceable(c, bins, treemap, x, r)
  {
    var c' := RelinkMem(c, x, r) - {x};
    && Inv(c', HeaderMem(bins, c[x], r), MapMem(treemap, c[x], r), g) && Keyed(c', g)
  }

  /** The bin map once `r` has replaced the tree node `x`. */
  function MapMem(treemap: nat, t: TreeChunk, r: int): nat
    requires 0 <= t.index < NTREEBINS
  {
    Idx2BitRange(t.index, MAP_BITS);
    if t.parent.Header? && r == 0 then And(treemap, Not(Idx2Bit(t.index), MAP_BITS)) else treemap
  }

  lemma {:induction false} MoveReady(c: Chunks, bins: seq<int>, treemap: nat, g: Shape, x: int, z: int, o: int, b: nat)
    requires Inv(c, bins, treemap, g) && Keyed(c, g) && LeafBelow(g, x, z) && CutsOff(c, z, o, b)
    ensures var c1 := NullMem(c, o, b);
            && Replaceable(c1, bins, treemap, x, z)
            && var c' := RelinkMem(c1, x, z) - {x};
               && Substituted(c1, bins, treemap, x, z, Moved(g, x, z))
               && SizesOf(c') == SizesOf(c) - {x}
  {
    MovedUnlinked(c, bins, treemap, g, x, z, o, b);
    NullKeepsX(c, x, z, o, b);
    HeaderOf(c, bins, treemap, g, x);
    Neighbourhood(c, g, x);
  }

  lemma {:induction false} LeafReady(c: Chunks, bins: seq<int>, treemap: nat, g: Shape, x: int)
    requires Inv(c, bins, treemap, g) && Keyed(c, g) && x in c && c[x].child0 == 0 && c[x].child1 == 0
    requires g.spot[x].rank == 0 && |g.ring[g.spot[x].pos]| == 1
    ensures Replaceable(c, bins, treemap, x, 0)
    ensures var c' := RelinkMem(c, x, 0) - {x};
            && Substituted(c, bins, treemap, x, 0, WithoutLeaf(g, x))
            && SizesOf(c') == SizesOf(c) - {x}
  {
    NoChildren(c, g, x);
    HeaderOf(c, bins, treemap, g, x);
    Idx2BitRange(c[x].index, MAP_BITS);
    Neighbourhood(c, g, x);
    LeafUnlinked(c, bins, treemap, g, HeaderMem(bins, c[x], 0), MapMem(treemap, c[x], 0), x);
  }

  lemma {:induction false} PromoteReady(c: Chunks, bins: seq<int>, treemap: nat, g: Shape, x: int)
    requires Inv(c, bins, treemap, g) && Keyed(c, g) && x in c && c[x].bk != x && c[x].parent != NoParent
    ensures c[x].fd in c && c[x].bk in c && HasRing(g, x)
    ensures var c1 := CutMem(c, x);
            && Replaceable(c1, bins, treemap, x, c[x].bk) && c1[x] == c[x]
            && var c' := RelinkMem(c1, x, c[x].bk) - {x};
               && Substituted(c1, bins, treemap, x, c[x].bk, Promoted(g, x))
               && SizesOf(c') == SizesOf(c) - {x}
  {
    PromotedUnlinked(c, bins, treemap, g, x);
    RingNeighbours(c, g, x);
    CutMemFields(c, x);
    HeaderOf(c, bins, treemap, g, x);
  }

  /** The pointer kept for the right subtree at depth `e` of the path, null for none. */
  ghost function RstPointer(g: Shape, bin: int, w: nat, e: int): int
    requires w < WORD
  {
    if e < 0 then 0 else Look(g.ring, RightOf(bin, w, e))
  }

  /** The first walk of a search stands at depth `d` of the path of `w`, with pointers to match. */
  ghost predicate WalksAt(c: Chunks, g: Shape, nb: nat, bin: int, w: nat, d: nat, t: int, v: int, e: int) {
    && Trie(c, g) && 0 < nb < WORD && w < WORD && e >= -1
    && StandsAt(c, g, t, Path(bin, w, d)) && Fits(c, nb, v)
    && (e >= 0 ==> RightOf(bin, w, e) in g.ring)
  }

  ghost function ChildToTake(t: TreeChunk, k: nat): int
    requires k < WORD
  {
    if TopBit(k) == 1 then t.child1 else t.child0
  }

  /** What one round of the first loop does to the pointers. */
  lemma {:induction false} WalkStep(c: Chunks, g: Shape, nb: nat, bin: int, w: nat, d: nat, t: int, v: int, e: int)
    requires WellLinked(c, g) && WalksAt(c, g, nb, bin, w, d, t, v, e)
    ensures var u, v', e' := ChildToTake(c[t], Steer(w, d)), Better(c, nb, v, t), NextRst(g, bin, w, d, e);
            && e' >= -1 && (e' >= 0 ==> RightOf(bin, w, e') in g.ring)
            && Fits(c, nb, v')
            && RstPointer(g, bin, w, e')
               == (if c[t].child1 != 0 && c[t].child1 != u then c[t].child1 else RstPointer(g, bin, w, e))
            && (u != 0 <==> Path(bin, w, d + 1) in g.ring)
            && (u != 0 ==> WalksAt(c, g, nb, bin, w, d + 1, u, v', e') && LevelsBelow(g, d + 1) > 0)
            && NodeAt(c, g, Path(bin, w, d)) == t
  {
    ChildStands(c, g, t, Path(bin, w, d));
    PathStep(bin, w, d);
    BetterIsLess(c, nb, v, t);
    if Path(bin, w, d + 1) in g.ring { LevelsLeft(g, Path(bin, w, d + 1)); }
  }

  lemma {:induction false} LeftmostStepPointer(c: Chunks, g: Shape, t: int, p: Pos)
    requires WellLinked(c, g) && WordSizes(c) && StandsAt(c, g, t, p)
    ensures var u := if c[t].child0 != 0 then c[t].child0 else c[t].child1;
            && NodeAt(c, g, p) == t
            && (u == 0 <==> LeftmostBelow(g, p) == p)
            && (u != 0 ==> StandsAt(c, g, u, LeftmostBelow(g, p)) && LevelsBelow(g, LeftmostBelow(g, p).depth) > 0
                           && LeftmostBelow(g, p).depth == p.depth + 1)
  {
    ChildStands(c, g, t, p);
    if LeftmostBelow(g, p) != p { LevelsLeft(g, LeftmostBelow(g, p)); }
  }

  /** The root of bin `i`, as the header gives it. */
  lemma {:induction false} HeaderStands(c: Chunks, bins: seq<int>, treemap: nat, g: Shape, i: nat)
    requires c.Keys == g.spot.Keys && Partition(g) && Roots(bins, treemap, g) && i < NTREEBINS
    ensures bins[i] != 0 <==> Root(i) in g.ring
    ensures bins[i] != 0 ==> StandsAt(c, g, bins[i], Root(i))
  {
    if Root(i) in g.ring { assert g.ring[Root(i)][0] in g.spot; }
  }

  // ---- Best fit, as the caller sees it ---------------------------------------------------------

  /** The remainder test against the designated victim: `rsize < (size_t)(dvsize - nb)`. */
  predicate BeatsDv(size: int, dvsize: nat, nb: nat)
    requires nb < WORD && dvsize < WORD
  {
    size - nb < Sub(dvsize, nb)
  }

  /** When the search is exact: sizes are in the bins of their ranges, and so is the request,
      or nothing is large enough for it. */
  ghost predicate Exactly(c: Chunks, nb: nat) {
    Ordered(c) && (Proper(nb) || forall a {:trigger c[a].size} :: a in c ==> c[a].size < nb)
  }

  lemma {:induction false} ChosenIsBest(c: Chunks, bins: seq<int>, treemap: nat, g: Shape, nb: nat)
    requires Inv(c, bins, treemap, g) && Keyed(c, g) && MIN_LARGE_SIZE <= nb < WORD
    ensures Searchable(c, bins, treemap, g)
    ensures var v := Chosen(c, bins, treemap, g, nb);
            && Fits(c, nb, v)
            && (Exactly(c, nb) ==> forall a {:trigger c[a].size} :: a in c && c[a].size >= nb ==>
                                     v != 0 && c[v].size <= c[a].size)
  {
    ValidIsSearchable(c, bins, treemap, g);
    ChosenFits(c, bins, treemap, g, nb);
    if Exactly(c, nb) {
      forall a | a in c && c[a].size >= nb
        ensures var v := Chosen(c, bins, treemap, g, nb); v != 0 && c[v].size <= c[a].size
      {
        ChosenLeast(c, bins, treemap, g, nb, a);
      }
    }
  }

  /** A tree-binned chunk always fits a small request. */
  lemma {:induction false} SomethingSmall(c: Chunks, bins: seq<int>, treemap: nat, g: Shape, nb: nat)
    requires Searchable(c, bins, treemap, g) && treemap != 0 && 0 < nb <= MIN_LARGE_SIZE
    ensures Smallest(c, bins, treemap, g, nb) != 0
  {
    FirstSetBit(treemap);
    var p := Root(Bit2Idx(LeastBit(treemap, MAP_BITS)));
    assert p in g.ring;
    var t, q := NodeAt(c, g, p), LeftmostBelow(g, p);
    assert c[t].size >= nb;
    BetterIsLess(c, nb, 0, t);
    if q != p { LevelsLeft(g, q); SecondPassFits(c, g, q, nb, Better(c, nb, 0, t)); }
  }

  /** No bin is marked only if no chunk is in a tree. */
  lemma {:induction false} EmptyTrees(c: Chunks, bins: seq<int>, g: Shape)
    requires Inv(c, bins, 0, g)
    ensures c == map[] && SizesOf(c) == map[]
  {
    forall a ensures a !in c { NotInEmptyTrees(c, bins, g, a); }
    assert forall a :: a !in SizesOf(c);
  }

  lemma {:induction false} NotInEmptyTrees(c: Chunks, bins: seq<int>, g: Shape, a: int)
    requires Inv(c, bins, 0, g)
    ensures a !in c
  {
    hide BitAt;
    if a in c {
      var s := g.spot[a];
      PathPopulated(g, s.pos.bin, s.word, 0, s.pos.depth);
      var i := s.pos.bin;
      ZeroBit(i);
    }
  }

  /** A tree node stands at its own position. */
  lemma {:induction false} ResumeStands(c: Chunks, g: Shape, t: int, p: Pos)
    requires c.Keys == g.spot.Keys && Partition(g)
    requires t != 0 ==> (t in c && g.spot[t].rank == 0 && g.spot[t].pos == p) || t == Look(g.ring, p)
    ensures t != 0 ==> StandsAt(c, g, t, p)
  {
    if t != 0 && t == Look(g.ring, p) { assert g.ring[p][0] in g.spot; }
  }

  // ---- Where best fit fails ----------------------------------------------------------------------

  ghost function EmptyBins(): seq<int> {
    seq(NTREEBINS, _ => 0)
  }

  lemma {:induction false} EmptyIsValid()
    ensures Inv(map[], EmptyBins(), 0, Shape(map[], map[])) && Keyed(map[], Shape(map[], map[]))
  {
    forall j: nat | j < NTREEBINS ensures !BitAt(0, j) { ZeroBit(j); }
  }

  ghost predicate NodesOnly(g: Shape, roots: set<Pos>) {
    g.ring.Keys == roots
  }

  /** The bins after chunk `x` went alone into an empty bin. */
  lemma {:induction false} RootAdded(c: Chunks, bins: seq<int>, treemap: nat, g: Shape, x: int, s: nat)
    returns (c': Chunks, bins': seq<int>, treemap': nat, g': Shape)
    requires Inv(c, bins, treemap, g) && Keyed(c, g) && x != 0 && x !in c
    requires MIN_LARGE_SIZE <= s < WORD && Root(TreeIndex(s)) !in g.ring
    ensures Inv(c', bins', treemap', g') && Keyed(c', g')
    ensures c' == RootMem(c, x, s, TreeIndex(s)) && g' == Attached(g, x, StartBits(s), Root(TreeIndex(s)))
  {
    assert !BitAt(treemap, TreeIndex(s));
    RootInserted(c, bins, treemap, g, x, s);
    var i := TreeIndex(s);
    c', bins', treemap' := RootMem(c, x, s, i), bins[i := x], Or(treemap, Idx2Bit(i));
    g' := Attached(g, x, StartBits(s), Root(i));
  }


  /** Two chunks, each alone in its bin. */
  lemma {:induction false} TwoChunks(s: nat, s': nat) returns (c: Chunks, bins: seq<int>, treemap: nat, g: Shape)
    requires MIN_LARGE_SIZE <= s < WORD && MIN_LARGE_SIZE <= s' < WORD && TreeIndex(s) != TreeIndex(s')
    ensures Inv(c, bins, treemap, g) && Keyed(c, g)
    ensures c.Keys == {16, 32} && c[16].size == s && c[32].size == s'
    ensures NodesOnly(g, {Root(TreeIndex(s)), Root(TreeIndex(s'))})
  {
    hide TreeIndex, Inv, Keyed, StartBits;
    EmptyIsValid();
    var c1, bins1, m1, g1 := RootAdded(map[], EmptyBins(), 0, Shape(map[], map[]), 16, s);
    c, bins, treemap, g := RootAdded(c1, bins1, m1, g1, 32, s');
  }

  /** For every request that the 32-bit index misfiles there are valid bins, with every size in the bin of its
      range, that hold a large enough chunk which the search misses: it starts in a bin far below the right one and
      looks only at the leftmost path of the next non-empty bin. */
  lemma {:induction false} BestFitMissed(nb: nat)
    returns (c: Chunks, bins: seq<int>, treemap: nat, g: Shape, a: int)
    requires nb <= LARGEST && !Proper(nb)
    ensures Inv(c, bins, treemap, g) && Keyed(c, g) && Ordered(c)
    ensures a in c && c[a].size >= nb
    ensures Trie(c, g) && Chosen(c, bins, treemap, g, nb) == 0
  {
    hide TreeIndex, Inv, Keyed, Ordered, Searchable, Trie, Roots, Chosen, NodesOnly;
    MisfiledIndex(nb);
    if TreeIndex(nb) < 30 {
      c, bins, treemap, g := SmallAndLargest(TreeIndex(nb) + 1);
      a := 32;
      RootsAlone(g, TreeIndex(nb) + 1);
      SearchableIs(c, bins, treemap, g);
      MissedInNextBin(c, bins, treemap, g, nb, TreeIndex(nb));
    } else {
      c, bins, treemap, g := ThreeInLast();
      a := 48;
      SearchableIs(c, bins, treemap, g);
      MissedInLast(c, bins, treemap, g, nb);
    }
  }

  /** For every chunk size that the index misfiles there is a rightly filed request, no larger than the chunk, for
      which the search misses a chunk of this size though the bins hold nothing else. */
  lemma {:induction false} MisfiledMissed(s: nat)
    returns (c: Chunks, bins: seq<int>, treemap: nat, g: Shape, nb: nat)
    requires s <= LARGEST && !Proper(s)
    ensures Inv(c, bins, treemap, g) && Keyed(c, g) && c.Keys == {16} && c[16].size == s
    ensures MIN_LARGE_SIZE <= nb <= s && Proper(nb)
    ensures Trie(c, g) && Chosen(c, bins, treemap, g, nb) == 0
  {
    hide TreeIndex, Inv, Keyed, Searchable, Trie, Roots, Chosen, FromNextBin;
    MisfiledIndex(s);
    var i := TreeIndex(s);
    nb := MinSize(i + 1);
    MinSizeIndex(i + 1);
    EmptyIsValid();
    c, bins, treemap, g := RootAdded(map[], EmptyBins(), 0, Shape(map[], map[]), 16, s);
    ValidIsSearchable(c, bins, treemap, g);
    SearchableIs(c, bins, treemap, g);
    EmptyBinSkipped(c, bins, treemap, g, nb);
    NothingAbove(c, bins, treemap, g, nb, i);
  }

  /** For every chunk size that the index misfiles there are valid bins in which a chunk of this size is taken for
      a small request though a smaller one is there. */
  lemma {:induction false} SmallestMissed(s: nat, nb: nat)
    returns (c: Chunks, bins: seq<int>, treemap: nat, g: Shape)
    requires s <= LARGEST && !Proper(s) && 0 < nb <= MIN_LARGE_SIZE
    ensures Inv(c, bins, treemap, g) && Keyed(c, g) && c.Keys == {16, 32} && nb <= c[32].size < c[16].size == s
    ensures Searchable(c, bins, treemap, g) && treemap != 0 && Smallest(c, bins, treemap, g, nb) == 16
  {
    hide TreeIndex, Inv, Keyed, Searchable, Smallest, NodesOnly;
    MisfiledIndex(s);
    var i := TreeIndex(s);
    MinSizeIndex(i + 1);
    c, bins, treemap, g := TwoChunks(s, MinSize(i + 1));
    ValidIsSearchable(c, bins, treemap, g);
    FirstBinServes(c, bins, treemap, g, nb, i);
  }

  lemma {:induction false} FirstBinServes(c: Chunks, bins: seq<int>, treemap: nat, g: Shape, nb: nat, i: nat)
    requires Searchable(c, bins, treemap, g) && NodesOnly(g, {Root(i), Root(i + 1)}) && i <= 30 && 0 < nb < WORD
    requires c.Keys == {16, 32} && TreeIndex(c[16].size) == i && TreeIndex(c[32].size) == i + 1 && c[16].size >= nb
    ensures treemap != 0 && (nb <= MIN_LARGE_SIZE ==> Smallest(c, bins, treemap, g, nb) == 16)
  {
    hide TreeIndex, LeastBit, Bit2Idx, BitAt, Pow2, StartBits;
    LowestMark(bins, treemap, g, i);
    var t := NodeAt(c, g, Root(i));
    assert g.spot[t].pos.bin == TreeIndex(c[t].size);
  }

  lemma {:induction false} LowestMark(bins: seq<int>, treemap: nat, g: Shape, i: nat)
    requires Roots(bins, treemap, g) && NodesOnly(g, {Root(i), Root(i + 1)}) && i <= 30
    ensures treemap != 0 && treemap < Pow2(MAP_BITS) && LeastBit(treemap, MAP_BITS) != 0
    ensures Bit2Idx(LeastBit(treemap, MAP_BITS)) == i
  {
    hide LeastBit, Bit2Idx, Pow2, BitAt;
    assert BitAt(treemap, i);
    ZeroBit(i);
    FirstSetBit(treemap);
    assert BitAt(treemap, Bit2Idx(LeastBit(treemap, MAP_BITS)));
  }

  lemma {:induction false} MisfiledIndex(s: nat)
    requires !Proper(s)
    ensures INDEX_LIMIT <= s && TreeIndex(s) <= 30
  {
    var low := s % INDEX_LIMIT;
    IndexOfLowBits(s);
    if low >= MIN_LARGE_SIZE { InRangeBelowLimit(low); } else { SmallestIndex(low); }
  }

  lemma {:induction false} SmallestIndex(s: nat)
    requires s < MIN_LARGE_SIZE
    ensures TreeIndex(s) == 0
  {
    assert s / 0x100 == 0;
  }

  lemma {:induction false} NothingAbove(c: Chunks, bins: seq<int>, treemap: nat, g: Shape, nb: nat, i: nat)
    requires Trie(c, g) && Roots(bins, treemap, g) && g.ring.Keys == {Root(i)} && i <= 30 && 0 < nb < WORD
    ensures FromNextBin(c, g, treemap, i + 1, nb) == 0
  {
    NextBin(treemap, i + 1);
  }

  /** A chunk that hangs at the root's free branch of its steering word. */
  lemma {:induction false} LeafAdded(c: Chunks, bins: seq<int>, treemap: nat, g: Shape, x: int, s: nat, t: int, b: nat)
    returns (c': Chunks, g': Shape)
    requires Inv(c, bins, treemap, g) && Keyed(c, g) && x != 0 && x !in c && MIN_LARGE_SIZE <= s < WORD
    requires t in c && g.spot[t] == Spot(Root(TreeIndex(s)), 0, g.spot[t].word)
    requires b == Branch(StartBits(s), 0) && Down(Root(TreeIndex(s)), b) !in g.ring
    requires forall a {:trigger c[a].size} :: a in c ==> c[a].size != s
    ensures Inv(c', bins, treemap, g') && Keyed(c', g')
    ensures g' == Attached(g, x, StartBits(s), Down(Root(TreeIndex(s)), b))
    ensures c'.Keys == c.Keys + {x} && c'[x].size == s && forall a :: a in c ==> c'[a].size == c[a].size
  {
    assert InsertPoint(c, g, t, TreeIndex(s), StartBits(s), 0, s);
    LeafInserted(c, bins, treemap, g, x, s, t, 0);
    LeafMemIs(c, x, s, TreeIndex(s), t, b);
    c' := LeafMem(c, x, s, TreeIndex(s), t, b);
    g' := Attached(g, x, StartBits(s), Down(Root(TreeIndex(s)), b));
  }

  /** Three chunks in the last bin: two small ones on its leftmost path, the largest one beside it. */
  ghost predicate Three(c: Chunks, g: Shape) {
    && c.Keys == {16, 32, 48}
    && c[16].size == LAST_BIN_MIN && c[32].size == LAST_BIN_MIN + 16 && c[48].size == LARGEST
    && g.ring == map[Root(LAST_BIN) := [16], Down(Root(LAST_BIN), 0) := [32], Down(Root(LAST_BIN), 1) := [48]]
  }

  lemma {:induction false} ThreeInLast() returns (c: Chunks, bins: seq<int>, treemap: nat, g: Shape)
    ensures Inv(c, bins, treemap, g) && Keyed(c, g) && Ordered(c) && Searchable(c, bins, treemap, g) && Three(c, g)
  {
    hide TreeIndex, Inv, Keyed, Searchable, StartBits, Branch;
    LastBinFacts();
    LargestIndex();
    EmptyIsValid();
    c, bins, treemap, g := RootAdded(map[], EmptyBins(), 0, Shape(map[], map[]), 16, LAST_BIN_MIN);
    c, g := LeafAdded(c, bins, treemap, g, 32, LAST_BIN_MIN + 16, 16, 0);
    c, g := LeafAdded(c, bins, treemap, g, 48, LARGEST, 16, 1);
    ValidIsSearchable(c, bins, treemap, g);
  }

  lemma {:induction false} LastBinFacts()
    ensures TreeIndex(LAST_BIN_MIN) == LAST_BIN && TreeIndex(LAST_BIN_MIN + 16) == LAST_BIN
    ensures Branch(StartBits(LAST_BIN_MIN + 16), 0) == 0 && Branch(StartBits(LARGEST), 0) == 1
  {
    InRangeBelowLimit(LAST_BIN_MIN);
    InRangeBelowLimit(LAST_BIN_MIN + 16);
    LargestIndex();
    UnshiftedWord(LAST_BIN_MIN + 16);
    UnshiftedWord(LARGEST);
  }

  /** In the last bin the size itself steers the walk. */
  lemma {:induction false} UnshiftedWord(s: nat)
    requires s < WORD && TreeIndex(s) == LAST_BIN
    ensures StartBits(s) == s
  {
    ShlValue(s, 0);
  }

  lemma {:induction false} MissedInLast(c: Chunks, bins: seq<int>, treemap: nat, g: Shape, nb: nat)
    requires Trie(c, g) && Roots(bins, treemap, g) && Three(c, g) && INDEX_LIMIT <= nb < WORD && TreeIndex(nb) == 30
    ensures Chosen(c, bins, treemap, g, nb) == 0
  {
    hide TreeIndex, Chosen;
    EmptyBinSkipped(c, bins, treemap, g, nb);
    assert BitAt(treemap, 31);
    FromNextMarked(c, g, treemap, 30, nb);
    var p := Root(LAST_BIN);
    LevelsLeft(g, Down(p, 0));
    assert NodeAt(c, g, p) == 16 && NodeAt(c, g, Down(p, 0)) == 32;
    assert LeftmostBelow(g, Down(p, 0)) == Down(p, 0);
    assert SecondPass(c, g, Down(p, 0), nb, 0) == 0;
  }

  lemma {:induction false} RootsAlone(g: Shape, j: nat)
    requires NodesOnly(g, {Root(j), Root(LAST_BIN)}) && 0 < j < LAST_BIN
    ensures Root(j - 1) !in g.ring && Root(j) in g.ring
    ensures Down(Root(j), 0) !in g.ring && Down(Root(j), 1) !in g.ring
  {}

  lemma {:induction false} SearchableIs(c: Chunks, bins: seq<int>, treemap: nat, g: Shape)
    requires Searchable(c, bins, treemap, g)
    ensures Trie(c, g) && Roots(bins, treemap, g)
  {}

  lemma {:induction false} SmallAndLargest(j: nat) returns (c: Chunks, bins: seq<int>, treemap: nat, g: Shape)
    requires 0 < j < LAST_BIN
    ensures Inv(c, bins, treemap, g) && Keyed(c, g) && Ordered(c) && Searchable(c, bins, treemap, g)
    ensures NodesOnly(g, {Root(j), Root(LAST_BIN)})
    ensures c.Keys == {16, 32} && c[16].size == MinSize(j) && c[32].size == LARGEST
    ensures c[NodeAt(c, g, Root(j))].size == MinSize(j) < INDEX_LIMIT
  {
    MinSizeIndex(j);
    LargestIndex();
    c, bins, treemap, g := TwoChunks(MinSize(j), LARGEST);
    TwoAreOrdered(c, j);
    ValidIsSearchable(c, bins, treemap, g);
    SmallInBin(c, g, j);
  }

  lemma {:induction false} TwoAreOrdered(c: Chunks, j: nat)
    requires c.Keys == {16, 32} && j < LAST_BIN && c[16].size == MinSize(j) && c[32].size == LARGEST
    ensures Ordered(c) && c[16].size < INDEX_LIMIT
  {
    MinSizeIndex(j);
    LargestIndex();
  }

  /** The only chunk that bin `j` of the two-chunk bins can hold is the small one. */
  lemma {:induction false} SmallInBin(c: Chunks, g: Shape, j: nat)
    requires Trie(c, g) && Keyed(c, g) && c.Keys == {16, 32} && j < LAST_BIN && Root(j) in g.ring
    requires TreeIndex(c[32].size) == LAST_BIN
    ensures c[NodeAt(c, g, Root(j))].size == c[16].size
  {
    var t := NodeAt(c, g, Root(j));
    assert g.spot[t].pos.bin == TreeIndex(c[t].size);
  }

  class TreeBins {
    var chunks: Chunks
    var treebins: seq<int>
    var treemap: nat
    ghost var shape: Shape

    ghost predicate Valid()
      reads this
    {
      Inv(chunks, treebins, treemap, shape) && Keyed(chunks, shape)
    }

    /** The binned chunks and their sizes. */
    ghost function Contents(): map<int, int>
      reads this
    {
      SizesOf(chunks)
    }

    constructor ()
      ensures Valid() && Contents() == map[]
    {
      chunks := map[];
      treebins := seq(NTREEBINS, _ => 0);
      treemap := 0;
      shape := Shape(map[], map[]);
      new;
      forall i: nat | i < NTREEBINS ensures !BitAt(treemap, i) { ZeroBit(i); }
    }

    /** `insert_large_chunk(M, X, S)`. */
    method Insert(x: int, s: int)
      requires Valid() && x != 0 && x !in chunks && MIN_LARGE_SIZE <= s < WORD
      modifies this
      ensures Valid() && Contents() == old(Contents())[x := s]
    {
      var i := TreeIndex(s);
      if !BitAt(treemap, i) {
        RootInserted(chunks, treebins, treemap, shape, x, s);
        chunks := chunks[x := TreeChunk(s, x, x, 0, 0, Header(i), i)];
        treebins := treebins[i := x];
        treemap := Or(treemap, Idx2Bit(i));
        shape := Attached(shape, x, StartBits(s), Root(i));
      } else {
        InsertInTree(x, s, i);
      }
    }

    /** The walk of `insert_large_chunk` in a non-empty bin. */
    method InsertInTree(x: int, s: int, i: nat)
      requires Valid() && x != 0 && x !in chunks && MIN_LARGE_SIZE <= s < WORD
      requires i == TreeIndex(s) && BitAt(treemap, i)
      modifies this
      ensures Valid() && Contents() == old(Contents())[x := s]
    {
      var t := treebins[i];
      var k := Shl(s, LeftShift(i));
      ghost var d := 0;
      StartsAtRoot(chunks, treebins, treemap, shape, s);
      while chunks[t].size != s
        invariant chunks == old(chunks) && treebins == old(treebins) && treemap == old(treemap)
        invariant shape == old(shape)
        invariant k == Steer(StartBits(s), d)
        invariant InsertPoint(chunks, shape, t, i, StartBits(s), d, s)
        decreases LevelsBelow(shape, d)
      {
        var b := TopBit(k);
        k := Shl1(k);
        var child := if b == 0 then chunks[t].child0 else chunks[t].child1;
        InsertStep(chunks, treebins, treemap, shape, t, d, s);
        if child == 0 {
          StoreLeaf(x, s, t, b, d);
          return;
        }
        t := child;
        d := d + 1;
      }
      JoinRing(x, s, t, d);
    }

    /** `*C = X` and the fields of the new leaf. */
    method StoreLeaf(x: int, s: int, t: int, b: nat, ghost d: nat)
      requires Valid() && x != 0 && x !in chunks && MIN_LARGE_SIZE <= s < WORD
      requires InsertPoint(chunks, shape, t, TreeIndex(s), StartBits(s), d, s)
      requires b == Branch(StartBits(s), d) && Down(shape.spot[t].pos, b) !in shape.ring
      requires forall a {:trigger chunks[a].size} :: a in chunks ==> chunks[a].size != s
      modifies this
      ensures Valid() && Contents() == old(Contents())[x := s]
    {
      ghost var c, g := chunks, shape;
      chunks := chunks[x := TreeChunk(s, x, x, 0, 0, Node(t), TreeIndex(s))];
      chunks := chunks[t := if b == 0 then chunks[t].(child0 := x) else chunks[t].(child1 := x)];
      shape := Attached(g, x, StartBits(s), Down(g.spot[t].pos, b));
      assert chunks == LeafMem(c, x, s, TreeIndex(s), t, b);
      LeafInserted(c, treebins, treemap, g, x, s, t, d);
    }

    /** Link `x` behind the tree node `t` of its own size. */
    method JoinRing(x: int, s: int, t: int, ghost d: nat)
      requires Valid() && x != 0 && x !in chunks && MIN_LARGE_SIZE <= s < WORD
      requires InsertPoint(chunks, shape, t, TreeIndex(s), StartBits(s), d, s) && chunks[t].size == s
      modifies this
      ensures Valid() && Contents() == old(Contents())[x := s]
    {
      ghost var c, g := chunks, shape;
      NextInRing(c, g, t);
      var f := chunks[t].fd;
      chunks := chunks[x := TreeChunk(s, f, t, 0, 0, NoParent, TreeIndex(s))];
      chunks := chunks[t := chunks[t].(fd := x)];
      chunks := chunks[f := chunks[f].(bk := x)];
      shape := Joined(g, x, StartBits(s), g.spot[t].pos);
      assert chunks == RingMem(c, x, s, TreeIndex(s), t);
      RingInserted(c, treebins, treemap, g, x, s, t, d);
    }

    /** `unlink_large_chunk(M, X)`. */
    method Unlink(x: int)
      requires Valid() && x in chunks
      modifies this
      ensures Valid() && Contents() == old(Contents()) - {x}
    {
      if chunks[x].bk != x {
        UnlinkFromRing(x);
      } else {
        UnlinkLone(x);
      }
    }

    /** `x` has ring neighbours; if it is the tree node, its `bk` neighbour replaces it. */
    method UnlinkFromRing(x: int)
      requires Valid() && x in chunks && chunks[x].bk != x
      modifies this
      ensures Valid() && Contents() == old(Contents()) - {x}
    {
      ghost var c := chunks;
      RingNeighbours(c, shape, x);
      CutMemFields(c, x);
      RingTests(c, shape, x);
      var r := chunks[x].bk;
      assert chunks[chunks[x].fd].bk == x && chunks[r].fd == x;
      CutFromRing(x);
      if chunks[x].parent != NoParent {
        PromoteReady(c, treebins, treemap, shape, x);
        Substitute(x, r, Promoted(shape, x));
      } else {
        MemberUnlinked(c, treebins, treemap, shape, x);
        Forget(x, WithoutMember(shape, x));
      }
    }

    /** The cells of `x` are no longer the bins' business. */
    method Forget(x: int, ghost g: Shape)
      requires Inv(chunks - {x}, treebins, treemap, g) && Keyed(chunks - {x}, g)
      modifies this
      ensures Valid() && Contents() == SizesOf(old(chunks) - {x})
    {
      chunks := chunks - {x};
      shape := g;
    }

    /** `F->bk = R; R->fd = F`. */
    method CutFromRing(x: int)
      requires x in chunks && chunks[x].fd in chunks && chunks[x].bk in chunks
      modifies this`chunks
      ensures chunks == CutMem(old(chunks), x)
    {
      var f, r := chunks[x].fd, chunks[x].bk;
      chunks := chunks[f := chunks[f].(bk := r)];
      chunks := chunks[r := chunks[r].(fd := f)];
    }

    /** `x` is the only chunk of its size; a leaf below it, if any, replaces it. */
    method UnlinkLone(x: int)
      requires Valid() && x in chunks && chunks[x].bk == x
      modifies this
      ensures Valid() && Contents() == old(Contents()) - {x}
    {
      ghost var c := chunks;
      LoneIsNode(c, shape, x);
      var r, o, b := CutRightmost(x);
      if r == 0 {
        LeafReady(c, treebins, treemap, shape, x);
        Substitute(x, r, WithoutLeaf(shape, x));
      } else {
        MoveReady(c, treebins, treemap, shape, x, r, o, b);
        Substitute(x, r, Moved(shape, x, r));
      }
    }

    /** The tree node `x` gives its place to `r` and leaves the bins. */
    method Substitute(x: int, r: int, ghost g: Shape)
      requires Replaceable(chunks, treebins, treemap, x, r)
      requires Substituted(chunks, treebins, treemap, x, r, g)
      modifies this
      ensures Valid() && Contents() == SizesOf(RelinkMem(old(chunks), x, r) - {x})
    {
      Replace(x, r);
      chunks := chunks - {x};
      shape := g;
    }

    /** Finds the rightmost leaf below `x` and cuts it off from its parent. */
    method CutRightmost(x: int) returns (r: int, o: int, b: nat)
      requires Valid() && x in chunks && shape.spot[x].rank == 0 && |shape.ring[shape.spot[x].pos]| == 1
      modifies this`chunks
      ensures r == 0 ==> chunks == old(chunks) && chunks[x].child0 == 0 && chunks[x].child1 == 0
      ensures r != 0 ==>
                && CutsOff(old(chunks), r, o, b) && chunks == NullMem(old(chunks), o, b)
                && LeafBelow(shape, x, r)
    {
      o, b, r := x, 1, chunks[x].child1;
      if r == 0 {
        b, r := 0, chunks[x].child0;
      }
      if r != 0 {
        FirstChild(chunks, shape, x, b);
        while chunks[r].child1 != 0 || chunks[r].child0 != 0
          invariant chunks == old(chunks) && Descending(chunks, shape, x, r, o, b)
          decreases LevelsBelow(shape, shape.spot[r].pos.depth)
        {
          if chunks[r].child1 != 0 {
            DescendStep(chunks, shape, x, r, o, b, 1);
            o, b, r := r, 1, chunks[r].child1;
          } else {
            DescendStep(chunks, shape, x, r, o, b, 0);
            o, b, r := r, 0, chunks[r].child0;
          }
        }
        DescentEnds(chunks, shape, x, r, o, b);
        chunks := chunks[o := if b == 0 then chunks[o].(child0 := 0) else chunks[o].(child1 := 0)];
      }
    }

    /** Relinks the header or parent and the children of the tree node `x` to `r`. */
    method Replace(x: int, r: int)
      requires Replaceable(chunks, treebins, treemap, x, r)
      modifies this`chunks, this`treebins, this`treemap
      ensures chunks == RelinkMem(old(chunks), x, r)
      ensures treebins == HeaderMem(old(treebins), old(chunks[x]), r)
      ensures treemap == MapMem(old(treemap), old(chunks[x]), r)
    {
      var xp := chunks[x].parent;
      var c0, c1 := chunks[x].child0, chunks[x].child1;
      PointParent(x, r);
      if r != 0 {
        chunks := chunks[r := chunks[r].(parent := xp)];
        Adopt(r, 0, c0);
        Adopt(r, 1, c1);
      }
    }

    /** The header or the parent of `x` now points at `r`; an emptied bin loses its map bit. */
    method PointParent(x: int, r: int)
      requires Replaceable(chunks, treebins, treemap, x, r)
      modifies this`chunks, this`treebins, this`treemap
      ensures chunks == ParentMem(old(chunks), x, r)
      ensures treebins == HeaderMem(old(treebins), old(chunks[x]), r)
      ensures treemap == MapMem(old(treemap), old(chunks[x]), r)
    {
      var i := chunks[x].index;
      Idx2BitRange(i, MAP_BITS);
      if x == treebins[i] {
        treebins := treebins[i := r];
        if r == 0 {
          treemap := And(treemap, Not(Idx2Bit(i), MAP_BITS));
        }
      } else {
        var p := chunks[x].parent.addr;
        chunks := chunks[p := if chunks[p].child0 == x then chunks[p].(child0 := r) else chunks[p].(child1 := r)];
      }
    }

    method Adopt(r: int, b: nat, child: int)
      requires r in chunks && (child != 0 ==> child in chunks)
      modifies this`chunks
      ensures chunks == AdoptMem(old(chunks), r, b, child)
    {
      if child != 0 {
        chunks := chunks[r := if b == 0 then chunks[r].(child0 := child) else chunks[r].(child1 := child)];
        chunks := chunks[child := chunks[child].(parent := Node(r))];
      }
    }

    /** The first loop of `tmalloc_large` (4443-4460) from the root `t0` of the bin of `nb`. */
    method FirstWalk(nb: nat, bin: nat, t0: int) returns (v: int, rsize: nat, t: int)
      requires Valid() && MIN_LARGE_SIZE <= nb < WORD && bin == TreeIndex(nb)
      requires t0 == treebins[bin] && t0 != 0
      ensures Root(bin) in shape.ring && Trie(chunks, shape)
      ensures v != 0 ==> v in chunks && 0 <= chunks[v].size < WORD
      ensures rsize == RSize(chunks, nb, v)
      ensures match FirstPass(chunks, shape, nb, bin, StartBits(nb), 0, 0, -1)
              case Exact(u) => v == u && t == u
              case PathEnd(u, e) => v == u && t == RstPointer(shape, bin, StartBits(nb), e)
    {
      HeaderStands(chunks, treebins, treemap, shape, bin);
      ValidIsSearchable(chunks, treebins, treemap, shape);
      hide TreeIndex, Inv, Keyed, Roots;
      v, rsize, t := 0, WORD - nb, t0;
      var sizebits := Shl(nb, LeftShift(bin));
      var rst := 0;
      ghost var w, d, e := StartBits(nb), 0, -1;
      while true
        invariant WalksAt(chunks, shape, nb, bin, w, d, t, v, e) && sizebits == Steer(w, d)
        invariant rsize == RSize(chunks, nb, v) && rst == RstPointer(shape, bin, w, e)
        invariant FirstPass(chunks, shape, nb, bin, w, 0, 0, -1) == FirstPass(chunks, shape, nb, bin, w, d, v, e)
        decreases LevelsBelow(shape, d)
      {
        WalkStep(chunks, shape, nb, bin, w, d, t, v, e);
        var trem := Sub(chunks[t].size, nb);
        ghost var v0 := v;
        if trem < rsize {
          v, rsize := t, trem;
          if rsize == 0 { break; }
        }
        assert v == Better(chunks, nb, v0, t);
        var rt := chunks[t].child1;
        t := if TopBit(sizebits) == 1 then chunks[t].child1 else chunks[t].child0;
        if rt != 0 && rt != t { rst := rt; }
        e := NextRst(shape, bin, w, d, e);
        if t == 0 {
          t := rst;
          break;
        }
        sizebits := Shl1(sizebits);
        d := d + 1;
      }
    }

    /** The loop to the leftmost leaf (4472-4479 and 4513-4519). */
    method SecondWalk(nb: nat, t0: int, v0: int, rsize0: nat, ghost p0: Pos) returns (v: int, rsize: nat)
      requires Valid() && Trie(chunks, shape) && 0 < nb < WORD
      requires t0 != 0 ==> StandsAt(chunks, shape, t0, p0)
      requires v0 != 0 ==> v0 in chunks
      requires rsize0 == RSize(chunks, nb, v0)
      ensures v == if t0 == 0 then v0 else SecondPass(chunks, shape, p0, nb, v0)
      ensures v != 0 ==> v in chunks && 0 <= chunks[v].size < WORD
      ensures rsize == RSize(chunks, nb, v)
    {
      var t := t0;
      v, rsize := v0, rsize0;
      ghost var p := p0;
      while t != 0
        invariant t != 0 ==> StandsAt(chunks, shape, t, p)
        invariant v != 0 ==> v in chunks
        invariant rsize == RSize(chunks, nb, v)
        invariant t0 != 0 ==> SecondPass(chunks, shape, p0, nb, v0)
                              == if t == 0 then v else SecondPass(chunks, shape, p, nb, v)
        invariant t0 == 0 ==> t == 0 && v == v0
        decreases t != 0, if t != 0 then LevelsBelow(shape, p.depth) else 0
      {
        LeftmostStepPointer(chunks, shape, t, p);
        var trem := Sub(chunks[t].size, nb);
        if trem < rsize {
          rsize := trem;
          v := t;
        }
        t := if chunks[t].child0 != 0 then chunks[t].child0 else chunks[t].child1;
        p := LeftmostBelow(shape, p);
      }
    }

    /** The search of `tmalloc_large` (4433-4482): the tree-binned chunk to allocate from, 0 if none
        fits or the designated victim fits at least as well. */
    method SelectLarge(nb: nat, dvsize: nat) returns (v: int)
      requires Valid() && MIN_LARGE_SIZE <= nb < WORD && dvsize < WORD
      ensures v != 0 ==> v in chunks && nb <= chunks[v].size && BeatsDv(chunks[v].size, dvsize, nb)
      ensures Exactly(chunks, nb) && v != 0 ==>
                forall a :: a in chunks && chunks[a].size >= nb ==> chunks[v].size <= chunks[a].size
      ensures Exactly(chunks, nb) && v == 0 ==>
                forall a :: a in chunks && chunks[a].size >= nb ==> nb <= dvsize <= chunks[a].size
    {
      ChosenIsBest(chunks, treebins, treemap, shape, nb);
      var rsize;
      v, rsize := Search(nb);
      if v == 0 || rsize >= Sub(dvsize, nb) {
        v := 0;
      }
    }

    /** Both loops and the step to the next non-empty bin. */
    method Search(nb: nat) returns (v: int, rsize: nat)
      requires Valid() && MIN_LARGE_SIZE <= nb < WORD
      ensures Searchable(chunks, treebins, treemap, shape)
      ensures v == Chosen(chunks, treebins, treemap, shape, nb)
      ensures v != 0 ==> v in chunks && 0 <= chunks[v].size < WORD
      ensures rsize == RSize(chunks, nb, v)
    {
      ValidIsSearchable(chunks, treebins, treemap, shape);
      var idx := TreeIndex(nb);
      var t := treebins[idx];
      v, rsize := 0, WORD - nb;
      ghost var p := Root(idx);
      HeaderStands(chunks, treebins, treemap, shape, idx);
      if t != 0 {
        FirstPassEnds(chunks, shape, nb, idx, StartBits(nb), 0, 0, -1);
        v, rsize, t := FirstWalk(nb, idx, t);
        p := match FirstPass(chunks, shape, nb, idx, StartBits(nb), 0, 0, -1)
        case Exact(u) => shape.spot[u].pos
        case PathEnd(_, e) => if e >= 0 then RightOf(idx, StartBits(nb), e) else p;
        ResumeStands(chunks, shape, t, p);
      }
      if t == 0 && v == 0 {
        NextBin(treemap, idx);
        var leftbits := BinsAbove(treemap, idx);
        if leftbits != 0 {
          var i := Bit2Idx(LeastBit(leftbits, MAP_BITS));
          t := treebins[i];
          p := Root(i);
          HeaderStands(chunks, treebins, treemap, shape, i);
        }
      }
      v, rsize := SecondWalk(nb, t, v, rsize, p);
    }

    /** The search of `tmalloc_small` (4504-4519). */
    method SelectSmall(nb: nat) returns (v: int)
      requires Valid() && treemap != 0 && 0 < nb <= MIN_LARGE_SIZE
      ensures v in chunks
      ensures Ordered(chunks) ==> forall a :: a in chunks ==> chunks[v].size <= chunks[a].size
    {
      ValidIsSearchable(chunks, treebins, treemap, shape);
      FirstSetBit(treemap);
      var i := Bit2Idx(LeastBit(treemap, MAP_BITS));
      HeaderStands(chunks, treebins, treemap, shape, i);
      var rsize;
      v, rsize := SecondWalk(nb, treebins[i], 0, WORD - nb, Root(i));
      SomethingSmall(chunks, treebins, treemap, shape, nb);
      if Ordered(chunks) {
        forall a | a in chunks ensures chunks[v].size <= chunks[a].size {
          SmallestIsLeast(chunks, treebins, treemap, shape, nb, a);
        }
      }
    }
  }
}
