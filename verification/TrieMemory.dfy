/** The tree bins of `osrt/c/dlmalloc.c` as memory: the fields of every binned chunk, the
    bin headers and the bin map, and the invariant that `do_check_tree` and
    `do_check_treebin` state about them (`osrt/c/dlmalloc.c:3300-3359`).

    An address is an integer and 0 is the null pointer; a map from addresses holds the
    fields of the binned chunks.  `Shape` is ghost structure: which ring of same-sized
    chunks hangs at which trie position, and where each chunk is in it. */
module TrieMemory {
  import opened Words
  import opened BitMaps
  import opened BinIndex
  import opened TriePaths

  /** `parent` of a chunk: null for a ring member outside the tree, the bin header for a
      root, a tree node otherwise. */
  datatype Parent = NoParent | Header(bin: int) | Node(addr: int)

  /** `struct malloc_tree_chunk`, with the size taken from `head`. */
  datatype TreeChunk = TreeChunk(
    size: int, fd: int, bk: int, child0: int, child1: int, parent: Parent, index: int)

  type Chunks = map<int, TreeChunk>

  /** A chunk's place: its position, its rank in the ring there, and its steering word. */
  datatype Spot = Spot(pos: Pos, rank: int, word: int)

  datatype Shape = Shape(ring: map<Pos, seq<int>>, spot: map<int, Spot>)

  /** The tree node at a position, or null. */
  function Look(ring: map<Pos, seq<int>>, p: Pos): int {
    if p in ring && |ring[p]| > 0 then ring[p][0] else 0
  }

  function ParentAt(ring: map<Pos, seq<int>>, p: Pos): Parent {
    if p.depth == 0 then Header(p.bin) else Node(Look(ring, Up(p)))
  }

  function Next(j: int, n: int): int {
    if j + 1 == n then 0 else j + 1
  }

  function Prev(j: int, n: int): int {
    if j == 0 then n - 1 else j - 1
  }

  // ---- Invariant -------------------------------------------------------------------

  /** Rings partition the binned chunks, and the positions in use are closed under parents. */
  ghost predicate Partition(g: Shape) {
    && 0 !in g.spot
    && (forall p {:trigger g.ring[p]} :: p in g.ring ==> |g.ring[p]| > 0)
    && (forall p, j {:trigger g.ring[p][j]} :: p in g.ring && 0 <= j < |g.ring[p]| ==>
          var a := g.ring[p][j]; a in g.spot && g.spot[a].pos == p && g.spot[a].rank == j)
    && (forall a {:trigger g.spot[a]} :: a in g.spot ==>
          var s := g.spot[a]; s.pos in g.ring && 0 <= s.rank < |g.ring[s.pos]| && g.ring[s.pos][s.rank] == a)
    && (forall p {:trigger Up(p)} :: p in g.ring ==> Up(p) in g.ring)
  }

  /** The bit-prefix invariant: the steering word of every chunk leads through its position. */
  ghost predicate OnPath(g: Shape) {
    forall a {:trigger g.spot[a]} :: a in g.spot ==>
      var s := g.spot[a]; 0 <= s.word < WORD && s.pos == Path(s.pos.bin, s.word, s.pos.depth)
  }

  /** The tree pointers of tree nodes (rank 0) follow the positions; other ring members have none. */
  ghost predicate Links(c: Chunks, g: Shape)
    requires c.Keys == g.spot.Keys
  {
    forall a {:trigger c[a].child0} {:trigger c[a].child1} {:trigger c[a].parent} :: a in c ==>
      LinkAt(c[a], g, g.spot[a])
  }

  ghost predicate LinkAt(t: TreeChunk, g: Shape, s: Spot) {
    if s.rank == 0 then
      && t.child0 == Look(g.ring, Down(s.pos, 0))
      && t.child1 == Look(g.ring, Down(s.pos, 1))
      && t.parent == ParentAt(g.ring, s.pos)
    else
      t.child0 == 0 && t.child1 == 0 && t.parent == NoParent
  }

  /** `fd` and `bk` run round each ring in opposite directions. */
  ghost predicate Circular(c: Chunks, g: Shape)
    requires c.Keys == g.spot.Keys && Partition(g)
  {
    && (forall a {:trigger c[a].fd} :: a in c ==>
          var r := g.ring[g.spot[a].pos]; c[a].fd == r[Next(g.spot[a].rank, |r|)])
    && (forall a {:trigger c[a].bk} :: a in c ==>
          var r := g.ring[g.spot[a].pos]; c[a].bk == r[Prev(g.spot[a].rank, |r|)])
  }

  predicate SameSize(t: TreeChunk, u: TreeChunk) {
    t.size == u.size
  }

  /** One size per position and one position per size; the stored index is the bin. */
  ghost predicate Sizes(c: Chunks, g: Shape)
    requires c.Keys == g.spot.Keys
  {
    && (forall a {:trigger c[a].index} :: a in c ==> c[a].index == g.spot[a].pos.bin)
    && (forall a, b {:trigger SameSize(c[a], c[b])} :: a in c && b in c ==>
          (SameSize(c[a], c[b]) <==> g.spot[a].pos == g.spot[b].pos))
  }

  /** A header holds the root of its bin, and its map bit is set exactly when there is one. */
  ghost predicate Roots(bins: seq<int>, treemap: nat, g: Shape) {
    && |bins| == NTREEBINS
    && treemap < MAP
    && (forall p :: p in g.ring ==> 0 <= p.bin < NTREEBINS)
    && (forall i {:trigger bins[i]} :: 0 <= i < NTREEBINS ==> bins[i] == Look(g.ring, Root(i)))
    && (forall i {:trigger BitAt(treemap, i)} :: 0 <= i < NTREEBINS ==> (BitAt(treemap, i) <==> Root(i) in g.ring))
  }

  ghost predicate Inv(c: Chunks, bins: seq<int>, treemap: nat, g: Shape) {
    && c.Keys == g.spot.Keys
    && Partition(g) && OnPath(g)
    && Links(c, g) && Circular(c, g) && Sizes(c, g)
    && Roots(bins, treemap, g)
  }

  /** The bin and the steering word of a chunk are those of its size. */
  ghost predicate Keyed(c: Chunks, g: Shape) {
    && c.Keys == g.spot.Keys
    && (forall a {:trigger c[a].size} :: a in c ==> MIN_LARGE_SIZE <= c[a].size < WORD)
    && (forall a {:trigger TreeIndex(c[a].size)} :: a in c ==> g.spot[a].pos.bin == TreeIndex(c[a].size))
    && (forall a {:trigger StartBits(c[a].size)} :: a in c ==> g.spot[a].word == StartBits(c[a].size))
  }

  // ---- Facts about every valid trie ------------------------------------------------

  /** If a ring hangs below depth `d` on a path, the path is populated down to `d`. */
  lemma {:induction false} PathPopulated(g: Shape, bin: int, k: nat, d: nat, e: nat)
    requires Partition(g) && k < WORD && d <= e
    requires Path(bin, k, e) in g.ring
    ensures Path(bin, k, d) in g.ring
    decreases e
  {
    if d < e {
      PathStep(bin, k, e - 1);
      assert Up(Path(bin, k, e)) in g.ring;
      PathPopulated(g, bin, k, d, e - 1);
    }
  }

  /** Nothing hangs below a free position. */
  lemma {:induction false} FreeBelow(g: Shape, p: Pos, b: nat)
    requires Partition(g) && p !in g.ring && b <= 1
    ensures Down(p, b) !in g.ring
  {
    UpDown(p, b);
  }

  // ---- Adding a node at a free position ----------------------------------------------

  /** `g` with chunk `x` alone in a ring at the free position `p`. */
  ghost function Attached(g: Shape, x: int, k: int, p: Pos): Shape {
    Shape(g.ring[p := [x]], g.spot[x := Spot(p, 0, k)])
  }

  lemma {:induction false} AttachPartition(g: Shape, x: int, k: nat, p: Pos)
    requires Partition(g) && OnPath(g)
    requires x != 0 && x !in g.spot && k < WORD
    requires p !in g.ring && p == Path(p.bin, k, p.depth)
    requires p.depth > 0 ==> Up(p) in g.ring
    ensures Partition(Attached(g, x, k, p)) && OnPath(Attached(g, x, k, p))
  {
    var g' := Attached(g, x, k, p);
    forall q, j | q in g'.ring && 0 <= j < |g'.ring[q]|
      ensures var a := g'.ring[q][j]; a in g'.spot && g'.spot[a].pos == q && g'.spot[a].rank == j
    {
      if q != p { assert g.ring[q][j] in g.spot; }
    }
  }

  lemma {:induction false} AttachRootLinks(c: Chunks, g: Shape, c': Chunks, x: int, k: int, p: Pos)
    requires c.Keys == g.spot.Keys && Partition(g) && Links(c, g)
    requires x !in g.spot && p !in g.ring && p.depth == 0
    requires x in c' && c' == c[x := c'[x]]
    requires c'[x].child0 == 0 && c'[x].child1 == 0 && c'[x].parent == Header(p.bin)
    ensures Links(c', Attached(g, x, k, p))
  {
    var g' := Attached(g, x, k, p);
    FreeBelow(g, p, 0);
    FreeBelow(g, p, 1);
    forall a | a in c' ensures LinkAt(c'[a], g', g'.spot[a]) {
      if a != x {
        assert LinkAt(c[a], g, g.spot[a]) by { assert c[a].child0 == c[a].child0; }
        assert Up(g.spot[a].pos) in g.ring;
      }
    }
  }

  /** `c'` adds `x` to `c` and leaves rings, sizes and indices alone. */
  ghost predicate Grown(c: Chunks, c': Chunks, x: int) {
    && c'.Keys == c.Keys + {x}
    && forall a {:trigger c'[a]} :: a in c ==>
         c'[a].fd == c[a].fd && c'[a].bk == c[a].bk && c'[a].size == c[a].size && c'[a].index == c[a].index
  }

  lemma {:induction false} AttachCircular(c: Chunks, g: Shape, c': Chunks, x: int, k: nat, p: Pos)
    requires c.Keys == g.spot.Keys && Partition(g) && Circular(c, g)
    requires Grown(c, c', x) && Partition(Attached(g, x, k, p))
    requires x !in g.spot && p !in g.ring
    requires c'[x].fd == x && c'[x].bk == x
    ensures Circular(c', Attached(g, x, k, p))
  {
    var g' := Attached(g, x, k, p);
    forall a | a in c'
      ensures c'[a].fd == (var r := g'.ring[g'.spot[a].pos]; r[Next(g'.spot[a].rank, |r|)])
    {
      if a != x { assert g.spot[a].pos in g.ring; }
    }
    forall a | a in c'
      ensures c'[a].bk == (var r := g'.ring[g'.spot[a].pos]; r[Prev(g'.spot[a].rank, |r|)])
    {
      if a != x { assert g.spot[a].pos in g.ring; }
    }
  }

  lemma {:induction false} AttachSizes(c: Chunks, g: Shape, c': Chunks, x: int, k: nat, p: Pos)
    requires c.Keys == g.spot.Keys && Partition(g) && Sizes(c, g)
    requires Grown(c, c', x)
    requires x !in g.spot && p !in g.ring && c'[x].index == p.bin
    requires forall a {:trigger c[a].size} :: a in c ==> c[a].size != c'[x].size
    ensures Sizes(c', Attached(g, x, k, p))
  {
    var g' := Attached(g, x, k, p);
    forall a, b | a in c' && b in c'
      ensures SameSize(c'[a], c'[b]) <==> g'.spot[a].pos == g'.spot[b].pos
    {
      if a != x { assert g.spot[a].pos in g.ring; }
      if b != x { assert g.spot[b].pos in g.ring; }
      if a != x && b != x { assert SameSize(c[a], c[b]) <==> g.spot[a].pos == g.spot[b].pos; }
    }
  }

  lemma {:induction false} AttachRoots(bins: seq<int>, treemap: nat, g: Shape, x: int, k: nat, p: Pos)
    requires Roots(bins, treemap, g) && Partition(g)
    requires p !in g.ring && 0 <= p.bin < NTREEBINS && p.depth != 0
    ensures Roots(bins, treemap, Attached(g, x, k, p))
  {}

  lemma {:induction false} AttachRootRoots(bins: seq<int>, treemap: nat, g: Shape, x: int, k: nat, i: nat)
    requires Roots(bins, treemap, g) && Partition(g)
    requires Root(i) !in g.ring && i < NTREEBINS
    ensures Roots(bins[i := x], Or(treemap, Idx2Bit(i)), Attached(g, x, k, Root(i)))
  {
    Pow2Values();
    hide Pow2, Idx2Bit, BitAt, Or;
    Idx2BitRange(i, MAP_BITS);
    OrRange(treemap, Idx2Bit(i), MAP_BITS);
    forall j | 0 <= j < NTREEBINS
      ensures BitAt(Or(treemap, Idx2Bit(i)), j) <==> i == j || BitAt(treemap, j)
    {
      MarkBit(treemap, i, j);
    }
  }

  /** Storing `x` in the header of an empty bin keeps the invariant. */
  lemma {:induction false} AttachRootKeeps(c: Chunks, bins: seq<int>, treemap: nat, g: Shape, x: int, s: int, k: nat,
                                           i: nat)
    requires Inv(c, bins, treemap, g)
    requires x != 0 && x !in c && k < WORD && i < NTREEBINS
    requires Root(i) !in g.ring
    requires forall a {:trigger c[a].size} :: a in c ==> c[a].size != s
    ensures Inv(c[x := TreeChunk(s, x, x, 0, 0, Header(i), i)], bins[i := x], Or(treemap, Idx2Bit(i)),
                Attached(g, x, k, Root(i)))
  {
    var p := Root(i);
    var c' := c[x := TreeChunk(s, x, x, 0, 0, Header(i), i)];
    AttachPartition(g, x, k, p);
    AttachRootLinks(c, g, c', x, k, p);
    AttachCircular(c, g, c', x, k, p);
    AttachSizes(c, g, c', x, k, p);
    AttachRootRoots(bins, treemap, g, x, k, i);
  }

  /** `x` stored as child `b` of `t`. */
  ghost predicate LeafStored(c: Chunks, c': Chunks, x: int, t: int, b: nat) {
    && c'.Keys == c.Keys + {x}
    && c'[x].child0 == 0 && c'[x].child1 == 0 && c'[x].parent == Node(t)
    && forall a {:trigger c'[a]} :: a in c ==>
         && c'[a].child0 == (if a == t && b == 0 then x else c[a].child0)
         && c'[a].child1 == (if a == t && b == 1 then x else c[a].child1)
         && c'[a].parent == c[a].parent
  }

  lemma {:induction false} AttachLeafLinks(c: Chunks, g: Shape, c': Chunks, x: int, k: int, t: int, b: nat)
    requires c.Keys == g.spot.Keys && Partition(g) && Links(c, g)
    requires x !in c && t in c && g.spot[t].rank == 0
    requires b <= 1 && Down(g.spot[t].pos, b) !in g.ring
    requires LeafStored(c, c', x, t, b)
    ensures Links(c', Attached(g, x, k, Down(g.spot[t].pos, b)))
  {
    var p := Down(g.spot[t].pos, b);
    var g' := Attached(g, x, k, p);
    UpDown(g.spot[t].pos, b);
    FreeBelow(g, p, 0);
    FreeBelow(g, p, 1);
    forall a | a in c' ensures LinkAt(c'[a], g', g'.spot[a]) {
      if a != x {
        assert LinkAt(c[a], g, g.spot[a]) by { assert c[a].child0 == c[a].child0; }
        AttachLeafLinkAt(c, g, c', x, k, t, b, a);
      }
    }
  }

  lemma {:induction false} AttachLeafLinkAt(c: Chunks, g: Shape, c': Chunks, x: int, k: int, t: int, b: nat, a: int)
    requires c.Keys == g.spot.Keys && Partition(g) && a in c && LinkAt(c[a], g, g.spot[a])
    requires x !in c && t in c && g.spot[t].rank == 0
    requires b <= 1 && Down(g.spot[t].pos, b) !in g.ring
    requires LeafStored(c, c', x, t, b)
    ensures LinkAt(c'[a], Attached(g, x, k, Down(g.spot[t].pos, b)), g.spot[a])
  {
    if g.spot[a].rank == 0 {
      LookAttached(g, x, Down(g.spot[t].pos, b), t, b, a);
      LookKept(g, x, Down(g.spot[t].pos, b), Up(g.spot[a].pos));
    }
  }

  lemma {:induction false} LookKept(g: Shape, x: int, p: Pos, q: Pos)
    requires p !in g.ring && q in g.ring
    ensures Look(g.ring[p := [x]], q) == Look(g.ring, q)
  {}

  /** Two tree nodes at the same position are the same node. */
  lemma {:induction false} SameNode(g: Shape, a: int, b: int)
    requires Partition(g) && a in g.spot && b in g.spot
    requires g.spot[a].rank == 0 && g.spot[b].rank == 0 && g.spot[a].pos == g.spot[b].pos
    ensures a == b
  {}

  lemma {:induction false} LookAttached(g: Shape, x: int, p: Pos, t: int, b: nat, a: int)
    requires Partition(g) && t in g.spot && g.spot[t].rank == 0
    requires b <= 1 && p == Down(g.spot[t].pos, b) && a in g.spot && g.spot[a].rank == 0
    ensures var q := g.spot[a].pos;
            && Look(g.ring[p := [x]], Down(q, 0)) == (if a == t && b == 0 then x else Look(g.ring, Down(q, 0)))
            && Look(g.ring[p := [x]], Down(q, 1)) == (if a == t && b == 1 then x else Look(g.ring, Down(q, 1)))
  {
    var q := g.spot[a].pos;
    if Down(q, 0) == p { DownInjective(q, 0, g.spot[t].pos, b); SameNode(g, a, t); }
    if Down(q, 1) == p { DownInjective(q, 1, g.spot[t].pos, b); SameNode(g, a, t); }
  }

  lemma {:induction false} AttachLeafShape(c: Chunks, g: Shape, c': Chunks, x: int, k: nat, t: int, b: nat)
    requires c.Keys == g.spot.Keys && Partition(g) && OnPath(g) && Links(c, g)
    requires x != 0 && x !in c && k < WORD
    requires t in c && g.spot[t].rank == 0
    requires g.spot[t].pos == Path(g.spot[t].pos.bin, k, g.spot[t].pos.depth)
    requires b == Branch(k, g.spot[t].pos.depth) && Down(g.spot[t].pos, b) !in g.ring
    requires LeafStored(c, c', x, t, b)
    ensures var g' := Attached(g, x, k, Down(g.spot[t].pos, b));
            Partition(g') && OnPath(g') && Links(c', g')
  {
    var p := Down(g.spot[t].pos, b);
    PathStep(p.bin, k, g.spot[t].pos.depth);
    UpDown(g.spot[t].pos, b);
    AttachPartition(g, x, k, p);
    AttachLeafLinks(c, g, c', x, k, t, b);
  }

  /** Storing `x` in the free child slot that its own path asks for keeps the invariant. */
  lemma {:induction false} AttachLeafKeeps(c: Chunks, bins: seq<int>, treemap: nat, g: Shape, c': Chunks, x: int,
                                           k: nat, t: int, b: nat)
    requires Inv(c, bins, treemap, g)
    requires x != 0 && x !in c && k < WORD
    requires t in c && g.spot[t].rank == 0
    requires g.spot[t].pos == Path(g.spot[t].pos.bin, k, g.spot[t].pos.depth)
    requires b == Branch(k, g.spot[t].pos.depth) && Down(g.spot[t].pos, b) !in g.ring
    requires Grown(c, c', x) && LeafStored(c, c', x, t, b)
    requires c'[x].fd == x && c'[x].bk == x && c'[x].index == g.spot[t].pos.bin
    requires forall a {:trigger c[a].size} :: a in c ==> c[a].size != c'[x].size
    ensures Inv(c', bins, treemap, Attached(g, x, k, Down(g.spot[t].pos, b)))
  {
    var p := Down(g.spot[t].pos, b);
    AttachLeafShape(c, g, c', x, k, t, b);
    AttachCircular(c, g, c', x, k, p);
    AttachSizes(c, g, c', x, k, p);
    AttachRoots(bins, treemap, g, x, k, p);
  }

  // ---- Adding a chunk to a ring ------------------------------------------------------

  /** `g` with `x` linked into the ring at `p`, right behind the tree node. */
  ghost function Joined(g: Shape, x: int, k: int, p: Pos): Shape
    requires p in g.ring && |g.ring[p]| > 0
  {
    Shape(g.ring[p := [g.ring[p][0], x] + g.ring[p][1..]],
          (map a | a in g.spot ::
             if g.spot[a].pos == p && g.spot[a].rank > 0 then Spot(p, g.spot[a].rank + 1, g.spot[a].word)
             else g.spot[a])[x := Spot(p, 1, k)])
  }

  lemma {:induction false} JoinPartition(g: Shape, x: int, k: nat, p: Pos)
    requires Partition(g) && OnPath(g)
    requires x != 0 && x !in g.spot && k < WORD
    requires p in g.ring && p == Path(p.bin, k, p.depth)
    ensures Partition(Joined(g, x, k, p)) && OnPath(Joined(g, x, k, p))
  {
    var g' := Joined(g, x, k, p);
    var r, r' := g.ring[p], g'.ring[p];
    forall q, j | q in g'.ring && 0 <= j < |g'.ring[q]|
      ensures var a := g'.ring[q][j]; a in g'.spot && g'.spot[a].pos == q && g'.spot[a].rank == j
    {
      if q != p { assert g.ring[q][j] in g.spot; }
      else if j > 1 { assert r'[j] == r[j - 1]; }
      else { assert r[0] in g.spot; }
    }
    forall a | a in g'.spot
      ensures var s := g'.spot[a]; s.pos in g'.ring && 0 <= s.rank < |g'.ring[s.pos]| && g'.ring[s.pos][s.rank] == a
    {
      if a != x && g.spot[a].pos == p && g.spot[a].rank > 0 { assert r'[g.spot[a].rank + 1] == r[g.spot[a].rank]; }
    }
  }

  /** `x` stored in the ring of the tree node `t`, right behind it. */
  ghost predicate RingStored(c: Chunks, c': Chunks, x: int, t: int) {
    && t in c && c'.Keys == c.Keys + {x}
    && c'[x] == TreeChunk(c[t].size, c[t].fd, t, 0, 0, NoParent, c[t].index)
    && forall a {:trigger c'[a]} :: a in c ==>
         c'[a] == c[a].(fd := if a == t then x else c[a].fd, bk := if a == c[t].fd then x else c[a].bk)
  }

  lemma {:induction false} JoinLinks(c: Chunks, g: Shape, c': Chunks, x: int, k: int, p: Pos)
    requires c.Keys == g.spot.Keys && Partition(g) && Links(c, g)
    requires x !in c && p in g.ring && RingStored(c, c', x, g.ring[p][0])
    ensures Links(c', Joined(g, x, k, p))
  {
    var g' := Joined(g, x, k, p);
    forall a | a in c' ensures LinkAt(c'[a], g', g'.spot[a]) {
      if a != x {
        assert LinkAt(c[a], g, g.spot[a]) by { assert c[a].child0 == c[a].child0; }
        LookJoined(g, x, k, p, Down(g.spot[a].pos, 0));
        LookJoined(g, x, k, p, Down(g.spot[a].pos, 1));
        LookJoined(g, x, k, p, Up(g.spot[a].pos));
      }
    }
  }

  lemma {:induction false} LookJoined(g: Shape, x: int, k: int, p: Pos, q: Pos)
    requires p in g.ring && |g.ring[p]| > 0
    ensures Look(Joined(g, x, k, p).ring, q) == Look(g.ring, q)
  {}


  lemma {:induction false} JoinFdCore(r: seq<int>, x: int, j: nat, next: int)
    requires j < |r| && next == if j == 0 then x else r[Next(j, |r|)]
    ensures var r' := [r[0], x] + r[1..];
            next == r'[Next(if j > 0 then j + 1 else 0, |r'|)]
  {}

  lemma {:induction false} JoinBkCore(r: seq<int>, x: int, j: nat, prev: int)
    requires j < |r| && prev == if j == Next(0, |r|) then x else r[Prev(j, |r|)]
    ensures var r' := [r[0], x] + r[1..];
            prev == r'[Prev(if j > 0 then j + 1 else 0, |r'|)]
  {}

  lemma {:induction false} JoinFd(c: Chunks, g: Shape, c': Chunks, x: int, k: int, p: Pos, a: int)
    requires c.Keys == g.spot.Keys && Partition(g) && Circular(c, g)
    requires x !in c && p in g.ring && Partition(Joined(g, x, k, p))
    requires RingStored(c, c', x, g.ring[p][0])
    requires a in c'
    ensures var g' := Joined(g, x, k, p);
            var r := g'.ring[g'.spot[a].pos]; c'[a].fd == r[Next(g'.spot[a].rank, |r|)]
  {
    var r := g.ring[p];
    if a == x {
      JoinBkCore(r, x, Next(0, |r|), x);
      assert c[r[0]].fd == r[Next(0, |r|)];
    } else if g.spot[a].pos == p {
      JoinFdCore(r, x, g.spot[a].rank, c'[a].fd);
    }
  }

  /** The chunk behind a tree node is the one of rank 1, or the node itself if it is alone. */
  lemma {:induction false} BehindNode(c: Chunks, g: Shape, p: Pos, a: int)
    requires c.Keys == g.spot.Keys && Partition(g) && Circular(c, g)
    requires p in g.ring && a in c
    ensures g.ring[p][0] in c
    ensures a == c[g.ring[p][0]].fd <==> g.spot[a].pos == p && g.spot[a].rank == Next(0, |g.ring[p]|)
  {
    var r := g.ring[p];
    assert c[r[0]].fd == r[Next(0, |r|)];
  }

  lemma {:induction false} JoinBk(c: Chunks, g: Shape, c': Chunks, x: int, k: int, p: Pos, a: int)
    requires c.Keys == g.spot.Keys && Partition(g) && Circular(c, g)
    requires x !in c && p in g.ring && Partition(Joined(g, x, k, p))
    requires RingStored(c, c', x, g.ring[p][0])
    requires a in c
    ensures var g' := Joined(g, x, k, p);
            var r := g'.ring[g'.spot[a].pos]; c'[a].bk == r[Prev(g'.spot[a].rank, |r|)]
  {
    hide Circular, Up, Next;
    BehindNode(c, g, p, a);
    RingAt(c, g, a);
    if g.spot[a].pos == p { JoinBkCore(g.ring[p], x, g.spot[a].rank, c'[a].bk); }
  }

  lemma {:induction false} RingAt(c: Chunks, g: Shape, a: int)
    requires c.Keys == g.spot.Keys && Partition(g) && Circular(c, g) && a in c
    ensures g.spot[a].pos in g.ring && 0 <= g.spot[a].rank < |g.ring[g.spot[a].pos]|
    ensures var r := g.ring[g.spot[a].pos];
            c[a].fd == r[Next(g.spot[a].rank, |r|)] && c[a].bk == r[Prev(g.spot[a].rank, |r|)]
  {}

  lemma {:induction false} JoinCircular(c: Chunks, g: Shape, c': Chunks, x: int, k: int, p: Pos)
    requires c.Keys == g.spot.Keys && Partition(g) && Circular(c, g)
    requires x !in c && p in g.ring && Partition(Joined(g, x, k, p))
    requires RingStored(c, c', x, g.ring[p][0])
    ensures Circular(c', Joined(g, x, k, p))
  {
    forall a | a in c'
      ensures var g' := Joined(g, x, k, p); var r := g'.ring[g'.spot[a].pos];
              c'[a].fd == r[Next(g'.spot[a].rank, |r|)] && c'[a].bk == r[Prev(g'.spot[a].rank, |r|)]
    {
      JoinFd(c, g, c', x, k, p, a);
      if a != x { JoinBk(c, g, c', x, k, p, a); }
    }
  }

  lemma {:induction false} JoinSizes(c: Chunks, g: Shape, c': Chunks, x: int, k: int, p: Pos)
    requires c.Keys == g.spot.Keys && Partition(g) && Sizes(c, g)
    requires x !in c && p in g.ring
    requires RingStored(c, c', x, g.ring[p][0])
    ensures Sizes(c', Joined(g, x, k, p))
  {
    var g' := Joined(g, x, k, p);
    var t := g.ring[p][0];
    forall a | a in c'
      ensures g'.spot[a].pos == g.spot[if a == x then t else a].pos
    {}
    forall a, b | a in c' && b in c'
      ensures SameSize(c'[a], c'[b]) <==> g'.spot[a].pos == g'.spot[b].pos
    {
      var a', b' := if a == x then t else a, if b == x then t else b;
      assert SameSize(c[a'], c[b']) <==> g.spot[a'].pos == g.spot[b'].pos;
    }
  }

  lemma {:induction false} JoinRoots(bins: seq<int>, treemap: nat, g: Shape, x: int, k: int, p: Pos)
    requires Roots(bins, treemap, g) && p in g.ring && |g.ring[p]| > 0
    ensures Roots(bins, treemap, Joined(g, x, k, p))
  {
    forall q ensures Look(Joined(g, x, k, p).ring, q) == Look(g.ring, q) { LookJoined(g, x, k, p, q); }
  }

  lemma {:induction false} JoinKeepsAt(c: Chunks, bins: seq<int>, treemap: nat, g: Shape, c': Chunks, x: int, k: nat,
                                       p: Pos)
    requires Inv(c, bins, treemap, g)
    requires x != 0 && x !in c && k < WORD
    requires p in g.ring && p == Path(p.bin, k, p.depth)
    requires RingStored(c, c', x, g.ring[p][0])
    ensures Inv(c', bins, treemap, Joined(g, x, k, p))
  {
    JoinPartition(g, x, k, p);
    JoinLinks(c, g, c', x, k, p);
    JoinCircular(c, g, c', x, k, p);
    JoinSizes(c, g, c', x, k, p);
    JoinRoots(bins, treemap, g, x, k, p);
  }

  /** Linking `x` behind the tree node `t` of its own size keeps the invariant. */
  lemma {:induction false} JoinKeeps(c: Chunks, bins: seq<int>, treemap: nat, g: Shape, c': Chunks, x: int, k: nat,
                                     t: int)
    requires Inv(c, bins, treemap, g)
    requires x != 0 && x !in c && k < WORD
    requires t in c && g.spot[t].rank == 0
    requires g.spot[t].pos == Path(g.spot[t].pos.bin, k, g.spot[t].pos.depth)
    requires RingStored(c, c', x, t)
    ensures Inv(c', bins, treemap, Joined(g, x, k, g.spot[t].pos))
  {
    JoinKeepsAt(c, bins, treemap, g, c', x, k, g.spot[t].pos);
  }
}
