/** The pointer stores of `unlink_large_chunk` (`osrt/c/dlmalloc.c:3715-3784`) as values, and
    what they amount to on a well-linked trie. */
module TrieRelink {
  import opened Words
  import opened TriePaths
  import opened TrieMemory
  import opened TrieUnlink

  // ---- Stores ------------------------------------------------------------------------------

  /** `F->bk = R; R->fd = F`: `x` leaves its ring. */
  function CutMem(c: Chunks, x: int): Chunks
    requires x in c && c[x].fd in c && c[x].bk in c
  {
    var f, r := c[x].fd, c[x].bk;
    var c1 := c[f := c[f].(bk := r)];
    c1[r := c1[r].(fd := f)]
  }

  /** `*RP = 0`: child `b` of `o` is cut off. */
  function NullMem(c: Chunks, o: int, b: nat): Chunks
    requires o in c
  {
    c[o := if b == 0 then c[o].(child0 := 0) else c[o].(child1 := 0)]
  }

  /** The parent of `x` points at `r`. */
  function ParentMem(c: Chunks, x: int, r: int): Chunks
    requires x in c && (c[x].parent.Node? ==> c[x].parent.addr in c)
  {
    if c[x].parent.Node? then
      var o := c[x].parent.addr;
      c[o := if c[o].child0 == x then c[o].(child0 := r) else c[o].(child1 := r)]
    else c
  }

  /** `r` adopts a child that `x` had: `R->child[b] = C; C->parent = R`. */
  function AdoptMem(c: Chunks, r: int, b: nat, child: int): Chunks
    requires r in c && (child != 0 ==> child in c)
  {
    if child == 0 then c
    else
      var c1 := c[r := if b == 0 then c[r].(child0 := child) else c[r].(child1 := child)];
      c1[child := c1[child].(parent := Node(r))]
  }

  ghost predicate Adoptable(c: Chunks, x: int, r: int) {
    && x in c && r != x
    && (c[x].parent.Node? ==> c[x].parent.addr in c && c[x].parent.addr != x && c[x].parent.addr != r)
    && (c[x].child0 != 0 ==> c[x].child0 in c && c[x].child0 != x)
    && (c[x].child1 != 0 ==> c[x].child1 in c && c[x].child1 != x)
    && (r != 0 ==> r in c && c[x].child0 != r && c[x].child1 != r)
  }

  /** Relinking the parent and the children of `x` to `r`. */
  function RelinkMem(c: Chunks, x: int, r: int): Chunks
    requires Adoptable(c, x, r)
  {
    var c1 := ParentMem(c, x, r);
    if r == 0 then c1
    else
      var c2 := c1[r := c1[r].(parent := c[x].parent)];
      AdoptMem(AdoptMem(c2, r, 0, c[x].child0), r, 1, c[x].child1)
  }

  // ---- What each address holds afterwards ----------------------------------------------------

  ghost predicate SameRing(t: TreeChunk, u: TreeChunk) {
    t.size == u.size && t.index == u.index && t.fd == u.fd && t.bk == u.bk
  }

  lemma {:induction false} RelinkAt(c: Chunks, x: int, r: int, a: int)
    requires Adoptable(c, x, r) && a in c && a != x
    requires c[x].child0 != 0 ==> c[x].child0 != c[x].child1
    ensures var c' := RelinkMem(c, x, r);
            var above := c[x].parent == Node(a);
            && c'.Keys == c.Keys
            && SameRing(c'[a], c[a])
            && (a != r ==>
                  && c'[a].child0 == (if above && c[a].child0 == x then r else c[a].child0)
                  && c'[a].child1 == (if above && c[a].child0 != x then r else c[a].child1)
                  && c'[a].parent == (if r != 0 && a != 0 && (a == c[x].child0 || a == c[x].child1) then Node(r)
                                      else c[a].parent))
            && (a == r != 0 ==>
                  && c'[a].child0 == (if c[x].child0 != 0 then c[x].child0 else c[a].child0)
                  && c'[a].child1 == (if c[x].child1 != 0 then c[x].child1 else c[a].child1)
                  && c'[a].parent == c[x].parent)
  {}

  // ---- On a well-linked trie --------------------------------------------------------------------

  ghost predicate WellLinked(c: Chunks, g: Shape) {
    c.Keys == g.spot.Keys && Partition(g) && Links(c, g)
  }

  lemma {:induction false} LinkOf(c: Chunks, g: Shape, a: int)
    requires WellLinked(c, g) && a in c
    ensures LinkAt(c[a], g, g.spot[a])
  {
    assert c[a].child0 == c[a].child0;
  }

  /** A child pointer to `x` can only be that of its parent. */
  lemma {:induction false} OnlyParentPoints(c: Chunks, g: Shape, x: int, a: int)
    requires WellLinked(c, g) && x in c && g.spot[x].rank == 0 && a in c
    ensures c[a].child0 == x <==> g.spot[a].rank == 0 && Down(g.spot[a].pos, 0) == g.spot[x].pos
    ensures c[a].child1 == x <==> g.spot[a].rank == 0 && Down(g.spot[a].pos, 1) == g.spot[x].pos
    ensures c[a].child0 == x || c[a].child1 == x <==> c[x].parent == Node(a)
    ensures !(c[a].child0 == x && c[a].child1 == x)
  {
    LinkOf(c, g, a);
    LinkOf(c, g, x);
    var p, q := g.spot[x].pos, g.spot[a].pos;
    LookIs(g, x, Down(q, 0));
    LookIs(g, x, Down(q, 1));
    UpDown(q, 0);
    UpDown(q, 1);
    if c[x].parent == Node(a) {
      DownUp(p);
      assert Up(p) in g.ring;
      assert g.ring[Up(p)][0] == a;
    }
  }

  /** A parent pointer to `x` can only be that of one of its children. */
  lemma {:induction false} OnlyChildrenPoint(c: Chunks, g: Shape, x: int, a: int)
    requires WellLinked(c, g) && x in c && g.spot[x].rank == 0 && a in c
    ensures c[a].parent == Node(x) <==> (a == c[x].child0 || a == c[x].child1)
  {
    if g.spot[a].rank == 0 {
      OnlyParentPoints(c, g, a, x);
    } else {
      LinkOf(c, g, a);
      LinkOf(c, g, x);
      var p := g.spot[x].pos;
      assert Down(p, 0) in g.ring ==> g.spot[g.ring[Down(p, 0)][0]].rank == 0;
      assert Down(p, 1) in g.ring ==> g.spot[g.ring[Down(p, 1)][0]].rank == 0;
    }
  }

  /** Tree pointers lead to tree nodes, one level up or down. */
  lemma {:induction false} Neighbourhood(c: Chunks, g: Shape, x: int)
    requires WellLinked(c, g) && x in c && g.spot[x].rank == 0
    ensures c[x].parent.Node? ==> c[x].parent.addr in c && c[x].parent.addr != x
                                  && g.spot[c[x].parent.addr].rank == 0
                                  && g.spot[c[x].parent.addr].pos.depth + 1 == g.spot[x].pos.depth
    ensures c[x].child0 != 0 ==> c[x].child0 in c && g.spot[c[x].child0].rank == 0
                                 && g.spot[c[x].child0].pos == Down(g.spot[x].pos, 0)
    ensures c[x].child1 != 0 ==> c[x].child1 in c && g.spot[c[x].child1].rank == 0
                                 && g.spot[c[x].child1].pos == Down(g.spot[x].pos, 1)
    ensures c[x].parent.Node? <==> g.spot[x].pos.depth > 0
    ensures c[x].parent != NoParent
  {
    LinkOf(c, g, x);
    var p := g.spot[x].pos;
    assert Up(p) in g.ring;
    assert g.ring[Up(p)][0] in g.spot;
  }

  // ---- The three replacements --------------------------------------------------------------------

  /** A tree node with a ring is replaced by the last member of that ring. */
  lemma {:induction false} PromoteRelinks(c: Chunks, g: Shape, c1: Chunks, x: int)
    requires WellLinked(c, g) && HasRing(g, x)
    requires c1.Keys == c.Keys
    requires forall a {:trigger c1[a]} :: a in c ==>
               c1[a].child0 == c[a].child0 && c1[a].child1 == c[a].child1 && c1[a].parent == c[a].parent
    ensures var r := g.ring[g.spot[x].pos];
            var last := r[|r| - 1];
            Adoptable(c1, x, last) && Relinked(c, RelinkMem(c1, x, last) - {x}, x, last, 0)
            && forall a :: a in c && a != x ==> SameRing(RelinkMem(c1, x, last)[a], c1[a])
  {
    var r := g.ring[g.spot[x].pos];
    var last := r[|r| - 1];
    assert last in g.spot && g.spot[last].rank == |r| - 1;
    Neighbourhood(c, g, x);
    LinkOf(c, g, last);
    forall a | a in c && a != x
      ensures SameRing(RelinkMem(c1, x, last)[a], c1[a])
      ensures a != last ==>
                && RelinkMem(c1, x, last)[a].child0 == Swap(c[a].child0, x, last, 0)
                && RelinkMem(c1, x, last)[a].child1 == Swap(c[a].child1, x, last, 0)
                && RelinkMem(c1, x, last)[a].parent == SwapParent(c[a].parent, x, last)
    {
      RelinkAt(c1, x, last, a);
      OnlyParentPoints(c, g, x, a);
      OnlyChildrenPoint(c, g, x, a);
    }
    RelinkAt(c1, x, last, last);
  }

  /** A lone leaf is replaced by nothing. */
  lemma {:induction false} LeafRelinks(c: Chunks, g: Shape, x: int)
    requires WellLinked(c, g) && LoneLeaf(g, x)
    ensures Adoptable(c, x, 0) && Relinked(c, RelinkMem(c, x, 0) - {x}, x, 0, 0)
    ensures forall a :: a in c && a != x ==> SameRing(RelinkMem(c, x, 0)[a], c[a])
  {
    Neighbourhood(c, g, x);
    LinkOf(c, g, x);
    forall a | a in c && a != x
      ensures SameRing(RelinkMem(c, x, 0)[a], c[a])
      ensures RelinkMem(c, x, 0)[a].child0 == Swap(c[a].child0, x, 0, 0)
      ensures RelinkMem(c, x, 0)[a].child1 == Swap(c[a].child1, x, 0, 0)
      ensures RelinkMem(c, x, 0)[a].parent == SwapParent(c[a].parent, x, 0)
    {
      RelinkAt(c, x, 0, a);
      OnlyParentPoints(c, g, x, a);
      OnlyChildrenPoint(c, g, x, a);
    }
  }

  ghost predicate CutsOff(c: Chunks, z: int, o: int, b: nat) {
    o in c && b <= 1 && (if b == 0 then c[o].child0 else c[o].child1) == z
  }

  lemma {:induction false} MoveAdoptable(c: Chunks, g: Shape, x: int, z: int, o: int, b: nat)
    requires WellLinked(c, g) && LeafBelow(g, x, z) && CutsOff(c, z, o, b)
    ensures Adoptable(NullMem(c, o, b), x, z)
    ensures var c1 := NullMem(c, o, b); c1[x].child0 != 0 ==> c1[x].child0 != c1[x].child1
  {
    Neighbourhood(c, g, x);
    OnlyParentPoints(c, g, z, o);
    OnlyParentPoints(c, g, z, x);
    PositionsDiffer(g.spot[x].pos);
  }

  /** The new tree node has the place of `x` and what is left of its children. */
  lemma {:induction false} MoveRelinksNew(c: Chunks, g: Shape, x: int, z: int, o: int, b: nat)
    requires WellLinked(c, g) && LeafBelow(g, x, z) && CutsOff(c, z, o, b)
    requires Adoptable(NullMem(c, o, b), x, z)
    ensures var c' := RelinkMem(NullMem(c, o, b), x, z);
            && c'[z].child0 == Swap(c[x].child0, x, z, z)
            && c'[z].child1 == Swap(c[x].child1, x, z, z)
            && c'[z].parent == c[x].parent
  {
    MoveAdoptable(c, g, x, z, o, b);
    Neighbourhood(c, g, x);
    LinkOf(c, g, z);
    OnlyParentPoints(c, g, z, o);
    OnlyParentPoints(c, g, z, x);
    RelinkAt(NullMem(c, o, b), x, z, z);
    PositionsDiffer(g.spot[x].pos);
  }

  lemma {:induction false} MoveRelinksAt(c: Chunks, g: Shape, x: int, z: int, o: int, b: nat, a: int)
    requires WellLinked(c, g) && LeafBelow(g, x, z) && CutsOff(c, z, o, b)
    requires Adoptable(NullMem(c, o, b), x, z) && a in c && a != x
    ensures var c' := RelinkMem(NullMem(c, o, b), x, z);
            && SameRing(c'[a], c[a])
            && (a != z ==>
                  && c'[a].child0 == Swap(c[a].child0, x, z, z)
                  && c'[a].child1 == Swap(c[a].child1, x, z, z)
                  && c'[a].parent == SwapParent(c[a].parent, x, z))
  {
    MoveAdoptable(c, g, x, z, o, b);
    Neighbourhood(c, g, x);
    RelinkAt(NullMem(c, o, b), x, z, a);
    OnlyParentPoints(c, g, x, a);
    OnlyParentPoints(c, g, z, a);
    OnlyParentPoints(c, g, z, o);
    OnlyParentPoints(c, g, z, x);
    OnlyChildrenPoint(c, g, x, a);
  }

  /** An interior node is replaced by the leaf `z`, first cut off from its parent `o`. */
  lemma {:induction false} MoveRelinks(c: Chunks, g: Shape, x: int, z: int, o: int, b: nat)
    requires WellLinked(c, g) && LeafBelow(g, x, z) && CutsOff(c, z, o, b)
    ensures Adoptable(NullMem(c, o, b), x, z) && Relinked(c, RelinkMem(NullMem(c, o, b), x, z) - {x}, x, z, z)
    ensures forall a :: a in c && a != x ==> SameRing(RelinkMem(NullMem(c, o, b), x, z)[a], c[a])
  {
    MoveAdoptable(c, g, x, z, o, b);
    forall a | a in c && a != x
      ensures SameRing(RelinkMem(NullMem(c, o, b), x, z)[a], c[a])
      ensures a != z ==>
                && RelinkMem(NullMem(c, o, b), x, z)[a].child0 == Swap(c[a].child0, x, z, z)
                && RelinkMem(NullMem(c, o, b), x, z)[a].child1 == Swap(c[a].child1, x, z, z)
                && RelinkMem(NullMem(c, o, b), x, z)[a].parent == SwapParent(c[a].parent, x, z)
    {
      MoveRelinksAt(c, g, x, z, o, b, a);
    }
    MoveRelinksNew(c, g, x, z, o, b);
    RelinkAt(NullMem(c, o, b), x, z, z);
  }
}
