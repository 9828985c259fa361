/** Removing a chunk from the tree bins (`unlink_large_chunk`, `osrt/c/dlmalloc.c:3715-3784`):
    a ring member, a tree node with a ring, a leaf, or an interior node whose place is taken
    by a leaf below it.  Each case keeps the invariant and gives up exactly that chunk. */
module TrieUnlink {
  import opened Words
  import opened BitMaps
  import opened BinIndex
  import opened TriePaths
  import opened TrieMemory

  // ---- What the pointer updates amount to --------------------------------------------

  /** A child pointer after `r` took over from `x`, the leaf `z` having been cut off. */
  function Swap(v: int, x: int, r: int, z: int): int {
    if v == x then r else if v == z then 0 else v
  }

  function SwapParent(v: Parent, x: int, r: int): Parent {
    if v == Node(x) then Node(r) else v
  }

  /** Tree pointers with `r` in the place of `x` and no pointer left to the old place of `z`. */
  ghost predicate Relinked(c: Chunks, c': Chunks, x: int, r: int, z: int) {
    && x in c
    && c'.Keys == c.Keys - {x}
    && (forall a {:trigger c'[a]} :: a in c' && a != r ==>
          && c'[a].child0 == Swap(c[a].child0, x, r, z)
          && c'[a].child1 == Swap(c[a].child1, x, r, z)
          && c'[a].parent == SwapParent(c[a].parent, x, r))
    && (r != 0 ==>
          && r in c'
          && c'[r].child0 == Swap(c[x].child0, x, r, z)
          && c'[r].child1 == Swap(c[x].child1, x, r, z)
          && c'[r].parent == c[x].parent)
  }

  ghost predicate SizesKept(c: Chunks, c': Chunks, x: int) {
    && c'.Keys == c.Keys - {x}
    && forall a {:trigger c'[a]} :: a in c' ==> c'[a].size == c[a].size && c'[a].index == c[a].index
  }

  ghost predicate RingsKept(c: Chunks, c': Chunks, x: int) {
    && c'.Keys == c.Keys - {x}
    && forall a {:trigger c'[a]} :: a in c' ==> c'[a].fd == c[a].fd && c'[a].bk == c[a].bk
  }

  /** `x` taken out of its ring: its neighbours point at each other. */
  ghost predicate RingCut(c: Chunks, c': Chunks, x: int) {
    && x in c
    && c'.Keys == c.Keys - {x}
    && forall a {:trigger c'[a]} :: a in c' ==>
         && c'[a].fd == (if a == c[x].bk then c[x].fd else c[a].fd)
         && c'[a].bk == (if a == c[x].fd then c[x].bk else c[a].bk)
  }

  ghost predicate TreeKept(c: Chunks, c': Chunks, x: int) {
    && c'.Keys == c.Keys - {x}
    && forall a {:trigger c'[a]} :: a in c' ==>
         c'[a].child0 == c[a].child0 && c'[a].child1 == c[a].child1 && c'[a].parent == c[a].parent
  }

  // ---- A ring member -----------------------------------------------------------------

  ghost function WithoutMember(g: Shape, x: int): Shape
    requires Partition(g) && x in g.spot
  {
    var p, j := g.spot[x].pos, g.spot[x].rank;
    Shape(g.ring[p := g.ring[p][..j] + g.ring[p][j + 1..]],
          map a | a in g.spot && a != x ::
            if g.spot[a].pos == p && g.spot[a].rank > j then Spot(p, g.spot[a].rank - 1, g.spot[a].word)
            else g.spot[a])
  }

  lemma {:induction false} MemberPartition(g: Shape, x: int)
    requires Partition(g) && OnPath(g) && x in g.spot && g.spot[x].rank > 0
    ensures Partition(WithoutMember(g, x)) && OnPath(WithoutMember(g, x))
  {
    var g' := WithoutMember(g, x);
    var p, j := g.spot[x].pos, g.spot[x].rank;
    var r, r' := g.ring[p], g'.ring[p];
    forall q, i | q in g'.ring && 0 <= i < |g'.ring[q]|
      ensures var a := g'.ring[q][i]; a in g'.spot && g'.spot[a].pos == q && g'.spot[a].rank == i
    {
      if q != p { assert g.ring[q][i] in g.spot; }
      else if i < j { assert r'[i] == r[i]; }
      else { assert r'[i] == r[i + 1]; }
    }
    forall a | a in g'.spot
      ensures var s := g'.spot[a]; s.pos in g'.ring && 0 <= s.rank < |g'.ring[s.pos]| && g'.ring[s.pos][s.rank] == a
    {
      var s := g.spot[a];
      assert g.ring[s.pos][s.rank] == a;
      if s.pos == p { assert s.rank != j; }
    }
  }

  lemma {:induction false} CutFdCore(r: seq<int>, j: nat, i: nat, next: int)
    requires 0 < j < |r| && i < |r| && i != j
    requires next == if i == Prev(j, |r|) then r[Next(j, |r|)] else r[Next(i, |r|)]
    ensures var r' := r[..j] + r[j + 1..];
            next == r'[Next(if i > j then i - 1 else i, |r'|)]
  {}

  lemma {:induction false} CutBkCore(r: seq<int>, j: nat, i: nat, prev: int)
    requires 0 < j < |r| && i < |r| && i != j
    requires prev == if i == Next(j, |r|) then r[Prev(j, |r|)] else r[Prev(i, |r|)]
    ensures var r' := r[..j] + r[j + 1..];
            prev == r'[Prev(if i > j then i - 1 else i, |r'|)]
  {}

  /** In a ring, `a` is the neighbour of `x` exactly when their ranks are adjacent. */
  lemma {:induction false} Neighbours(c: Chunks, g: Shape, x: int, a: int)
    requires c.Keys == g.spot.Keys && Partition(g) && Circular(c, g)
    requires x in c && a in c
    ensures var n := |g.ring[g.spot[x].pos]|;
            && (a == c[x].bk <==> g.spot[a].pos == g.spot[x].pos && g.spot[a].rank == Prev(g.spot[x].rank, n))
            && (a == c[x].fd <==> g.spot[a].pos == g.spot[x].pos && g.spot[a].rank == Next(g.spot[x].rank, n))
  {
    var r := g.ring[g.spot[x].pos];
    assert c[x].bk == r[Prev(g.spot[x].rank, |r|)];
    assert c[x].fd == r[Next(g.spot[x].rank, |r|)];
  }

  lemma {:induction false} MemberCircularAt(c: Chunks, g: Shape, c': Chunks, x: int, a: int)
    requires c.Keys == g.spot.Keys && Partition(g) && Circular(c, g)
    requires x in c && g.spot[x].rank > 0 && Partition(WithoutMember(g, x))
    requires RingCut(c, c', x) && a in c'
    ensures var g' := WithoutMember(g, x);
            var r := g'.ring[g'.spot[a].pos];
            c'[a].fd == r[Next(g'.spot[a].rank, |r|)] && c'[a].bk == r[Prev(g'.spot[a].rank, |r|)]
  {
    hide Circular, Up;
    RingAt(c, g, x);
    var p, j := g.spot[x].pos, g.spot[x].rank;
    Neighbours(c, g, x, a);
    RingAt(c, g, a);
    if g.spot[a].pos == p {
      assert g.spot[a].rank != j;
      CutFdCore(g.ring[p], j, g.spot[a].rank, c'[a].fd);
      CutBkCore(g.ring[p], j, g.spot[a].rank, c'[a].bk);
    }
  }

  lemma {:induction false} MemberCircular(c: Chunks, g: Shape, c': Chunks, x: int)
    requires c.Keys == g.spot.Keys && Partition(g) && Circular(c, g)
    requires x in c && g.spot[x].rank > 0 && Partition(WithoutMember(g, x))
    requires RingCut(c, c', x)
    ensures Circular(c', WithoutMember(g, x))
  {
    forall a | a in c'
      ensures var g' := WithoutMember(g, x); var r := g'.ring[g'.spot[a].pos];
              c'[a].fd == r[Next(g'.spot[a].rank, |r|)] && c'[a].bk == r[Prev(g'.spot[a].rank, |r|)]
    {
      MemberCircularAt(c, g, c', x, a);
    }
  }

  lemma {:induction false} LookWithoutMember(g: Shape, x: int, q: Pos)
    requires Partition(g) && x in g.spot && g.spot[x].rank > 0
    ensures Look(WithoutMember(g, x).ring, q) == Look(g.ring, q)
  {}

  lemma {:induction false} MemberLinks(c: Chunks, g: Shape, c': Chunks, x: int)
    requires c.Keys == g.spot.Keys && Partition(g) && Links(c, g)
    requires x in c && g.spot[x].rank > 0 && TreeKept(c, c', x)
    ensures Links(c', WithoutMember(g, x))
  {
    var g' := WithoutMember(g, x);
    forall a | a in c' ensures LinkAt(c'[a], g', g'.spot[a]) {
      assert LinkAt(c[a], g, g.spot[a]) by { assert c[a].child0 == c[a].child0; }
      LookWithoutMember(g, x, Down(g.spot[a].pos, 0));
      LookWithoutMember(g, x, Down(g.spot[a].pos, 1));
      LookWithoutMember(g, x, Up(g.spot[a].pos));
    }
  }

  /** Sizes survive any reshaping that keeps the positions of the other chunks distinct or equal
      as they were. */
  lemma {:induction false} SizesFrom(c: Chunks, g: Shape, c': Chunks, g': Shape, x: int)
    requires c.Keys == g.spot.Keys && Sizes(c, g) && c'.Keys == g'.spot.Keys
    requires SizesKept(c, c', x)
    requires forall a :: a in c' ==> g'.spot[a].pos.bin == g.spot[a].pos.bin
    requires forall a, b :: a in c' && b in c' ==>
               (g'.spot[a].pos == g'.spot[b].pos <==> g.spot[a].pos == g.spot[b].pos)
    ensures Sizes(c', g')
  {
    forall a, b | a in c' && b in c'
      ensures SameSize(c'[a], c'[b]) <==> g'.spot[a].pos == g'.spot[b].pos
    {
      assert SameSize(c[a], c[b]) <==> g.spot[a].pos == g.spot[b].pos;
    }
  }

  lemma {:induction false} MemberSizes(c: Chunks, g: Shape, c': Chunks, x: int)
    requires Partition(g) && x in g.spot && c.Keys == g.spot.Keys && Sizes(c, g) && SizesKept(c, c', x)
    ensures c'.Keys == WithoutMember(g, x).spot.Keys && Sizes(c', WithoutMember(g, x))
  {
    var g' := WithoutMember(g, x);
    forall a | a in c' ensures g'.spot[a].pos == g.spot[a].pos {}
    SizesFrom(c, g, c', g', x);
  }

  lemma {:induction false} MemberRoots(bins: seq<int>, treemap: nat, g: Shape, x: int)
    requires Roots(bins, treemap, g) && Partition(g) && x in g.spot && g.spot[x].rank > 0
    ensures Roots(bins, treemap, WithoutMember(g, x))
  {
    forall q ensures Look(WithoutMember(g, x).ring, q) == Look(g.ring, q) { LookWithoutMember(g, x, q); }
  }

  lemma {:induction false} MemberKeeps(c: Chunks, bins: seq<int>, treemap: nat, g: Shape, c': Chunks, x: int)
    requires Inv(c, bins, treemap, g) && x in c && g.spot[x].rank > 0
    requires SizesKept(c, c', x) && RingCut(c, c', x) && TreeKept(c, c', x)
    ensures Inv(c', bins, treemap, WithoutMember(g, x))
  {
    MemberPartition(g, x);
    MemberLinks(c, g, c', x);
    MemberCircular(c, g, c', x);
    MemberSizes(c, g, c', x);
    MemberRoots(bins, treemap, g, x);
  }

  // ---- A tree node with a ring ---------------------------------------------------------

  /** The last ring member takes the position of the tree node `x`. */
  ghost function Promoted(g: Shape, x: int): Shape
    requires HasRing(g, x)
  {
    var p := g.spot[x].pos;
    var r := g.ring[p];
    var last := r[|r| - 1];
    Shape(g.ring[p := [last] + r[1..|r| - 1]],
          map a | a in g.spot && a != x ::
            if a == last then Spot(p, 0, g.spot[a].word) else g.spot[a])
  }

  ghost predicate HasRing(g: Shape, x: int)
  {
    Partition(g) && x in g.spot && g.spot[x].rank == 0 && |g.ring[g.spot[x].pos]| > 1
  }

  lemma {:induction false} PromotePartition(g: Shape, x: int)
    requires HasRing(g, x) && OnPath(g)
    ensures Partition(Promoted(g, x)) && OnPath(Promoted(g, x))
  {
    var g' := Promoted(g, x);
    var p := g.spot[x].pos;
    var r, r' := g.ring[p], g'.ring[p];
    var n := |r|;
    assert r[n - 1] in g.spot && g.spot[r[n - 1]].rank == n - 1;
    forall q, i | q in g'.ring && 0 <= i < |g'.ring[q]|
      ensures var a := g'.ring[q][i]; a in g'.spot && g'.spot[a].pos == q && g'.spot[a].rank == i
    {
      if q != p { assert g.ring[q][i] in g.spot; }
      else if i > 0 { assert r'[i] == r[i]; }
    }
    forall a | a in g'.spot
      ensures var s := g'.spot[a]; s.pos in g'.ring && 0 <= s.rank < |g'.ring[s.pos]| && g'.ring[s.pos][s.rank] == a
    {
      var s := g.spot[a];
      assert g.ring[s.pos][s.rank] == a;
    }
  }

  lemma {:induction false} PromoteFdCore(r: seq<int>, i: nat, next: int)
    requires 0 < i < |r|
    requires next == if i == |r| - 1 then r[1] else r[i + 1]
    ensures var r' := [r[|r| - 1]] + r[1..|r| - 1];
            next == r'[Next(if i == |r| - 1 then 0 else i, |r'|)]
  {}

  lemma {:induction false} PromoteBkCore(r: seq<int>, i: nat, prev: int)
    requires 0 < i < |r|
    requires prev == if i == 1 then r[|r| - 1] else r[i - 1]
    ensures var r' := [r[|r| - 1]] + r[1..|r| - 1];
            prev == r'[Prev(if i == |r| - 1 then 0 else i, |r'|)]
  {}

  lemma {:induction false} PromoteCircularAt(c: Chunks, g: Shape, c': Chunks, x: int, a: int)
    requires HasRing(g, x) && c.Keys == g.spot.Keys && Circular(c, g) && Partition(Promoted(g, x))
    requires RingCut(c, c', x) && a in c'
    ensures var g' := Promoted(g, x);
            var r := g'.ring[g'.spot[a].pos];
            c'[a].fd == r[Next(g'.spot[a].rank, |r|)] && c'[a].bk == r[Prev(g'.spot[a].rank, |r|)]
  {
    var p := g.spot[x].pos;
    var r := g.ring[p];
    Neighbours(c, g, x, a);
    assert c[a].fd == (var r := g.ring[g.spot[a].pos]; r[Next(g.spot[a].rank, |r|)]);
    assert c[a].bk == (var r := g.ring[g.spot[a].pos]; r[Prev(g.spot[a].rank, |r|)]);
    assert a == r[|r| - 1] <==> g.spot[a].pos == p && g.spot[a].rank == |r| - 1;
    if g.spot[a].pos == p {
      PromoteFdCore(r, g.spot[a].rank, c'[a].fd);
      PromoteBkCore(r, g.spot[a].rank, c'[a].bk);
    }
  }

  lemma {:induction false} PromoteCircular(c: Chunks, g: Shape, c': Chunks, x: int)
    requires HasRing(g, x) && c.Keys == g.spot.Keys && Circular(c, g) && Partition(Promoted(g, x))
    requires RingCut(c, c', x)
    ensures Circular(c', Promoted(g, x))
  {
    forall a | a in c'
      ensures var g' := Promoted(g, x); var r := g'.ring[g'.spot[a].pos];
              c'[a].fd == r[Next(g'.spot[a].rank, |r|)] && c'[a].bk == r[Prev(g'.spot[a].rank, |r|)]
    {
      PromoteCircularAt(c, g, c', x, a);
    }
  }

  /** `x` is the tree node exactly at its own position. */
  lemma {:induction false} LookIs(g: Shape, x: int, q: Pos)
    requires Partition(g) && x in g.spot && g.spot[x].rank == 0
    ensures Look(g.ring, q) == x <==> q == g.spot[x].pos
  {}

  lemma {:induction false} LookPromoted(g: Shape, x: int, q: Pos)
    requires HasRing(g, x)
    ensures var r := g.ring[g.spot[x].pos];
            Look(Promoted(g, x).ring, q) == Swap(Look(g.ring, q), x, r[|r| - 1], 0)
  {
    LookIs(g, x, q);
  }

  lemma {:induction false} PromoteLinks(c: Chunks, g: Shape, c': Chunks, x: int)
    requires HasRing(g, x) && c.Keys == g.spot.Keys && Links(c, g)
    requires var r := g.ring[g.spot[x].pos]; Relinked(c, c', x, r[|r| - 1], 0)
    ensures Links(c', Promoted(g, x))
  {
    var g' := Promoted(g, x);
    var p := g.spot[x].pos;
    var r := g.ring[p];
    var last := r[|r| - 1];
    assert last in g.spot && g.spot[last].rank == |r| - 1;
    forall a | a in c' ensures LinkAt(c'[a], g', g'.spot[a]) {
      var b := if a == last then x else a;
      assert LinkAt(c[b], g, g.spot[b]) by { assert c[b].child0 == c[b].child0; }
      LookPromoted(g, x, Down(g.spot[b].pos, 0));
      LookPromoted(g, x, Down(g.spot[b].pos, 1));
      LookPromoted(g, x, Up(g.spot[b].pos));
      LookIs(g, x, Up(g.spot[b].pos));
      if b == x { PositionsDiffer(p); }
    }
  }

  lemma {:induction false} PositionsDiffer(p: Pos)
    ensures p.depth > 0 ==> Up(p) != p
    ensures Down(p, 0) != p && Down(p, 1) != p
  {}

  lemma {:induction false} PromoteRoots(bins: seq<int>, treemap: nat, g: Shape, x: int)
    requires HasRing(g, x) && Roots(bins, treemap, g)
    ensures var p := g.spot[x].pos; var r := g.ring[p];
            Roots(if p.depth == 0 && p == Root(p.bin) then bins[p.bin := r[|r| - 1]] else bins, treemap, Promoted(g, x))
  {
    forall i | 0 <= i < NTREEBINS
      ensures var r := g.ring[g.spot[x].pos];
              Look(Promoted(g, x).ring, Root(i)) == if Root(i) == g.spot[x].pos then r[|r| - 1] else bins[i]
    {
      LookPromoted(g, x, Root(i));
      LookIs(g, x, Root(i));
    }
  }

  lemma {:induction false} PromoteSizes(c: Chunks, g: Shape, c': Chunks, x: int)
    requires HasRing(g, x) && c.Keys == g.spot.Keys && Sizes(c, g) && SizesKept(c, c', x)
    ensures c'.Keys == Promoted(g, x).spot.Keys && Sizes(c', Promoted(g, x))
  {
    var g' := Promoted(g, x);
    var r := g.ring[g.spot[x].pos];
    assert r[|r| - 1] in g.spot;
    forall a | a in c' ensures g'.spot[a].pos == g.spot[a].pos {}
    SizesFrom(c, g, c', g', x);
  }

  lemma {:induction false} PromoteKeeps(c: Chunks, bins: seq<int>, treemap: nat, g: Shape, c': Chunks, bins': seq<int>,
                                        x: int)
    requires Inv(c, bins, treemap, g) && HasRing(g, x)
    requires SizesKept(c, c', x) && RingCut(c, c', x)
    requires var p := g.spot[x].pos; var r := g.ring[p];
             && Relinked(c, c', x, r[|r| - 1], 0)
             && bins' == if p.depth == 0 && p == Root(p.bin) then bins[p.bin := r[|r| - 1]] else bins
    ensures Inv(c', bins', treemap, Promoted(g, x))
  {
    PromotePartition(g, x);
    PromoteLinks(c, g, c', x);
    PromoteCircular(c, g, c', x);
    PromoteSizes(c, g, c', x);
    PromoteRoots(bins, treemap, g, x);
  }

  // ---- A leaf --------------------------------------------------------------------------

  /** `x` is the only chunk at its position and nothing hangs below it. */
  ghost predicate LoneLeaf(g: Shape, x: int) {
    && Partition(g) && x in g.spot && g.spot[x].rank == 0
    && |g.ring[g.spot[x].pos]| == 1
    && IsLeaf(g, g.spot[x].pos)
  }

  ghost predicate IsLeaf(g: Shape, p: Pos) {
    Down(p, 0) !in g.ring && Down(p, 1) !in g.ring
  }

  ghost function WithoutLeaf(g: Shape, x: int): Shape
    requires x in g.spot
  {
    Shape(g.ring - {g.spot[x].pos}, g.spot - {x})
  }

  /** A position is one of the two children of the position above it. */
  lemma {:induction false} DownUp(p: Pos)
    requires p.depth > 0
    ensures p == Down(Up(p), 0) || p == Down(Up(p), 1)
  {}

  /** Below a leaf position nothing has it as parent. */
  lemma {:induction false} NoChildOfLeaf(g: Shape, p: Pos, q: Pos)
    requires Partition(g) && IsLeaf(g, p) && q in g.ring && q.depth > 0
    ensures Up(q) != p
  {
    DownUp(q);
  }

  lemma {:induction false} LeafPartition(g: Shape, x: int)
    requires LoneLeaf(g, x) && OnPath(g)
    ensures Partition(WithoutLeaf(g, x)) && OnPath(WithoutLeaf(g, x))
  {
    var g' := WithoutLeaf(g, x);
    var p := g.spot[x].pos;
    assert g.ring[p][0] == x;
    forall q, i | q in g'.ring && 0 <= i < |g'.ring[q]|
      ensures var a := g'.ring[q][i]; a in g'.spot && g'.spot[a].pos == q && g'.spot[a].rank == i
    {
      assert g.ring[q][i] in g.spot;
    }
    forall a | a in g'.spot
      ensures var s := g'.spot[a]; s.pos in g'.ring && 0 <= s.rank < |g'.ring[s.pos]| && g'.ring[s.pos][s.rank] == a
    {
      var s := g.spot[a];
      assert g.ring[s.pos][s.rank] == a;
    }
    forall q | q in g'.ring ensures Up(q) in g'.ring {
      assert Up(q) in g.ring;
      if q.depth > 0 { NoChildOfLeaf(g, p, q); }
    }
  }

  lemma {:induction false} LookWithoutLeaf(g: Shape, x: int, q: Pos)
    requires LoneLeaf(g, x)
    ensures Look(WithoutLeaf(g, x).ring, q) == Swap(Look(g.ring, q), x, 0, 0)
  {
    LookIs(g, x, q);
  }

  lemma {:induction false} LeafLinks(c: Chunks, g: Shape, c': Chunks, x: int)
    requires LoneLeaf(g, x) && c.Keys == g.spot.Keys && Links(c, g)
    requires Relinked(c, c', x, 0, 0)
    ensures Links(c', WithoutLeaf(g, x))
  {
    var g' := WithoutLeaf(g, x);
    var p := g.spot[x].pos;
    forall a | a in c' ensures LinkAt(c'[a], g', g'.spot[a]) {
      var q := g.spot[a].pos;
      assert LinkAt(c[a], g, g.spot[a]) by { assert c[a].child0 == c[a].child0; }
      LookWithoutLeaf(g, x, Down(q, 0));
      LookWithoutLeaf(g, x, Down(q, 1));
      if q.depth > 0 { NoChildOfLeaf(g, p, q); LookWithoutLeaf(g, x, Up(q)); LookIs(g, x, Up(q)); }
    }
  }

  lemma {:induction false} LeafRest(c: Chunks, g: Shape, c': Chunks, x: int)
    requires LoneLeaf(g, x) && c.Keys == g.spot.Keys && Circular(c, g) && Sizes(c, g)
    requires SizesKept(c, c', x) && RingsKept(c, c', x) && Partition(WithoutLeaf(g, x))
    ensures Circular(c', WithoutLeaf(g, x)) && Sizes(c', WithoutLeaf(g, x))
  {
    var g' := WithoutLeaf(g, x);
    forall a | a in c' ensures g.spot[a].pos in g'.ring { assert g'.spot[a] == g.spot[a]; }
    SizesFrom(c, g, c', g', x);
  }

  /** The bin headers and the bin map once the leaf `x` is gone. */
  ghost predicate LeafBins(bins: seq<int>, treemap: nat, g: Shape, bins': seq<int>, treemap': nat, x: int)
    requires x in g.spot && |bins| == NTREEBINS && treemap < MAP && 0 <= g.spot[x].pos.bin < NTREEBINS
  {
    var p := g.spot[x].pos;
    Idx2BitRange(p.bin, MAP_BITS); Pow2Values();
    if p.depth == 0 then
      bins' == bins[p.bin := 0] && treemap' == And(treemap, Not(Idx2Bit(p.bin), MAP_BITS))
    else
      bins' == bins && treemap' == treemap
  }

  lemma {:induction false} LeafRoots(bins: seq<int>, treemap: nat, g: Shape, bins': seq<int>, treemap': nat, x: int)
    requires LoneLeaf(g, x) && OnPath(g) && Roots(bins, treemap, g)
    requires LeafBins(bins, treemap, g, bins', treemap', x)
    ensures Roots(bins', treemap', WithoutLeaf(g, x))
  {
    var p := g.spot[x].pos;
    assert p.depth == 0 ==> p == Root(p.bin);
    forall i | 0 <= i < NTREEBINS ensures bins'[i] == Look(WithoutLeaf(g, x).ring, Root(i)) {
      LookWithoutLeaf(g, x, Root(i));
      LookIs(g, x, Root(i));
    }
    if p.depth == 0 { ClearedMap(treemap, p.bin); }
  }

  lemma {:induction false} ClearedMap(treemap: nat, i: nat)
    requires treemap < MAP && i < MAP_BITS
    ensures Idx2Bit(i) < Pow2(MAP_BITS)
    ensures And(treemap, Not(Idx2Bit(i), MAP_BITS)) < MAP
    ensures forall j :: 0 <= j < MAP_BITS ==>
              (BitAt(And(treemap, Not(Idx2Bit(i), MAP_BITS)), j) <==> i != j && BitAt(treemap, j))
  {
    Idx2BitRange(i, MAP_BITS);
    Pow2Values();
    AndRange(treemap, Not(Idx2Bit(i), MAP_BITS));
    forall j | 0 <= j < MAP_BITS
      ensures BitAt(And(treemap, Not(Idx2Bit(i), MAP_BITS)), j) <==> i != j && BitAt(treemap, j)
    {
      ClearBit(treemap, MAP_BITS, i, j);
    }
  }

  lemma {:induction false} LeafKeeps(c: Chunks, bins: seq<int>, treemap: nat, g: Shape, c': Chunks, bins': seq<int>,
                                     treemap': nat, x: int)
    requires Inv(c, bins, treemap, g) && LoneLeaf(g, x)
    requires SizesKept(c, c', x) && RingsKept(c, c', x) && Relinked(c, c', x, 0, 0)
    requires LeafBins(bins, treemap, g, bins', treemap', x)
    ensures Inv(c', bins', treemap', WithoutLeaf(g, x))
  {
    LeafPartition(g, x);
    LeafLinks(c, g, c', x);
    LeafRest(c, g, c', x);
    LeafRoots(bins, treemap, g, bins', treemap', x);
  }

  // ---- An interior node -----------------------------------------------------------------

  /** `z` is the tree node of a leaf position below the position of the lone chunk `x`. */
  ghost predicate LeafBelow(g: Shape, x: int, z: int) {
    && Partition(g) && OnPath(g) && x in g.spot && z in g.spot
    && g.spot[x].rank == 0 && g.spot[z].rank == 0
    && |g.ring[g.spot[x].pos]| == 1
    && IsLeaf(g, g.spot[z].pos)
    && g.spot[x].pos.depth < g.spot[z].pos.depth
    && g.spot[x].pos == Path(g.spot[z].pos.bin, g.spot[z].word, g.spot[x].pos.depth)
  }

  /** The whole ring of `z` moves up to the position of `x`. */
  ghost function Moved(g: Shape, x: int, z: int): Shape
    requires x in g.spot && z in g.spot && g.spot[z].pos in g.ring
  {
    var p, q := g.spot[x].pos, g.spot[z].pos;
    Shape((g.ring - {q})[p := g.ring[q]],
          map a | a in g.spot && a != x ::
            if g.spot[a].pos == q then Spot(p, g.spot[a].rank, g.spot[a].word) else g.spot[a])
  }

  /** All chunks of a ring share the prefix that leads to it. */
  lemma {:induction false} RingPrefix(g: Shape, z: int, a: int, d: nat)
    requires Partition(g) && OnPath(g) && z in g.spot && a in g.spot
    requires g.spot[a].pos == g.spot[z].pos && d <= g.spot[z].pos.depth
    ensures Prefix(g.spot[a].word, d) == Prefix(g.spot[z].word, d)
  {
    PrefixShared(g.spot[a].word, g.spot[z].word, d, g.spot[z].pos.depth);
  }

  lemma {:induction false} MovePartition(g: Shape, x: int, z: int)
    requires LeafBelow(g, x, z)
    ensures Partition(Moved(g, x, z))
  {
    var g' := Moved(g, x, z);
    var p, q := g.spot[x].pos, g.spot[z].pos;
    assert g.ring[p][0] == x;
    forall u, i | u in g'.ring && 0 <= i < |g'.ring[u]|
      ensures var a := g'.ring[u][i]; a in g'.spot && g'.spot[a].pos == u && g'.spot[a].rank == i
    {
      assert g.ring[if u == p then q else u][i] in g.spot;
    }
    forall a | a in g'.spot
      ensures var s := g'.spot[a]; s.pos in g'.ring && 0 <= s.rank < |g'.ring[s.pos]| && g'.ring[s.pos][s.rank] == a
    {
      var s := g.spot[a];
      assert g.ring[s.pos][s.rank] == a;
    }
    forall u | u in g'.ring ensures Up(u) in g'.ring {
      assert Up(u) in g.ring;
      if u.depth > 0 { NoChildOfLeaf(g, q, u); }
    }
  }

  lemma {:induction false} MoveOnPath(g: Shape, x: int, z: int)
    requires LeafBelow(g, x, z)
    ensures OnPath(Moved(g, x, z))
  {
    var g' := Moved(g, x, z);
    var p, q := g.spot[x].pos, g.spot[z].pos;
    forall a | a in g'.spot
      ensures var s := g'.spot[a]; 0 <= s.word < WORD && s.pos == Path(s.pos.bin, s.word, s.pos.depth)
    {
      if g.spot[a].pos == q { RingPrefix(g, z, a, p.depth); }
    }
  }

  lemma {:induction false} LookMoved(g: Shape, x: int, z: int, u: Pos)
    requires LeafBelow(g, x, z)
    ensures Look(Moved(g, x, z).ring, u) == Swap(Look(g.ring, u), x, z, z)
  {
    LookIs(g, x, u);
    LookIs(g, z, u);
    assert g.ring[g.spot[z].pos][0] == z;
  }

  lemma {:induction false} MoveLinks(c: Chunks, g: Shape, c': Chunks, x: int, z: int)
    requires LeafBelow(g, x, z) && c.Keys == g.spot.Keys && Links(c, g)
    requires Relinked(c, c', x, z, z)
    ensures Links(c', Moved(g, x, z))
  {
    var g' := Moved(g, x, z);
    var p, q := g.spot[x].pos, g.spot[z].pos;
    forall a | a in c' ensures LinkAt(c'[a], g', g'.spot[a]) {
      var b := if a == z then x else a;
      var u := g.spot[b].pos;
      assert LinkAt(c[b], g, g.spot[b]) by { assert c[b].child0 == c[b].child0; }
      LookMoved(g, x, z, Down(u, 0));
      LookMoved(g, x, z, Down(u, 1));
      if u.depth > 0 {
        LookMoved(g, x, z, Up(u));
        LookIs(g, x, Up(u));
        LookIs(g, z, Up(u));
        NoChildOfLeaf(g, q, u);
      }
      if b != x && g.spot[b].rank == 0 { SameSpot(g, b, x); SameSpot(g, b, z); }
      PositionsDiffer(p);
    }
  }

  lemma {:induction false} SameSpot(g: Shape, a: int, b: int)
    requires Partition(g) && a in g.spot && b in g.spot && g.spot[a].rank == g.spot[b].rank
    ensures g.spot[a].pos == g.spot[b].pos ==> a == b
  {}

  lemma {:induction false} MoveSizes(c: Chunks, g: Shape, c': Chunks, x: int, z: int)
    requires LeafBelow(g, x, z) && c.Keys == g.spot.Keys && Sizes(c, g)
    requires SizesKept(c, c', x)
    ensures c'.Keys == Moved(g, x, z).spot.Keys && Sizes(c', Moved(g, x, z))
  {
    var g' := Moved(g, x, z);
    var p, q := g.spot[x].pos, g.spot[z].pos;
    forall a | a in c' ensures g.spot[a].pos != p {
      assert g.ring[g.spot[a].pos][g.spot[a].rank] == a;
      assert g.ring[p][0] == x;
    }
    SizesFrom(c, g, c', g', x);
  }

  lemma {:induction false} MoveCircular(c: Chunks, g: Shape, c': Chunks, x: int, z: int)
    requires LeafBelow(g, x, z) && c.Keys == g.spot.Keys && Circular(c, g)
    requires RingsKept(c, c', x) && Partition(Moved(g, x, z))
    ensures Circular(c', Moved(g, x, z))
  {
    var g' := Moved(g, x, z);
    var p := g.spot[x].pos;
    forall a | a in c' ensures g'.ring[g'.spot[a].pos] == g.ring[g.spot[a].pos] {
      assert g.ring[g.spot[a].pos][g.spot[a].rank] == a;
      assert g.ring[p][0] == x;
    }
  }

  lemma {:induction false} MoveRoots(bins: seq<int>, treemap: nat, g: Shape, bins': seq<int>, x: int, z: int)
    requires LeafBelow(g, x, z) && Roots(bins, treemap, g)
    requires var p := g.spot[x].pos; bins' == if p.depth == 0 then bins[p.bin := z] else bins
    ensures Roots(bins', treemap, Moved(g, x, z))
  {
    var p, q := g.spot[x].pos, g.spot[z].pos;
    assert p.depth == 0 ==> p == Root(p.bin);
    forall i | 0 <= i < NTREEBINS ensures bins'[i] == Look(Moved(g, x, z).ring, Root(i)) {
      LookMoved(g, x, z, Root(i));
      LookIs(g, x, Root(i));
      LookIs(g, z, Root(i));
    }
  }

  lemma {:induction false} MoveKeeps(c: Chunks, bins: seq<int>, treemap: nat, g: Shape, c': Chunks, bins': seq<int>,
                                     x: int, z: int)
    requires Inv(c, bins, treemap, g) && LeafBelow(g, x, z)
    requires SizesKept(c, c', x) && RingsKept(c, c', x) && Relinked(c, c', x, z, z)
    requires var p := g.spot[x].pos; bins' == if p.depth == 0 then bins[p.bin := z] else bins
    ensures Inv(c', bins', treemap, Moved(g, x, z))
  {
    MovePartition(g, x, z);
    MoveOnPath(g, x, z);
    MoveLinks(c, g, c', x, z);
    MoveCircular(c, g, c', x, z);
    MoveSizes(c, g, c', x, z);
    MoveRoots(bins, treemap, g, bins', x, z);
  }
}
