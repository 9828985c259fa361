/** What the heap invariant of `osrt/c/dlmalloc.c` means for the program that uses the heap. */
module HeapSafety {
  import opened HeapLayout
  import opened HeapSegments
  import opened HeapOwners

  const SIZE_T_SIZE: int := 8
  const TWO_SIZE_T_SIZES: int := 16

  /** The bytes that the program may use: from `chunk2mem(p)` to the size word of the next chunk. */
  ghost predicate InPayload(h: Heap, p: int, a: int)
    requires p in h
  {
    p + TWO_SIZE_T_SIZES <= a < p + h[p].size + SIZE_T_SIZE
  }

  /** Blocks handed to the program do not overlap. */
  lemma {:induction false} PayloadsDisjoint(h: Heap, ends: set<int>, segs: seq<Segment>, o: Owners, p: int, q: int,
                                            a: int)
    requires Safe(h, ends, segs, o) && p in o.live && q in o.live && p != q
    ensures p in h && q in h && !(InPayload(h, p, a) && InPayload(h, q, a))
  {
    assert HasRole(o, p) && HasRole(o, q);
    assert p < q ==> Clear(h, p, q);
    assert q < p ==> Clear(h, q, p);
  }

  /** The words that the allocator keeps: every size word, the feet of free chunks, and the links
      inside free chunks. */
  ghost predicate InTags(h: Heap, ends: set<int>, q: int, a: int)
    requires q in h
  {
    || q + SIZE_T_SIZE <= a < q + TWO_SIZE_T_SIZES
    || (q !in ends && !h[q].pinuse && q <= a < q + SIZE_T_SIZE)
    || (q !in ends && !h[q].cinuse && q + TWO_SIZE_T_SIZES <= a < q + h[q].size)
  }

  /** The program never sees them: no word of the allocator is inside a block handed out. */
  lemma {:induction false} TagsOutsidePayload(h: Heap, ends: set<int>, segs: seq<Segment>, o: Owners, p: int, q: int,
                                              a: int)
    requires Safe(h, ends, segs, o) && p in o.live && q in h && InTags(h, ends, q, a)
    ensures p in h && !InPayload(h, p, a)
  {
    assert HasRole(o, p);
    assert OwnerOk(h, ends, o, p) && ChunkOk(h, ends, p);
    assert p < q ==> Clear(h, p, q);
    assert q < p ==> Clear(h, q, p);
    if q !in ends { assert ChunkOk(h, ends, q); }
  }

  /** Whatever the program writes into its blocks: only feet below chunks in use can change, ... */
  ghost predicate Scribbled(h: Heap, h': Heap) {
    h'.Keys == h.Keys && forall p {:trigger SameTags(h, h', p)} :: p in h ==> SameTags(h, h', p)
  }

  ghost predicate SameTags(h: Heap, h': Heap, p: int) {
    p in h && p in h' && h'[p] == if h[p].pinuse then h[p].(foot := h'[p].foot) else h[p]
  }

  /** ... and the heap stays safe. */
  lemma {:induction false} ScribblingIsSafe(h: Heap, h': Heap, ends: set<int>, segs: seq<Segment>, o: Owners)
    requires Safe(h, ends, segs, o) && Scribbled(h, h')
    ensures Safe(h', ends, segs, o)
  {
    forall p | p in h' && p !in ends ensures ChunkOk(h', ends, p) && OwnerOk(h', ends, o, p) {
      assert ChunkOk(h, ends, p) && OwnerOk(h, ends, o, p);
      assert SameTags(h, h', p) && SameTags(h, h', p + h[p].size);
      assert !h[p].pinuse ==> SameTags(h, h', p - h[p].foot);
    }
    forall p | HasRole(o, p) ensures Chunk(h', ends, p) {}
    forall p | p in h ensures SameTags(h, h', p) {}
    SameSizesKeep(h, h', ends, segs);
    if o.topsize > 0 { ScribbledTop(h, h', ends, segs, o); }
  }

  lemma {:induction false} ScribbledTop(h: Heap, h': Heap, ends: set<int>, segs: seq<Segment>, o: Owners)
    requires Safe(h, ends, segs, o) && Scribbled(h, h') && o.topsize > 0
    ensures TopOf(h', ends, segs, o.top)
  {
    assert HasRole(o, o.top);
    assert SameTags(h, h', o.top) && SameTags(h, h', o.top + h[o.top].size);
  }

  /** Address `a` belongs to chunk `p`. */
  ghost predicate Covers(h: Heap, ends: set<int>, p: int, a: int) {
    p in h && p !in ends && p <= a < p + h[p].size
  }

  /** Chunks tile a segment: each of its addresses is in a chunk, or in the overhead at its end. */
  lemma {:induction false} SegmentTiled(h: Heap, ends: set<int>, segs: seq<Segment>, i: nat, a: int)
    requires Layout(h, ends, segs) && i < |segs| && segs[i].base <= a < segs[i].base + segs[i].size
    ensures (exists p :: Covers(h, ends, p, a)) || a + TOP_FOOT_SIZE >= segs[i].base + segs[i].size
  {
    assert SegmentOk(h, ends, segs[i]);
    TiledFrom(h, ends, segs, i, segs[i].base, a);
  }

  lemma {:induction false} TiledFrom(h: Heap, ends: set<int>, segs: seq<Segment>, i: nat, p: int, a: int)
    requires Layout(h, ends, segs) && i < |segs| && a < segs[i].base + segs[i].size
    requires p in h && segs[i].base <= p <= a
    ensures (exists q :: Covers(h, ends, q, a)) || a + TOP_FOOT_SIZE >= segs[i].base + segs[i].size
    decreases a - p
  {
    if p in ends {
      assert EndOk(h, segs, p);
      var j :| 0 <= j < |segs| && Tail(segs[j], p);
      SegmentsMeet(segs, h, ends, i, j, p);
    } else {
      assert ChunkOk(h, ends, p);
      if a < p + h[p].size {
        assert Covers(h, ends, p, a);
      } else {
        TiledFrom(h, ends, segs, i, p + h[p].size, a);
      }
    }
  }

  /** And no address is in two chunks. */
  lemma {:induction false} CoveredOnce(h: Heap, ends: set<int>, p: int, q: int, a: int)
    requires Disjoint(h) && Covers(h, ends, p, a) && Covers(h, ends, q, a)
    ensures p == q
  {
    assert p < q ==> Clear(h, p, q);
    assert q < p ==> Clear(h, q, p);
  }

  /** A free chunk is exactly one of `top`, `dv` and binned, and both its neighbours are in use. */
  lemma {:induction false} FreeChunkFacts(h: Heap, ends: set<int>, segs: seq<Segment>, o: Owners, p: int)
    requires Safe(h, ends, segs, o) && Chunk(h, ends, p) && !h[p].cinuse
    ensures IsTop(o, p) || IsDv(o, p) || p in o.binned
    ensures !(IsTop(o, p) && IsDv(o, p)) && !(IsTop(o, p) && p in o.binned) && !(IsDv(o, p) && p in o.binned)
    ensures h[p].pinuse && p + h[p].size in h
    ensures if IsTop(o, p) then p + h[p].size in ends
            else p + h[p].size !in ends && h[p + h[p].size].cinuse && h[p + h[p].size].foot == h[p].size
  {
    assert OwnerOk(h, ends, o, p) && ChunkOk(h, ends, p);
    FreeNeighbours(h, ends, p);
  }
}
