/** Who owns the chunks of the heap of `osrt/c/dlmalloc.c`: every chunk is in use by the program or
    by the allocator, or is exactly one of `top`, the designated victim `dv`, or a binned chunk. */
module HeapOwners {
  import opened Words
  import opened HeapLayout
  import opened HeapSegments

  /** The fields of `malloc_state` that name chunks, the binned chunks with their sizes, the chunks
      handed to the program, and the chunks that hold segment records. A size of 0 means none. */
  datatype Owners = Owners(
    top: int, topsize: int, dv: int, dvsize: int,
    binned: map<int, int>, live: set<int>, records: set<int>)

  ghost predicate IsTop(o: Owners, p: int) {
    o.topsize > 0 && p == o.top
  }

  ghost predicate IsDv(o: Owners, p: int) {
    o.dvsize > 0 && p == o.dv
  }

  /** Chunk `p` has one owner, which knows its size. */
  ghost predicate OwnerOk(h: Heap, ends: set<int>, o: Owners, p: int)
    requires p in h
  {
    var c := h[p];
    && (c.cinuse <==> p in o.live || p in o.records) && !(p in o.live && p in o.records)
    && (!c.cinuse <==> p in o.binned || IsDv(o, p) || IsTop(o, p))
    && (p in o.binned ==> o.binned[p] == c.size && !IsDv(o, p) && !IsTop(o, p))
    && (IsDv(o, p) ==> o.dvsize == c.size && !IsTop(o, p))
    && (IsTop(o, p) ==> o.topsize == c.size)
    && (p + c.size in ends <==> IsTop(o, p) || p in o.records)
    && (!IsTop(o, p) ==> c.size >= MIN_CHUNK_SIZE)
    && (p in o.records ==> c.size == SEGMENT_RECORD_SIZE)
  }

  ghost predicate Chunk(h: Heap, ends: set<int>, p: int) {
    p in h && p !in ends
  }

  ghost predicate HasRole(o: Owners, p: int) {
    p in o.live || p in o.records || p in o.binned || IsDv(o, p) || IsTop(o, p)
  }

  ghost predicate Owned(h: Heap, ends: set<int>, o: Owners) {
    && o.topsize >= 0 && o.dvsize >= 0
    && (forall p {:trigger OwnerOk(h, ends, o, p)} :: p in h && p !in ends ==> OwnerOk(h, ends, o, p))
    && (forall p {:trigger HasRole(o, p)} :: HasRole(o, p) ==> Chunk(h, ends, p))
  }

  /** The whole heap: what `do_check_malloc_state` asserts. */
  ghost predicate Safe(h: Heap, ends: set<int>, segs: seq<Segment>, o: Owners) {
    && Layout(h, ends, segs) && Owned(h, ends, o)
    && (if o.topsize > 0 then TopOf(h, ends, segs, o.top) else |segs| == 0)
  }

  /** `p` has the same owner in both. */
  ghost predicate SameRole(o: Owners, o': Owners, p: int) {
    && (p in o'.live <==> p in o.live) && (p in o'.records <==> p in o.records)
    && (p in o'.binned <==> p in o.binned) && (p in o.binned ==> o'.binned[p] == o.binned[p])
    && (IsDv(o', p) <==> IsDv(o, p)) && (IsDv(o, p) ==> o'.dvsize == o.dvsize)
    && (IsTop(o', p) <==> IsTop(o, p)) && (IsTop(o, p) ==> o'.topsize == o.topsize)
  }

  /** All chunks but those in `x` have the same owner in both. */
  ghost predicate SameBut(o: Owners, o': Owners, x: set<int>) {
    o'.topsize >= 0 && o'.dvsize >= 0 && forall q {:trigger SameRole(o, o', q)} :: q !in x ==> SameRole(o, o', q)
  }

  /** Chunk `p` stays where it is. */
  ghost predicate Stays(h: Heap, h': Heap, p: int) {
    p in h && p in h' && h'[p].size == h[p].size && h[p].cinuse && h'[p].cinuse
  }

  /** Chunks handed out stay where they are. */
  ghost predicate Kept(h: Heap, h': Heap, live: set<int>) {
    forall p {:trigger Stays(h, h', p)} :: p in live ==> Stays(h, h', p)
  }

  lemma {:induction false} KeptTrans(h: Heap, h1: Heap, h2: Heap, live: set<int>, live1: set<int>)
    requires Kept(h, h1, live) && Kept(h1, h2, live1) && live <= live1
    ensures Kept(h, h2, live)
  {
    forall p | p in live ensures Stays(h, h2, p) { assert Stays(h, h1, p) && Stays(h1, h2, p); }
  }

  // ---- A whole free chunk is handed out ---------------------------------------------------------

  lemma {:induction false} TakeSafe(h: Heap, ends: set<int>, segs: seq<Segment>, o: Owners, p: int, o': Owners)
    requires Safe(h, ends, segs, o) && Chunk(h, ends, p) && !h[p].cinuse && !IsTop(o, p)
    requires SameBut(o, o', {p}) && o'.topsize == o.topsize && o'.top == o.top
    requires p in o'.live && p !in o'.records && p !in o'.binned && !IsDv(o', p)
    ensures p + h[p].size in h && Safe(TakeMem(h, p), ends, segs, o')
    ensures Kept(h, TakeMem(h, p), o.live) && p in TakeMem(h, p) && TakeMem(h, p)[p].size == h[p].size
  {
    assert ChunkOk(h, ends, p) && OwnerOk(h, ends, o, p);
    TakeKeeps(h, ends, segs, p);
    var h' := TakeMem(h, p);
    forall q | q in h' && q !in ends ensures OwnerOk(h', ends, o', q) {
      assert OwnerOk(h, ends, o, q);
      assert q != p ==> SameRole(o, o', q);
    }
    forall q | HasRole(o', q) ensures Chunk(h', ends, q) {
      assert q != p ==> SameRole(o, o', q);
      assert q != p ==> HasRole(o, q);
    }
    forall q | q in o.live ensures Stays(h, h', q) {
      assert HasRole(o, q);
      assert OwnerOk(h, ends, o, q);
    }
  }

  // ---- A free chunk is split ---------------------------------------------------------------------

  /** The rest of a split chunk is the new `dv`, a binned chunk, or the new `top`. */
  lemma {:induction false} SplitSafe(h: Heap, ends: set<int>, segs: seq<Segment>, o: Owners, p: int, nb: int,
                                     o': Owners)
    requires Safe(h, ends, segs, o) && Chunk(h, ends, p) && !h[p].cinuse
    requires MIN_CHUNK_SIZE <= nb && nb % CHUNK_ALIGN == 0
    requires if IsTop(o, p) then nb < h[p].size else nb + MIN_CHUNK_SIZE <= h[p].size
    requires SameBut(o, o', {p, p + nb})
    requires p in o'.live && p !in o'.records && p !in o'.binned && !IsDv(o', p) && !IsTop(o', p)
    requires var r, rsize := p + nb, h[p].size - nb;
             && r !in o'.live && r !in o'.records
             && if IsTop(o, p) then IsTop(o', r) && o'.topsize == rsize && !IsDv(o', r) && r !in o'.binned
                else && !IsTop(o', r) && o'.top == o.top && o'.topsize == o.topsize
                     && if IsDv(o', r) then o'.dvsize == rsize && r !in o'.binned
                        else r in o'.binned && o'.binned[r] == rsize
    ensures p + h[p].size in h && Safe(SplitMem(h, p, nb, !IsTop(o, p)), ends, segs, o')
    ensures Kept(h, SplitMem(h, p, nb, !IsTop(o, p)), o.live) && p + nb !in h
    ensures p in SplitMem(h, p, nb, !IsTop(o, p)) && SplitMem(h, p, nb, !IsTop(o, p))[p].size == nb
  {
    assert ChunkOk(h, ends, p) && OwnerOk(h, ends, o, p);
    SplitKeeps(h, ends, segs, p, nb, !IsTop(o, p));
    NothingInside(h, p, p + nb);
    var h' := SplitMem(h, p, nb, !IsTop(o, p));
    forall q | q in h' && q !in ends ensures OwnerOk(h', ends, o', q) {
      if q != p && q != p + nb {
        assert OwnerOk(h, ends, o, q);
        assert SameRole(o, o', q);
      }
    }
    forall q | HasRole(o', q) ensures Chunk(h', ends, q) {
      if q != p && q != p + nb {
        assert SameRole(o, o', q);
        assert HasRole(o, q);
      }
    }
    forall q | q in o.live ensures Stays(h, h', q) {
      assert HasRole(o, q);
      assert OwnerOk(h, ends, o, q);
    }
  }

  // ---- Neighbours merge ---------------------------------------------------------------------------

  /** The merged chunk is binned, the new `dv`, or the new `top`. */
  lemma {:induction false} MergeSafe(h: Heap, ends: set<int>, segs: seq<Segment>, o: Owners, lo: int, hi: int,
                                     foots: bool, x: set<int>, o': Owners)
    requires Safe(h, ends, segs, o) && Merges(h, ends, segs, lo, hi, foots) && hi - lo >= MIN_CHUNK_SIZE
    requires SameBut(o, o', x) && lo in x
    requires forall q :: lo < q < hi && q in h ==> q in x && !HasRole(o', q)
    requires forall q :: q in x ==> lo <= q < hi && q in h && q !in o.records
    requires lo !in o'.live && lo !in o'.records
    requires if foots
             then && hi !in ends && !IsTop(o', lo) && o'.top == o.top && o'.topsize == o.topsize
                  && (o.topsize > 0 ==> !(lo <= o.top < hi))
                  && if IsDv(o', lo) then o'.dvsize == hi - lo && lo !in o'.binned
                     else lo in o'.binned && o'.binned[lo] == hi - lo
             else IsTop(o', lo) && o'.topsize == hi - lo && !IsDv(o', lo) && lo !in o'.binned
                  && o.topsize > 0 && hi == o.top + o.topsize
    ensures Safe(MergeMem(h, lo, hi, foots), ends, segs, o')
    ensures Kept(h, MergeMem(h, lo, hi, foots), o.live - x)
  {
    MergeKeeps(h, ends, segs, lo, hi, foots);
    MergeTop(h, ends, segs, o, lo, hi, foots);
    var h' := MergeMem(h, lo, hi, foots);
    forall q | q in h' && q !in ends ensures OwnerOk(h', ends, o', q) {
      if q != lo {
        assert OwnerOk(h, ends, o, q);
        assert SameRole(o, o', q);
      }
    }
    forall q | HasRole(o', q) ensures Chunk(h', ends, q) {
      if q != lo && q !in x {
        assert SameRole(o, o', q);
        assert HasRole(o, q);
      }
    }
    forall q | q in o.live - x ensures Stays(h, h', q) {
      assert HasRole(o, q);
      assert OwnerOk(h, ends, o, q);
    }
  }

  lemma {:induction false} MergeTop(h: Heap, ends: set<int>, segs: seq<Segment>, o: Owners, lo: int, hi: int,
                                    foots: bool)
    requires Safe(h, ends, segs, o) && Merges(h, ends, segs, lo, hi, foots)
    requires if foots then hi !in ends && (o.topsize > 0 ==> !(lo <= o.top < hi))
             else o.topsize > 0 && hi == o.top + o.topsize
    ensures foots && o.topsize > 0 ==> TopOf(MergeMem(h, lo, hi, foots), ends, segs, o.top)
    ensures !foots ==> TopOf(MergeMem(h, lo, hi, foots), ends, segs, lo)
  {
    if o.topsize > 0 {
      assert HasRole(o, o.top);
      assert OwnerOk(h, ends, o, o.top) && ChunkOk(h, ends, o.top);
      var i :| 0 <= i < |segs| && Holds(segs[i], lo, hi + 1);
      if !foots { SegmentsMeet(segs, h, ends, 0, i, hi); }
    }
  }

  /** A chunk changes owner without being touched: `dv` is binned. */
  lemma {:induction false} RebinSafe(h: Heap, ends: set<int>, segs: seq<Segment>, o: Owners)
    requires Safe(h, ends, segs, o) && o.dvsize > 0
    ensures Safe(h, ends, segs, o.(dv := 0, dvsize := 0, binned := o.binned[o.dv := o.dvsize]))
  {
    var o' := o.(dv := 0, dvsize := 0, binned := o.binned[o.dv := o.dvsize]);
    assert HasRole(o, o.dv);
    forall q | q in h && q !in ends ensures OwnerOk(h, ends, o', q) { assert OwnerOk(h, ends, o, q); }
    forall q | HasRole(o', q) ensures Chunk(h, ends, q) { assert HasRole(o, q); }
  }

  // ---- What a chunk in use may be merged with ---------------------------------------------------

  /** The start of the free chunk that freeing `p` makes. */
  ghost function Low(h: Heap, p: int): int
    requires p in h
  {
    if h[p].pinuse then p else p - h[p].foot
  }

  /** And its end: the chunk behind joins if it is free. */
  ghost function High(h: Heap, ends: set<int>, p: int): int
    requires p in h && p + h[p].size in h
  {
    var n := p + h[p].size;
    if n !in ends && !h[n].cinuse then n + h[n].size else n
  }

  /** The chunks that become one. */
  ghost function Span(h: Heap, ends: set<int>, p: int): set<int>
    requires p in h && p + h[p].size in h
  {
    var n := p + h[p].size;
    {Low(h, p), p} + if n !in ends && !h[n].cinuse then {n} else {}
  }

  ghost predicate JoinsTop(h: Heap, o: Owners, p: int)
    requires p in h
  {
    IsTop(o, p + h[p].size)
  }

  lemma {:induction false} SpanMerges(h: Heap, ends: set<int>, segs: seq<Segment>, o: Owners, p: int)
    requires Safe(h, ends, segs, o) && p in o.live
    ensures Chunk(h, ends, p) && p + h[p].size in h && p + h[p].size !in ends
    ensures Merges(h, ends, segs, Low(h, p), High(h, ends, p), !JoinsTop(h, o, p))
    ensures High(h, ends, p) in ends <==> JoinsTop(h, o, p)
    ensures High(h, ends, p) - Low(h, p) >= MIN_CHUNK_SIZE
  {
    assert HasRole(o, p);
    assert OwnerOk(h, ends, o, p) && ChunkOk(h, ends, p);
    var n, lo, hi := p + h[p].size, Low(h, p), High(h, ends, p);
    assert OwnerOk(h, ends, o, n) && ChunkOk(h, ends, n);
    if !h[n].cinuse { FreeNeighbours(h, ends, n); }
    if lo != p { Previous(h, ends, p); }
    SpanHome(h, ends, segs, p);
    forall e | e in ends ensures !(lo < e < hi) { SpanInside(h, ends, segs, p, e); }
  }

  lemma {:induction false} SpanHome(h: Heap, ends: set<int>, segs: seq<Segment>, p: int)
    requires Layout(h, ends, segs) && Chunk(h, ends, p) && p + h[p].size in h && p + h[p].size !in ends
    ensures exists i :: 0 <= i < |segs| && Holds(segs[i], Low(h, p), High(h, ends, p) + 1)
  {
    var n, lo := p + h[p].size, Low(h, p);
    var i := SameHome(h, ends, segs, p);
    if lo != p {
      Previous(h, ends, p);
      var j := SameHome(h, ends, segs, lo);
      HeaderNonempty(h, ends, segs, p);
      SegmentsMeet(segs, h, ends, i, j, p);
    }
    assert Holds(segs[i], lo, High(h, ends, p) + 1);
  }

  /** Inside the new chunk there are no headers but those of its parts. */
  lemma {:induction false} SpanInside(h: Heap, ends: set<int>, segs: seq<Segment>, p: int, q: int)
    requires Layout(h, ends, segs) && Chunk(h, ends, p) && p + h[p].size in h && p + h[p].size !in ends && q in h
    ensures Low(h, p) < q < High(h, ends, p) ==> q in Span(h, ends, p) && q !in ends
  {
    var n, lo := p + h[p].size, Low(h, p);
    if lo != p { Previous(h, ends, p); }
    assert lo < q ==> Clear(h, lo, q);
    assert p < q ==> Clear(h, p, q);
    assert n < q ==> Clear(h, n, q);
  }

  lemma {:induction false} SpanParts(h: Heap, ends: set<int>, segs: seq<Segment>, o: Owners, p: int)
    requires Safe(h, ends, segs, o) && p in o.live && Chunk(h, ends, p)
    requires p + h[p].size in h && p + h[p].size !in ends
    ensures forall q :: q in Span(h, ends, p) ==>
              && Low(h, p) <= q < High(h, ends, p) && q in h && q !in ends && q !in o.records
              && (q != p ==> !h[q].cinuse)
    ensures forall q :: Low(h, p) < q < High(h, ends, p) && q in h ==> q in Span(h, ends, p)
    ensures Low(h, p) in Span(h, ends, p)
  {
    var n, lo := p + h[p].size, Low(h, p);
    assert OwnerOk(h, ends, o, p) && ChunkOk(h, ends, p) && OwnerOk(h, ends, o, n) && ChunkOk(h, ends, n);
    if lo != p { Previous(h, ends, p); assert OwnerOk(h, ends, o, lo); }
    forall q | lo < q < High(h, ends, p) && q in h ensures q in Span(h, ends, p) { SpanInside(h, ends, segs, p, q); }
  }

  /** The new free chunk has one owner and its parts have none. */
  ghost predicate Absorbed(h: Heap, ends: set<int>, o: Owners, p: int, o': Owners)
    requires p in h && p + h[p].size in h
  {
    var lo, hi := Low(h, p), High(h, ends, p);
    && SameBut(o, o', Span(h, ends, p))
    && (forall q :: q in Span(h, ends, p) && q != lo ==> !HasRole(o', q))
    && lo !in o'.live && lo !in o'.records
    && if JoinsTop(h, o, p) then
         IsTop(o', lo) && o'.topsize == hi - lo && !IsDv(o', lo) && lo !in o'.binned
       else
         && !IsTop(o', lo) && o'.top == o.top && o'.topsize == o.topsize
         && if IsDv(o', lo) then o'.dvsize == hi - lo && lo !in o'.binned
            else lo in o'.binned && o'.binned[lo] == hi - lo
  }

  /** Freeing chunk `p` keeps the heap safe, whatever it is merged with. */
  lemma {:induction false} FreeSafe(h: Heap, ends: set<int>, segs: seq<Segment>, o: Owners, p: int, o': Owners)
    requires Safe(h, ends, segs, o) && p in o.live && Chunk(h, ends, p) && p + h[p].size in h
    requires Absorbed(h, ends, o, p, o')
    ensures var lo, hi := Low(h, p), High(h, ends, p);
            && lo in h && hi in h
            && Safe(MergeMem(h, lo, hi, !JoinsTop(h, o, p)), ends, segs, o')
            && Kept(h, MergeMem(h, lo, hi, !JoinsTop(h, o, p)), o.live - {p})
  {
    SpanMerges(h, ends, segs, o, p);
    SpanParts(h, ends, segs, o, p);
    SpanTop(h, ends, segs, o, p);
    var lo, hi, x := Low(h, p), High(h, ends, p), Span(h, ends, p);
    MergeSafe(h, ends, segs, o, lo, hi, !JoinsTop(h, o, p), x, o');
    forall q | q in o.live - {p} ensures Stays(h, MergeMem(h, lo, hi, !JoinsTop(h, o, p)), q) {
      assert HasRole(o, q);
      assert OwnerOk(h, ends, o, q);
      assert q !in x;
    }
  }

  /** `top` is part of the new chunk only if it is right behind `p`. */
  lemma {:induction false} SpanTop(h: Heap, ends: set<int>, segs: seq<Segment>, o: Owners, p: int)
    requires Safe(h, ends, segs, o) && p in o.live && Chunk(h, ends, p)
    requires p + h[p].size in h && p + h[p].size !in ends
    ensures if JoinsTop(h, o, p) then o.topsize > 0 && High(h, ends, p) == o.top + o.topsize
            else o.topsize > 0 ==> !(Low(h, p) <= o.top < High(h, ends, p))
  {
    var n, lo := p + h[p].size, Low(h, p);
    assert OwnerOk(h, ends, o, p) && ChunkOk(h, ends, p) && OwnerOk(h, ends, o, n) && ChunkOk(h, ends, n);
    if o.topsize > 0 {
      assert HasRole(o, o.top);
      SpanInside(h, ends, segs, p, o.top);
      assert OwnerOk(h, ends, o, o.top);
      if lo != p { Previous(h, ends, p); assert OwnerOk(h, ends, o, lo) && ChunkOk(h, ends, lo); }
    }
  }

  /** Who owns what after chunk `p` is freed: `top` wins over `dv`, and `dv` over the bins. */
  ghost function FreedOwners(h: Heap, ends: set<int>, o: Owners, p: int): Owners
    requires p in h && p + h[p].size in h
  {
    var lo, n := Low(h, p), p + h[p].size;
    var size := High(h, ends, p) - lo;
    var rest := o.(binned := o.binned - {lo, n}, live := o.live - {p});
    if IsTop(o, n) then
      rest.(top := lo, topsize := size,
            dv := if IsDv(o, lo) then 0 else o.dv, dvsize := if IsDv(o, lo) then 0 else o.dvsize)
    else if IsDv(o, n) || IsDv(o, lo) then
      rest.(dv := lo, dvsize := size)
    else
      rest.(binned := rest.binned[lo := size])
  }

  lemma {:induction false} FreedAbsorbed(h: Heap, ends: set<int>, segs: seq<Segment>, o: Owners, p: int)
    requires Safe(h, ends, segs, o) && p in o.live
    ensures Chunk(h, ends, p) && p + h[p].size in h && p + h[p].size !in ends
    ensures Absorbed(h, ends, o, p, FreedOwners(h, ends, o, p))
  {
    hide Layout, Merges, TopOf;
    SpanMerges(h, ends, segs, o, p);
    SpanParts(h, ends, segs, o, p);
    var lo, n := Low(h, p), p + h[p].size;
    SpanOrder(h, ends, segs, o, p);
    assert OwnerOk(h, ends, o, p) && OwnerOk(h, ends, o, n) && OwnerOk(h, ends, o, lo);
  }

  lemma {:induction false} SpanOrder(h: Heap, ends: set<int>, segs: seq<Segment>, o: Owners, p: int)
    requires Safe(h, ends, segs, o) && p in o.live && Chunk(h, ends, p) && p + h[p].size in h && p + h[p].size !in ends
    ensures Low(h, p) <= p < p + h[p].size && Chunk(h, ends, Low(h, p))
    ensures Low(h, p) != p ==> !h[Low(h, p)].cinuse && Low(h, p) + h[Low(h, p)].size == p
    ensures h[p + h[p].size].size > 0
  {
    assert ChunkOk(h, ends, p) && ChunkOk(h, ends, p + h[p].size);
    if Low(h, p) != p { Previous(h, ends, p); }
  }

  /** Freeing chunk `p` keeps the heap safe. */
  lemma {:induction false} FreedSafe(h: Heap, ends: set<int>, segs: seq<Segment>, o: Owners, p: int)
    requires Safe(h, ends, segs, o) && p in o.live
    ensures Chunk(h, ends, p) && p + h[p].size in h && p + h[p].size !in ends
    ensures var lo, hi := Low(h, p), High(h, ends, p);
            && lo in h && hi in h
            && Safe(MergeMem(h, lo, hi, !JoinsTop(h, o, p)), ends, segs, FreedOwners(h, ends, o, p))
            && Kept(h, MergeMem(h, lo, hi, !JoinsTop(h, o, p)), o.live - {p})
  {
    hide Safe, Absorbed, FreedOwners, MergeMem, Kept;
    FreedAbsorbed(h, ends, segs, o, p);
    FreeSafe(h, ends, segs, o, p, FreedOwners(h, ends, o, p));
  }

  /** The three ways a freed chunk can end up, by the owners of its neighbours. */
  lemma {:induction false} FreedToBin(h: Heap, ends: set<int>, o: Owners, p: int)
    requires p in h && p + h[p].size in h
    requires !IsTop(o, p + h[p].size) && !IsDv(o, p + h[p].size) && !IsDv(o, Low(h, p))
    ensures FreedOwners(h, ends, o, p)
            == o.(binned := (o.binned - {Low(h, p)} - {p + h[p].size})[Low(h, p) := High(h, ends, p) - Low(h, p)],
                  live := o.live - {p})
  {
    assert o.binned - {Low(h, p), p + h[p].size} == o.binned - {Low(h, p)} - {p + h[p].size};
  }

  lemma {:induction false} FreedToDv(h: Heap, ends: set<int>, o: Owners, p: int)
    requires p in h && p + h[p].size in h
    requires !IsTop(o, p + h[p].size) && (IsDv(o, p + h[p].size) || IsDv(o, Low(h, p)))
    ensures FreedOwners(h, ends, o, p)
            == o.(binned := o.binned - {Low(h, p)} - {p + h[p].size}, live := o.live - {p},
                  dv := Low(h, p), dvsize := High(h, ends, p) - Low(h, p))
  {
    assert o.binned - {Low(h, p), p + h[p].size} == o.binned - {Low(h, p)} - {p + h[p].size};
  }

  lemma {:induction false} FreedToTop(h: Heap, ends: set<int>, o: Owners, p: int)
    requires p in h && p + h[p].size in h && IsTop(o, p + h[p].size)
    ensures var lo := Low(h, p);
            FreedOwners(h, ends, o, p)
            == o.(binned := o.binned - {lo} - {p + h[p].size}, live := o.live - {p},
                  top := lo, topsize := High(h, ends, p) - lo,
                  dv := if IsDv(o, lo) then 0 else o.dv, dvsize := if IsDv(o, lo) then 0 else o.dvsize)
  {
    assert o.binned - {Low(h, p), p + h[p].size} == o.binned - {Low(h, p)} - {p + h[p].size};
  }

  // ---- New memory ------------------------------------------------------------------------------------

  lemma {:induction false} EmptySafe()
    ensures Safe(map[], {}, [], Owners(0, 0, 0, 0, map[], {}, {}))
  {}

  /** A new segment holds the new `top`; there is no old one. */
  lemma {:induction false} NewTopOwned(h: Heap, ends: set<int>, segs: seq<Segment>, o: Owners, base: int, size: int)
    requires Layout(h, ends, segs) && Owned(h, ends, o) && o.topsize == 0
    requires Usable(segs, Segment(base, size)) && size > TOP_FOOT_SIZE
    ensures Safe(NewTopMem(h, base, size), ends + {base + size - TOP_FOOT_SIZE}, [Segment(base, size)] + segs,
                 o.(top := base, topsize := size - TOP_FOOT_SIZE))
    ensures Kept(h, NewTopMem(h, base, size), o.live)
  {
    NewTopKeeps(h, ends, segs, base, size);
    var e := base + size - TOP_FOOT_SIZE;
    var h', ends' := NewTopMem(h, base, size), ends + {e};
    var o' := o.(top := base, topsize := size - TOP_FOOT_SIZE);
    assert HasRole(o, base) ==> Chunk(h, ends, base);
    assert HasRole(o, e) ==> Chunk(h, ends, e);
    forall q | q in h' && q !in ends' ensures OwnerOk(h', ends', o', q) {
      if q != base {
        assert OwnerOk(h, ends, o, q);
        assert ChunkOk(h, ends, q);
      }
    }
    forall q | HasRole(o', q) ensures Chunk(h', ends', q) {
      assert q != base ==> HasRole(o, q);
    }
    forall q | q in o.live ensures Stays(h, h', q) {
      assert HasRole(o, q);
      assert OwnerOk(h, ends, o, q);
    }
  }

  lemma {:induction false} GrowTopSafe(h: Heap, ends: set<int>, segs: seq<Segment>, o: Owners, tsize: int)
    requires Safe(h, ends, segs, o) && o.topsize > 0
    requires tsize >= TOP_FOOT_SIZE && tsize % CHUNK_ALIGN == 0
    requires Usable(segs, Segment(segs[0].base + segs[0].size, tsize))
    ensures o.top in h && h[o.top].size == o.topsize
    ensures var e := o.top + o.topsize;
            Safe(GrowTopMem(h, o.top, tsize), ends - {e} + {e + tsize},
                 segs[0 := Segment(segs[0].base, segs[0].size + tsize)], o.(topsize := o.topsize + tsize))
    ensures Kept(h, GrowTopMem(h, o.top, tsize), o.live)
  {
    var top, s := o.top, Segment(segs[0].base + segs[0].size, tsize);
    assert HasRole(o, top);
    assert OwnerOk(h, ends, o, top) && ChunkOk(h, ends, top);
    var e := top + h[top].size;
    var h', ends', o' := GrowTopMem(h, top, tsize), ends - {e} + {e + tsize}, o.(topsize := o.topsize + tsize);
    GrowTopKeeps(h, ends, segs, top, tsize);
    forall q | q in h' && q !in ends' ensures OwnerOk(h', ends', o', q) {
      if q != top {
        assert OwnerOk(h, ends, o, q) && ChunkOk(h, ends, q);
        OutsideSegment(h, ends, segs, s, q + h[q].size);
      }
    }
    forall q | HasRole(o', q) ensures Chunk(h', ends', q) {
      assert HasRole(o, q);
      OutsideSegment(h, ends, segs, s, q);
    }
    forall q | q in o.live ensures Stays(h, h', q) {
      assert HasRole(o, q);
      assert OwnerOk(h, ends, o, q);
      OutsideSegment(h, ends, segs, s, q);
    }
  }

  /** The owners after `add_segment` closed the old `top`. */
  ghost function Closed(o: Owners): Owners {
    o.(topsize := 0, records := o.records + {RecordAt(o.top, o.topsize)},
       binned := if o.topsize < MIN_CHUNK_SIZE then o.binned else o.binned[o.top := o.topsize])
  }

  lemma {:induction false} CloseOwned(h: Heap, ends: set<int>, segs: seq<Segment>, o: Owners)
    requires Safe(h, ends, segs, o) && o.topsize > 0
    ensures o.top in h && h[o.top].size == o.topsize
    ensures Owned(CloseMem(h, o.top), CloseEnds(h, ends, o.top), Closed(o))
    ensures Kept(h, CloseMem(h, o.top), o.live)
  {
    var top := o.top;
    assert HasRole(o, top);
    assert OwnerOk(h, ends, o, top) && ChunkOk(h, ends, top);
    var h', ends', o' := CloseMem(h, top), CloseEnds(h, ends, top), Closed(o);
    FirstFence(top, o.topsize);
    assert HasRole(o, top + o.topsize) ==> Chunk(h, ends, top + o.topsize);
    forall q | q in h' && q !in ends' ensures OwnerOk(h', ends', o', q) {
      CloseOwner(h, ends, segs, o, q);
    }
    forall q | HasRole(o', q) ensures Chunk(h', ends', q) {
      if q != top && q != top + o.topsize {
        assert HasRole(o, q);
        CloseIsOutside(h, ends, segs, top, q);
        HeaderNonempty(h, ends, segs, q);
      }
    }
    forall q | q in o.live ensures Stays(h, h', q) {
      assert HasRole(o, q);
      assert OwnerOk(h, ends, o, q);
      CloseIsOutside(h, ends, segs, top, q);
      HeaderNonempty(h, ends, segs, q);
    }
  }

  lemma {:induction false} CloseOwner(h: Heap, ends: set<int>, segs: seq<Segment>, o: Owners, q: int)
    requires Safe(h, ends, segs, o) && o.topsize > 0 && o.top in h && h[o.top].size == o.topsize
    requires q in CloseMem(h, o.top) && q !in CloseEnds(h, ends, o.top)
    ensures OwnerOk(CloseMem(h, o.top), CloseEnds(h, ends, o.top), Closed(o), q)
  {
    var top := o.top;
    assert HasRole(o, top);
    assert OwnerOk(h, ends, o, top) && ChunkOk(h, ends, top);
    assert HasRole(o, top + o.topsize) ==> Chunk(h, ends, top + o.topsize);
    FirstFence(top, o.topsize);
    if q in h && q !in ends && q != top {
      assert OwnerOk(h, ends, o, q) && ChunkOk(h, ends, q);
      CloseIsOutside(h, ends, segs, top, q);
      CloseIsOutside(h, ends, segs, top, q + h[q].size);
      HeaderNonempty(h, ends, segs, q + h[q].size);
      if q + h[q].size == top + o.topsize { OneBefore(h, ends, top, q, top + o.topsize); }
    }
  }

  /** Memory below a segment, as one chunk in use. */
  lemma {:induction false} GrowDownSafe(h: Heap, ends: set<int>, segs: seq<Segment>, o: Owners, i: nat, base: int,
                                        tsize: int)
    requires Safe(h, ends, segs, o) && Usable(segs, Segment(base, tsize)) && tsize >= MIN_CHUNK_SIZE
    requires i < |segs| && segs[i].base == base + tsize
    ensures base !in h
    ensures Safe(GrowDownMem(h, base, tsize), ends, segs[i := Segment(base, segs[i].size + tsize)],
                 o.(live := o.live + {base}))
    ensures Kept(h, GrowDownMem(h, base, tsize), o.live)
  {
    GrowDownKeeps(h, ends, segs, i, base, tsize);
    var h', o' := GrowDownMem(h, base, tsize), o.(live := o.live + {base});
    assert SegmentOk(h, ends, segs[i]);
    assert HasRole(o, base) ==> Chunk(h, ends, base);
    forall q | q in h' && q !in ends ensures OwnerOk(h', ends, o', q) {
      if q != base { assert OwnerOk(h, ends, o, q); }
    }
    forall q | HasRole(o', q) ensures Chunk(h', ends, q) { assert q != base ==> HasRole(o, q); }
    forall q | q in o.live ensures Stays(h, h', q) {
      assert HasRole(o, q);
      assert OwnerOk(h, ends, o, q);
    }
  }

  lemma {:induction false} CutSafe(h: Heap, ends: set<int>, segs: seq<Segment>, o: Owners, p: int, nb: int)
    requires Safe(h, ends, segs, o) && p in o.live && p in h
    requires MIN_CHUNK_SIZE <= nb <= h[p].size - MIN_CHUNK_SIZE && nb % CHUNK_ALIGN == 0
    ensures p + nb !in h
    ensures Safe(CutMem(h, p, nb), ends, segs, o.(live := o.live + {p + nb}))
    ensures Kept(h, CutMem(h, p, nb), o.live - {p})
  {
    assert HasRole(o, p);
    assert OwnerOk(h, ends, o, p) && ChunkOk(h, ends, p);
    CutKeeps(h, ends, segs, p, nb);
    var r := p + nb;
    var h', o' := CutMem(h, p, nb), o.(live := o.live + {r});
    assert HasRole(o, r) ==> Chunk(h, ends, r);
    forall q | q in h' && q !in ends ensures OwnerOk(h', ends, o', q) {
      if q != r { assert OwnerOk(h, ends, o, q); }
    }
    forall q | HasRole(o', q) ensures Chunk(h', ends, q) { assert q != r ==> HasRole(o, q); }
    forall q | q in o.live - {p} ensures Stays(h, h', q) {
      assert HasRole(o, q);
      assert OwnerOk(h, ends, o, q);
    }
  }

  // ---- Bounds ------------------------------------------------------------------------------------------

  /** Chunks lie in the address space and not below the first segment. */
  lemma {:induction false} ChunkBounds(h: Heap, ends: set<int>, segs: seq<Segment>, least: int, p: int)
    requires Layout(h, ends, segs) && Chunk(h, ends, p)
    requires forall i {:trigger segs[i]} :: 0 <= i < |segs| ==> least <= segs[i].base
    ensures least <= p && p > 0 && p % CHUNK_ALIGN == 0
    ensures 0 < h[p].size < WORD && h[p].size % CHUNK_ALIGN == 0
  {
    assert ChunkOk(h, ends, p) && Homed(h, ends, segs, p);
    var i :| 0 <= i < |segs| && Holds(segs[i], p, p + h[p].size + 1);
    assert SegmentOk(h, ends, segs[i]);
  }

  /** A binned chunk and `dv` are free chunks of the size that their owner has on record. */
  lemma {:induction false} RoleFacts(h: Heap, ends: set<int>, segs: seq<Segment>, o: Owners, p: int)
    requires Safe(h, ends, segs, o) && HasRole(o, p)
    ensures Chunk(h, ends, p) && OwnerOk(h, ends, o, p) && p > 0 && p + h[p].size in h
    ensures 0 < h[p].size < WORD && h[p].size % CHUNK_ALIGN == 0
    ensures p in o.live || p in o.binned || IsDv(o, p) ==> p + h[p].size !in ends && h[p].size >= MIN_CHUNK_SIZE
  {
    assert OwnerOk(h, ends, o, p) && ChunkOk(h, ends, p);
    assert forall i :: 0 <= i < |segs| ==> SegmentOk(h, ends, segs[i]);
    ChunkBounds(h, ends, segs, 0, p);
  }
}
