/** What `osrt/c/dlmalloc.c` asks of the system: how much memory a request needs, and regions that
    overlap nothing in use, either as heap segments or as chunks of their own. */
module SystemMemory {
  import opened Words
  import opened HeapLayout
  import opened HeapSegments
  import opened HeapOwners
  import PageIndex

  const MFAIL: int := -1
  const SYS_ALLOC_PADDING: nat := 96
  const GRANULARITY: nat := 0x1_0000
  const MMAP_THRESHOLD: nat := 0x4_0000
  const MMAP_FOOT_PAD: int := 32
  const FENCEPOST_HEAD: int := 11

  /** `granularity_align(nb + SYS_ALLOC_PADDING)` on 64-bit words. */
  function GrowSize(nb: nat): nat {
    ((nb + SYS_ALLOC_PADDING) % WORD + 0xFFFF) % WORD / 0x1_0000 * 0x1_0000
  }

  /** `mmap_align(nb + SIX_SIZE_T_SIZES + CHUNK_ALIGN_MASK)`. */
  function MmapSize(nb: nat): nat {
    ((nb + 63) % WORD + 0x1F_FFFF) % WORD / 0x20_0000 * 0x20_0000
  }

  /** A size that passes the wrap-around test has room for the request and its padding. */
  lemma {:induction false} GrowSizeFits(nb: nat)
    requires nb < WORD && GrowSize(nb) > nb
    ensures nb + SYS_ALLOC_PADDING <= GrowSize(nb) < WORD && GrowSize(nb) % GRANULARITY == 0
  {}

  lemma {:induction false} MmapSizeFits(nb: nat)
    requires nb < WORD && MmapSize(nb) > nb
    ensures nb + 63 <= MmapSize(nb) < WORD && MmapSize(nb) % CHUNK_ALIGN == 0
    ensures MmapSize(nb) >= PageIndex.PAGE && MmapSize(nb) % PageIndex.PAGE == 0
  {
    var m := ((nb + 63) % WORD + 0x1F_FFFF) % WORD;
    var q := m / 0x20_0000;
    MmapAligned(q);
    assert q * 0x20_0000 <= m;
  }

  lemma {:induction false} MmapAligned(q: nat)
    ensures q * 0x20_0000 % CHUNK_ALIGN == 0
  {
    assert q * 0x20_0000 == CHUNK_ALIGN * (q * 0x2_0000);
  }

  /** And the test fails only if the sum really does not fit a word. */
  lemma {:induction false} GrowSizeFails(nb: nat)
    requires nb < WORD
    ensures GrowSize(nb) <= nb <==> nb + SYS_ALLOC_PADDING + GRANULARITY > WORD
  {}

  // ---- Directly mapped chunks ---------------------------------------------------------------------

  /** The region of a directly mapped chunk. */
  ghost function MapRegion(mapped: Heap, p: int): Segment
    requires p in mapped
  {
    Segment(p, mapped[p].size + MMAP_FOOT_PAD)
  }

  /** A directly mapped chunk starts its own region and has neither tag set. */
  ghost predicate MapOk(mapped: Heap, segs: seq<Segment>, p: int)
    requires p in mapped
  {
    && mapped[p].foot == 0 && !mapped[p].cinuse && !mapped[p].pinuse && mapped[p].size > 0
    && Usable(segs, MapRegion(mapped, p))
  }

  ghost predicate MapsApart(mapped: Heap, p: int, q: int)
    requires p in mapped && q in mapped
  {
    Separate(MapRegion(mapped, p), MapRegion(mapped, q))
  }

  ghost predicate MapsOk(mapped: Heap, segs: seq<Segment>) {
    && (forall p {:trigger MapOk(mapped, segs, p)} :: p in mapped ==> MapOk(mapped, segs, p))
    && (forall p, q {:trigger MapsApart(mapped, p, q)} ::
          p in mapped && q in mapped && p != q ==> MapsApart(mapped, p, q))
  }

  /** The system may hand out a region if it overlaps nothing that the allocator holds. */
  ghost predicate Fresh(mapped: Heap, segs: seq<Segment>, s: Segment) {
    && Usable(segs, s)
    && forall p {:trigger MapRegion(mapped, p)} :: p in mapped ==> Separate(MapRegion(mapped, p), s)
  }

  /** `ok_address`: nothing that the allocator holds is below `least`, which is 0 only at the start. */
  ghost predicate LeastOk(least: int, mapped: Heap, segs: seq<Segment>) {
    && (least == 0 ==> |segs| == 0 && |mapped| == 0)
    && (forall i {:trigger segs[i]} :: 0 <= i < |segs| ==> least <= segs[i].base)
    && (forall p {:trigger p in mapped} :: p in mapped ==> least <= p)
  }

  lemma {:induction false} MapAdded(mapped: Heap, segs: seq<Segment>, base: int, size: int)
    requires MapsOk(mapped, segs) && Fresh(mapped, segs, Segment(base, size)) && size > MMAP_FOOT_PAD
    ensures base !in mapped && MapsOk(mapped[base := Header(0, size - MMAP_FOOT_PAD, false, false)], segs)
  {
    var s := Segment(base, size);
    var mapped' := mapped[base := Header(0, size - MMAP_FOOT_PAD, false, false)];
    assert base in mapped ==> MapOk(mapped, segs, base) && Separate(MapRegion(mapped, base), s);
    assert MapRegion(mapped', base) == s;
    forall p | p in mapped' ensures MapOk(mapped', segs, p) {
      if p != base {
        assert MapOk(mapped, segs, p);
        assert MapRegion(mapped', p) == MapRegion(mapped, p);
      }
    }
    forall p, q | p in mapped' && q in mapped' && p != q ensures MapsApart(mapped', p, q) {
      if p != base && q != base {
        assert MapsApart(mapped, p, q);
      } else if p != base {
        assert Separate(MapRegion(mapped, p), s);
      } else {
        assert Separate(MapRegion(mapped, q), s);
      }
    }
  }

  lemma {:induction false} MapRemoved(mapped: Heap, segs: seq<Segment>, p: int)
    requires MapsOk(mapped, segs) && p in mapped
    ensures MapsOk(mapped - {p}, segs)
  {
    forall q | q in mapped - {p} ensures MapOk(mapped - {p}, segs, q) { assert MapOk(mapped, segs, q); }
    forall q, r | q in mapped - {p} && r in mapped - {p} && q != r ensures MapsApart(mapped - {p}, q, r) {
      assert MapsApart(mapped, q, r);
    }
  }

  /** The words of the two fake headers behind a directly mapped chunk that ends at `e`. */
  function Fenced(fences: map<int, int>, e: int): map<int, int> {
    fences[e + 8 := FENCEPOST_HEAD][e + 16 := 0]
  }

  /** What `do_check_mmapped_chunk` asserts of directly mapped chunk `p` beyond its own header. */
  ghost predicate MmapChecked(mapped: Heap, fences: map<int, int>, p: int)
    requires p in mapped
  {
    var e := p + mapped[p].size;
    && e + 8 in fences && fences[e + 8] == FENCEPOST_HEAD && e + 16 in fences && fences[e + 16] == 0
    && mapped[p].size >= 256 && (mapped[p].size + MMAP_FOOT_PAD) % PageIndex.PAGE == 0
  }

  ghost predicate AllChecked(mapped: Heap, fences: map<int, int>) {
    forall p {:trigger MmapChecked(mapped, fences, p)} :: p in mapped ==> MmapChecked(mapped, fences, p)
  }

  lemma {:induction false} FencesAdded(mapped: Heap, segs: seq<Segment>, fences: map<int, int>, base: int, size: int)
    requires MapsOk(mapped, segs) && Fresh(mapped, segs, Segment(base, size)) && AllChecked(mapped, fences)
    requires size >= PageIndex.PAGE && size % PageIndex.PAGE == 0
    ensures AllChecked(mapped[base := Header(0, size - MMAP_FOOT_PAD, false, false)],
                       Fenced(fences, base + size - MMAP_FOOT_PAD))
  {
    var mapped' := mapped[base := Header(0, size - MMAP_FOOT_PAD, false, false)];
    forall p | p in mapped' ensures MmapChecked(mapped', Fenced(fences, base + size - MMAP_FOOT_PAD), p) {
      if p != base {
        assert MmapChecked(mapped, fences, p) && MapOk(mapped, segs, p);
        assert Separate(MapRegion(mapped, p), Segment(base, size));
      }
    }
  }

  lemma {:induction false} FencesRemoved(mapped: Heap, segs: seq<Segment>, fences: map<int, int>, p: int)
    requires MapsOk(mapped, segs) && AllChecked(mapped, fences) && p in mapped
    ensures var e := p + mapped[p].size; AllChecked(mapped - {p}, fences - {e + 8, e + 16})
  {
    var e := p + mapped[p].size;
    forall q | q in mapped - {p} ensures MmapChecked(mapped - {p}, fences - {e + 8, e + 16}, q) {
      assert MmapChecked(mapped, fences, q) && MapOk(mapped, segs, p) && MapOk(mapped, segs, q);
      assert MapsApart(mapped, p, q);
    }
  }

  /** The fake headers of a directly mapped chunk are in no block that is mapped on its own. */
  lemma {:induction false} FencesOutside(mapped: Heap, segs: seq<Segment>, p: int, q: int)
    requires MapsOk(mapped, segs) && p in mapped && q in mapped
    ensures var e := p + mapped[p].size; !(q <= e + 8 < q + mapped[q].size) && !(q <= e + 16 < q + mapped[q].size)
  {
    assert MapOk(mapped, segs, p) && MapOk(mapped, segs, q);
    if p != q { assert MapsApart(mapped, p, q); }
  }

  /** Directly mapped chunks are not in the heap. */
  lemma {:induction false} MapNotInHeap(h: Heap, ends: set<int>, segs: seq<Segment>, mapped: Heap, p: int)
    requires Layout(h, ends, segs) && MapsOk(mapped, segs) && p in mapped
    ensures p !in h
  {
    assert MapOk(mapped, segs, p);
    if p in h { OutsideSegment(h, ends, segs, MapRegion(mapped, p), p); }
  }

  /** The segments after the heap took in region `s` still overlap no directly mapped chunk. */
  ghost predicate Extends(segs: seq<Segment>, segs': seq<Segment>, s: Segment) {
    forall j {:trigger segs'[j]} :: 0 <= j < |segs'| ==> PartOf(segs, segs'[j], s)
  }

  /** `t` is a segment, the region, or both joined. */
  ghost predicate PartOf(segs: seq<Segment>, t: Segment, s: Segment) {
    || t == s
    || exists i {:trigger segs[i]} :: 0 <= i < |segs| &&
         (t == segs[i] || t == Joined(segs[i], s) || t == Joined(s, segs[i]))
  }

  ghost function Joined(s: Segment, t: Segment): Segment {
    if s.base + s.size == t.base then Segment(s.base, s.size + t.size) else s
  }

  lemma {:induction false} MapsExtended(mapped: Heap, segs: seq<Segment>, segs': seq<Segment>, s: Segment)
    requires MapsOk(mapped, segs) && Fresh(mapped, segs, s) && Extends(segs, segs', s)
    ensures MapsOk(mapped, segs')
  {
    forall p | p in mapped ensures MapOk(mapped, segs', p) {
      assert MapOk(mapped, segs, p);
      var r := MapRegion(mapped, p);
      forall j | 0 <= j < |segs'| ensures Separate(segs'[j], r) {
        assert PartOf(segs, segs'[j], s);
        assert Separate(r, s);
        if segs'[j] != s {
          var i :|
            && 0 <= i < |segs|
            && (segs'[j] == segs[i] || segs'[j] == Joined(segs[i], s) || segs'[j] == Joined(s, segs[i]));
          assert Separate(segs[i], r);
        }
      }
    }
    forall p, q | p in mapped && q in mapped && p != q ensures MapsApart(mapped, p, q) {}
  }

  // ---- Pages ---------------------------------------------------------------------------------------

  /** All memory that the allocator holds starts on a page boundary. */
  ghost predicate Paged(segs: seq<Segment>, mapped: Heap) {
    && (forall i {:trigger segs[i]} :: 0 <= i < |segs| ==> segs[i].base % PageIndex.PAGE == 0)
    && (forall p {:trigger p in mapped} :: p in mapped ==> p % PageIndex.PAGE == 0)
  }

  lemma {:induction false} PagedUnmapped(mapped: Heap, segs: seq<Segment>, p: int)
    ensures Paged(segs, mapped) ==> Paged(segs, mapped - {p})
  {}

  lemma {:induction false} PagedExtended(mapped: Heap, segs: seq<Segment>, segs': seq<Segment>, s: Segment)
    requires Extends(segs, segs', s)
    ensures Paged(segs, mapped) && s.base % PageIndex.PAGE == 0 ==> Paged(segs', mapped)
  {
    forall j | 0 <= j < |segs'| && Paged(segs, mapped) && s.base % PageIndex.PAGE == 0
      ensures segs'[j].base % PageIndex.PAGE == 0
    {
      assert PartOf(segs, segs'[j], s);
    }
  }
}
