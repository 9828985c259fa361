/** What becomes of the heap of `osrt/c/dlmalloc.c` when `munmap` is that of `kernel/k_memory.c`: memory goes back in
    units of 64 KB, but the system unmaps whole pages of 2 MB. */
module TrimPages {
  import opened Words
  import opened PageIndex
  import opened HeapLayout
  import opened HeapSegments
  import opened HeapOwners
  import opened SystemMemory
  import opened HeapTrim
  import opened Dlmalloc

  /** Page `p` has a byte of region `s`. */
  predicate Touches(p: int, s: Segment) {
    p * PAGE < s.base + s.size && s.base < p * PAGE + PAGE
  }

  /** The pages that are left when those with a byte of `s` are unmapped. */
  function Left(pages: set<int>, s: Segment): set<int> {
    set p | p in pages && !Touches(p, s)
  }

  /** `vm_unmap_n(as, vma, size)`, where `pages` are the mapped ones: the start is rounded down to a page. The result is
      false if the source panics because a page is not mapped. */
  method UnmapN(pages: set<int>, vma: nat, size: nat) returns (ok: bool, pages': set<int>)
    ensures size == 0 ==> ok && pages' == pages
    ensures size > 0 ==> (ok <==> On(pages, Segment(vma, size)))
    ensures size > 0 && ok ==> pages' == Left(pages, Segment(vma, size))
  {
    pages' := pages;
    if size == 0 { return true, pages; }
    ghost var s := Segment(vma, size);
    var begin := vma / PAGE;
    var p := begin;
    while p * PAGE < vma + size
      invariant begin <= p && (p - 1) * PAGE < vma + size
      invariant forall q {:trigger q in pages'} :: q in pages' <==> q in pages && !(begin <= q < p)
      invariant forall q {:trigger Touches(q, s)} :: Touches(q, s) && q < p ==> q in pages
      decreases vma + size - p * PAGE
    {
      if p !in pages' {
        assert Touches(p, s);
        return false, pages';
      }
      pages' := pages' - {p};
      p := p + 1;
    }
    forall q ensures Touches(q, s) <==> begin <= q < p { TouchedFrom(vma, size, q, p); }
    assert forall q {:trigger q in pages'} :: q in pages' <==> q in Left(pages, s);
    return true, pages';
  }

  lemma {:induction false} TouchedFrom(vma: nat, size: nat, q: int, p: int)
    requires size > 0 && p * PAGE >= vma + size && (p - 1) * PAGE < vma + size
    ensures Touches(q, Segment(vma, size)) <==> vma / PAGE <= q < p
  {
    if q < vma / PAGE { assert (q + 1) * PAGE <= vma / PAGE * PAGE <= vma; }
    if q >= p { assert q * PAGE >= p * PAGE; }
    if vma / PAGE <= q < p { assert (q + 1) * PAGE >= (vma / PAGE + 1) * PAGE && q * PAGE <= (p - 1) * PAGE; }
  }

  // ---- What the allocator holds ------------------------------------------------------------------------

  /** Every page with a byte of `s` is mapped. */
  ghost predicate On(pages: set<int>, s: Segment) {
    forall p {:trigger Touches(p, s)} :: Touches(p, s) ==> p in pages
  }

  /** Everything that the allocator holds is on mapped pages. */
  ghost predicate OnPages(pages: set<int>, segs: seq<Segment>, mapped: Heap) {
    && (forall i {:trigger segs[i]} :: 0 <= i < |segs| ==> On(pages, segs[i]))
    && (forall p {:trigger MapRegion(mapped, p)} :: p in mapped ==> On(pages, MapRegion(mapped, p)))
  }

  /** Regions that start on page boundaries and do not overlap have no page in common. */
  lemma {:induction false} NoCommonPage(s: Segment, t: Segment, p: int)
    requires s.base % PAGE == 0 && t.base % PAGE == 0 && Separate(s, t)
    ensures !(Touches(p, s) && Touches(p, t))
  {
    if s.base + s.size <= t.base { Below(s, t, p); } else { Below(t, s, p); }
  }

  lemma {:induction false} Below(s: Segment, t: Segment, p: int)
    requires t.base % PAGE == 0 && s.base + s.size <= t.base
    ensures !(Touches(p, s) && Touches(p, t))
  {
    var k := t.base / PAGE;
    assert t.base == k * PAGE;
    if p < k { assert (p + 1) * PAGE <= k * PAGE; } else { assert p * PAGE >= k * PAGE; }
  }

  /** A part of a region touches no page that the region does not touch. */
  lemma {:induction false} PartTouches(s: Segment, t: Segment, p: int)
    requires Holds(s, t.base, t.base + t.size) && Touches(p, t)
    ensures Touches(p, s)
  {}

  /** Unmapping a part of one region leaves another one alone. */
  lemma {:induction false} OthersOn(pages: set<int>, s: Segment, cut: Segment, t: Segment)
    requires s.base % PAGE == 0 && t.base % PAGE == 0 && Separate(s, t) && On(pages, t)
    requires Holds(s, cut.base, cut.base + cut.size)
    ensures On(Left(pages, cut), t)
  {
    forall p | Touches(p, t) ensures p in Left(pages, cut) {
      NoCommonPage(s, t, p);
      if Touches(p, cut) { PartTouches(s, cut, p); }
    }
  }

  // ---- The end of a region goes -------------------------------------------------------------------------

  /** The first `kept` bytes of a region stay mapped when the rest of it is unmapped if and only if the rest starts on a
      page boundary. */
  lemma {:induction false} CutOn(pages: set<int>, s: Segment, extra: int)
    requires s.base % PAGE == 0 && On(pages, s) && 0 < extra < s.size
    ensures var kept := s.size - extra;
            On(Left(pages, Segment(s.base + kept, extra)), Segment(s.base, kept)) <==> kept % PAGE == 0
  {
    var kept := s.size - extra;
    var c := s.base + kept;
    var t, cut := Segment(s.base, kept), Segment(c, extra);
    if kept % PAGE == 0 {
      forall p | Touches(p, t) ensures p in Left(pages, cut) {
        PartTouches(s, t, p);
        BoundarySum(s.base, kept);
        Below(t, cut, p);
      }
    } else {
      var p := c / PAGE;
      InnerPage(s.base, kept);
      assert Touches(p, t) && Touches(p, cut);
    }
  }

  lemma {:induction false} BoundarySum(base: int, kept: int)
    requires base % PAGE == 0 && kept % PAGE == 0
    ensures (base + kept) % PAGE == 0
  {}

  lemma {:induction false} InnerPage(base: int, kept: int)
    requires base % PAGE == 0 && kept > 0 && kept % PAGE != 0
    ensures var c := base + kept; c / PAGE * PAGE < c < c / PAGE * PAGE + PAGE && base < c / PAGE * PAGE + PAGE
  {
    var k := base / PAGE;
    assert base == k * PAGE;
    assert (base + kept) / PAGE == k + kept / PAGE;
  }

  /** Which bytes are lost: of all that the allocator keeps, exactly those on the page where the cut starts. */
  lemma {:induction false} LostExactly(pages: set<int>, s: Segment, extra: int, x: int)
    requires s.base % PAGE == 0 && On(pages, s) && 0 < extra < s.size && s.base <= x < s.base + s.size - extra
    ensures var c := s.base + s.size - extra;
            x / PAGE !in Left(pages, Segment(c, extra)) <==> x / PAGE == c / PAGE
  {
    var c, p := s.base + s.size - extra, x / PAGE;
    assert p * PAGE <= x < p * PAGE + PAGE;
    assert Touches(p, s);
    assert c / PAGE * PAGE <= c < c / PAGE * PAGE + PAGE;
    if p < c / PAGE { assert (p + 1) * PAGE <= c / PAGE * PAGE; }
    assert p <= c / PAGE;
  }

  /** The header behind the new `top`, which `init_top` stores after the memory has gone, is then on this page. */
  lemma {:induction false} HeaderLost(pages: set<int>, s: Segment, extra: int)
    requires s.base % PAGE == 0 && On(pages, s) && 0 < extra < s.size
    requires s.size % GRANULARITY == 0 && extra % GRANULARITY == 0
    ensures var c := s.base + s.size - extra;
            (c - TOP_FOOT_SIZE) / PAGE !in Left(pages, Segment(c, extra)) <==> (s.size - extra) % PAGE != 0
  {
    var kept := s.size - extra;
    var c := s.base + kept;
    Grains(s.size, extra);
    LostExactly(pages, s, extra, c - TOP_FOOT_SIZE);
    HeaderPage(s.base, kept);
  }

  lemma {:induction false} HeaderPage(base: int, kept: int)
    requires base % PAGE == 0 && kept > 0 && kept % GRANULARITY == 0
    ensures (base + kept - TOP_FOOT_SIZE) / PAGE == (base + kept) / PAGE <==> kept % PAGE != 0
  {
    var k, q, u := base / PAGE, kept / PAGE, kept % PAGE;
    assert base == k * PAGE && kept == q * PAGE + u;
    InUnits(q, u, kept);
    var c := base + kept;
    assert c == (k + q) * PAGE + u;
    assert c / PAGE == k + q;
    if u == 0 {
      assert c - TOP_FOOT_SIZE < (k + q) * PAGE;
    } else {
      assert (k + q) * PAGE <= c - TOP_FOOT_SIZE < (k + q + 1) * PAGE;
    }
  }

  /** The rest on the last page is a number of whole units. */
  lemma {:induction false} InUnits(q: int, u: int, kept: int)
    requires kept == q * PAGE + u && 0 <= u < PAGE && kept % GRANULARITY == 0
    ensures u == 0 || u >= GRANULARITY
  {
    assert q * PAGE == GRANULARITY * (q * 32);
    assert u == GRANULARITY * (kept / GRANULARITY - q * 32);
  }

  // ---- Whole heaps -----------------------------------------------------------------------------------------

  /** When the end of `top` goes, all that the allocator keeps stays on mapped pages if and only if the top segment
      then ends on a page boundary. */
  lemma {:induction false} CutOnPages(h: Heap, ends: set<int>, segs: seq<Segment>, mapped: Heap, pages: set<int>,
                                      extra: int)
    requires Layout(h, ends, segs) && MapsOk(mapped, segs) && Paged(segs, mapped) && OnPages(pages, segs, mapped)
    requires |segs| > 0 && 0 < extra < segs[0].size
    ensures var kept := Segment(segs[0].base, segs[0].size - extra);
            var left := Left(pages, Segment(kept.base + kept.size, extra));
            OnPages(left, segs[0 := kept], mapped) <==> kept.size % PAGE == 0
  {
    hide Left, On;
    var s, kept := segs[0], Segment(segs[0].base, segs[0].size - extra);
    var cut := Segment(kept.base + kept.size, extra);
    var left, segs' := Left(pages, cut), segs[0 := kept];
    CutOn(pages, s, extra);
    forall i | 0 < i < |segs'| ensures On(left, segs'[i]) {
      assert Separate(segs[0], segs[i]);
      OthersOn(pages, s, cut, segs[i]);
    }
    forall p | p in mapped ensures On(left, MapRegion(mapped, p)) {
      assert MapOk(mapped, segs, p) && Separate(segs[0], MapRegion(mapped, p));
      OthersOn(pages, s, cut, MapRegion(mapped, p));
    }
    assert segs'[0] == kept;
  }

  /** A segment that goes as a whole takes nothing else with it. */
  lemma {:induction false} DropOnPages(h: Heap, ends: set<int>, segs: seq<Segment>, mapped: Heap, pages: set<int>,
                                       i: nat)
    requires Layout(h, ends, segs) && MapsOk(mapped, segs) && Paged(segs, mapped) && OnPages(pages, segs, mapped)
    requires i < |segs|
    ensures OnPages(Left(pages, segs[i]), DropAt(segs, i), mapped)
  {
    hide Left, On;
    forall j | 0 <= j < |segs| - 1 ensures On(Left(pages, segs[i]), DropAt(segs, i)[j]) {
      var k := if j < i then j else j + 1;
      assert DropAt(segs, i)[j] == segs[k];
      assert i < k ==> Separate(segs[i], segs[k]);
      assert k < i ==> Separate(segs[k], segs[i]);
      OthersOn(pages, segs[i], segs[i], segs[k]);
    }
    forall p | p in mapped ensures On(Left(pages, segs[i]), MapRegion(mapped, p)) {
      assert MapOk(mapped, segs, p) && Separate(segs[i], MapRegion(mapped, p));
      OthersOn(pages, segs[i], segs[i], MapRegion(mapped, p));
    }
  }

  /** Nor does a chunk that was mapped on its own. */
  lemma {:induction false} UnmapOnPages(segs: seq<Segment>, mapped: Heap, pages: set<int>, p: int)
    requires MapsOk(mapped, segs) && Paged(segs, mapped) && OnPages(pages, segs, mapped) && p in mapped
    ensures OnPages(Left(pages, MapRegion(mapped, p)), segs, mapped - {p})
  {
    hide Left, On;
    var s := MapRegion(mapped, p);
    assert MapOk(mapped, segs, p);
    forall i | 0 <= i < |segs| ensures On(Left(pages, s), segs[i]) {
      assert Separate(segs[i], s);
      OthersOn(pages, s, s, segs[i]);
    }
    forall q | q in mapped - {p} ensures On(Left(pages, s), MapRegion(mapped - {p}, q)) {
      assert MapsApart(mapped, p, q);
      assert MapRegion(mapped - {p}, q) == MapRegion(mapped, q);
      OthersOn(pages, s, s, MapRegion(mapped, q));
    }
  }

  /** `sys_trim` on `top`, with the system's `munmap`: what stays is on mapped pages if and only if nothing went or the
      top segment then ends on a page boundary. */
  method TrimTopPages(m: Malloc, room: nat, pages: set<int>) returns (released: nat, pages': set<int>)
    requires m.Valid() && room < m.topsize && Paged(m.segs, m.mapped) && OnPages(pages, m.segs, m.mapped)
    modifies m
    ensures m.Valid() && Paged(m.segs, m.mapped) && |m.segs| > 0 && m.topsize + released == old(m.topsize)
    ensures OnPages(pages', m.segs, m.mapped) <==> released == 0 || m.segs[0].size % PAGE == 0
    ensures |old(m.segs)| > 0 && released % GRANULARITY == 0
    ensures m.segs == old(m.segs)[0 := Segment(old(m.segs)[0].base, old(m.segs)[0].size - released)]
    ensures room < m.topsize <= room + GRANULARITY
  {
    hide Paged, OnPages, Left, Bytes, Inside, Kept;
    ghost var segs, mapped := m.segs, m.mapped;
    ghost var h, ends, o := m.heap, m.ends, m.State();
    released := m.TrimTop(room);
    TopSegment(h, ends, segs, o, m.heap, m.ends, m.segs, m.State());
    if released == 0 {
      assert m.segs == segs;
      return released, pages;
    }
    var ok;
    CutIsOn(segs, mapped, pages, released);
    ok, pages' := UnmapN(pages, m.segs[0].base + m.segs[0].size, released);
    CutOnPages(h, ends, segs, mapped, pages, released);
  }

  lemma {:induction false} TopSegment(h: Heap, ends: set<int>, segs: seq<Segment>, o: Owners,
                                      h': Heap, ends': set<int>, segs': seq<Segment>, o': Owners)
    requires Safe(h, ends, segs, o) && Safe(h', ends', segs', o') && |segs| > 0 && |segs'| > 0
    ensures Layout(h, ends, segs) && segs'[0].base > 0 && segs'[0].size > 0
  {
    assert SegmentOk(h', ends', segs'[0]);
  }

  lemma {:induction false} CutIsOn(segs: seq<Segment>, mapped: Heap, pages: set<int>, extra: int)
    requires OnPages(pages, segs, mapped) && |segs| > 0 && 0 < extra < segs[0].size
    ensures On(pages, Segment(segs[0].base + segs[0].size - extra, extra))
  {
    var s, cut := segs[0], Segment(segs[0].base + segs[0].size - extra, extra);
    forall p | Touches(p, cut) ensures p in pages { PartTouches(s, cut, p); }
  }

  /** It happens on every heap of one segment that is all free and larger than a unit: one unit stays, and its page
      goes. */
  method FreshTrim(base: int, size: nat, pages: set<int>) returns (m: Malloc, released: nat, pages': set<int>)
    requires RegionOk(Segment(base, size)) && base % PAGE == 0 && size % GRANULARITY == 0 && size > GRANULARITY
    requires On(pages, Segment(base, size))
    ensures m.Valid() && m.segs == [Segment(base, GRANULARITY)] && !OnPages(pages', m.segs, m.mapped)
  {
    hide Malloc.Valid, On, Left, OnPages, Paged, Fresh;
    m := new Malloc();
    FirstPages(base, size, pages);
    var mem := m.TakeIn(MIN_CHUNK_SIZE, base, size);
    released, pages' := TrimTopPages(m, TOP_FOOT_SIZE, pages);
    OneUnit(size, released, m.topsize);
  }

  lemma {:induction false} FirstPages(base: int, size: nat, pages: set<int>)
    requires RegionOk(Segment(base, size)) && base % PAGE == 0 && On(pages, Segment(base, size))
    ensures Fresh(map[], [], Segment(base, size)) && Paged([], map[]) && OnPages(pages, [Segment(base, size)], map[])
  {}

  lemma {:induction false} OneUnit(size: nat, released: nat, topsize: nat)
    requires size % GRANULARITY == 0 && released % GRANULARITY == 0 && topsize + released == size - TOP_FOOT_SIZE
    requires TOP_FOOT_SIZE < topsize <= TOP_FOOT_SIZE + GRANULARITY
    ensures size - released == GRANULARITY && GRANULARITY % PAGE != 0
  {
    Grains(size, released);
  }
}
