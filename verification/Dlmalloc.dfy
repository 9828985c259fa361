/** `dlmalloc` and `dlfree` of `osrt/c/dlmalloc.c` over the boundary tags and both kinds of bins.
    Fields of chunks are in `heap`; the links of binned chunks are in the two bin objects. */
module Dlmalloc {
  import opened Words
  import opened BitMaps
  import opened HeapLayout
  import opened HeapSegments
  import opened HeapOwners
  import opened HeapSafety
  import opened SystemMemory
  import opened HeapTrim
  import PageIndex
  import SmallBins
  import BestFit
  import LargeBins
  import TrieMemory

  const MAX_SMALL_REQUEST: nat := 232
  const MIN_REQUEST: nat := 23
  const MAX_REQUEST: nat := 0xFFFF_FFFF_FFFF_FF80
  const SMALL_LIMIT: nat := 256
  const TRIM_THRESHOLD: nat := 0x20_0000
  const MAX_RELEASE_CHECK_RATE: nat := 4095

  // ---- Request sizes -------------------------------------------------------------------------------

  /** `pad_request(req)`. */
  function PadRequest(req: nat): nat {
    (req + 23) / 16 * 16
  }

  /** `request2size(req)`. */
  function RequestSize(req: nat): nat {
    if req < MIN_REQUEST then 32 else PadRequest(req)
  }

  /** A padded request holds the block and the size word of the next chunk, with less than two
      words to spare unless it is the minimum. */
  lemma {:induction false} RequestSizeFits(req: nat)
    ensures var nb := RequestSize(req);
            && nb % 16 == 0 && nb >= 32 && req + SIZE_T_SIZE <= nb
            && (nb == 32 || nb < req + SIZE_T_SIZE + 16)
    ensures req <= MAX_SMALL_REQUEST <==> RequestSize(req) < SMALL_LIMIT
  {}

  /** What malloc works with: too large a request becomes one that cannot be met. */
  function Wanted(bytes: nat): nat {
    if bytes >= MAX_REQUEST then WORD - 1 else RequestSize(bytes)
  }

  lemma {:induction false} UnionMinus(s: map<int, int>, t: map<int, int>, p: int)
    ensures p !in t ==> (s - {p}) + t == (s + t) - {p}
    ensures p !in s ==> s + (t - {p}) == (s + t) - {p}
  {}

  /** The header that a split makes has no owner yet. */
  lemma {:induction false} NewHeader(h: Heap, ends: set<int>, segs: seq<Segment>, o: Owners, p: int, nb: int)
    requires Safe(h, ends, segs, o) && p in h && 0 < nb < h[p].size
    ensures p + nb !in h && !HasRole(o, p + nb)
  {
    NothingInside(h, p, p + nb);
  }

  /** A tree-binned chunk that is large enough is no smaller than the designated victim, which is large enough too. */
  ghost predicate NothingBetter(c: TrieMemory.Chunks, nb: nat, dvsize: nat) {
    forall a {:trigger c[a].size} :: a in c && c[a].size >= nb ==> nb <= dvsize <= c[a].size
  }

  /** The owners after binned chunk `p` was handed out whole. */
  ghost function Taken(o: Owners, p: int): Owners {
    o.(binned := o.binned - {p}, live := o.live + {p})
  }

  ghost predicate SomeFits(sizes: map<int, int>, nb: int) {
    exists p :: p in sizes && sizes[p] >= nb
  }

  /** Some chunk has the size of bin `nb / 8` or of the next one: it fits without remainder. */
  ghost predicate Snug(sizes: map<int, int>, nb: int) {
    exists p :: p in sizes && nb <= sizes[p] <= nb + 8
  }

  ghost predicate Smallest(sizes: map<int, int>, nb: int, p: int) {
    p in sizes && sizes[p] >= nb && forall q :: q in sizes && sizes[q] >= nb ==> sizes[p] <= sizes[q]
  }

  /** Whether chunk `p` is the one that `dlmalloc` takes for `nb` bytes, given the chunks of the small bins
      and of the trees; `sure` says that the trees are in the order the search relies on. */
  ghost predicate Chosen(o: Owners, small: map<int, int>, trees: map<int, int>, sure: bool, nb: int, p: int) {
    if p in small then nb < SMALL_LIMIT && Smallest(small, nb, p) && (Snug(small, nb) || nb > o.dvsize)
    else if p in trees then
      && trees[p] >= nb && (sure ==> Smallest(trees, nb, p))
      && if nb < SMALL_LIMIT then nb > o.dvsize && !SomeFits(small, nb) else nb <= o.dvsize ==> trees[p] < o.dvsize
    else if nb <= o.dvsize then
      && p == o.dv
      && if nb < SMALL_LIMIT then !Snug(small, nb)
         else sure ==> forall q :: q in trees && trees[q] >= nb ==> o.dvsize <= trees[q]
    else p == o.top && nb < o.topsize && Starved(o.(topsize := 0), small, trees, sure, nb)
  }

  /** Nothing that the allocator holds serves `nb` bytes. */
  ghost predicate Starved(o: Owners, small: map<int, int>, trees: map<int, int>, sure: bool, nb: int) {
    && nb > o.dvsize && nb >= o.topsize && !SomeFits(small, nb)
    && if nb < SMALL_LIMIT then trees == map[] else sure ==> !SomeFits(trees, nb)
  }

  /** The owners once chunk `p` serves `nb` bytes: what is left of a binned chunk becomes `dv` for a small
      request and is binned for a large one; `dv` and `top` give their low end. */
  ghost function ServedOwners(o: Owners, nb: int, p: int): Owners {
    if p in o.binned then
      if o.binned[p] - nb < MIN_CHUNK_SIZE then Taken(o, p)
      else if nb < SMALL_LIMIT then DvSplit(o, p, nb) else BinSplit(o, p, nb)
    else if nb <= o.dvsize then
      var rest := o.dvsize - nb;
      o.(dv := if rest >= MIN_CHUNK_SIZE then o.dv + nb else 0, dvsize := if rest >= MIN_CHUNK_SIZE then rest else 0,
         live := o.live + {p})
    else o.(top := o.top + nb, topsize := o.topsize - nb, live := o.live + {p})
  }

  /** The first chunk of the first bin that fits is the one to take. */
  lemma {:induction false} SmallChosen(o: Owners, small: map<int, int>, trees: map<int, int>, sure: bool, nb: int,
                                       p: int)
    requires p in small && p !in trees && o.binned == small + trees && nb < SMALL_LIMIT && small[p] >= nb
    requires forall q :: q in small && small[q] >= nb ==> small[q] >= small[p]
    requires small[p] <= nb + 8 || nb > o.dvsize
    ensures Chosen(o, small, trees, sure, nb, p)
    ensures ServedOwners(o, nb, p) == if small[p] - nb < MIN_CHUNK_SIZE then Taken(o, p) else DvSplit(o, p, nb)
  {
    hide Taken, DvSplit;
    if small[p] <= nb + 8 { assert Snug(small, nb); }
  }

  lemma {:induction false} TreeChosen(o: Owners, small: map<int, int>, trees: map<int, int>, sure: bool, nb: int,
                                      p: int)
    requires p in trees && p !in small && o.binned == small + trees && nb <= trees[p]
    requires sure ==> forall q :: q in trees && trees[q] >= nb ==> trees[q] >= trees[p]
    requires if nb < SMALL_LIMIT then nb > o.dvsize && !SomeFits(small, nb) else nb <= o.dvsize ==> trees[p] < o.dvsize
    ensures Chosen(o, small, trees, sure, nb, p)
    ensures ServedOwners(o, nb, p) ==
              if trees[p] - nb < MIN_CHUNK_SIZE then Taken(o, p)
              else if nb < SMALL_LIMIT then DvSplit(o, p, nb) else BinSplit(o, p, nb)
  {
    hide Taken, DvSplit, BinSplit;
  }

  /** A request is not both served by the allocator's own memory and passed to the system. */
  lemma {:induction false} StarvedOrServed(o: Owners, small: map<int, int>, trees: map<int, int>, sure: bool, nb: int,
                                           p: int)
    requires Chosen(o, small, trees, sure, nb, p) && (nb < SMALL_LIMIT || sure)
    ensures !Starved(o, small, trees, sure, nb)
  {
    if p in small { assert small[p] >= nb; } else if p in trees { assert trees[p] >= nb; }
  }

  /** The owners after binned chunk `p` was split for `nb` bytes, the rest being binned. */
  ghost function BinSplit(o: Owners, p: int, nb: int): Owners
    requires p in o.binned
  {
    o.(binned := (o.binned - {p})[p + nb := o.binned[p] - nb], live := o.live + {p})
  }

  /** The owners after the low end of binned chunk `p` went into use and the rest replaced `dv`,
      which went into a bin. */
  ghost function DvSplit(o: Owners, p: int, nb: int): Owners
    requires p in o.binned
  {
    o.(binned := if o.dvsize > 0 then (o.binned - {p})[o.dv := o.dvsize] else o.binned - {p}, live := o.live + {p},
       dv := p + nb, dvsize := o.binned[p] - nb)
  }

  lemma {:induction false} SplitDvSafe(h: Heap, ends: set<int>, segs: seq<Segment>, o: Owners, p: int, nb: int)
    requires Safe(h, ends, segs, o) && p in o.binned
    requires MIN_CHUNK_SIZE <= nb && nb % CHUNK_ALIGN == 0 && nb + MIN_CHUNK_SIZE <= o.binned[p]
    ensures Chunk(h, ends, p) && OwnerOk(h, ends, o, p) && p + h[p].size in h
    ensures o.dvsize > 0 ==> o.dv != p && o.dv !in o.binned && Chunk(h, ends, o.dv) && h[o.dv].size == o.dvsize
    ensures Safe(SplitMem(h, p, nb, true), ends, segs, DvSplit(o, p, nb))
    ensures Kept(h, SplitMem(h, p, nb, true), o.live)
    ensures p in SplitMem(h, p, nb, true) && SplitMem(h, p, nb, true)[p].size == nb
  {
    hide Layout, SplitMem;
    RoleFacts(h, ends, segs, o, p);
    var o1 := o;
    if o.dvsize > 0 {
      RoleFacts(h, ends, segs, o, o.dv);
      RebinSafe(h, ends, segs, o);
      o1 := o.(dv := 0, dvsize := 0, binned := o.binned[o.dv := o.dvsize]);
    }
    NewHeader(h, ends, segs, o1, p, nb);
    SplitSafe(h, ends, segs, o1, p, nb, DvSplit(o, p, nb));
  }

  lemma {:induction false} FreeGeometry(h: Heap, ends: set<int>, segs: seq<Segment>, o: Owners, p: int)
    requires Safe(h, ends, segs, o) && p in o.live
    ensures Chunk(h, ends, p) && p + h[p].size in h && p + h[p].size !in ends
    ensures var lo, n, hi := Low(h, p), p + h[p].size, High(h, ends, p);
            && Chunk(h, ends, lo) && 0 < lo <= p < n <= hi && lo % CHUNK_ALIGN == 0 && hi in h
            && (lo - hi) % CHUNK_ALIGN == 0 && hi - lo < WORD && hi - lo >= MIN_CHUNK_SIZE
            && (!h[p].pinuse ==> lo < p)
  {
    hide OwnerOk, Owned;
    SpanMerges(h, ends, segs, o, p);
    SpanOrder(h, ends, segs, o, p);
    var lo, n := Low(h, p), p + h[p].size;
    assert ChunkOk(h, ends, p) && ChunkOk(h, ends, lo);
    var i :| 0 <= i < |segs| && Holds(segs[i], lo, High(h, ends, p) + 1);
    assert SegmentOk(h, ends, segs[i]);
  }

  /** What `dlfree` relies on about the chunks around `p`. */
  lemma {:induction false} FreeFacts(h: Heap, ends: set<int>, segs: seq<Segment>, o: Owners, p: int)
    requires Safe(h, ends, segs, o) && p in o.live
    ensures Chunk(h, ends, p) && p + h[p].size in h && p + h[p].size !in ends
    ensures var lo, n, hi := Low(h, p), p + h[p].size, High(h, ends, p);
            && Chunk(h, ends, lo) && 0 < lo <= p < n <= hi && lo % CHUNK_ALIGN == 0 && hi in h
            && (lo - hi) % CHUNK_ALIGN == 0 && hi - lo < WORD && hi - lo >= MIN_CHUNK_SIZE
            && (!h[p].pinuse ==> lo < p)
            && (lo != p ==> h[lo].size == p - lo && !h[lo].cinuse && (lo in o.binned <==> !IsDv(o, lo)))
            && (lo in o.binned ==> o.binned[lo] == p - lo)
            && (h[n].cinuse ==> n !in o.binned && !IsDv(o, n) && !IsTop(o, n))
            && (!h[n].cinuse ==> (n in o.binned <==> !IsDv(o, n) && !IsTop(o, n)))
            && (n in o.binned ==> o.binned[n] == hi - n) && (IsDv(o, n) ==> o.dvsize == hi - n)
            && (IsDv(o, lo) ==> o.dvsize == p - lo)
            && (IsTop(o, n) ==> o.topsize == hi - n)
            && h[n].pinuse && p !in o.binned && !IsDv(o, p) && !IsTop(o, lo)
  {
    hide Layout, ChunkOk;
    FreeGeometry(h, ends, segs, o, p);
    SpanOrder(h, ends, segs, o, p);
    var lo, n := Low(h, p), p + h[p].size;
    PinuseBehind(h, ends, segs, o, p);
    assert OwnerOk(h, ends, o, p) && OwnerOk(h, ends, o, n) && OwnerOk(h, ends, o, lo);
  }

  lemma {:induction false} PinuseBehind(h: Heap, ends: set<int>, segs: seq<Segment>, o: Owners, p: int)
    requires Safe(h, ends, segs, o) && p in o.live && Chunk(h, ends, p) && p + h[p].size in h
    ensures h[p + h[p].size].pinuse
  {
    assert OwnerOk(h, ends, o, p) && ChunkOk(h, ends, p);
  }

  lemma {:induction false} NotThere(m: map<int, int>, p: int)
    ensures p !in m ==> m - {p} == m
  {}

  lemma {:induction false} TopFacts(h: Heap, ends: set<int>, segs: seq<Segment>, o: Owners)
    requires Safe(h, ends, segs, o) && o.topsize > 0
    ensures o.top in h && h[o.top].size == o.topsize && !h[o.top].cinuse && h[o.top].pinuse
    ensures o.top > 0 && o.top !in o.binned && o.topsize % CHUNK_ALIGN == 0 && o.topsize < WORD
  {
    assert HasRole(o, o.top);
    assert ChunkOk(h, ends, o.top) && OwnerOk(h, ends, o, o.top);
    RoleFacts(h, ends, segs, o, o.top);
  }

  lemma {:induction false} FencesStep(f: int, k: nat)
    ensures forall h: Heap {:trigger h + Fences(f, k + 1)} ::
              (h + Fences(f, k))[f + 8 * k := Header(0, 8, true, true)] == h + Fences(f, k + 1)
  {
    assert Fences(f, k)[f + 8 * k := Header(0, 8, true, true)] == Fences(f, k + 1) by {
      assert forall a :: FenceAt(f, k + 1, a) <==> FenceAt(f, k, a) || a == f + 8 * k;
    }
  }

  /** The stores of `add_segment` on the old `top`. */
  lemma {:induction false} ClosedHeap(h: Heap, top: int, psize: int, h': Heap)
    requires top in h && psize == h[top].size > 0 && !h[top].cinuse && h[top].pinuse
    requires var csp := RecordAt(top, psize);
             var foot := if csp == top then h[top].foot else 0;
             var h1 := (h - {top + psize})[csp := Header(foot, SEGMENT_RECORD_SIZE, true, true)];
             var h2 := h1 + Fences(csp + SEGMENT_RECORD_SIZE, FenceCount(psize));
             h' == if csp == top then h2
                   else var h3 := h2[csp := h2[csp].(pinuse := false)];
                        var h4 := h3[top := h3[top].(size := psize, cinuse := false, pinuse := true)];
                        h4[csp := h4[csp].(foot := psize)]
    ensures h' == CloseMem(h, top)
  {
    var c := CloseMem(h, top);
    assert h'.Keys == c.Keys;
    assert forall a :: a in c ==> h'[a] == c[a];
  }

  /** The memory below segment `i`, cut into the chunk to serve and the rest. */
  lemma {:induction false} PrependSafe(h: Heap, ends: set<int>, segs: seq<Segment>, o: Owners, i: nat, tbase: int,
                                       tsize: int, nb: int)
    requires Safe(h, ends, segs, o) && i < |segs| && segs[i].base == tbase + tsize
    requires Usable(segs, Segment(tbase, tsize))
    requires MIN_CHUNK_SIZE <= nb <= tsize - MIN_CHUNK_SIZE && nb % CHUNK_ALIGN == 0
    ensures tbase !in h && tbase + nb !in h && tbase > 0
    ensures tbase !in o.live && tbase + nb !in o.live && tbase + nb !in o.binned
    ensures tbase + tsize in h
    ensures var h2 := CutMem(GrowDownMem(h, tbase, tsize), tbase, nb);
            && Safe(h2, ends, segs[i := Segment(tbase, segs[i].size + tsize)], o.(live := o.live + {tbase, tbase + nb}))
            && Kept(h, h2, o.live)
            && tbase in h2 && h2[tbase].size == nb && tbase + nb in h2
            && h2[tbase + nb] == Header(0, tsize - nb, true, true) && tbase + tsize in h2
  {
    hide Layout, ChunkOk, OwnerOk, TopOf, Kept;
    GrowDownSafe(h, ends, segs, o, i, tbase, tsize);
    assert HasRole(o, tbase) ==> Chunk(h, ends, tbase);
    assert HasRole(o, tbase + nb) ==> Chunk(h, ends, tbase + nb);
    var h1, o1 := GrowDownMem(h, tbase, tsize), o.(live := o.live + {tbase});
    var segs1 := segs[i := Segment(tbase, segs[i].size + tsize)];
    CutSafe(h1, ends, segs1, o1, tbase, nb);
    assert o1.live - {tbase} == o.live;
    assert o1.(live := o1.live + {tbase + nb}) == o.(live := o.live + {tbase, tbase + nb});
    KeptTrans(h, h1, CutMem(h1, tbase, nb), o.live, o.live);
    SegmentStart(h, ends, segs, i);
  }

  lemma {:induction false} SegmentStart(h: Heap, ends: set<int>, segs: seq<Segment>, i: nat)
    requires Layout(h, ends, segs) && i < |segs|
    ensures segs[i].base in h && segs[i].base !in ends
  {
    assert SegmentOk(h, ends, segs[i]);
  }

  lemma {:induction false} KeptAt(h: Heap, h': Heap, live: set<int>, p: int)
    requires Kept(h, h', live) && p in live
    ensures Stays(h, h', p)
  {}

  function Lowered(least: int, base: int): int {
    if least == 0 || base < least then base else least
  }

  lemma {:induction false} LeastMapped(least: int, mapped: Heap, segs: seq<Segment>, base: int, c: Header)
    requires LeastOk(least, mapped, segs) && base > 0
    ensures LeastOk(Lowered(least, base), mapped[base := c], segs)
  {}

  lemma {:induction false} LeastUnmapped(least: int, mapped: Heap, segs: seq<Segment>, p: int)
    requires LeastOk(least, mapped, segs)
    ensures LeastOk(least, mapped - {p}, segs)
  {
    if least == 0 { assert mapped.Keys == {}; assert mapped - {p} == mapped; }
  }

  lemma {:induction false} LeastLow(least: int, mapped: Heap, segs: seq<Segment>, base: int)
    requires LeastOk(least, mapped, segs) && |segs| > 0
    ensures Lowered(least, base) == if base < least then base else least
  {}

  lemma {:induction false} LeastStays(least: int, mapped: Heap, segs: seq<Segment>, base: int)
    requires LeastOk(least, mapped, segs) && |segs| > 0 && segs[0].base <= base
    ensures Lowered(least, base) == least
  {}

  lemma {:induction false} FreshFacts(mapped: Heap, segs: seq<Segment>, s: Segment)
    requires Fresh(mapped, segs, s)
    ensures RegionOk(s) && Usable(segs, s)
  {}

  /** Directly mapped chunks and the least address after the heap took in region `s`. */
  lemma {:induction false} Extended(least: int, mapped: Heap, segs: seq<Segment>, segs': seq<Segment>, s: Segment)
    requires MapsOk(mapped, segs) && LeastOk(least, mapped, segs) && Fresh(mapped, segs, s) && Extends(segs, segs', s)
    ensures MapsOk(mapped, segs') && LeastOk(Lowered(least, s.base), mapped, segs')
  {
    MapsExtended(mapped, segs, segs', s);
    forall j | 0 <= j < |segs'| ensures Lowered(least, s.base) <= segs'[j].base {
      assert PartOf(segs, segs'[j], s);
    }
  }

  lemma {:induction false} ExtendsNew(segs: seq<Segment>, s: Segment)
    ensures Extends(segs, [s] + segs, s)
  {
    forall j | 0 <= j < |segs| + 1 ensures PartOf(segs, ([s] + segs)[j], s) {
      if j > 0 { assert ([s] + segs)[j] == segs[j - 1]; }
    }
  }

  lemma {:induction false} ExtendsUp(segs: seq<Segment>, s: Segment)
    requires |segs| > 0
    ensures Extends(segs, segs[0 := Joined(segs[0], s)], s)
  {
    var segs' := segs[0 := Joined(segs[0], s)];
    forall j | 0 <= j < |segs'| ensures PartOf(segs, segs'[j], s) { assert j > 0 ==> segs'[j] == segs[j]; }
  }

  lemma {:induction false} ExtendsDown(segs: seq<Segment>, s: Segment, i: nat)
    requires i < |segs|
    ensures Extends(segs, segs[i := Joined(s, segs[i])], s)
  {
    var segs' := segs[i := Joined(s, segs[i])];
    forall j | 0 <= j < |segs'| ensures PartOf(segs, segs'[j], s) {
      assert j != i ==> segs'[j] == segs[j];
      assert j == i ==> segs'[j] == Joined(s, segs[i]);
    }
  }

  /** The segments once region `s` is taken in: it lengthens the last segment, or it goes below the segment
      that starts where it ends, or it is a segment of its own. */
  ghost predicate Grew(segs: seq<Segment>, s: Segment, segs': seq<Segment>) {
    if segs == [] then segs' == [s]
    else if segs[0].base + segs[0].size == s.base then segs' == segs[0 := Joined(segs[0], s)]
    else if exists j :: 0 <= j < |segs| && segs[j].base == s.base + s.size then
      exists j :: 0 <= j < |segs| && segs[j].base == s.base + s.size && segs' == segs[j := Joined(s, segs[j])]
    else segs' == [s] + segs
  }

  /** `top` is in the segment that was added last. */
  lemma {:induction false} TopIsFirst(h: Heap, ends: set<int>, segs: seq<Segment>, o: Owners)
    requires Safe(h, ends, segs, o)
    ensures o.topsize > 0 ==> o.top > 0 && |segs| > 0 && segs[0].base <= o.top < segs[0].base + segs[0].size
    ensures o.topsize == 0 ==> segs == []
  {
    if o.topsize > 0 { TopFacts(h, ends, segs, o); }
  }

  lemma {:induction false} OnlyHome(h: Heap, ends: set<int>, segs: seq<Segment>, o: Owners, i: nat)
    requires Safe(h, ends, segs, o) && o.topsize > 0 && i < |segs|
    requires segs[i].base <= o.top < segs[i].base + segs[i].size
    ensures i == 0
  {
    TopIsFirst(h, ends, segs, o);
    SegmentsMeet(segs, h, ends, 0, i, o.top);
  }

  /** A block to be freed is a chunk in use of the heap, or a directly mapped chunk; the tags of its
      header tell which. */
  lemma {:induction false} ReleaseFacts(h: Heap, ends: set<int>, segs: seq<Segment>, o: Owners, mapped: Heap,
                                        least: int, p: int)
    requires Safe(h, ends, segs, o) && MapsOk(mapped, segs) && LeastOk(least, mapped, segs)
    requires p in o.live || p in mapped
    ensures least <= p && (p in o.live <==> p !in mapped)
    ensures if p in mapped then p !in h && !mapped[p].cinuse && !mapped[p].pinuse else p in h && h[p].cinuse
  {
    if p in mapped {
      assert MapOk(mapped, segs, p);
      MapNotInHeap(h, ends, segs, mapped, p);
      assert HasRole(o, p) ==> Chunk(h, ends, p);
    } else {
      assert HasRole(o, p);
      assert OwnerOk(h, ends, o, p);
      ChunkBounds(h, ends, segs, least, p);
    }
  }

  /** What the system answers to `DIRECT_MMAP` and `MMAP`. */
  datatype Os = Os(direct: int, region: int)

  /** Memory from the system starts on a page boundary. */
  ghost predicate PagedOs(os: Os) {
    && (os.direct != MFAIL ==> os.direct % PageIndex.PAGE == 0)
    && (os.region != MFAIL ==> os.region % PageIndex.PAGE == 0)
  }

  /** Where a freed chunk went: into `top`, into a tree bin, or into `dv` or a small bin. */
  datatype Fate = JoinedTop | TreeBinned | Elsewhere

  ghost function FateOf(h: Heap, ends: set<int>, o: Owners, p: int): Fate
    requires p in h && p + h[p].size in h
  {
    if IsTop(o, p + h[p].size) then JoinedTop
    else if IsDv(o, p + h[p].size) || IsDv(o, Low(h, p)) || High(h, ends, p) - Low(h, p) < SMALL_LIMIT then Elsewhere
    else TreeBinned
  }

  class Malloc {
    var heap: Heap
    var top: int
    var topsize: nat
    var dv: int
    var dvsize: nat
    var segs: seq<Segment>
    /** The addresses of the segment records behind the first one, which is part of `malloc_state`. */
    var links: seq<int>
    var trimCheck: nat
    var releaseChecks: nat
    var mapped: Heap
    /** The words of the fake headers behind the chunks mapped on their own. */
    var fences: map<int, int>
    var leastAddr: int
    const small: SmallBins.Bins
    const tree: LargeBins.TreeBins
    ghost var ends: set<int>
    ghost var live: set<int>
    ghost var records: set<int>

    /** The binned chunks and their sizes. */
    ghost function Binned(): map<int, int>
      reads small, tree
    {
      small.Contents() + tree.Contents()
    }

    ghost function State(): Owners
      reads this, small, tree
    {
      Owners(top, topsize, dv, dvsize, Binned(), live, records)
    }

    /** Small chunks are in the small bins and the others in the trees. */
    ghost predicate BinsValid()
      reads small, tree
    {
      && small.Valid() && tree.Valid()
      && (forall p {:trigger p in small.Contents()} :: p in small.Contents() ==>
            small.Contents()[p] < SMALL_LIMIT && p !in tree.Contents())
      && (forall p {:trigger p in tree.Contents()} :: p in tree.Contents() ==> tree.Contents()[p] >= SMALL_LIMIT)
    }

    ghost predicate HeapValid()
      reads this, small, tree
    {
      && BinsValid() && Safe(heap, ends, segs, State())
      && (dvsize == 0 ==> dv == 0) && (topsize == 0 ==> top == 0)
    }

    /** The whole allocator: the heap, and the chunks mapped on their own. */
    ghost predicate Valid()
      reads this, small, tree
    {
      && HeapValid() && Listed(links, segs, records) && MapsOk(mapped, segs) && LeastOk(leastAddr, mapped, segs)
      && AllChecked(mapped, fences)
    }

    constructor ()
      ensures Valid() && fresh(small) && fresh(tree)
      ensures live == {} && mapped == map[] && segs == [] && topsize == 0
      ensures trimCheck == 0 && releaseChecks == 0 && fences == map[]
    {
      heap, segs, links, mapped, leastAddr := map[], [], [], map[], 0;
      trimCheck, releaseChecks, fences := 0, 0, map[];
      top, topsize, dv, dvsize := 0, 0, 0, 0;
      ends, live, records := {}, {}, {};
      small := new SmallBins.Bins();
      tree := new LargeBins.TreeBins();
      new;
      EmptySafe();
    }

    // ---- Bins of either kind -----------------------------------------------------------------------

    /** `insert_chunk(M, P, S)`. */
    method InsertChunk(p: int, s: nat)
      requires BinsValid() && p > 0 && p !in Binned() && MIN_CHUNK_SIZE <= s < WORD && s % CHUNK_ALIGN == 0
      modifies small, tree
      ensures BinsValid() && Binned() == old(Binned())[p := s]
    {
      hide SmallBins.Inv, TrieMemory.Inv, TrieMemory.Keyed;
      if s < SMALL_LIMIT {
        small.Insert(p, s);
      } else {
        tree.Insert(p, s);
      }
    }

    /** `unlink_chunk(M, P, S)`. */
    method UnlinkChunk(p: int, s: nat)
      requires BinsValid() && p in Binned() && Binned()[p] == s
      modifies small, tree
      ensures BinsValid() && Binned() == old(Binned()) - {p}
    {
      hide SmallBins.Inv, TrieMemory.Inv, TrieMemory.Keyed;
      UnionMinus(small.Contents(), tree.Contents(), p);
      if s < SMALL_LIMIT {
        small.Unlink(p, s);
      } else {
        tree.Unlink(p);
      }
    }

    // ---- Head and foot macros ------------------------------------------------------------------------

    /** `set_inuse_and_pinuse(p, s)`. */
    method SetInuseAndPinuse(p: int, s: int)
      requires p in heap && p + s in heap && s == heap[p].size
      modifies `heap
      ensures heap == TakeMem(old(heap), p)
    {
      heap := heap[p := Header(heap[p].foot, s, true, true)];
      heap := heap[p + s := heap[p + s].(pinuse := true)];
    }

    /** `set_size_and_pinuse_of_inuse_chunk(p, nb)` on the low part of free chunk `p`, and
        `set_size_and_pinuse_of_free_chunk(r, rsize)` on the rest. */
    method SplitFree(p: int, nb: int, rsize: int)
      requires p in heap && p + heap[p].size in heap && nb > 0 && rsize == heap[p].size - nb > 0
      modifies `heap
      ensures heap == SplitMem(old(heap), p, nb, true)
    {
      var r := p + nb;
      heap := heap[p := Header(heap[p].foot, nb, true, true)];
      heap := heap[r := Header(0, rsize, false, true)];
      heap := heap[r + rsize := heap[r + rsize].(foot := rsize)];
    }

    // ---- malloc ------------------------------------------------------------------------------------

    /** Block `mem` answers a request for a chunk of `nb` bytes: it is a chunk of its own, at most one
        minimal chunk too large, and nothing else in use changed. */
    twostate predicate Served(nb: int, mem: int)
      reads this
    {
      var p := mem - TWO_SIZE_T_SIZES;
      && mem > 0 && p in heap && p !in old(live) && live == old(live) + {p}
      && nb <= heap[p].size < nb + MIN_CHUNK_SIZE
      && Kept(old(heap), heap, old(live))
    }

    /** A remainderless fit: the first chunk of small bin `i` (4581-4592). */
    method TakeSmall(i: nat, nb: int) returns (mem: int)
      requires HeapValid() && i < SmallBins.NSMALLBINS && BitAt(small.smallmap, i) && nb <= 8 * i < nb + MIN_CHUNK_SIZE
      modifies `heap, `top, `topsize, `dv, `dvsize, `live, small, tree
      ensures HeapValid() && Served(nb, mem) && State() == Taken(old(State()), mem - TWO_SIZE_T_SIZES)
      ensures var p := mem - TWO_SIZE_T_SIZES; p in old(small.Contents()) && old(small.Contents())[p] == 8 * i
    {
      hide SmallBins.Inv, TrieMemory.Inv, TrieMemory.Keyed, Layout, TakeMem, BitAt;
      var p := small.First(i);
      ghost var o := State();
      RoleFacts(heap, ends, segs, o, p);
      UnionMinus(small.Contents(), tree.Contents(), p);
      small.UnlinkFirst(i, p);
      TakeSafe(heap, ends, segs, o, p, o.(binned := o.binned - {p}, live := o.live + {p}));
      SetInuseAndPinuse(p, 8 * i);
      live := live + {p};
      mem := p + TWO_SIZE_T_SIZES;
    }

    /** `replace_dv(M, P, S)`. */
    method ReplaceDv(p: int, s: nat)
      requires BinsValid() && dvsize < SMALL_LIMIT
      requires dvsize != 0 ==> dv > 0 && dv !in Binned() && dvsize >= MIN_CHUNK_SIZE && dvsize % CHUNK_ALIGN == 0
      modifies `dv, `dvsize, small, tree
      ensures BinsValid() && dv == p && dvsize == s
      ensures Binned() == if old(dvsize) == 0 then old(Binned()) else old(Binned())[old(dv) := old(dvsize)]
    {
      hide SmallBins.Inv, TrieMemory.Inv, TrieMemory.Keyed;
      if dvsize != 0 {
        small.Insert(dv, dvsize);
      }
      dvsize := s;
      dv := p;
    }

    /** The owners before chunk `p` was unlinked from its bin. */
    ghost predicate Unlinked(o: Owners, p: int)
      reads this, small, tree
    {
      && BinsValid() && Safe(heap, ends, segs, o)
      && p in o.binned && State() == o.(binned := o.binned - {p})
      && (dvsize == 0 ==> dv == 0) && (topsize == 0 ==> top == 0)
    }

    /** Chunk `p`, just unlinked, serves `nb` bytes whole. */
    method TakeUnlinked(p: int, nb: int, ghost o: Owners) returns (mem: int)
      requires Unlinked(o, p) && nb <= o.binned[p] < nb + MIN_CHUNK_SIZE
      modifies `heap, `top, `topsize, `dv, `dvsize, `live
      ensures HeapValid() && Served(nb, mem) && mem == p + TWO_SIZE_T_SIZES && State() == Taken(o, p)
    {
      hide BinsValid, Layout, TakeMem;
      RoleFacts(heap, ends, segs, o, p);
      TakeSafe(heap, ends, segs, o, p, o.(binned := o.binned - {p}, live := o.live + {p}));
      SetInuseAndPinuse(p, heap[p].size);
      live := live + {p};
      mem := p + TWO_SIZE_T_SIZES;
    }

    /** Chunk `p`, just unlinked, serves `nb` bytes; the rest becomes `dv`. */
    method SplitToDv(p: int, nb: int, ghost o: Owners) returns (mem: int)
      requires Unlinked(o, p) && MIN_CHUNK_SIZE <= nb && nb % CHUNK_ALIGN == 0 && nb + MIN_CHUNK_SIZE <= o.binned[p]
      requires dvsize < SMALL_LIMIT
      modifies `heap, `top, `topsize, `dv, `dvsize, `live, small, tree
      ensures HeapValid() && Served(nb, mem) && mem == p + TWO_SIZE_T_SIZES && State() == DvSplit(o, p, nb)
    {
      hide BinsValid, Safe, SplitMem, Kept, OwnerOk;
      RoleFacts(heap, ends, segs, o, p);
      var r, rsize := p + nb, heap[p].size - nb;
      if dvsize > 0 { RoleFacts(heap, ends, segs, o, dv); }
      SplitDvSafe(heap, ends, segs, o, p, nb);
      SplitFree(p, nb, rsize);
      ReplaceDv(r, rsize);
      live := live + {p};
      mem := p + TWO_SIZE_T_SIZES;
      assert State() == DvSplit(o, p, nb);
    }

    /** Chunk `p`, just unlinked, serves `nb` bytes; the rest is binned. */
    method SplitToBin(p: int, nb: int, ghost o: Owners) returns (mem: int)
      requires Unlinked(o, p) && MIN_CHUNK_SIZE <= nb && nb % CHUNK_ALIGN == 0 && nb + MIN_CHUNK_SIZE <= o.binned[p]
      modifies `heap, `top, `topsize, `dv, `dvsize, `live, small, tree
      ensures HeapValid() && Served(nb, mem) && mem == p + TWO_SIZE_T_SIZES && State() == BinSplit(o, p, nb)
    {
      hide BinsValid, Layout, SplitMem;
      RoleFacts(heap, ends, segs, o, p);
      var r, rsize := p + nb, heap[p].size - nb;
      ghost var o' := o.(binned := (o.binned - {p})[r := rsize], live := o.live + {p});
      NewHeader(heap, ends, segs, o, p, nb);
      SplitSafe(heap, ends, segs, o, p, nb, o');
      SplitFree(p, nb, rsize);
      InsertChunk(r, rsize);
      live := live + {p};
      mem := p + TWO_SIZE_T_SIZES;
      assert State() == o';
    }

    /** Chunk `p` of size `size` left its bin: it was handed out whole, or its rest is the new designated victim. */
    ghost predicate RestToDv(o: Owners, p: int, size: int, nb: int)
      reads this, small, tree
    {
      && p in o.binned && o.binned[p] == size
      && State() == if size - nb < MIN_CHUNK_SIZE then Taken(o, p) else DvSplit(o, p, nb)
    }

    /** The same, but the rest is binned. */
    ghost predicate RestToBin(o: Owners, p: int, size: int, nb: int)
      reads this, small, tree
    {
      && p in o.binned && o.binned[p] == size
      && State() == if size - nb < MIN_CHUNK_SIZE then Taken(o, p) else BinSplit(o, p, nb)
    }

    /** The first chunk of small bin `i`, which is not a remainderless fit (4595-4619). */
    method SplitSmall(i: nat, nb: int) returns (mem: int)
      requires HeapValid() && i < SmallBins.NSMALLBINS && BitAt(small.smallmap, i)
      requires dvsize < nb <= 8 * i && MIN_CHUNK_SIZE <= nb < SMALL_LIMIT && nb % CHUNK_ALIGN == 0
      modifies `heap, `top, `topsize, `dv, `dvsize, `live, small, tree
      ensures HeapValid() && Served(nb, mem) && RestToDv(old(State()), mem - TWO_SIZE_T_SIZES, 8 * i, nb)
      ensures var p := mem - TWO_SIZE_T_SIZES; p in old(small.Contents()) && old(small.Contents())[p] == 8 * i
    {
      hide SmallBins.Inv, TrieMemory.Inv, TrieMemory.Keyed, Layout, BitAt, Owned, Kept;
      var p := small.First(i);
      ghost var o := State();
      UnionMinus(small.Contents(), tree.Contents(), p);
      small.UnlinkFirst(i, p);
      if 8 * i - nb < MIN_CHUNK_SIZE {
        mem := TakeUnlinked(p, nb, o);
      } else {
        mem := SplitToDv(p, nb, o);
      }
    }

    /** `tmalloc_small(m, nb)`. */
    method TreeSmall(nb: int) returns (mem: int)
      requires HeapValid() && tree.treemap != 0
      requires dvsize < nb && MIN_CHUNK_SIZE <= nb < SMALL_LIMIT && nb % CHUNK_ALIGN == 0
      modifies `heap, `top, `topsize, `dv, `dvsize, `live, small, tree
      ensures HeapValid() && Served(nb, mem)
      ensures var p, c := mem - TWO_SIZE_T_SIZES, old(tree.chunks);
              && p in c && RestToDv(old(State()), p, c[p].size, nb)
              && (BestFit.Ordered(c) ==> forall a :: a in c ==> c[p].size <= c[a].size)
    {
      hide SmallBins.Inv, TrieMemory.Inv, TrieMemory.Keyed, Layout, Owned, Kept;
      var v := tree.SelectSmall(nb);
      ghost var o := State();
      var rsize := tree.chunks[v].size - nb;
      UnionMinus(small.Contents(), tree.Contents(), v);
      tree.Unlink(v);
      if rsize < MIN_CHUNK_SIZE {
        mem := TakeUnlinked(v, nb, o);
      } else {
        mem := SplitToDv(v, nb, o);
      }
    }

    /** `tmalloc_large(m, nb)`. */
    method TreeLarge(nb: int) returns (mem: int)
      requires HeapValid() && SMALL_LIMIT <= nb < WORD && nb % CHUNK_ALIGN == 0
      modifies `heap, `top, `topsize, `dv, `dvsize, `live, small, tree
      ensures HeapValid()
      ensures if mem != 0 then Served(nb, mem) else unchanged(this, small, tree)
      ensures var p, c := mem - TWO_SIZE_T_SIZES, old(tree.chunks);
              if mem != 0 then
                && p in c && RestToBin(old(State()), p, c[p].size, nb) && c[p].size >= nb
                && (nb <= old(dvsize) ==> c[p].size < old(dvsize))
                && (LargeBins.Exactly(c, nb) ==> forall a :: a in c && c[a].size >= nb ==> c[p].size <= c[a].size)
              else LargeBins.Exactly(c, nb) ==> NothingBetter(c, nb, old(dvsize))
    {
      hide SmallBins.Inv, TrieMemory.Inv, TrieMemory.Keyed, Layout, Owned, Kept, LargeBins.Exactly;
      ghost var o := State();
      if dvsize > 0 { RoleFacts(heap, ends, segs, o, dv); }
      var v := tree.SelectLarge(nb, dvsize);
      if v == 0 { return 0; }
      RoleFacts(heap, ends, segs, o, v);
      var rsize := tree.chunks[v].size - nb;
      UnionMinus(small.Contents(), tree.Contents(), v);
      tree.Unlink(v);
      if rsize < MIN_CHUNK_SIZE {
        mem := TakeUnlinked(v, nb, o);
      } else {
        mem := SplitToBin(v, nb, o);
      }
    }

    /** The designated victim serves `nb` bytes (4637-4655). */
    method UseDv(nb: int) returns (mem: int)
      requires HeapValid() && MIN_CHUNK_SIZE <= nb <= dvsize && nb % CHUNK_ALIGN == 0
      modifies `heap, `top, `topsize, `dv, `dvsize, `live
      ensures HeapValid() && Served(nb, mem) && mem == old(dv) + TWO_SIZE_T_SIZES && top == old(top)
      ensures topsize == old(topsize)
      ensures var rest := old(dvsize) - nb;
              if rest >= MIN_CHUNK_SIZE then dv == old(dv) + nb && dvsize == rest else dv == 0 && dvsize == 0
      ensures live == old(live) + {old(dv)}
    {
      hide BinsValid, Layout, SplitMem, TakeMem;
      ghost var o := State();
      var rsize := dvsize - nb;
      var p := dv;
      RoleFacts(heap, ends, segs, o, p);
      if rsize >= MIN_CHUNK_SIZE {
        var r := p + nb;
        NewHeader(heap, ends, segs, o, p, nb);
        SplitSafe(heap, ends, segs, o, p, nb, o.(dv := r, dvsize := rsize, live := o.live + {p}));
        dv := r;
        dvsize := rsize;
        SplitFree(p, nb, rsize);
      } else {
        TakeSafe(heap, ends, segs, o, p, o.(dv := 0, dvsize := 0, live := o.live + {p}));
        var dvs := dvsize;
        dvsize := 0;
        dv := 0;
        SetInuseAndPinuse(p, dvs);
      }
      live := live + {p};
      mem := p + TWO_SIZE_T_SIZES;
    }

    /** The low end of `top` serves `nb` bytes (4657-4667). */
    method UseTop(nb: int) returns (mem: int)
      requires HeapValid() && MIN_CHUNK_SIZE <= nb < topsize && nb % CHUNK_ALIGN == 0
      modifies `heap, `top, `topsize, `dv, `dvsize, `live
      ensures HeapValid() && Served(nb, mem) && mem == old(top) + TWO_SIZE_T_SIZES
      ensures top == old(top) + nb && topsize == old(topsize) - nb && dv == old(dv) && dvsize == old(dvsize)
      ensures live == old(live) + {old(top)}
    {
      hide BinsValid, Layout;
      ghost var o := State();
      RoleFacts(heap, ends, segs, o, top);
      var p, rsize := top, topsize - nb;
      var r := p + nb;
      NewHeader(heap, ends, segs, o, p, nb);
      SplitSafe(heap, ends, segs, o, p, nb, o.(top := r, topsize := rsize, live := o.live + {p}));
      topsize := rsize;
      top := r;
      heap := heap[r := Header(0, rsize, false, true)];
      heap := heap[p := Header(heap[p].foot, nb, true, true)];
      assert heap == SplitMem(old(heap), p, nb, false);
      live := live + {p};
      mem := p + TWO_SIZE_T_SIZES;
    }

    // ---- free --------------------------------------------------------------------------------------

    /** `set_free_with_pinuse(p, s, n)`. The headers inside the new chunk are not read again. */
    method SetFreeWithPinuse(p: int, s: int, n: int)
      requires p in heap && n in heap && n == p + s && s > 0
      modifies `heap
      ensures heap == MergeMem(old(heap), p, n, true)
    {
      heap := map q | q in heap && !(p < q < n) :: heap[q];
      heap := heap[n := heap[n].(pinuse := false)];
      heap := heap[p := Header(heap[p].foot, s, false, true)];
      heap := heap[n := heap[n].(foot := s)];
    }

    /** `p->head = tsize | PINUSE_BIT` for the new `top`. */
    method SetTop(p: int, tsize: int)
      requires p in heap && p + tsize in heap && tsize > 0
      modifies `heap
      ensures heap == MergeMem(old(heap), p, p + tsize, false)
    {
      heap := map q | q in heap && !(p < q < p + tsize) :: heap[q];
      heap := heap[p := Header(heap[p].foot, tsize, false, true)];
    }

    /** The heap before chunk `p0` was freed; a free chunk below it is already off its bin. */
    ghost predicate Freeing(o: Owners, p0: int)
      reads this, small, tree
    {
      && BinsValid() && Safe(heap, ends, segs, o) && p0 in o.live && p0 in heap
      && State() == o.(binned := o.binned - {Low(heap, p0)})
      && (dvsize == 0 ==> dv == 0) && (topsize == 0 ==> top == 0)
    }

    /** Chunk `p0` of the heap was freed. */
    twostate predicate Freed(p0: int)
      reads this
    {
      live == old(live) - {p0} && Kept(old(heap), heap, live)
    }

    /** The chunk behind is in use: the new free chunk is binned. */
    method FreeAlone(p0: int, p: int, psize: int, next: int, ghost o: Owners) returns (fate: Fate)
      requires Freeing(o, p0) && p == Low(heap, p0) && next == p0 + heap[p0].size && psize == next - p
      requires next in heap && heap[next].cinuse && !IsDv(o, p)
      modifies `heap, `top, `topsize, `dv, `dvsize, `live, small, tree
      ensures HeapValid() && Freed(p0) && State() == FreedOwners(old(heap), ends, o, p0)
      ensures fate == FateOf(old(heap), ends, o, p0)
    {
      hide BinsValid, Safe, MergeMem, Kept, FreedOwners;
      FreedSafe(heap, ends, segs, o, p0);
      FreeFacts(heap, ends, segs, o, p0);
      FreedToBin(heap, ends, o, p0);
      NotThere(o.binned - {p}, next);
      SetFreeWithPinuse(p, psize, next);
      InsertChunk(p, psize);
      live := live - {p0};
      fate := if psize < SMALL_LIMIT then Elsewhere else TreeBinned;
    }

    /** The chunk behind is a binned free chunk. */
    method FreeBelowBinned(p0: int, p: int, psize: int, next: int, ghost o: Owners) returns (fate: Fate)
      requires Freeing(o, p0) && p == Low(heap, p0) && next == p0 + heap[p0].size && psize == next - p
      requires next in heap && !heap[next].cinuse && !IsTop(o, next) && !IsDv(o, next)
      modifies `heap, `top, `topsize, `dv, `dvsize, `live, small, tree
      ensures HeapValid() && Freed(p0) && State() == FreedOwners(old(heap), ends, o, p0)
      ensures fate == FateOf(old(heap), ends, o, p0)
    {
      hide BinsValid, Safe, MergeMem, Kept, FreedOwners;
      FreedSafe(heap, ends, segs, o, p0);
      FreeFacts(heap, ends, segs, o, p0);
      var nsize := heap[next].size;
      UnlinkChunk(next, nsize);
      SetFreeWithPinuse(p, psize + nsize, next + nsize);
      live := live - {p0};
      fate := BinMerged(p0, p, psize + nsize, old(heap), o);
    }

    /** The merged chunk is the designated victim or goes into a bin. */
    method BinMerged(p0: int, p: int, psize: nat, ghost h: Heap, ghost o: Owners) returns (fate: Fate)
      requires BinsValid() && p0 in h && p0 + h[p0].size in h && p == Low(h, p0)
      requires var n := p0 + h[p0].size;
               && !IsTop(o, n) && !IsDv(o, n) && psize == High(h, ends, p0) - p
               && State() == o.(binned := o.binned - {p} - {n}, live := o.live - {p0})
      requires p > 0 && MIN_CHUNK_SIZE <= psize < WORD && psize % CHUNK_ALIGN == 0
      requires dvsize == 0 ==> dv == 0
      modifies `dvsize, small, tree
      ensures BinsValid() && State() == FreedOwners(h, ends, o, p0) && fate == FateOf(h, ends, o, p0)
      ensures dvsize == 0 ==> dv == 0
    {
      hide BinsValid, FreedOwners;
      if p == dv {
        FreedToDv(h, ends, o, p0);
        dvsize := psize;
        fate := Elsewhere;
      } else {
        FreedToBin(h, ends, o, p0);
        InsertChunk(p, psize);
        fate := if psize < SMALL_LIMIT then Elsewhere else TreeBinned;
      }
    }

    /** The chunk behind is the designated victim. */
    method FreeBelowDv(p0: int, p: int, psize: int, next: int, ghost o: Owners)
      requires Freeing(o, p0) && p == Low(heap, p0) && next == p0 + heap[p0].size && psize == next - p
      requires next in heap && IsDv(o, next) && !IsTop(o, next)
      modifies `heap, `top, `topsize, `dv, `dvsize, `live
      ensures HeapValid() && Freed(p0) && State() == FreedOwners(old(heap), ends, o, p0)
    {
      hide BinsValid, Safe, MergeMem, Kept, FreedOwners;
      FreedSafe(heap, ends, segs, o, p0);
      FreeFacts(heap, ends, segs, o, p0);
      FreedToDv(heap, ends, o, p0);
      NotThere(o.binned - {p}, next);
      dvsize := dvsize + psize;
      dv := p;
      SetFreeWithPinuse(p, dvsize, p + dvsize);
      live := live - {p0};
    }

    /** The chunk behind is `top`. */
    method FreeBelowTop(p0: int, p: int, psize: int, next: int, ghost o: Owners)
      requires Freeing(o, p0) && p == Low(heap, p0) && next == p0 + heap[p0].size && psize == next - p
      requires next in heap && IsTop(o, next)
      modifies `heap, `top, `topsize, `dv, `dvsize, `live
      ensures HeapValid() && Freed(p0) && State() == FreedOwners(old(heap), ends, o, p0)
    {
      hide BinsValid, Safe, MergeMem, Kept, FreedOwners;
      FreedSafe(heap, ends, segs, o, p0);
      FreeFacts(heap, ends, segs, o, p0);
      FreedToTop(heap, ends, o, p0);
      NotThere(o.binned - {p}, next);
      topsize := topsize + psize;
      top := p;
      SetTop(p, topsize);
      if p == dv {
        dv := 0;
        dvsize := 0;
      }
      live := live - {p0};
    }

    /** The chunk below is the designated victim and the chunk behind is in use. */
    method FreeAboveDv(p0: int, p: int, psize: int, next: int, ghost o: Owners)
      requires Freeing(o, p0) && p == Low(heap, p0) && next == p0 + heap[p0].size && psize == next - p
      requires next in heap && heap[next].cinuse && IsDv(o, p)
      modifies `heap, `top, `topsize, `dv, `dvsize, `live
      ensures HeapValid() && Freed(p0) && State() == FreedOwners(old(heap), ends, o, p0)
    {
      hide BinsValid, Safe, MergeMem, Kept, FreedOwners;
      FreedSafe(heap, ends, segs, o, p0);
      FreeFacts(heap, ends, segs, o, p0);
      FreedToDv(heap, ends, o, p0);
      NotThere(o.binned - {p}, next);
      dvsize := psize;
      SetFreeWithPinuse(p, psize, next);
      live := live - {p0};
    }

    /** Consolidation with the chunk behind: `top`, then `dv`, then a bin. */
    method FreeForward(p0: int, p: int, psize: int, next: int, ghost o: Owners) returns (fate: Fate)
      requires Freeing(o, p0) && p == Low(heap, p0) && next == p0 + heap[p0].size && psize == next - p
      requires next in heap && (IsDv(o, p) ==> !heap[next].cinuse)
      modifies `heap, `top, `topsize, `dv, `dvsize, `live, small, tree
      ensures HeapValid() && Freed(p0) && State() == FreedOwners(old(heap), ends, o, p0)
      ensures fate == FateOf(old(heap), ends, o, p0)
    {
      hide BinsValid, Safe, Kept;
      FreeFacts(heap, ends, segs, o, p0);
      if !heap[next].cinuse {
        if next == top {
          FreeBelowTop(p0, p, psize, next, o);
          fate := JoinedTop;
        } else if next == dv {
          FreeBelowDv(p0, p, psize, next, o);
          fate := Elsewhere;
        } else {
          fate := FreeBelowBinned(p0, p, psize, next, o);
        }
      } else {
        fate := FreeAlone(p0, p, psize, next, o);
      }
    }

    /** `dlfree` on a chunk of the heap, up to trimming: it merges with the free chunks around it, and `top` takes the
        result rather than `dv`, and `dv` rather than a bin. */
    method FreeChunk(p0: int) returns (fate: Fate)
      requires HeapValid() && p0 in live
      modifies `heap, `top, `topsize, `dv, `dvsize, `live, small, tree
      ensures old(p0 in heap && p0 + heap[p0].size in heap)
      ensures HeapValid() && Freed(p0) && State() == FreedOwners(old(heap), ends, old(State()), p0)
      ensures fate == FateOf(old(heap), ends, old(State()), p0)
    {
      hide BinsValid, Safe, Kept, FreedOwners;
      ghost var o := State();
      FreeFacts(heap, ends, segs, o, p0);
      NotThere(o.binned, Low(heap, p0));
      var p, psize := p0, heap[p0].size;
      var next := p + psize;
      if !heap[p0].pinuse {
        var prevsize := heap[p0].foot;
        psize := psize + prevsize;
        p := p - prevsize;
        if p != dv {
          UnlinkChunk(p, prevsize);
        } else if heap[next].cinuse && heap[next].pinuse {
          FreeAboveDv(p0, p, psize, next, o);
          return Elsewhere;
        }
      }
      assert p < next && heap[next].pinuse;
      fate := FreeForward(p0, p, psize, next, o);
    }

    // ---- Memory from the system -------------------------------------------------------------------------

    /** `init_top(m, base, size - TOP_FOOT_SIZE)` in a new segment. */
    method InitTop(base: int, size: int)
      requires size > TOP_FOOT_SIZE
      modifies `heap, `top, `topsize, `trimCheck
      ensures heap == NewTopMem(old(heap), base, size) && top == base && topsize == size - TOP_FOOT_SIZE
      ensures trimCheck == TRIM_THRESHOLD
    {
      top := base;
      topsize := size - TOP_FOOT_SIZE;
      heap := heap[top := Header(0, topsize, false, true)];
      heap := heap[top + topsize := Header(0, TOP_FOOT_SIZE, false, false)];
      trimCheck := TRIM_THRESHOLD;
    }

    /** The first memory from the system becomes the first segment. */
    method FirstSegment(tbase: int, tsize: int)
      requires HeapValid() && topsize == 0 && Usable(segs, Segment(tbase, tsize)) && tsize > TOP_FOOT_SIZE
      modifies `heap, `ends, `segs, `top, `topsize, `trimCheck, `releaseChecks
      ensures HeapValid() && Kept(old(heap), heap, live) && topsize == tsize - TOP_FOOT_SIZE
      ensures segs == [Segment(tbase, tsize)]
      ensures trimCheck == TRIM_THRESHOLD && releaseChecks == MAX_RELEASE_CHECK_RATE
    {
      hide BinsValid, NewTopMem, Layout, Owned, Kept;
      NewTopOwned(heap, ends, segs, State(), tbase, tsize);
      assert [Segment(tbase, tsize)] + segs == [Segment(tbase, tsize)];
      releaseChecks := MAX_RELEASE_CHECK_RATE;
      InitTop(tbase, tsize);
      ends := ends + {tbase + tsize - TOP_FOOT_SIZE};
      segs := [Segment(tbase, tsize)];
    }

    /** Memory right behind the top segment extends `top`. */
    method AppendSegment(tsize: int)
      requires HeapValid() && topsize > 0 && |segs| > 0 && tsize >= TOP_FOOT_SIZE && tsize % CHUNK_ALIGN == 0
      requires Usable(segs, Segment(segs[0].base + segs[0].size, tsize))
      modifies `heap, `ends, `segs, `topsize, `trimCheck
      ensures HeapValid() && Kept(old(heap), heap, live) && topsize == old(topsize) + tsize
      ensures segs == old(segs)[0 := Segment(old(segs)[0].base, old(segs)[0].size + tsize)]
      ensures trimCheck == TRIM_THRESHOLD
    {
      hide BinsValid, Layout, Owned, Kept;
      GrowTopSafe(heap, ends, segs, State(), tsize);
      segs := segs[0 := Segment(segs[0].base, segs[0].size + tsize)];
      ends := ends - {top + topsize} + {top + topsize + tsize};
      heap := heap - {top + topsize};
      topsize := topsize + tsize;
      heap := heap[top := Header(heap[top].foot, topsize, false, true)];
      heap := heap[top + topsize := Header(0, TOP_FOOT_SIZE, false, false)];
      trimCheck := TRIM_THRESHOLD;
      assert heap == GrowTopMem(old(heap), top, tsize);
    }

    /** The trailing fenceposts of `add_segment`. */
    method WriteFences(f: int, n: nat)
      requires n > 0
      modifies `heap
      ensures heap == old(heap) + Fences(f, n)
    {
      var oldEnd := f + 8 * n + 8;
      var p := f;
      ghost var k := 0;
      assert heap == heap + Fences(f, 0);
      while true
        invariant 0 <= k < n && p == f + 8 * k && heap == old(heap) + Fences(f, k)
        decreases n - k
      {
        heap := heap[p := Header(0, 8, true, true)];
        FencesStep(f, k);
        k := k + 1;
        if p + 16 < oldEnd {
          p := p + 8;
        } else {
          break;
        }
      }
    }

    /** The stores of `add_segment` on the old `top`; the record goes to `csp`. */
    method WriteRecord(csp: int, psize: int)
      requires top in heap && psize == heap[top].size > 0 && !heap[top].cinuse && heap[top].pinuse
      requires csp == RecordAt(top, psize)
      modifies `heap
      ensures heap == CloseMem(old(heap), top)
    {
      hide Fences;
      heap := heap - {top + psize};
      heap := heap[csp := Header(if csp == top then heap[top].foot else 0, SEGMENT_RECORD_SIZE, true, true)];
      WriteFences(csp + SEGMENT_RECORD_SIZE, FenceCount(psize));
      if csp != top {
        heap := heap[csp := heap[csp].(pinuse := false)];
        heap := heap[top := heap[top].(size := psize, cinuse := false, pinuse := true)];
        heap := heap[csp := heap[csp].(foot := psize)];
      }
      ClosedHeap(old(heap), top, psize, heap);
    }

    /** `add_segment` up to the new top: the old `top` becomes a binned chunk, a segment record and
        fenceposts. */
    method CloseTop()
      requires HeapValid() && topsize > 0
      modifies `heap, `ends, `records, `topsize, small, tree
      ensures BinsValid() && Layout(heap, ends, segs) && Owned(heap, ends, State())
      ensures Kept(old(heap), heap, live) && topsize == 0 && (dvsize == 0 ==> dv == 0)
      ensures records == old(records) + {old(RecordAt(top, topsize))}
    {
      hide BinsValid, Layout, Owned, Kept, CloseMem, CloseEnds;
      ghost var o := State();
      CloseKeeps(heap, ends, segs, top);
      CloseOwned(heap, ends, segs, o);
      TopFacts(heap, ends, segs, o);
      var csp := if topsize < MIN_CHUNK_SIZE then top else top + topsize;
      WriteRecord(csp, topsize);
      if csp != top {
        InsertChunk(top, topsize);
      }
      ends := CloseEnds(old(heap), ends, top);
      records := records + {csp};
      topsize := 0;
      assert State() == Closed(o);
    }

    /** `add_segment(m, tbase, tsize, mmapped)`. */
    method AddSegment(tbase: int, tsize: int)
      requires HeapValid() && topsize > 0 && Usable(segs, Segment(tbase, tsize)) && tsize > TOP_FOOT_SIZE
      modifies `heap, `ends, `segs, `links, `records, `top, `topsize, `trimCheck, small, tree
      ensures HeapValid() && Kept(old(heap), heap, live) && topsize == tsize - TOP_FOOT_SIZE
      ensures segs == [Segment(tbase, tsize)] + old(segs)
      ensures var r := old(RecordAt(top, topsize));
              records == old(records) + {r} && links == [r + TWO_SIZE_T_SIZES] + old(links)
      ensures trimCheck == TRIM_THRESHOLD
    {
      hide BinsValid, NewTopMem, Layout, Owned, Kept;
      links := [(if topsize < MIN_CHUNK_SIZE then top else top + topsize) + TWO_SIZE_T_SIZES] + links;
      CloseTop();
      ghost var h := heap;
      NewTopOwned(heap, ends, segs, State(), tbase, tsize);
      InitTop(tbase, tsize);
      ends := ends + {tbase + tsize - TOP_FOOT_SIZE};
      segs := [Segment(tbase, tsize)] + segs;
      KeptTrans(old(heap), h, heap, live, live);
    }

    /** The new memory as two chunks in use; the second is about to be freed. */
    method CutNew(p: int, nb: int, qsize: int)
      requires nb > 0
      modifies `heap
      ensures heap == CutMem(GrowDownMem(old(heap), p, nb + qsize), p, nb)
    {
      heap := heap[p := Header(0, nb, true, true)];
      heap := heap[p + nb := Header(0, qsize, true, true)];
    }

    /** `prepend_alloc`: memory right below segment `i` serves `nb` bytes, and the rest of it joins the
        first chunk of the segment. */
    method PrependAlloc(i: nat, tbase: int, tsize: int, nb: int) returns (mem: int)
      requires HeapValid() && i < |segs| && segs[i].base == tbase + tsize && Usable(segs, Segment(tbase, tsize))
      requires MIN_CHUNK_SIZE <= nb <= tsize - MIN_CHUNK_SIZE && nb % CHUNK_ALIGN == 0
      modifies `heap, `segs, `top, `topsize, `dv, `dvsize, `live, small, tree
      ensures HeapValid() && Served(nb, mem)
      ensures segs == old(segs)[i := Segment(tbase, old(segs)[i].size + tsize)]
    {
      hide BinsValid, Safe, Kept, CutMem;
      ghost var o := State();
      PrependSafe(heap, ends, segs, o, i, tbase, tsize, nb);
      segs := segs[i := Segment(tbase, segs[i].size + tsize)];
      var p, oldfirst := tbase, tbase + tsize;
      var q, qsize := p + nb, tsize - nb;
      CutNew(p, nb, qsize);
      live := live + {p, q};
      ghost var o2 := State();
      NotThere(o2.binned, q);
      FreeFacts(heap, ends, segs, o2, q);
      label L:
      var _ := FreeForward(q, q, qsize, oldfirst, o2);
      mem := p + TWO_SIZE_T_SIZES;
      KeptTrans(old(heap), old@L(heap), heap, old(live), live);
      assert Stays(old@L(heap), heap, p) by { KeptAt(old@L(heap), heap, live, p); }
    }

    /** Block `mem` is a chunk mapped on its own. */
    twostate predicate MappedFor(nb: int, mem: int)
      reads this
    {
      var p := mem - TWO_SIZE_T_SIZES;
      && mem > 0 && p !in old(mapped) && mapped.Keys == old(mapped).Keys + {p}
      && (forall q {:trigger mapped[q]} :: q in old(mapped) ==> mapped[q] == old(mapped)[q])
      && nb <= mapped[p].size && unchanged(`heap, `live)
    }

    /** The region at `mm` is one chunk, as large as it goes. */
    twostate predicate MappedAt(nb: nat, mm: int, mem: int)
      reads this
    {
      && MappedFor(nb, mem) && mem == mm + TWO_SIZE_T_SIZES
      && mapped == old(mapped)[mm := Header(0, MmapSize(nb) - MMAP_FOOT_PAD, false, false)]
      && unchanged(`segs, `links, `records, `ends, `top, `topsize, `trimCheck, `releaseChecks, `dv, `dvsize)
    }

    /** `mmap_alloc(m, nb)`, where the system answers `mm`. */
    method MmapAlloc(nb: nat, mm: int) returns (mem: int)
      requires Valid() && nb < WORD
      requires mm != MFAIL && MmapSize(nb) > nb ==> Fresh(mapped, segs, Segment(mm, MmapSize(nb)))
      modifies `mapped, `fences, `leastAddr
      ensures Valid()
      ensures if mm == MFAIL || MmapSize(nb) <= nb then mem == 0 && unchanged(this) else MappedAt(nb, mm, mem)
      ensures old(Paged(segs, mapped)) && (mm != MFAIL ==> mm % PageIndex.PAGE == 0) ==> Paged(segs, mapped)
    {
      hide BinsValid, Safe, MmapSize, MapsOk, LeastOk, Listed, AllChecked, Fresh;
      var mmsize := MmapSize(nb);
      if mmsize > nb && mm != MFAIL {
        MmapSizeFits(nb);
        MapAdded(mapped, segs, mm, mmsize);
        FencesAdded(mapped, segs, fences, mm, mmsize);
        FreshFacts(mapped, segs, Segment(mm, mmsize));
        var psize := mmsize - MMAP_FOOT_PAD;
        mapped := mapped[mm := Header(0, psize, false, false)];
        fences := fences[mm + psize + 8 := FENCEPOST_HEAD];
        fences := fences[mm + psize + SIZE_T_SIZE + 8 := 0];
        LeastMapped(leastAddr, old(mapped), segs, mm, mapped[mm]);
        if leastAddr == 0 || mm < leastAddr {
          leastAddr := mm;
        }
        return mm + TWO_SIZE_T_SIZES;
      }
      return 0;
    }

    /** The first segment that ends at `a`, or none. */
    method FindEnd(a: int) returns (i: nat)
      ensures i <= |segs| && (i < |segs| ==> segs[i].base + segs[i].size == a)
      ensures forall j :: 0 <= j < i ==> segs[j].base + segs[j].size != a
    {
      i := 0;
      while i < |segs| && a != segs[i].base + segs[i].size
        invariant i <= |segs| && forall j :: 0 <= j < i ==> segs[j].base + segs[j].size != a
      {
        i := i + 1;
      }
    }

    /** The first segment that starts at `a`, or none. */
    method FindBase(a: int) returns (i: nat)
      ensures i <= |segs| && (i < |segs| ==> segs[i].base == a)
      ensures forall j :: 0 <= j < i ==> segs[j].base != a
    {
      i := 0;
      while i < |segs| && segs[i].base != a
        invariant i <= |segs| && forall j :: 0 <= j < i ==> segs[j].base != a
      {
        i := i + 1;
      }
    }

    /** New memory that does not extend `top` goes below a segment, or becomes one (4204-4215). */
    method PutApart(nb: int, tbase: int, tsize: nat) returns (mem: int)
      requires Valid() && Fresh(mapped, segs, Segment(tbase, tsize)) && topsize > 0
      requires MIN_CHUNK_SIZE <= nb && nb % CHUNK_ALIGN == 0 && nb + SYS_ALLOC_PADDING <= tsize
      requires tsize % GRANULARITY == 0
      modifies `heap, `ends, `segs, `links, `records, `top, `topsize, `trimCheck, `dv, `dvsize, `live, `leastAddr,
               small, tree
      ensures Valid()
      ensures if mem != 0 then Served(nb, mem)
              else nb < topsize && live == old(live) && Kept(old(heap), heap, live)
      ensures trimCheck == if mem != 0 then old(trimCheck) else TRIM_THRESHOLD
      ensures old(Paged(segs, mapped)) && tbase % PageIndex.PAGE == 0 ==> Paged(segs, mapped)
      ensures var s := Segment(tbase, tsize);
              || (exists j :: 0 <= j < |old(segs)| && old(segs)[j].base == tbase + tsize
                              && segs == old(segs)[j := Joined(s, old(segs)[j])])
              || (segs == [s] + old(segs) && forall j :: 0 <= j < |old(segs)| ==> old(segs)[j].base != tbase + tsize)
    {
      hide BinsValid, Safe, Kept, MapsOk, AllChecked, LeastOk, Usable, Listed, Paged;
      ghost var s := Segment(tbase, tsize);
      FreshFacts(mapped, segs, s);
      GrainAligned(tsize);
      TopIsFirst(heap, ends, segs, State());
      mem := 0;
      ghost var least := leastAddr;
      if tbase < leastAddr { leastAddr := tbase; }
      LeastLow(least, mapped, segs, tbase);
      var j := FindBase(tbase + tsize);
      if j < |segs| {
        ExtendsDown(segs, s, j);
        Extended(least, mapped, segs, segs[j := Joined(s, segs[j])], s);
        PagedExtended(mapped, segs, segs[j := Joined(s, segs[j])], s);
        ListedDown(links, segs, records, j, tbase, tsize);
        mem := PrependAlloc(j, tbase, tsize, nb);
      } else {
        ExtendsNew(segs, s);
        Extended(least, mapped, segs, [s] + segs, s);
        PagedExtended(mapped, segs, [s] + segs, s);
        RecordInTop(heap, ends, segs, State());
        ListedNew(links, segs, records, s, RecordAt(top, topsize));
        AddSegment(tbase, tsize);
      }
    }

    /** New memory joins the heap (4170-4226); the result is not 0 if it has served the request too. */
    method TakeIn(nb: int, tbase: int, tsize: nat) returns (mem: int)
      requires Valid() && Fresh(mapped, segs, Segment(tbase, tsize))
      requires MIN_CHUNK_SIZE <= nb && nb % CHUNK_ALIGN == 0 && nb + SYS_ALLOC_PADDING <= tsize
      requires tsize % GRANULARITY == 0
      modifies `heap, `ends, `segs, `links, `records, `top, `topsize, `trimCheck, `releaseChecks, `dv, `dvsize, `live,
               `leastAddr,
               small, tree
      ensures Valid()
      ensures if mem != 0 then Served(nb, mem)
              else nb < topsize && live == old(live) && Kept(old(heap), heap, live)
      ensures trimCheck == if mem != 0 then old(trimCheck) else TRIM_THRESHOLD
      ensures old(Paged(segs, mapped)) && tbase % PageIndex.PAGE == 0 ==> Paged(segs, mapped)
      ensures old(topsize) == 0 ==>
                mem == 0 && segs == [Segment(tbase, tsize)] && topsize == tsize - TOP_FOOT_SIZE
      ensures Grew(old(segs), Segment(tbase, tsize), segs)
      ensures releaseChecks == if old(segs) == [] then MAX_RELEASE_CHECK_RATE else old(releaseChecks)
    {
      hide BinsValid, Safe, Kept, MapsOk, AllChecked, LeastOk, Usable, Listed, Paged;
      ghost var s := Segment(tbase, tsize);
      FreshFacts(mapped, segs, s);
      GrainAligned(tsize);
      mem := 0;
      TopIsFirst(heap, ends, segs, State());
      if top == 0 {
        ExtendsNew(segs, s);
        Extended(leastAddr, mapped, segs, [s] + segs, s);
        PagedExtended(mapped, segs, [s] + segs, s);
        assert [s] + segs == [s];
        if leastAddr == 0 || tbase < leastAddr { leastAddr := tbase; }
        ListedFirst(s, records);
        NoLinks(links, segs, records);
        FirstSegment(tbase, tsize);
      } else {
        var i := FindEnd(tbase);
        if i < |segs| && segs[i].base <= top < segs[i].base + segs[i].size {
          OnlyHome(heap, ends, segs, State(), i);
          ExtendsUp(segs, s);
          Extended(leastAddr, mapped, segs, segs[0 := Joined(segs[0], s)], s);
          PagedExtended(mapped, segs, segs[0 := Joined(segs[0], s)], s);
          LeastStays(leastAddr, mapped, segs, tbase);
          ListedUp(links, segs, records, tsize);
          AppendSegment(tsize);
        } else {
          mem := PutApart(nb, tbase, tsize);
        }
      }
    }

    /** The system's answers to the requests of `sys_alloc` are regions that overlap nothing in use. */
    ghost predicate Honest(nb: nat, os: Os)
      reads this
    {
      && (os.direct != MFAIL && MmapSize(nb) > nb ==> Fresh(mapped, segs, Segment(os.direct, MmapSize(nb))))
      && (os.region != MFAIL && GrowSize(nb) > nb ==> Fresh(mapped, segs, Segment(os.region, GrowSize(nb))))
    }

    /** The answer to a request: a chunk of the heap, or a chunk of its own. */
    twostate predicate Answered(nb: int, mem: int)
      reads this
    {
      (Served(nb, mem) && unchanged(`mapped)) || MappedFor(nb, mem)
    }

    /** The system serves the request: a large one gets a mapping of its own once the heap has a segment;
        for any other, or if that fails, the heap grows by one region. */
    twostate predicate OfSystem(nb: nat, os: Os, mem: int)
      reads this, small, tree
    {
      if nb >= MMAP_THRESHOLD && old(topsize) != 0 && os.direct != MFAIL && MmapSize(nb) > nb then
        MappedAt(nb, os.direct, mem) && unchanged(small, tree)
      else if os.region != MFAIL && GrowSize(nb) > nb then
        && Served(nb, mem) && unchanged(`mapped, `fences) && Grew(old(segs), Segment(os.region, GrowSize(nb)), segs)
        && releaseChecks == if old(segs) == [] then MAX_RELEASE_CHECK_RATE else old(releaseChecks)
      else mem == 0 && unchanged(this, small, tree)
    }

    /** `sys_alloc(m, nb)`. */
    method SysAlloc(nb: nat, os: Os) returns (mem: int)
      requires Valid() && MIN_CHUNK_SIZE <= nb < WORD && (nb % CHUNK_ALIGN == 0 || nb == WORD - 1) && Honest(nb, os)
      modifies this, small, tree
      ensures Valid()
      ensures if mem != 0 then Answered(nb, mem)
              else unchanged(this, small, tree) && (os.region == MFAIL || nb + SYS_ALLOC_PADDING + GRANULARITY > WORD)
      ensures OfSystem(nb, os, mem)
      ensures old(Paged(segs, mapped)) && PagedOs(os) ==> Paged(segs, mapped)
    {
      hide BinsValid, Safe, Kept, MapsOk, AllChecked, LeastOk, Listed, Usable, GrowSize, MmapSize, Fresh, Paged, Grew;
      GrowSizeFails(nb);
      if nb >= MMAP_THRESHOLD && topsize != 0 {
        mem := MmapAlloc(nb, os.direct);
        if mem != 0 { return; }
      }
      var asize := GrowSize(nb);
      if asize <= nb || os.region == MFAIL { return 0; }
      GrowSizeFits(nb);
      mem := TakeIn(nb, os.region, asize);
      if mem == 0 {
        ghost var h := heap;
        mem := UseTop(nb);
        KeptTrans(old(heap), h, heap, old(live), old(live));
      }
    }

    /** Whether the trees are in the order that the search for `nb` bytes relies on. */
    ghost predicate Sure(nb: nat)
      reads tree
    {
      if nb < SMALL_LIMIT then BestFit.Ordered(tree.chunks) else LargeBins.Exactly(tree.chunks, nb)
    }

    ghost predicate NoneOwn(nb: nat)
      reads this, small, tree
    {
      Starved(State(), small.Contents(), tree.Contents(), Sure(nb), nb)
    }

    /** The request is served by the chunk that is due, out of the memory that the allocator has. */
    twostate predicate OfOwn(nb: nat, mem: int)
      reads this, small, tree
    {
      var p := mem - TWO_SIZE_T_SIZES;
      && Served(nb, mem) && State() == ServedOwners(old(State()), nb, p)
      && Chosen(old(State()), old(small.Contents()), old(tree.Contents()), old(Sure(nb)), nb, p)
    }

    /** No chunk fits a small request without remainder, and `dv` is too small (4594-4624). */
    method FromLarger(nb: nat, idx: nat) returns (mem: int)
      requires HeapValid() && dvsize < nb && MIN_CHUNK_SIZE <= nb < SMALL_LIMIT && nb % CHUNK_ALIGN == 0
      requires idx == SmallBins.SmallIndex(nb) && !BitAt(small.smallmap, idx)
      modifies `heap, `top, `topsize, `dv, `dvsize, `live, small, tree
      ensures HeapValid()
      ensures if mem != 0 then OfOwn(nb, mem) && mem - TWO_SIZE_T_SIZES in old(Binned())
              else unchanged(this, small, tree) && !SomeFits(small.Contents(), nb) && tree.Contents() == map[]
    {
      hide SmallBins.Inv, TrieMemory.Inv, TrieMemory.Keyed, Safe, Kept, BitAt, SmallBins.Shr, SmallBins.LeftSmallBits,
           Chosen, ServedOwners, Taken, DvSplit, BestFit.Ordered;
      SmallBins.MapInRange(small.links, small.smallmap, small.lists);
      SmallBins.NoneFrom(small.links, small.smallmap, small.lists, idx);
      if SmallBins.Shr(small.smallmap, idx) != 0 {
        SmallBins.NextSmallBin(small.smallmap, idx);
        var i := Bit2Idx(LeastBit(SmallBins.LeftSmallBits(small.smallmap, idx), MAP_BITS));
        SmallBins.LeastFrom(small.links, small.smallmap, small.lists, idx, i);
        mem := SplitSmall(i, nb);
        SmallChosen(old(State()), old(small.Contents()), old(tree.Contents()), old(Sure(nb)), nb,
                    mem - TWO_SIZE_T_SIZES);
      } else if tree.treemap != 0 {
        mem := TreeSmall(nb);
        TreeChosen(old(State()), old(small.Contents()), old(tree.Contents()), old(Sure(nb)), nb,
                   mem - TWO_SIZE_T_SIZES);
      } else {
        LargeBins.EmptyTrees(tree.chunks, tree.treebins, tree.shape);
        mem := 0;
      }
    }

    /** No chunk of a tree has the size that stands for a request that cannot be met. */
    lemma {:induction false} NoneThatLarge()
      requires HeapValid()
      ensures NothingBetter(tree.chunks, WORD - 1, dvsize)
    {
      hide SmallBins.Inv, TrieMemory.Inv, TrieMemory.Keyed, Safe;
      forall a {:trigger tree.chunks[a].size} | a in tree.chunks ensures tree.chunks[a].size < WORD - 1 {
        assert a in State().binned && State().binned[a] == tree.chunks[a].size;
        RoleFacts(heap, ends, segs, State(), a);
      }
    }

    /** The bins serve a small request, unless `dv` is the better choice or all bins are empty
        (4574-4626). */
    method FromBins(nb: nat) returns (mem: int)
      requires HeapValid() && MIN_CHUNK_SIZE <= nb < SMALL_LIMIT && nb % CHUNK_ALIGN == 0
      modifies `heap, `top, `topsize, `dv, `dvsize, `live, small, tree
      ensures HeapValid()
      ensures if mem != 0 then OfOwn(nb, mem) && mem - TWO_SIZE_T_SIZES in old(Binned())
              else
                && unchanged(this, small, tree) && !Snug(small.Contents(), nb)
                && (nb <= dvsize || (!SomeFits(small.Contents(), nb) && tree.Contents() == map[]))
    {
      hide SmallBins.Inv, TrieMemory.Inv, TrieMemory.Keyed, Safe, Kept, BitAt, SmallBins.Shr, SmallBins.LeftSmallBits,
           Chosen, ServedOwners, Taken, DvSplit, BestFit.Ordered;
      var idx := SmallBins.SmallIndex(nb);
      var smallbits := SmallBins.Shr(small.smallmap, idx);
      SmallBins.MapInRange(small.links, small.smallmap, small.lists);
      SmallBins.RemainderlessBits(small.smallmap, idx);
      SmallBins.ShrBit(small.smallmap, idx, 0);
      if And(smallbits, 3) != 0 {
        if !BitAt(smallbits, 0) { idx := idx + 1; }
        SmallBins.LeastFrom(small.links, small.smallmap, small.lists, nb / 8, idx);
        mem := TakeSmall(idx, nb);
        SmallChosen(old(State()), old(small.Contents()), old(tree.Contents()), old(Sure(nb)), nb,
                    mem - TWO_SIZE_T_SIZES);
        return;
      }
      SmallBins.LeastFrom(small.links, small.smallmap, small.lists, idx, idx + 2);
      assert !Snug(small.Contents(), nb);
      if nb <= dvsize {
        mem := 0;
      } else {
        mem := FromLarger(nb, idx);
      }
    }

    /** The trees serve a large request, unless `dv` is the better choice (4629-4635). */
    method FromTrees(nb: nat) returns (mem: int)
      requires HeapValid() && SMALL_LIMIT <= nb < WORD && nb % CHUNK_ALIGN == 0
      modifies `heap, `top, `topsize, `dv, `dvsize, `live, small, tree
      ensures HeapValid()
      ensures if mem != 0 then OfOwn(nb, mem)
              else unchanged(this, small, tree) && (Sure(nb) ==> NothingBetter(tree.chunks, nb, dvsize))
    {
      hide SmallBins.Inv, TrieMemory.Inv, TrieMemory.Keyed, Safe, Kept, LargeBins.Exactly, Chosen, ServedOwners, Taken,
           BinSplit;
      if tree.treemap != 0 {
        mem := TreeLarge(nb);
        if mem != 0 {
          TreeChosen(old(State()), old(small.Contents()), old(tree.Contents()), old(Sure(nb)), nb,
                     mem - TWO_SIZE_T_SIZES);
        }
      } else {
        LargeBins.EmptyTrees(tree.chunks, tree.treebins, tree.shape);
        mem := 0;
      }
    }

    /** No binned chunk is due: `dv` serves the request, or else `top`, or nothing does (4637-4667). */
    method FromDvOrTop(nb: nat) returns (mem: int)
      requires HeapValid() && MIN_CHUNK_SIZE <= nb < WORD && (nb % CHUNK_ALIGN == 0 || nb == WORD - 1)
      requires if nb < SMALL_LIMIT then
                 && !Snug(small.Contents(), nb)
                 && (nb <= dvsize || (!SomeFits(small.Contents(), nb) && tree.Contents() == map[]))
               else Sure(nb) ==> NothingBetter(tree.chunks, nb, dvsize)
      modifies `heap, `top, `topsize, `dv, `dvsize, `live
      ensures HeapValid()
      ensures if mem != 0 then OfOwn(nb, mem) else unchanged(this, small, tree) && NoneOwn(nb)
    {
      hide SmallBins.Inv, TrieMemory.Inv, TrieMemory.Keyed, Safe, Kept, LargeBins.Exactly, BestFit.Ordered;
      if dvsize > 0 { RoleFacts(heap, ends, segs, State(), dv); }
      if topsize > 0 { TopFacts(heap, ends, segs, State()); }
      if nb <= dvsize {
        mem := UseDv(nb);
      } else if nb < topsize {
        mem := UseTop(nb);
      } else {
        mem := 0;
      }
    }

    /** The free chunks of the heap serve a request if one of them can: bins, then `dv`, then `top`. A small request
        goes to `dv` only if no bin fits without remainder, a large one only if no binned chunk is smaller. */
    method FromHeap(bytes: nat, nb: nat) returns (mem: int)
      requires HeapValid() && bytes < WORD && nb == Wanted(bytes)
      modifies `heap, `top, `topsize, `dv, `dvsize, `live, small, tree
      ensures HeapValid()
      ensures if mem != 0 then OfOwn(nb, mem) else unchanged(this, small, tree) && NoneOwn(nb)
    {
      hide BinsValid, Safe, Kept, PadRequest, LargeBins.Exactly, Chosen, ServedOwners, Starved, Snug, SomeFits;
      RequestSizeFits(bytes);
      if bytes <= MAX_SMALL_REQUEST {
        mem := FromBins(nb);
      } else if bytes < MAX_REQUEST {
        mem := FromTrees(nb);
      } else {
        NoneThatLarge();
        mem := 0;
      }
      if mem == 0 {
        mem := FromDvOrTop(nb);
      }
    }

    /** No memory came from the system. */
    twostate predicate SystemKept()
      reads this
    {
      unchanged(`segs, `links, `records, `ends, `mapped, `fences, `leastAddr, `trimCheck, `releaseChecks)
    }

    /** `dlmalloc(bytes)`. */
    method Allocate(bytes: nat, os: Os) returns (mem: int)
      requires Valid() && bytes < WORD && Honest(Wanted(bytes), os)
      modifies this, small, tree
      ensures Valid()
      ensures if mem != 0 then Answered(Wanted(bytes), mem)
              else unchanged(this, small, tree)
                   && (os.region == MFAIL || Wanted(bytes) + SYS_ALLOC_PADDING + GRANULARITY > WORD)
      ensures !old(NoneOwn(Wanted(bytes))) ==> mem != 0 && OfOwn(Wanted(bytes), mem) && SystemKept()
      ensures old(NoneOwn(Wanted(bytes))) ==>
                || OfSystem(Wanted(bytes), os, mem)
                || (&& Wanted(bytes) >= SMALL_LIMIT && !old(Sure(Wanted(bytes)))
                    && OfOwn(Wanted(bytes), mem) && SystemKept())
      ensures old(Paged(segs, mapped)) && PagedOs(os) ==> Paged(segs, mapped)
    {
      hide BinsValid, Safe, Kept, MapsOk, AllChecked, LeastOk, Listed, Fresh, GrowSize, MmapSize, PadRequest, Paged,
           Chosen, Starved, ServedOwners, Grew, LargeBins.Exactly, BestFit.Ordered;
      RequestSizeFits(bytes);
      var nb := Wanted(bytes);
      mem := FromHeap(bytes, nb);
      if mem == 0 {
        mem := SysAlloc(nb, os);
      } else if nb < SMALL_LIMIT || old(Sure(nb)) {
        StarvedOrServed(old(State()), old(small.Contents()), old(tree.Contents()), old(Sure(nb)), nb,
                        mem - TWO_SIZE_T_SIZES);
      }
    }

    // ---- Memory for the system ---------------------------------------------------------------------------

    /** `has_segment_link(m, ss)`. */
    method HasSegmentLink(s: Segment) returns (b: bool)
      ensures b <==> exists k :: 0 <= k < |links| && Within(s, links[k])
    {
      var k := 0;
      while k < |links|
        invariant 0 <= k <= |links| && forall j :: 0 <= j < k ==> !Within(s, links[j])
      {
        if Within(s, links[k]) { return true; }
        k := k + 1;
      }
      return false;
    }

    /** What giving memory back keeps: all blocks, and the accounts. */
    twostate predicate Returned(released: int)
      reads this
    {
      live == old(live) && mapped == old(mapped) && GaveBack(old(heap), old(segs), heap, segs, live, released)
    }

    /** Every segment behind the first one holds a block. */
    ghost predicate AllUsed()
      reads this
    {
      forall j {:trigger segs[j]} :: 0 < j < |segs| ==> !Unused(heap, segs[j])
    }

    /** The free chunk of an unused segment is no longer `dv`, or leaves its tree. */
    method UnlinkUnused(p: int, psize: nat)
      requires BinsValid() && p > 0 && psize >= SMALL_LIMIT && (dvsize == 0 ==> dv == 0)
      requires (IsDv(State(), p) <==> p !in Binned()) && (p in Binned() ==> Binned()[p] == psize)
      modifies `dv, `dvsize, small, tree
      ensures BinsValid() && Binned() == old(Binned()) - {p} && (dvsize == 0 ==> dv == 0)
      ensures if old(IsDv(State(), p)) then dv == 0 && dvsize == 0 else dv == old(dv) && dvsize == old(dvsize)
    {
      hide SmallBins.Inv, TrieMemory.Inv, TrieMemory.Keyed;
      if p == dv {
        NotThere(Binned(), p);
        dv := 0;
        dvsize := 0;
      } else {
        UnionMinus(small.Contents(), tree.Contents(), p);
        tree.Unlink(p);
      }
    }

    /** The memory of segment `i`, its record in chunk `r` included, is the system's again. */
    method ForgetSegment(i: nat, ghost r: int)
      requires 0 < i < |segs| && |links| == |segs| - 1
      modifies `heap, `ends, `segs, `links, `records
      ensures heap == DropMem(old(heap), old(segs)[i]) && ends == DropEnds(old(ends), old(segs)[i])
      ensures segs == DropAt(old(segs), i) && links == DropAt(old(links), i - 1) && records == old(records) - {r}
    {
      var s := segs[i];
      heap := DropMem(heap, s);
      segs := DropAt(segs, i);
      links := DropAt(links, i - 1);
      ends := DropEnds(ends, s);
      records := records - {r};
    }

    /** Unused segment `i` goes (4262-4277). */
    method DropSegment(i: nat)
      requires Valid() && 0 < i < |segs| && Unused(heap, segs[i])
      modifies `heap, `ends, `segs, `links, `records, `dv, `dvsize, small, tree
      ensures old(segs)[i].size > 0 && Valid() && Returned(old(segs)[i].size)
      ensures segs == DropAt(old(segs), i) && heap == DropMem(old(heap), old(segs)[i])
      ensures old(Paged(segs, mapped)) ==> Paged(segs, mapped)
    {
      hide BinsValid, Safe, MapsOk, AllChecked, LeastOk, Listed, GaveBack, Unused, DropMem, DropEnds, DropAt, Paged;
      ghost var o := State();
      var s := segs[i];
      var p := s.base;
      UnusedFacts(heap, ends, segs, o, links, i);
      PagedDrop(mapped, segs, i);
      DropAll(heap, ends, segs, o, links, mapped, leastAddr, i);
      ghost var r := p + heap[p].size;
      UnlinkUnused(p, heap[p].size);
      ForgetSegment(i, r);
      assert State() == Dropped(o, p, r);
    }

    /** `release_unused_segments(m)`: every segment behind the first one that holds no block goes. */
    method ReleaseUnused() returns (released: nat)
      requires Valid()
      modifies `heap, `ends, `segs, `links, `records, `dv, `dvsize, `releaseChecks, small, tree
      ensures Valid() && Returned(released)
      ensures |segs| == 0 <==> |old(segs)| == 0
      ensures (|segs| > 0 ==> segs[0] == old(segs)[0]) && AllUsed()
      ensures var n := |old(segs)| - 1;
              releaseChecks == if n > MAX_RELEASE_CHECK_RATE then n else MAX_RELEASE_CHECK_RATE
      ensures old(Paged(segs, mapped)) ==> Paged(segs, mapped)
    {
      hide BinsValid, Safe, Kept, MapsOk, AllChecked, LeastOk, Listed, GaveBack, Unused, DropMem, Paged;
      released := 0;
      var nsegs, i := 0, 1;
      GaveNothing(heap, ends, segs, State());
      while i < |segs|
        invariant 1 <= i && Valid() && Returned(released) && (|segs| > 0 ==> i <= |segs| && segs[0] == old(segs)[0])
        invariant (|segs| == 0 <==> |old(segs)| == 0) && (|segs| > 0 ==> nsegs + |segs| - i == |old(segs)| - 1)
        invariant (|segs| == 0 ==> nsegs == 0) && forall j :: 0 < j < i && j < |segs| ==> !Unused(heap, segs[j])
        invariant old(Paged(segs, mapped)) ==> Paged(segs, mapped)
        decreases |segs| - i
      {
        nsegs := nsegs + 1;
        if Unused(heap, segs[i]) {
          ghost var h, e, ss, o := heap, ends, segs, State();
          var size := segs[i].size;
          DropSegment(i);
          GaveMore(old(heap), old(segs), h, ss, heap, segs, live, released, size);
          forall j | 0 < j < i ensures !Unused(heap, segs[j]) { OthersAsBefore(h, e, ss, o, i, j); }
          released := released + size;
        } else {
          i := i + 1;
        }
      }
      releaseChecks := if nsegs > MAX_RELEASE_CHECK_RATE then nsegs else MAX_RELEASE_CHECK_RATE;
    }

    /** The end of `top` goes (4302-4343). */
    method CutTop(extra: nat)
      requires Valid() && 0 < extra < topsize && extra % GRANULARITY == 0
      modifies `heap, `ends, `segs, `topsize, `trimCheck
      ensures Valid() && Returned(extra) && topsize == old(topsize) - extra && trimCheck == TRIM_THRESHOLD
      ensures |old(segs)| > 0 && segs == old(segs)[0 := Segment(old(segs)[0].base, old(segs)[0].size - extra)]
      ensures old(Paged(segs, mapped)) ==> Paged(segs, mapped)
    {
      hide BinsValid, Safe, MapsOk, AllChecked, LeastOk, Listed, GaveBack, Paged;
      CutAll(heap, ends, segs, State(), links, mapped, leastAddr, extra);
      PagedCut(mapped, segs, extra);
      segs := segs[0 := Segment(segs[0].base, segs[0].size - extra)];
      ends := ends - {top + topsize} + {top + topsize - extra};
      heap := heap - {top + topsize};
      topsize := topsize - extra;
      heap := heap[top := Header(heap[top].foot, topsize, false, true)];
      heap := heap[top + topsize := Header(0, TOP_FOOT_SIZE, false, false)];
      trimCheck := TRIM_THRESHOLD;
      assert heap == CutTopMem(old(heap), top, extra);
    }

    /** `top` keeps `room` bytes and at most one unit more. */
    method TrimTop(room: nat) returns (released: nat)
      requires Valid() && room < topsize
      modifies `heap, `ends, `segs, `topsize, `trimCheck
      ensures Valid() && Returned(released)
      ensures |old(segs)| > 0 && segs == old(segs)[0 := Segment(old(segs)[0].base, old(segs)[0].size - released)]
      ensures room < topsize <= room + GRANULARITY && topsize + released == old(topsize) && released % GRANULARITY == 0
      ensures trimCheck == if released > 0 then TRIM_THRESHOLD else old(trimCheck)
      ensures old(Paged(segs, mapped)) ==> Paged(segs, mapped)
    {
      hide BinsValid, Safe, MapsOk, AllChecked, LeastOk, Listed, GaveBack, TrimExtra, Within, Paged;
      TopFacts(heap, ends, segs, State());
      TrimExtraFits(topsize, room);
      var extra := TrimExtra(topsize, room);
      ListedCut(heap, ends, segs, State(), links, extra);
      NoLinkInTop(heap, ends, segs, State(), links);
      GaveNothing(heap, ends, segs, State());
      released := 0;
      var pinned := HasSegmentLink(segs[0]);
      if segs[0].size >= extra && !pinned {
        released := extra;
      }
      if released != 0 {
        CutTop(extra);
      }
    }

    /** `sys_trim(m, pad)`: `top` keeps `pad` bytes, its overhead and at most one unit more, and no segment behind the
        first one stays without a block. */
    method SysTrim(pad: nat) returns (released: nat)
      requires Valid() && pad < WORD
      modifies `heap, `ends, `segs, `links, `records, `topsize, `trimCheck, `releaseChecks, `dv, `dvsize, small, tree
      ensures Valid() && Returned(released)
      ensures if pad < MAX_REQUEST && old(topsize) > pad + TOP_FOOT_SIZE
              then pad + TOP_FOOT_SIZE < topsize <= pad + TOP_FOOT_SIZE + GRANULARITY
                && (old(topsize) - topsize) % GRANULARITY == 0
              else topsize == old(topsize)
      ensures if pad < MAX_REQUEST && top != 0 then AllUsed() else unchanged(this, small, tree)
      ensures var check := if topsize < old(topsize) then TRIM_THRESHOLD else old(trimCheck);
              pad < MAX_REQUEST && top != 0 ==>
                && trimCheck == (if released == 0 && topsize > check then WORD - 1 else check)
                && releaseChecks == if |old(segs)| - 1 > MAX_RELEASE_CHECK_RATE then |old(segs)| - 1
                                    else MAX_RELEASE_CHECK_RATE
      ensures old(Paged(segs, mapped)) ==> Paged(segs, mapped)
    {
      hide BinsValid, Safe, MapsOk, AllChecked, LeastOk, Listed, GaveBack, Unused, Paged;
      released := 0;
      GaveNothing(heap, ends, segs, State());
      TopIsFirst(heap, ends, segs, State());
      if pad < MAX_REQUEST && top != 0 {
        if topsize > pad + TOP_FOOT_SIZE {
          released := TrimTop(pad + TOP_FOOT_SIZE);
        }
        ghost var h, ss, a := heap, segs, released;
        var more := ReleaseUnused();
        GaveMore(old(heap), old(segs), h, ss, heap, segs, live, a, more);
        released := released + more;
        if released == 0 && topsize > trimCheck { trimCheck := WORD - 1; }
      }
    }

    /** What freeing chunk `p` gives back: if `top` grew past the trim threshold, all of it but a granule and every
        unused segment; every unused segment also when the counter of chunks put into trees runs out; else nothing. */
    twostate predicate Trimmed(p: int)
      reads this, small, tree
    {
      && old(p in heap && p + heap[p].size in heap)
      && var fate := FateOf(old(heap), old(ends), old(State()), p);
         var tsize := FreedOwners(old(heap), old(ends), old(State()), p).topsize;
         if fate.JoinedTop? && tsize > old(trimCheck) then topsize <= TOP_FOOT_SIZE + GRANULARITY && AllUsed()
         else
           && topsize == tsize
           && if fate.TreeBinned? && old(releaseChecks) % WORD == 1 then AllUsed()
              else
                && segs == old(segs) && unchanged(`links, `trimCheck)
                && releaseChecks == if fate.TreeBinned? then (old(releaseChecks) + WORD - 1) % WORD
                                    else old(releaseChecks)
    }

    /** `dlfree(mem)` for null or a block handed out and not freed since. */
    method Release(mem: int)
      requires Valid() && (mem == 0 || mem - TWO_SIZE_T_SIZES in live || mem - TWO_SIZE_T_SIZES in mapped)
      modifies this, small, tree
      ensures Valid()
      ensures mem == 0 ==> unchanged(this, small, tree)
      ensures mem != 0 && mem - TWO_SIZE_T_SIZES in old(live) ==>
                Freed(mem - TWO_SIZE_T_SIZES) && Trimmed(mem - TWO_SIZE_T_SIZES) && mapped == old(mapped)
                  && Inside(old(segs), segs)
      ensures mem != 0 && mem - TWO_SIZE_T_SIZES in old(mapped) ==>
                mapped == old(mapped) - {mem - TWO_SIZE_T_SIZES} && heap == old(heap) && live == old(live)
                  && segs == old(segs) && State() == old(State()) && unchanged(small, tree)
      ensures old(Paged(segs, mapped)) ==> Paged(segs, mapped)
    {
      hide BinsValid, Safe, Kept, MapsOk, AllChecked, LeastOk, Listed, Inside, Paged;
      if mem != 0 {
        var p := mem - TWO_SIZE_T_SIZES;
        ReleaseFacts(heap, ends, segs, State(), mapped, leastAddr, p);
        var c := if p in heap then heap[p] else mapped[p];
        assert leastAddr <= p;
        if !c.pinuse && !c.cinuse {
          MapRemoved(mapped, segs, p);
          LeastUnmapped(leastAddr, mapped, segs, p);
          PagedUnmapped(mapped, segs, p);
          FencesRemoved(mapped, segs, fences, p);
          fences := fences - {p + c.size + 8, p + c.size + 16};
          mapped := mapped - {p};
        } else {
          FreeAndTrim(p);
        }
      }
    }

    /** A chunk of the heap is freed; if `top` has become large, or every so often when a tree takes the chunk, memory
        goes back to the system. */
    method FreeAndTrim(p: int)
      requires Valid() && p in live
      modifies this, small, tree
      ensures Valid() && Freed(p) && mapped == old(mapped) && Inside(old(segs), segs)
      ensures Trimmed(p)
      ensures old(Paged(segs, mapped)) ==> Paged(segs, mapped)
    {
      hide BinsValid, Safe, Kept, MapsOk, AllChecked, LeastOk, Listed, Inside, Bytes, Unused, FreedOwners, Paged;
      InsideSelf(segs);
      var fate := FreeChunk(p);
      TopIsFirst(heap, ends, segs, State());
      ghost var h := heap;
      var released := 0;
      if fate.JoinedTop? && topsize > trimCheck {
        released := SysTrim(0);
        KeptTrans(old(heap), h, heap, live, live);
      } else if fate.TreeBinned? {
        releaseChecks := (releaseChecks + WORD - 1) % WORD;
        if releaseChecks == 0 {
          released := ReleaseUnused();
          KeptTrans(old(heap), h, heap, live, live);
        }
      }
    }
  }
}
