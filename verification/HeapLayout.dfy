/** Boundary tags of `osrt/c/dlmalloc.c`: the headers of the chunks that tile the segments, the
    tags that let neighbours find each other, and how splitting and merging keep them in step. */
module HeapLayout {
  import opened Words

  /** A chunk header. `foot` is the word before it (`prev_foot`): it belongs to the chunk below and
      means something only while that chunk is free. `size`, `cinuse` and `pinuse` share `head`. */
  datatype Header = Header(foot: int, size: int, cinuse: bool, pinuse: bool)
  type Heap = map<int, Header>

  /** A region obtained from the system. */
  datatype Segment = Segment(base: int, size: int)

  const CHUNK_ALIGN: int := 16
  const TOP_FOOT_SIZE: int := 80
  const MIN_CHUNK_SIZE: int := 32

  /** The word that holds `size | CINUSE_BIT | PINUSE_BIT`. */
  function HeadWord(size: nat, cinuse: bool, pinuse: bool): nat {
    size + (if cinuse then 2 else 0) + (if pinuse then 1 else 0)
  }

  /** Sizes are multiples of 8, so `chunksize`, `cinuse` and `pinuse` read back what was stored. */
  lemma {:induction false} HeadReadsBack(size: nat, cinuse: bool, pinuse: bool)
    requires size % 8 == 0
    ensures var w := HeadWord(size, cinuse, pinuse);
            w - w % 8 == size && (w / 2 % 2 == 1 <==> cinuse) && (w % 2 == 1 <==> pinuse)
  {
    var w, q, b := HeadWord(size, cinuse, pinuse), size / 8, if pinuse then 1 else 0;
    var a := if cinuse then 1 else 0;
    assert w == 8 * q + 2 * a + b;
    assert w % 8 == 2 * a + b;
    assert w == 2 * (4 * q + a) + b;
    assert w / 2 == 4 * q + a && w % 2 == b;
    assert 4 * q + a == 2 * (2 * q) + a;
  }

  // ---- The invariant ---------------------------------------------------------------------------
  // `ends` are the headers that close a segment: fenceposts, or the fake chunk behind `top`.

  /** One chunk and its neighbours agree. */
  ghost predicate ChunkOk(h: Heap, ends: set<int>, p: int)
    requires p in h
  {
    var c := h[p];
    && p > 0 && p % CHUNK_ALIGN == 0 && c.size % CHUNK_ALIGN == 0 && c.size > 0
    && p + c.size in h
    && h[p + c.size].pinuse == c.cinuse
    && (!c.cinuse ==> c.pinuse && (p + c.size !in ends ==> h[p + c.size].foot == c.size))
    && (!c.pinuse ==> p - c.foot in h && p - c.foot !in ends && h[p - c.foot].size == c.foot > 0)
  }

  /** Header `p` ends before header `q`. */
  ghost predicate Clear(h: Heap, p: int, q: int)
    requires p in h
  {
    p + h[p].size <= q
  }

  ghost predicate Holds(s: Segment, lo: int, hi: int) {
    s.base <= lo && hi <= s.base + s.size
  }

  /** Header `p` lies in one of the segments, and a chunk leaves room for the header behind it. */
  ghost predicate Homed(h: Heap, ends: set<int>, segs: seq<Segment>, p: int)
    requires p in h
  {
    exists i :: 0 <= i < |segs| && Holds(segs[i], p, p + h[p].size + if p in ends then 0 else 1)
  }

  ghost predicate EndOk(h: Heap, segs: seq<Segment>, e: int)
    requires e in h
  {
    h[e].size > 0 && exists i :: 0 <= i < |segs| && Tail(segs[i], e)
  }

  /** `e` lies in the trailing overhead of the segment. */
  ghost predicate Tail(s: Segment, e: int) {
    s.base <= e < s.base + s.size <= e + TOP_FOOT_SIZE
  }

  ghost predicate RegionOk(s: Segment) {
    && s.base > 0 && s.base % CHUNK_ALIGN == 0 && s.size % CHUNK_ALIGN == 0 && s.size > 0
    && s.base + s.size <= WORD
  }

  ghost predicate SegmentOk(h: Heap, ends: set<int>, s: Segment) {
    && RegionOk(s)
    && s.base in h && s.base !in ends && h[s.base].pinuse
  }

  ghost predicate Separate(s: Segment, t: Segment) {
    s.base + s.size <= t.base || t.base + t.size <= s.base
  }

  ghost predicate Chunks(h: Heap, ends: set<int>) {
    ends <= h.Keys && forall p {:trigger ChunkOk(h, ends, p)} :: p in h && p !in ends ==> ChunkOk(h, ends, p)
  }

  ghost predicate Disjoint(h: Heap) {
    forall p, q {:trigger Clear(h, p, q)} :: p in h && q in h && p < q ==> Clear(h, p, q)
  }

  ghost predicate Placed(h: Heap, ends: set<int>, segs: seq<Segment>) {
    && (forall p {:trigger Homed(h, ends, segs, p)} :: p in h ==> Homed(h, ends, segs, p))
    && (forall e {:trigger EndOk(h, segs, e)} :: e in ends && e in h ==> EndOk(h, segs, e))
  }

  ghost predicate Segments(h: Heap, ends: set<int>, segs: seq<Segment>) {
    && (forall i {:trigger SegmentOk(h, ends, segs[i])} :: 0 <= i < |segs| ==> SegmentOk(h, ends, segs[i]))
    && (forall i, j {:trigger Separate(segs[i], segs[j])} :: 0 <= i < j < |segs| ==> Separate(segs[i], segs[j]))
  }

  ghost predicate Layout(h: Heap, ends: set<int>, segs: seq<Segment>) {
    Chunks(h, ends) && Disjoint(h) && Placed(h, ends, segs) && Segments(h, ends, segs)
  }

  // ---- First consequences --------------------------------------------------------------------

  /** Only one chunk ends at a given address. */
  lemma {:induction false} OneBefore(h: Heap, ends: set<int>, p: int, q: int, n: int)
    requires Chunks(h, ends) && Disjoint(h)
    requires p in h && q in h && n in h && p + h[p].size == n && q + h[q].size == n && p < n && q < n
    ensures p == q
  {
    assert p < q ==> Clear(h, p, q);
    assert q < p ==> Clear(h, q, p);
  }

  /** Free chunks have chunks in use on both sides. */
  lemma {:induction false} FreeNeighbours(h: Heap, ends: set<int>, p: int)
    requires Chunks(h, ends) && p in h && p !in ends && !h[p].cinuse
    ensures h[p].pinuse
    ensures p + h[p].size in h && (p + h[p].size !in ends ==> h[p + h[p].size].cinuse)
  {
    assert ChunkOk(h, ends, p);
    if p + h[p].size !in ends { assert ChunkOk(h, ends, p + h[p].size); }
  }

  /** `prev_chunk`: the chunk that the foot leads to is free and ends here. */
  lemma {:induction false} Previous(h: Heap, ends: set<int>, p: int)
    requires Chunks(h, ends) && p in h && p !in ends && !h[p].pinuse
    ensures var q := p - h[p].foot;
            q in h && q !in ends && q < p && h[q].size == h[p].foot && !h[q].cinuse && h[q].pinuse
  {
    assert ChunkOk(h, ends, p);
    assert ChunkOk(h, ends, p - h[p].foot);
  }

  lemma {:induction false} SegmentsMeet(segs: seq<Segment>, h: Heap, ends: set<int>, i: nat, j: nat, a: int)
    requires Segments(h, ends, segs) && i < |segs| && j < |segs|
    requires segs[i].base <= a < segs[i].base + segs[i].size && segs[j].base <= a < segs[j].base + segs[j].size
    ensures i == j
  {
    assert i < j ==> Separate(segs[i], segs[j]);
    assert j < i ==> Separate(segs[j], segs[i]);
  }

  /** The chunk behind a chunk is in the same segment. */
  lemma {:induction false} SameHome(h: Heap, ends: set<int>, segs: seq<Segment>, p: int) returns (i: nat)
    requires Layout(h, ends, segs) && p in h && p !in ends
    ensures p + h[p].size in h
    ensures i < |segs| && Holds(segs[i], p, p + h[p].size + 1)
    ensures var n := p + h[p].size; Holds(segs[i], n, n + h[n].size + if n in ends then 0 else 1)
  {
    assert ChunkOk(h, ends, p);
    var n := p + h[p].size;
    assert Homed(h, ends, segs, p) && Homed(h, ends, segs, n);
    i :| 0 <= i < |segs| && Holds(segs[i], p, p + h[p].size + 1);
    var j :| 0 <= j < |segs| && Holds(segs[j], n, n + h[n].size + if n in ends then 0 else 1);
    HeaderNonempty(h, ends, segs, n);
    SegmentsMeet(segs, h, ends, i, j, n);
  }

  lemma {:induction false} HeaderNonempty(h: Heap, ends: set<int>, segs: seq<Segment>, p: int)
    requires Chunks(h, ends) && Placed(h, ends, segs) && p in h
    ensures h[p].size > 0
  {
    if p in ends { assert EndOk(h, segs, p); } else { assert ChunkOk(h, ends, p); }
  }

  // ---- A free chunk goes into use ------------------------------------------------------------

  /** `set_inuse_and_pinuse(p, s)`. */
  function TakeMem(h: Heap, p: int): Heap
    requires p in h && p + h[p].size in h
  {
    var n := p + h[p].size;
    var h1 := h[p := h[p].(cinuse := true, pinuse := true)];
    h1[n := h1[n].(pinuse := true)]
  }

  lemma {:induction false} TakeKeeps(h: Heap, ends: set<int>, segs: seq<Segment>, p: int)
    requires Layout(h, ends, segs) && p in h && p !in ends && !h[p].cinuse && p + h[p].size in h
    ensures Layout(TakeMem(h, p), ends, segs)
  {
    var h' := TakeMem(h, p);
    assert ChunkOk(h, ends, p);
    forall q | q in h' && q !in ends ensures ChunkOk(h', ends, q) {
      assert ChunkOk(h, ends, q);
      if q + h[q].size == p + h[p].size { OneBefore(h, ends, p, q, p + h[p].size); }
    }
    SameSizesKeep(h, h', ends, segs);
  }

  /** Headers that only change their tags keep their places. */
  lemma {:induction false} SameSizesKeep(h: Heap, h': Heap, ends: set<int>, segs: seq<Segment>)
    requires Layout(h, ends, segs) && h'.Keys == h.Keys && Chunks(h', ends)
    requires forall p :: p in h ==> h'[p].size == h[p].size && (h[p].pinuse ==> h'[p].pinuse)
    ensures Layout(h', ends, segs)
  {
    forall p, q | p in h' && q in h' && p < q ensures Clear(h', p, q) { assert Clear(h, p, q); }
    forall p | p in h' ensures Homed(h', ends, segs, p) { assert Homed(h, ends, segs, p); }
    forall e | e in ends && e in h' ensures EndOk(h', segs, e) { assert EndOk(h, segs, e); }
    forall i | 0 <= i < |segs| ensures SegmentOk(h', ends, segs[i]) { assert SegmentOk(h, ends, segs[i]); }
  }

  // ---- A free chunk is split ------------------------------------------------------------------

  /** The low `nb` bytes of free chunk `p` go into use and the rest stays free. The foot of the
      rest is stored unless the rest is `top`. The new header's own foot is payload of `p`. */
  function SplitMem(h: Heap, p: int, nb: int, foots: bool): Heap
    requires p in h && p + h[p].size in h
  {
    var r, n, rsize := p + nb, p + h[p].size, h[p].size - nb;
    var h1 := h[p := Header(h[p].foot, nb, true, true)][r := Header(0, rsize, false, true)];
    if foots then h1[n := h1[n].(foot := rsize)] else h1
  }

  ghost predicate Splits(h: Heap, ends: set<int>, p: int, nb: int, foots: bool) {
    && p in h && p !in ends && !h[p].cinuse && p + h[p].size in h
    && 0 < nb < h[p].size && nb % CHUNK_ALIGN == 0
    && (!foots ==> p + h[p].size in ends)
  }

  lemma {:induction false} NothingInside(h: Heap, p: int, a: int)
    requires Disjoint(h) && p in h && p < a < p + h[p].size
    ensures a !in h
  {
    assert a in h ==> Clear(h, p, a);
  }

  lemma {:induction false} SplitKeeps(h: Heap, ends: set<int>, segs: seq<Segment>, p: int, nb: int, foots: bool)
    requires Layout(h, ends, segs) && Splits(h, ends, p, nb, foots)
    ensures Layout(SplitMem(h, p, nb, foots), ends, segs)
  {
    var h' := SplitMem(h, p, nb, foots);
    NothingInside(h, p, p + nb);
    forall q | q in h' && q !in ends ensures ChunkOk(h', ends, q) { SplitChunk(h, ends, p, nb, foots, q); }
    forall a, b | a in h' && b in h' && a < b ensures Clear(h', a, b) {
      assert ChunkOk(h, ends, p);
      assert a in h && a < p ==> Clear(h, a, p);
      assert a in h && p < a ==> Clear(h, p, a);
      assert p < b && b in h ==> Clear(h, p, b);
      assert a in h && b in h ==> Clear(h, a, b);
    }
    SplitPlaced(h, ends, segs, p, nb, foots);
    forall i | 0 <= i < |segs| ensures SegmentOk(h', ends, segs[i]) { assert SegmentOk(h, ends, segs[i]); }
  }

  lemma {:induction false} SplitChunk(h: Heap, ends: set<int>, p: int, nb: int, foots: bool, q: int)
    requires Chunks(h, ends) && Disjoint(h) && Splits(h, ends, p, nb, foots) && p + nb !in h
    requires q in SplitMem(h, p, nb, foots) && q !in ends
    ensures ChunkOk(SplitMem(h, p, nb, foots), ends, q)
  {
    assert ChunkOk(h, ends, p);
    if q != p + nb {
      assert ChunkOk(h, ends, q);
      if q + h[q].size == p + h[p].size { OneBefore(h, ends, p, q, p + h[p].size); }
    }
  }

  lemma {:induction false} SplitPlaced(h: Heap, ends: set<int>, segs: seq<Segment>, p: int, nb: int, foots: bool)
    requires Layout(h, ends, segs) && Splits(h, ends, p, nb, foots) && p + nb !in h
    ensures Placed(SplitMem(h, p, nb, foots), ends, segs)
  {
    var h' := SplitMem(h, p, nb, foots);
    assert Homed(h, ends, segs, p);
    var i :| 0 <= i < |segs| && Holds(segs[i], p, p + h[p].size + 1);
    forall q | q in h' ensures Homed(h', ends, segs, q) {
      if q == p || q == p + nb {
        assert Holds(segs[i], q, q + h'[q].size + 1);
      } else {
        assert Homed(h, ends, segs, q);
      }
    }
    forall e | e in ends && e in h' ensures EndOk(h', segs, e) { assert EndOk(h, segs, e); }
  }

  // ---- Neighbours merge into one free chunk ---------------------------------------------------

  /** Everything from `lo` up to `hi` becomes one free chunk. Its foot is stored and the tag of the
      chunk behind it cleared, unless the new chunk is `top`. */
  function MergeMem(h: Heap, lo: int, hi: int, foots: bool): Heap
    requires lo in h && hi in h
  {
    var h1 := (map q | q in h && !(lo < q < hi) :: h[q])[lo := Header(h[lo].foot, hi - lo, false, true)];
    if foots then h1[hi := h[hi].(foot := hi - lo, pinuse := false)] else h1
  }

  ghost predicate Merges(h: Heap, ends: set<int>, segs: seq<Segment>, lo: int, hi: int, foots: bool) {
    && lo in h && lo !in ends && h[lo].pinuse && hi in h && lo < hi && hi % CHUNK_ALIGN == 0
    && (hi !in ends ==> h[hi].cinuse)
    && (!foots ==> hi in ends && !h[hi].pinuse)
    && (forall e :: e in ends ==> !(lo < e < hi))
    && exists i :: 0 <= i < |segs| && Holds(segs[i], lo, hi + 1)
  }

  lemma {:induction false} MergeKeeps(h: Heap, ends: set<int>, segs: seq<Segment>, lo: int, hi: int, foots: bool)
    requires Layout(h, ends, segs) && Merges(h, ends, segs, lo, hi, foots)
    ensures Layout(MergeMem(h, lo, hi, foots), ends, segs)
  {
    var h' := MergeMem(h, lo, hi, foots);
    forall q | q in h' && q !in ends ensures ChunkOk(h', ends, q) { MergeChunk(h, ends, segs, lo, hi, foots, q); }
    forall a, b | a in h' && b in h' && a < b ensures Clear(h', a, b) { assert Clear(h, a, b); }
    MergePlaced(h, ends, segs, lo, hi, foots);
    forall i | 0 <= i < |segs| ensures SegmentOk(h', ends, segs[i]) {
      assert SegmentOk(h, ends, segs[i]);
      MergeSpares(h, ends, segs, lo, hi, foots, i);
    }
  }

  /** No segment starts inside the merged chunk or right behind it. */
  lemma {:induction false} MergeSpares(h: Heap, ends: set<int>, segs: seq<Segment>, lo: int, hi: int, foots: bool,
                                       j: nat)
    requires Layout(h, ends, segs) && Merges(h, ends, segs, lo, hi, foots) && j < |segs|
    ensures !(lo < segs[j].base <= hi)
  {
    var i :| 0 <= i < |segs| && Holds(segs[i], lo, hi + 1);
    assert SegmentOk(h, ends, segs[j]);
    if lo < segs[j].base <= hi {
      SegmentsMeet(segs, h, ends, i, j, segs[j].base);
    }
  }

  lemma {:induction false} MergeChunk(h: Heap, ends: set<int>, segs: seq<Segment>, lo: int, hi: int, foots: bool,
                                      q: int)
    requires Chunks(h, ends) && Disjoint(h) && Merges(h, ends, segs, lo, hi, foots)
    requires q in MergeMem(h, lo, hi, foots) && q !in ends
    ensures ChunkOk(MergeMem(h, lo, hi, foots), ends, q)
  {
    var h' := MergeMem(h, lo, hi, foots);
    assert ChunkOk(h, ends, lo) && ChunkOk(h, ends, q);
    if q != lo {
      var n, x := q + h[q].size, q - h[q].foot;
      assert q < lo ==> Clear(h, q, lo);
      assert n in h';
      assert n == hi ==> q < lo || q >= hi;
      if q != hi && !h[q].pinuse {
        assert x in h && x + h[x].size == q;
        assert x < hi ==> Clear(h, x, hi);
        assert x in h' && h'[x].size == h[x].size;
      }
    }
  }

  lemma {:induction false} MergePlaced(h: Heap, ends: set<int>, segs: seq<Segment>, lo: int, hi: int, foots: bool)
    requires Layout(h, ends, segs) && Merges(h, ends, segs, lo, hi, foots)
    ensures Placed(MergeMem(h, lo, hi, foots), ends, segs)
  {
    var h' := MergeMem(h, lo, hi, foots);
    var i :| 0 <= i < |segs| && Holds(segs[i], lo, hi + 1);
    forall q | q in h' ensures Homed(h', ends, segs, q) {
      if q == lo {
        assert Holds(segs[i], q, q + h'[q].size + 1);
      } else {
        assert Homed(h, ends, segs, q);
      }
    }
    forall e | e in ends && e in h' ensures EndOk(h', segs, e) { assert EndOk(h, segs, e); }
  }
}
