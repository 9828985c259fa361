/** Segments of `osrt/c/dlmalloc.c`: how new memory from the system joins the heap, and what
    becomes of the old `top` chunk. */
module HeapSegments {
  import opened HeapLayout

  const SEGMENT_RECORD_SIZE: int := 48

  /** The region `[base, base + size)` can become a segment of its own. */
  ghost predicate Usable(segs: seq<Segment>, s: Segment) {
    RegionOk(s) && forall i {:trigger Separate(segs[i], s)} :: 0 <= i < |segs| ==> Separate(segs[i], s)
  }

  lemma {:induction false} OutsideSegment(h: Heap, ends: set<int>, segs: seq<Segment>, s: Segment, p: int)
    requires Chunks(h, ends) && Placed(h, ends, segs) && Usable(segs, s) && p in h
    ensures p + h[p].size <= s.base || s.base + s.size <= p
    ensures h[p].size > 0 && (p !in ends ==> p + h[p].size < s.base || s.base + s.size <= p)
  {
    HeaderNonempty(h, ends, segs, p);
    assert Homed(h, ends, segs, p);
    var i :| 0 <= i < |segs| && Holds(segs[i], p, p + h[p].size + if p in ends then 0 else 1);
    assert Separate(segs[i], s);
  }

  // ---- A segment with nothing but `top` in it ---------------------------------------------------

  /** `init_top(m, base, size - TOP_FOOT_SIZE)`. */
  function NewTopMem(h: Heap, base: int, size: int): Heap {
    h[base := Header(0, size - TOP_FOOT_SIZE, false, true)]
     [base + size - TOP_FOOT_SIZE := Header(0, TOP_FOOT_SIZE, false, false)]
  }

  lemma {:induction false} NewTopKeeps(h: Heap, ends: set<int>, segs: seq<Segment>, base: int, size: int)
    requires Layout(h, ends, segs) && Usable(segs, Segment(base, size)) && size > TOP_FOOT_SIZE
    ensures base !in h && base + size - TOP_FOOT_SIZE !in h
    ensures Layout(NewTopMem(h, base, size), ends + {base + size - TOP_FOOT_SIZE}, [Segment(base, size)] + segs)
  {
    var s, e := Segment(base, size), base + size - TOP_FOOT_SIZE;
    var h', ends', segs' := NewTopMem(h, base, size), ends + {e}, [s] + segs;
    if base in h { OutsideSegment(h, ends, segs, s, base); }
    if e in h { OutsideSegment(h, ends, segs, s, e); }
    forall q | q in h' && q !in ends' ensures ChunkOk(h', ends', q) {
      if q != base { assert ChunkOk(h, ends, q); OutsideSegment(h, ends, segs, s, q); }
    }
    forall a, b | a in h' && b in h' && a < b ensures Clear(h', a, b) {
      if a in h { OutsideSegment(h, ends, segs, s, a); }
      if b in h { OutsideSegment(h, ends, segs, s, b); }
      assert a in h && b in h ==> Clear(h, a, b);
    }
    NewTopPlaced(h, ends, segs, base, size);
    NewTopSegments(h, ends, segs, base, size);
  }

  lemma {:induction false} NewTopPlaced(h: Heap, ends: set<int>, segs: seq<Segment>, base: int, size: int)
    requires Layout(h, ends, segs) && size > TOP_FOOT_SIZE
    requires base !in h && base + size - TOP_FOOT_SIZE !in h
    ensures Placed(NewTopMem(h, base, size), ends + {base + size - TOP_FOOT_SIZE}, [Segment(base, size)] + segs)
  {
    var s, e := Segment(base, size), base + size - TOP_FOOT_SIZE;
    var h', ends', segs' := NewTopMem(h, base, size), ends + {e}, [s] + segs;
    forall q | q in h' ensures Homed(h', ends', segs', q) {
      if q == base || q == e {
        assert Holds(segs'[0], q, q + h'[q].size + if q in ends' then 0 else 1);
      } else {
        assert Homed(h, ends, segs, q);
        var i :| 0 <= i < |segs| && Holds(segs[i], q, q + h[q].size + if q in ends then 0 else 1);
        assert Holds(segs'[i + 1], q, q + h'[q].size + if q in ends' then 0 else 1);
      }
    }
    forall x | x in ends' && x in h' ensures EndOk(h', segs', x) {
      if x == e {
        assert Tail(segs'[0], e);
      } else {
        assert EndOk(h, segs, x);
        var i :| 0 <= i < |segs| && Tail(segs[i], x);
        assert Tail(segs'[i + 1], x);
      }
    }
  }

  lemma {:induction false} NewTopSegments(h: Heap, ends: set<int>, segs: seq<Segment>, base: int, size: int)
    requires Layout(h, ends, segs) && Usable(segs, Segment(base, size)) && size > TOP_FOOT_SIZE
    requires base !in h && base + size - TOP_FOOT_SIZE !in h
    ensures Segments(NewTopMem(h, base, size), ends + {base + size - TOP_FOOT_SIZE}, [Segment(base, size)] + segs)
  {
    var s, e := Segment(base, size), base + size - TOP_FOOT_SIZE;
    var h', ends', segs' := NewTopMem(h, base, size), ends + {e}, [s] + segs;
    forall i | 0 <= i < |segs'| ensures SegmentOk(h', ends', segs'[i]) {
      if i > 0 { assert SegmentOk(h, ends, segs[i - 1]); }
    }
    forall i, j | 0 <= i < j < |segs'| ensures Separate(segs'[i], segs'[j]) {
      if i > 0 { assert Separate(segs[i - 1], segs[j - 1]); } else { assert Separate(segs[j - 1], s); }
    }
  }

  // ---- The top segment grows upwards --------------------------------------------------------------

  /** `top` is a chunk of segment 0 and its closing header is behind it. */
  ghost predicate TopOf(h: Heap, ends: set<int>, segs: seq<Segment>, top: int) {
    && |segs| > 0 && top in h && top !in ends && !h[top].cinuse
    && var e := top + h[top].size;
       && e in ends && e in h && h[e].size == TOP_FOOT_SIZE && !h[e].pinuse
       && segs[0].base <= top && e + TOP_FOOT_SIZE == segs[0].base + segs[0].size
  }

  /** `init_top(m, m->top, m->topsize + tsize)` after a merge with memory right behind the segment. */
  function GrowTopMem(h: Heap, top: int, tsize: int): Heap
    requires top in h
  {
    var e := top + h[top].size;
    (h - {e})[top := Header(h[top].foot, h[top].size + tsize, false, true)]
             [e + tsize := Header(0, TOP_FOOT_SIZE, false, false)]
  }

  lemma {:induction false} GrowTopKeeps(h: Heap, ends: set<int>, segs: seq<Segment>, top: int, tsize: int)
    requires Layout(h, ends, segs) && TopOf(h, ends, segs, top)
    requires tsize >= TOP_FOOT_SIZE && tsize % CHUNK_ALIGN == 0
    requires Usable(segs, Segment(segs[0].base + segs[0].size, tsize))
    ensures var e := top + h[top].size;
            Layout(GrowTopMem(h, top, tsize), ends - {e} + {e + tsize},
                   segs[0 := Segment(segs[0].base, segs[0].size + tsize)])
  {
    var e := top + h[top].size;
    var h', ends' := GrowTopMem(h, top, tsize), ends - {e} + {e + tsize};
    var s := Segment(segs[0].base + segs[0].size, tsize);
    assert ChunkOk(h, ends, top);
    forall q | q in h' && q !in ends' ensures ChunkOk(h', ends', q) { GrowTopChunk(h, ends, segs, top, tsize, q); }
    forall a, b | a in h' && b in h' && a < b ensures Clear(h', a, b) {
      if a in h { OutsideSegment(h, ends, segs, s, a); assert a < e ==> Clear(h, a, e); }
      if b in h {
        OutsideSegment(h, ends, segs, s, b);
        assert e < b ==> Clear(h, e, b);
        assert top < b ==> Clear(h, top, b);
      }
      assert a in h && b in h ==> Clear(h, a, b);
    }
    GrowTopPlaced(h, ends, segs, top, tsize);
    GrowTopSegments(h, ends, segs, top, tsize);
  }

  lemma {:induction false} GrowTopChunk(h: Heap, ends: set<int>, segs: seq<Segment>, top: int, tsize: int, q: int)
    requires Layout(h, ends, segs) && TopOf(h, ends, segs, top)
    requires tsize >= TOP_FOOT_SIZE && tsize % CHUNK_ALIGN == 0
    requires Usable(segs, Segment(segs[0].base + segs[0].size, tsize))
    requires q in GrowTopMem(h, top, tsize) && q !in ends - {top + h[top].size} + {top + h[top].size + tsize}
    ensures var e := top + h[top].size; ChunkOk(GrowTopMem(h, top, tsize), ends - {e} + {e + tsize}, q)
  {
    var e := top + h[top].size;
    var s := Segment(segs[0].base + segs[0].size, tsize);
    assert ChunkOk(h, ends, q) && ChunkOk(h, ends, top);
    if q != top {
      var n, x := q + h[q].size, q - h[q].foot;
      if n == e { OneBefore(h, ends, top, q, e); }
      OutsideSegment(h, ends, segs, s, q);
      OutsideSegment(h, ends, segs, s, n);
      if !h[q].pinuse { OutsideSegment(h, ends, segs, s, x); }
    }
  }

  lemma {:induction false} GrowTopPlaced(h: Heap, ends: set<int>, segs: seq<Segment>, top: int, tsize: int)
    requires Layout(h, ends, segs) && TopOf(h, ends, segs, top) && tsize > 0
    ensures var e := top + h[top].size;
            Placed(GrowTopMem(h, top, tsize), ends - {e} + {e + tsize},
                   segs[0 := Segment(segs[0].base, segs[0].size + tsize)])
  {
    var e := top + h[top].size;
    var h', ends' := GrowTopMem(h, top, tsize), ends - {e} + {e + tsize};
    var segs' := segs[0 := Segment(segs[0].base, segs[0].size + tsize)];
    assert ChunkOk(h, ends, top);
    forall q | q in h' ensures Homed(h', ends', segs', q) {
      if q == top || q == e + tsize {
        assert Holds(segs'[0], q, q + h'[q].size + if q in ends' then 0 else 1);
      } else {
        assert Homed(h, ends, segs, q);
        var i :| 0 <= i < |segs| && Holds(segs[i], q, q + h[q].size + if q in ends then 0 else 1);
        assert Holds(segs'[i], q, q + h'[q].size + if q in ends' then 0 else 1);
      }
    }
    forall x | x in ends' && x in h' ensures EndOk(h', segs', x) {
      if x == e + tsize {
        assert Tail(segs'[0], x);
      } else {
        assert EndOk(h, segs, x);
        var i := GrowTopTail(h, ends, segs, top, x);
        assert Tail(segs'[i], x);
      }
    }
  }

  lemma {:induction false} GrowTopTail(h: Heap, ends: set<int>, segs: seq<Segment>, top: int, x: int) returns (i: nat)
    requires Layout(h, ends, segs) && TopOf(h, ends, segs, top)
    requires x in ends && x in h && x != top + h[top].size
    ensures 0 < i < |segs| && Tail(segs[i], x)
  {
    var e := top + h[top].size;
    assert EndOk(h, segs, x);
    i :| 0 <= i < |segs| && Tail(segs[i], x);
    assert e < x ==> Clear(h, e, x);
  }

  lemma {:induction false} GrowTopSegments(h: Heap, ends: set<int>, segs: seq<Segment>, top: int, tsize: int)
    requires Layout(h, ends, segs) && TopOf(h, ends, segs, top)
    requires tsize >= TOP_FOOT_SIZE && tsize % CHUNK_ALIGN == 0
    requires Usable(segs, Segment(segs[0].base + segs[0].size, tsize))
    ensures var e := top + h[top].size;
            Segments(GrowTopMem(h, top, tsize), ends - {e} + {e + tsize},
                     segs[0 := Segment(segs[0].base, segs[0].size + tsize)])
  {
    var e := top + h[top].size;
    var h', ends' := GrowTopMem(h, top, tsize), ends - {e} + {e + tsize};
    var segs' := segs[0 := Segment(segs[0].base, segs[0].size + tsize)];
    var s := Segment(segs[0].base + segs[0].size, tsize);
    forall i | 0 <= i < |segs'| ensures SegmentOk(h', ends', segs'[i]) {
      assert SegmentOk(h, ends, segs[i]);
      OutsideSegment(h, ends, segs, s, segs[i].base);
    }
    forall i, j | 0 <= i < j < |segs'| ensures Separate(segs'[i], segs'[j]) {
      assert Separate(segs[i], segs[j]);
      assert Separate(segs[j], s);
    }
  }

  // ---- A segment grows downwards ------------------------------------------------------------------

  /** The new memory below segment `i`, as one chunk in use. */
  function GrowDownMem(h: Heap, base: int, tsize: int): Heap {
    h[base := Header(0, tsize, true, true)]
  }

  lemma {:induction false} GrowDownKeeps(h: Heap, ends: set<int>, segs: seq<Segment>, i: nat, base: int, tsize: int)
    requires Layout(h, ends, segs) && Usable(segs, Segment(base, tsize))
    requires i < |segs| && segs[i].base == base + tsize
    ensures base !in h
    ensures Layout(GrowDownMem(h, base, tsize), ends, segs[i := Segment(base, segs[i].size + tsize)])
  {
    var s := Segment(base, tsize);
    var h', segs' := GrowDownMem(h, base, tsize), segs[i := Segment(base, segs[i].size + tsize)];
    if base in h { OutsideSegment(h, ends, segs, s, base); }
    assert SegmentOk(h, ends, segs[i]);
    forall q | q in h' && q !in ends ensures ChunkOk(h', ends, q) {
      if q != base { assert ChunkOk(h, ends, q); OutsideSegment(h, ends, segs, s, q); }
    }
    forall a, b | a in h' && b in h' && a < b ensures Clear(h', a, b) {
      if a in h { OutsideSegment(h, ends, segs, s, a); }
      if b in h { OutsideSegment(h, ends, segs, s, b); }
      assert a in h && b in h ==> Clear(h, a, b);
    }
    GrowDownPlaced(h, ends, segs, i, base, tsize);
    GrowDownSegments(h, ends, segs, i, base, tsize);
  }

  lemma {:induction false} GrowDownPlaced(h: Heap, ends: set<int>, segs: seq<Segment>, i: nat, base: int, tsize: int)
    requires Layout(h, ends, segs) && base !in h && tsize > 0 && i < |segs| && segs[i].base == base + tsize
    ensures Placed(GrowDownMem(h, base, tsize), ends, segs[i := Segment(base, segs[i].size + tsize)])
  {
    var h', segs' := GrowDownMem(h, base, tsize), segs[i := Segment(base, segs[i].size + tsize)];
    assert SegmentOk(h, ends, segs[i]);
    forall q | q in h' ensures Homed(h', ends, segs', q) {
      if q == base {
        assert Holds(segs'[i], q, q + h'[q].size + 1);
      } else {
        assert Homed(h, ends, segs, q);
        var j :| 0 <= j < |segs| && Holds(segs[j], q, q + h[q].size + if q in ends then 0 else 1);
        assert Holds(segs'[j], q, q + h'[q].size + if q in ends then 0 else 1);
      }
    }
    forall x | x in ends && x in h' ensures EndOk(h', segs', x) {
      assert EndOk(h, segs, x);
      var j :| 0 <= j < |segs| && Tail(segs[j], x);
      assert Tail(segs'[j], x);
    }
  }

  lemma {:induction false} GrowDownSegments(h: Heap, ends: set<int>, segs: seq<Segment>, i: nat, base: int, tsize: int)
    requires Layout(h, ends, segs) && Usable(segs, Segment(base, tsize))
    requires base !in h && i < |segs| && segs[i].base == base + tsize
    ensures Segments(GrowDownMem(h, base, tsize), ends, segs[i := Segment(base, segs[i].size + tsize)])
  {
    var s := Segment(base, tsize);
    var h', segs' := GrowDownMem(h, base, tsize), segs[i := Segment(base, segs[i].size + tsize)];
    forall j | 0 <= j < |segs'| ensures SegmentOk(h', ends, segs'[j]) { assert SegmentOk(h, ends, segs[j]); }
    forall j, k | 0 <= j < k < |segs'| ensures Separate(segs'[j], segs'[k]) {
      assert Separate(segs[j], segs[k]);
      assert Separate(segs[j], s) && Separate(segs[k], s);
    }
  }

  /** A chunk in use is cut into two chunks in use. */
  function CutMem(h: Heap, p: int, nb: int): Heap
    requires p in h
  {
    h[p := h[p].(size := nb)][p + nb := Header(0, h[p].size - nb, true, true)]
  }

  lemma {:induction false} CutKeeps(h: Heap, ends: set<int>, segs: seq<Segment>, p: int, nb: int)
    requires Layout(h, ends, segs) && p in h && p !in ends && h[p].cinuse
    requires 0 < nb < h[p].size && nb % CHUNK_ALIGN == 0
    ensures p + nb !in h && Layout(CutMem(h, p, nb), ends, segs)
  {
    var h' := CutMem(h, p, nb);
    NothingInside(h, p, p + nb);
    CutPlaced(h, ends, segs, p, nb);
    assert ChunkOk(h, ends, p);
    forall q | q in h' && q !in ends ensures ChunkOk(h', ends, q) {
      if q != p + nb {
        assert ChunkOk(h, ends, q);
        if !h[q].pinuse { assert ChunkOk(h, ends, q - h[q].foot); }
      }
    }
    forall a, b | a in h' && b in h' && a < b ensures Clear(h', a, b) {
      assert a in h && a < p ==> Clear(h, a, p);
      assert a in h && p < a ==> Clear(h, p, a);
      assert p < b && b in h ==> Clear(h, p, b);
      assert a in h && b in h ==> Clear(h, a, b);
    }
    forall i | 0 <= i < |segs| ensures SegmentOk(h', ends, segs[i]) { assert SegmentOk(h, ends, segs[i]); }
  }

  lemma {:induction false} CutPlaced(h: Heap, ends: set<int>, segs: seq<Segment>, p: int, nb: int)
    requires Layout(h, ends, segs) && p in h && p !in ends && p + nb !in h && 0 < nb < h[p].size
    ensures Placed(CutMem(h, p, nb), ends, segs)
  {
    var h' := CutMem(h, p, nb);
    assert Homed(h, ends, segs, p);
    var i :| 0 <= i < |segs| && Holds(segs[i], p, p + h[p].size + 1);
    forall q | q in h' ensures Homed(h', ends, segs, q) {
      if q == p || q == p + nb {
        assert Holds(segs[i], q, q + h'[q].size + 1);
      } else {
        assert Homed(h, ends, segs, q);
      }
    }
    forall e | e in ends && e in h' ensures EndOk(h', segs, e) { assert EndOk(h, segs, e); }
  }

  // ---- The old `top` is closed ---------------------------------------------------------------------

  predicate FenceAt(f: int, n: int, a: int) {
    f <= a < f + 8 * n && (a - f) % 8 == 0
  }

  /** `n` fencepost headers from `f` on, eight bytes apart. */
  function Fences(f: int, n: int): Heap {
    map a | f <= a < f + 8 * n && FenceAt(f, n, a) :: Header(0, 8, true, true)
  }

  /** Where `add_segment` puts the record of the old segment. */
  function RecordAt(top: int, topsize: int): int {
    if topsize < 32 then top else top + topsize
  }

  function FenceCount(topsize: int): int {
    if topsize < 32 then 5 else 3
  }

  /** `add_segment`: a chunk in use holds the segment record, fenceposts close the segment, and
      the rest of `top`, if it is large enough to be a chunk, becomes an ordinary free chunk. */
  function CloseMem(h: Heap, top: int): Heap
    requires top in h
  {
    var size := h[top].size;
    var sp := RecordAt(top, size);
    ((h - {top + size})[sp := Header(if sp == top then h[top].foot else size, SEGMENT_RECORD_SIZE, true, sp == top)])
      + Fences(sp + SEGMENT_RECORD_SIZE, FenceCount(size))
  }

  function CloseEnds(h: Heap, ends: set<int>, top: int): set<int>
    requires top in h
  {
    var size := h[top].size;
    ends - {top + size} + Fences(RecordAt(top, size) + SEGMENT_RECORD_SIZE, FenceCount(size)).Keys
  }

  lemma {:induction false} CloseKeeps(h: Heap, ends: set<int>, segs: seq<Segment>, top: int)
    requires Layout(h, ends, segs) && TopOf(h, ends, segs, top)
    ensures Layout(CloseMem(h, top), CloseEnds(h, ends, top), segs)
  {
    var h', ends' := CloseMem(h, top), CloseEnds(h, ends, top);
    forall q | q in h' && q !in ends' ensures ChunkOk(h', ends', q) { CloseChunk(h, ends, segs, top, q); }
    forall a, b | a in h' && b in h' && a < b ensures Clear(h', a, b) { CloseClear(h, ends, segs, top, a, b); }
    ClosePlaced(h, ends, segs, top);
    forall i | 0 <= i < |segs| ensures SegmentOk(h', ends', segs[i]) {
      assert SegmentOk(h, ends, segs[i]);
      CloseIsOutside(h, ends, segs, top, segs[i].base);
      HeaderNonempty(h, ends, segs, segs[i].base);
      assert ChunkOk(h, ends, top);
    }
  }

  /** The only headers of the old `top` and its overhead are `top` and the closing one. */
  ghost predicate CloseOutside(h: Heap, top: int, a: int)
    requires top in h && a in h
  {
    var e := top + h[top].size;
    a == top || a == e || a + h[a].size <= top || a >= e + TOP_FOOT_SIZE
  }

  lemma {:induction false} CloseIsOutside(h: Heap, ends: set<int>, segs: seq<Segment>, top: int, a: int)
    requires Layout(h, ends, segs) && TopOf(h, ends, segs, top) && a in h
    ensures CloseOutside(h, top, a)
  {
    var e := top + h[top].size;
    assert ChunkOk(h, ends, top);
    assert a < top ==> Clear(h, a, top);
    assert top < a ==> Clear(h, top, a);
    assert e < a ==> Clear(h, e, a);
  }

  lemma {:induction false} CloseClear(h: Heap, ends: set<int>, segs: seq<Segment>, top: int, a: int, b: int)
    requires Layout(h, ends, segs) && TopOf(h, ends, segs, top)
    requires a in CloseMem(h, top) && b in CloseMem(h, top) && a < b
    ensures Clear(CloseMem(h, top), a, b)
  {
    var size := h[top].size;
    var f := RecordAt(top, size) + SEGMENT_RECORD_SIZE;
    assert ChunkOk(h, ends, top);
    assert a in h && b in h ==> Clear(h, a, b);
    if a in h { CloseIsOutside(h, ends, segs, top, a); HeaderNonempty(h, ends, segs, a); }
    if b in h { CloseIsOutside(h, ends, segs, top, b); HeaderNonempty(h, ends, segs, b); }
    assert FenceAt(f, FenceCount(size), a) && FenceAt(f, FenceCount(size), b) ==> a + 8 <= b;
  }

  lemma {:induction false} CloseChunk(h: Heap, ends: set<int>, segs: seq<Segment>, top: int, q: int)
    requires Layout(h, ends, segs) && TopOf(h, ends, segs, top)
    requires q in CloseMem(h, top) && q !in CloseEnds(h, ends, top)
    ensures ChunkOk(CloseMem(h, top), CloseEnds(h, ends, top), q)
  {
    var size := h[top].size;
    var e, sp := top + size, RecordAt(top, size);
    assert ChunkOk(h, ends, top);
    FirstFence(top, size);
    if q in h && q !in ends && q != top {
      assert ChunkOk(h, ends, q);
      CloseIsOutside(h, ends, segs, top, q);
      CloseIsOutside(h, ends, segs, top, q + h[q].size);
      if q + h[q].size == e { OneBefore(h, ends, top, q, e); }
      if !h[q].pinuse {
        CloseIsOutside(h, ends, segs, top, q - h[q].foot);
        assert ChunkOk(h, ends, q - h[q].foot);
      }
    }
  }

  lemma {:induction false} FirstFence(top: int, size: int)
    ensures var f := RecordAt(top, size) + SEGMENT_RECORD_SIZE; f in Fences(f, FenceCount(size))
  {}

  lemma {:induction false} ClosePlaced(h: Heap, ends: set<int>, segs: seq<Segment>, top: int)
    requires Layout(h, ends, segs) && TopOf(h, ends, segs, top)
    ensures Placed(CloseMem(h, top), CloseEnds(h, ends, top), segs)
  {
    var size := h[top].size;
    var e, sp := top + size, RecordAt(top, size);
    var h', ends' := CloseMem(h, top), CloseEnds(h, ends, top);
    assert ChunkOk(h, ends, top);
    forall q | q in h' ensures Homed(h', ends', segs, q) {
      if q in h && q != top && q != e {
        assert Homed(h, ends, segs, q);
        CloseIsOutside(h, ends, segs, top, q);
      } else {
        assert Holds(segs[0], q, q + h'[q].size + if q in ends' then 0 else 1);
      }
    }
    forall x | x in ends' && x in h' ensures EndOk(h', segs, x) {
      if x in h && x in ends && x != e {
        assert EndOk(h, segs, x);
        CloseIsOutside(h, ends, segs, top, x);
      } else {
        assert Tail(segs[0], x);
      }
    }
  }
}
