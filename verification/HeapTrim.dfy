/** Memory that `osrt/c/dlmalloc.c` gives back to the system: the end of `top`, and segments that hold no block. */
module HeapTrim {
  import opened Words
  import opened HeapLayout
  import opened HeapSegments
  import opened HeapOwners
  import opened SystemMemory
  import opened HeapSafety
  import PageIndex

  predicate Within(s: Segment, a: int) {
    s.base <= a < s.base + s.size
  }

  // ---- How much of `top` goes ------------------------------------------------------------------------

  /** `((topsize - pad + (unit - 1)) / unit - 1) * unit` on 64-bit words. */
  function TrimExtra(topsize: nat, pad: nat): nat
    requires pad < topsize
  {
    ((topsize - pad + 0xFFFF) % WORD / 0x1_0000 + WORD - 1) % WORD * 0x1_0000 % WORD
  }

  /** Whole units go, and what stays is the padding and at most one unit more; the sum may wrap. */
  lemma {:induction false} TrimExtraFits(topsize: nat, pad: nat)
    requires pad < topsize < WORD
    ensures var extra := TrimExtra(topsize, pad);
            extra % GRANULARITY == 0 && pad < topsize - extra <= pad + GRANULARITY
  {
    var x := topsize - pad;
    if x + 0xFFFF < WORD {
      UnitsBelow(x);
    } else {
      assert (x + 0xFFFF) % WORD / 0x1_0000 == 0;
      assert TrimExtra(topsize, pad) == WORD - 0x1_0000;
    }
  }

  lemma {:induction false} UnitsBelow(x: nat)
    requires 0 < x && x + 0xFFFF < WORD
    ensures var extra := ((x + 0xFFFF) / 0x1_0000 + WORD - 1) % WORD * 0x1_0000 % WORD;
            extra % GRANULARITY == 0 && 0 < x - extra <= GRANULARITY
  {
    var q := (x + 0xFFFF) / 0x1_0000;
    assert 1 <= q && (q + WORD - 1) % WORD == q - 1;
    assert 0 <= (q - 1) * 0x1_0000 < x;
  }

  // ---- The end of `top` ------------------------------------------------------------------------------

  /** `init_top(m, m->top, m->topsize - extra)`. */
  function CutTopMem(h: Heap, top: int, extra: int): Heap
    requires top in h
  {
    var e := top + h[top].size;
    (h - {e})[top := Header(h[top].foot, h[top].size - extra, false, true)]
             [e - extra := Header(0, TOP_FOOT_SIZE, false, false)]
  }

  lemma {:induction false} CutTopKeeps(h: Heap, ends: set<int>, segs: seq<Segment>, top: int, extra: int)
    requires Layout(h, ends, segs) && TopOf(h, ends, segs, top)
    requires 0 < extra < h[top].size && extra % CHUNK_ALIGN == 0
    ensures var e := top + h[top].size;
            Layout(CutTopMem(h, top, extra), ends - {e} + {e - extra},
                   segs[0 := Segment(segs[0].base, segs[0].size - extra)])
  {
    hide Placed, Segments, ChunkOk, Clear;
    var e := top + h[top].size;
    var h', ends' := CutTopMem(h, top, extra), ends - {e} + {e - extra};
    TopAligned(h, ends, segs, top, extra);
    NothingInside(h, top, e - extra);
    forall q | q in h' && q !in ends' ensures ChunkOk(h', ends', q) { CutTopChunk(h, ends, segs, top, extra, q); }
    forall a, b | a in h' && b in h' && a < b ensures Clear(h', a, b) { CutTopClear(h, ends, segs, top, extra, a, b); }
    CutTopPlaced(h, ends, segs, top, extra);
    CutTopSegments(h, ends, segs, top, extra);
  }

  lemma {:induction false} CutTopSegments(h: Heap, ends: set<int>, segs: seq<Segment>, top: int, extra: int)
    requires Layout(h, ends, segs) && TopOf(h, ends, segs, top) && top + h[top].size - extra !in h
    requires 0 < extra < h[top].size && (segs[0].size - extra) % CHUNK_ALIGN == 0
    ensures var e := top + h[top].size;
            Segments(CutTopMem(h, top, extra), ends - {e} + {e - extra},
                     segs[0 := Segment(segs[0].base, segs[0].size - extra)])
  {
    var e := top + h[top].size;
    var h', ends' := CutTopMem(h, top, extra), ends - {e} + {e - extra};
    var segs' := segs[0 := Segment(segs[0].base, segs[0].size - extra)];
    forall i | 0 <= i < |segs'| ensures SegmentOk(h', ends', segs'[i]) { assert SegmentOk(h, ends, segs[i]); }
    forall i, j | 0 <= i < j < |segs'| ensures Separate(segs'[i], segs'[j]) { assert Separate(segs[i], segs[j]); }
  }

  lemma {:induction false} TopAligned(h: Heap, ends: set<int>, segs: seq<Segment>, top: int, extra: int)
    requires Layout(h, ends, segs) && TopOf(h, ends, segs, top) && extra % CHUNK_ALIGN == 0
    ensures (h[top].size - extra) % CHUNK_ALIGN == 0 && (segs[0].size - extra) % CHUNK_ALIGN == 0
  {
    assert ChunkOk(h, ends, top) && SegmentOk(h, ends, segs[0]);
    Aligned(h[top].size, extra);
    Aligned(segs[0].size, extra);
  }

  lemma {:induction false} Aligned(a: int, b: int)
    requires a % CHUNK_ALIGN == 0 && b % CHUNK_ALIGN == 0
    ensures (a - b) % CHUNK_ALIGN == 0
  {}

  lemma {:induction false} CutTopChunk(h: Heap, ends: set<int>, segs: seq<Segment>, top: int, extra: int, q: int)
    requires Layout(h, ends, segs) && TopOf(h, ends, segs, top)
    requires 0 < extra < h[top].size && (h[top].size - extra) % CHUNK_ALIGN == 0 && top + h[top].size - extra !in h
    requires q in CutTopMem(h, top, extra) && q !in ends - {top + h[top].size} + {top + h[top].size - extra}
    ensures var e := top + h[top].size; ChunkOk(CutTopMem(h, top, extra), ends - {e} + {e - extra}, q)
  {
    assert ChunkOk(h, ends, top) && ChunkOk(h, ends, q);
    if q != top && q + h[q].size == top + h[top].size { OneBefore(h, ends, top, q, q + h[q].size); }
  }

  lemma {:induction false} CutTopClear(h: Heap, ends: set<int>, segs: seq<Segment>, top: int, extra: int, a: int,
                                       b: int)
    requires Layout(h, ends, segs) && TopOf(h, ends, segs, top) && 0 < extra < h[top].size
    requires a in CutTopMem(h, top, extra) && b in CutTopMem(h, top, extra) && a < b
    ensures Clear(CutTopMem(h, top, extra), a, b)
  {
    var e := top + h[top].size;
    if a in h { CloseIsOutside(h, ends, segs, top, a); HeaderNonempty(h, ends, segs, a); }
    if b in h { CloseIsOutside(h, ends, segs, top, b); HeaderNonempty(h, ends, segs, b); }
    assert a in h && b in h ==> Clear(h, a, b);
    assert a != e && b != e;
  }

  lemma {:induction false} CutTopPlaced(h: Heap, ends: set<int>, segs: seq<Segment>, top: int, extra: int)
    requires Layout(h, ends, segs) && TopOf(h, ends, segs, top) && 0 < extra < h[top].size
    requires top + h[top].size - extra !in h
    ensures var e := top + h[top].size;
            Placed(CutTopMem(h, top, extra), ends - {e} + {e - extra},
                   segs[0 := Segment(segs[0].base, segs[0].size - extra)])
  {
    var e := top + h[top].size;
    var h', ends' := CutTopMem(h, top, extra), ends - {e} + {e - extra};
    var segs' := segs[0 := Segment(segs[0].base, segs[0].size - extra)];
    forall q | q in h' ensures Homed(h', ends', segs', q) {
      if q == top || q == e - extra {
        assert Holds(segs'[0], q, q + h'[q].size + if q in ends' then 0 else 1);
      } else {
        assert Homed(h, ends, segs, q);
        var i :| 0 <= i < |segs| && Holds(segs[i], q, q + h[q].size + if q in ends then 0 else 1);
        assert q < top ==> Clear(h, q, top);
        assert top < q ==> Clear(h, top, q);
        assert e < q ==> Clear(h, e, q);
        HeaderNonempty(h, ends, segs, q);
        assert Holds(segs'[i], q, q + h'[q].size + if q in ends' then 0 else 1);
      }
    }
    forall x | x in ends' && x in h' ensures EndOk(h', segs', x) {
      if x == e - extra {
        assert Tail(segs'[0], x);
      } else {
        assert EndOk(h, segs, x);
        var i := GrowTopTail(h, ends, segs, top, x);
        assert Tail(segs'[i], x);
      }
    }
  }

  lemma {:induction false} CutTopSafe(h: Heap, ends: set<int>, segs: seq<Segment>, o: Owners, extra: int)
    requires Safe(h, ends, segs, o) && 0 < extra < o.topsize && extra % CHUNK_ALIGN == 0
    ensures o.top in h && h[o.top].size == o.topsize
    ensures var e := o.top + o.topsize;
            Safe(CutTopMem(h, o.top, extra), ends - {e} + {e - extra},
                 segs[0 := Segment(segs[0].base, segs[0].size - extra)], o.(topsize := o.topsize - extra))
    ensures Kept(h, CutTopMem(h, o.top, extra), o.live)
  {
    var top := o.top;
    assert HasRole(o, top);
    assert OwnerOk(h, ends, o, top) && ChunkOk(h, ends, top);
    var e := top + h[top].size;
    var h', ends', o' := CutTopMem(h, top, extra), ends - {e} + {e - extra}, o.(topsize := o.topsize - extra);
    NothingInside(h, top, e - extra);
    CutTopKeeps(h, ends, segs, top, extra);
    forall q | q in h' && q !in ends' ensures OwnerOk(h', ends', o', q) {
      if q != top {
        assert OwnerOk(h, ends, o, q) && ChunkOk(h, ends, q);
        if q + h[q].size == e { OneBefore(h, ends, top, q, e); }
      }
    }
    forall q | HasRole(o', q) ensures Chunk(h', ends', q) { assert HasRole(o, q); }
    forall q | q in o.live ensures Stays(h, h', q) {
      assert HasRole(o, q);
      assert OwnerOk(h, ends, o, q);
    }
  }

  // ---- A segment goes --------------------------------------------------------------------------------

  function DropMem(h: Heap, s: Segment): Heap {
    map a | a in h && !(s.base <= a < s.base + s.size) :: h[a]
  }

  ghost function DropEnds(ends: set<int>, s: Segment): set<int> {
    set a | a in ends && !Within(s, a)
  }

  function DropAt<T>(s: seq<T>, i: nat): seq<T>
    requires i < |s|
  {
    s[..i] + s[i + 1..]
  }

  /** A header outside segment `i` has its home in another one. */
  lemma {:induction false} OtherHome(h: Heap, ends: set<int>, segs: seq<Segment>, i: nat, q: int) returns (j: nat)
    requires Layout(h, ends, segs) && i < |segs| && q in h && !Within(segs[i], q)
    ensures j < |segs| && j != i && Holds(segs[j], q, q + h[q].size + if q in ends then 0 else 1) && h[q].size > 0
  {
    HeaderNonempty(h, ends, segs, q);
    assert Homed(h, ends, segs, q);
    j :| 0 <= j < |segs| && Holds(segs[j], q, q + h[q].size + if q in ends then 0 else 1);
  }

  /** The neighbours of a chunk outside segment `i` are outside, too. */
  lemma {:induction false} NeighboursStay(h: Heap, ends: set<int>, segs: seq<Segment>, i: nat, q: int)
    requires Layout(h, ends, segs) && i < |segs| && Chunk(h, ends, q) && !Within(segs[i], q)
    ensures q + h[q].size in h && !Within(segs[i], q + h[q].size)
    ensures !h[q].pinuse ==> q - h[q].foot in h && !Within(segs[i], q - h[q].foot)
  {
    var j := SameHome(h, ends, segs, q);
    var n := q + h[q].size;
    HeaderNonempty(h, ends, segs, n);
    assert ChunkOk(h, ends, q);
    if Within(segs[i], n) { SegmentsMeet(segs, h, ends, i, j, n); }
    if !h[q].pinuse {
      Previous(h, ends, q);
      var x := q - h[q].foot;
      var k := SameHome(h, ends, segs, x);
      HeaderNonempty(h, ends, segs, q);
      SegmentsMeet(segs, h, ends, j, k, q);
      if Within(segs[i], x) { SegmentsMeet(segs, h, ends, i, j, x); }
    }
  }

  lemma {:induction false} DropKeeps(h: Heap, ends: set<int>, segs: seq<Segment>, i: nat)
    requires Layout(h, ends, segs) && i < |segs|
    ensures Layout(DropMem(h, segs[i]), DropEnds(ends, segs[i]), DropAt(segs, i))
  {
    hide Segments, Placed, ChunkOk, DropMem;
    var h', ends' := DropMem(h, segs[i]), DropEnds(ends, segs[i]);
    DropKeys(h, segs[i]);
    forall q | q in h' && q !in ends' ensures ChunkOk(h', ends', q) { DropChunk(h, ends, segs, i, q); }
    forall a, b | a in h' && b in h' && a < b ensures Clear(h', a, b) { assert Clear(h, a, b); }
    DropPlaced(h, ends, segs, i);
    DropSegments(h, ends, segs, i);
  }

  lemma {:induction false} DropKeys(h: Heap, s: Segment)
    ensures forall a {:trigger a in DropMem(h, s)} :: a in DropMem(h, s) <==> a in h && !Within(s, a)
    ensures forall a {:trigger DropMem(h, s)[a]} :: a in DropMem(h, s) ==> DropMem(h, s)[a] == h[a]
  {}

  lemma {:induction false} DropChunk(h: Heap, ends: set<int>, segs: seq<Segment>, i: nat, q: int)
    requires Layout(h, ends, segs) && i < |segs| && q in DropMem(h, segs[i]) && q !in DropEnds(ends, segs[i])
    ensures ChunkOk(DropMem(h, segs[i]), DropEnds(ends, segs[i]), q)
  {
    assert ChunkOk(h, ends, q);
    NeighboursStay(h, ends, segs, i, q);
  }

  lemma {:induction false} DropSegments(h: Heap, ends: set<int>, segs: seq<Segment>, i: nat)
    requires Layout(h, ends, segs) && i < |segs|
    ensures Segments(DropMem(h, segs[i]), DropEnds(ends, segs[i]), DropAt(segs, i))
  {
    hide RegionOk;
    var h', ends', segs' := DropMem(h, segs[i]), DropEnds(ends, segs[i]), DropAt(segs, i);
    forall j | 0 <= j < |segs'| ensures SegmentOk(h', ends', segs'[j]) {
      var k := if j < i then j else j + 1;
      assert segs'[j] == segs[k] && SegmentOk(h, ends, segs[k]);
      NotWithin(h, ends, segs, i, k);
    }
    forall j, k | 0 <= j < k < |segs'| ensures Separate(segs'[j], segs'[k]) {
      var j', k' := if j < i then j else j + 1, if k < i then k else k + 1;
      assert segs'[j] == segs[j'] && segs'[k] == segs[k'] && Separate(segs[j'], segs[k']);
    }
  }

  lemma {:induction false} NotWithin(h: Heap, ends: set<int>, segs: seq<Segment>, i: nat, k: nat)
    requires Segments(h, ends, segs) && i < |segs| && k < |segs| && i != k
    ensures !Within(segs[i], segs[k].base)
  {
    assert SegmentOk(h, ends, segs[k]);
    assert k < i ==> Separate(segs[k], segs[i]);
    assert i < k ==> Separate(segs[i], segs[k]);
  }

  lemma {:induction false} DropPlaced(h: Heap, ends: set<int>, segs: seq<Segment>, i: nat)
    requires Layout(h, ends, segs) && i < |segs|
    ensures Placed(DropMem(h, segs[i]), DropEnds(ends, segs[i]), DropAt(segs, i))
  {
    var h', ends', segs' := DropMem(h, segs[i]), DropEnds(ends, segs[i]), DropAt(segs, i);
    forall q | q in h' ensures Homed(h', ends', segs', q) {
      var j := OtherHome(h, ends, segs, i, q);
      var k := if j < i then j else j - 1;
      assert segs'[k] == segs[j];
      assert Holds(segs'[k], q, q + h'[q].size + if q in ends' then 0 else 1);
    }
    forall x | x in ends' && x in h' ensures EndOk(h', segs', x) {
      assert EndOk(h, segs, x);
      var j :| 0 <= j < |segs| && Tail(segs[j], x);
      var k := if j < i then j else j - 1;
      assert segs'[k] == segs[j];
      assert Tail(segs'[k], x);
    }
  }

  // ---- A segment that holds no block -------------------------------------------------------------------

  /** The first chunk is free and reaches to the trailing overhead. */
  predicate Unused(h: Heap, s: Segment) {
    && s.base in h && !h[s.base].cinuse && h[s.base].pinuse
    && s.base + h[s.base].size >= s.base + s.size - TOP_FOOT_SIZE
  }

  lemma {:induction false} NotTop(h: Heap, ends: set<int>, segs: seq<Segment>, o: Owners, i: nat, a: int)
    requires Safe(h, ends, segs, o) && 0 < i < |segs| && Within(segs[i], a)
    ensures !IsTop(o, a)
  {
    if IsTop(o, a) {
      assert HasRole(o, a);
      assert ChunkOk(h, ends, a);
      SegmentsMeet(segs, h, ends, 0, i, a);
    }
  }

  /** A chunk in segment `i` has room behind it, and is followed by a closing header only if it holds a record. */
  lemma {:induction false} ChunkIn(h: Heap, ends: set<int>, segs: seq<Segment>, o: Owners, i: nat, q: int)
    requires Safe(h, ends, segs, o) && 0 < i < |segs| && Chunk(h, ends, q) && Within(segs[i], q)
    ensures OwnerOk(h, ends, o, q) && !IsTop(o, q) && h[q].size >= MIN_CHUNK_SIZE
    ensures q + h[q].size < segs[i].base + segs[i].size && q + h[q].size in h
    ensures q !in o.records ==> Chunk(h, ends, q + h[q].size)
  {
    NotTop(h, ends, segs, o, i, q);
    assert OwnerOk(h, ends, o, q);
    var j := SameHome(h, ends, segs, q);
    SegmentsMeet(segs, h, ends, i, j, q);
  }

  /** Such a segment has two chunks: the free one, and the one with the segment's record. */
  lemma {:induction false} OnlyTwo(h: Heap, ends: set<int>, segs: seq<Segment>, o: Owners, i: nat)
    requires Safe(h, ends, segs, o) && 0 < i < |segs| && Unused(h, segs[i])
    ensures var p := segs[i].base;
            && Chunk(h, ends, p) && OwnerOk(h, ends, o, p) && (p in o.binned || IsDv(o, p))
            && p + h[p].size in o.records && p + h[p].size in h && OwnerOk(h, ends, o, p + h[p].size)
            && Within(segs[i], p + h[p].size)
    ensures forall q :: Chunk(h, ends, q) && Within(segs[i], q) ==>
            q == segs[i].base || q == segs[i].base + h[segs[i].base].size
  {
    hide Layout, Owned;
    var p, e := segs[i].base, segs[i].base + segs[i].size;
    UnusedStart(h, ends, segs, o, i);
    ChunkIn(h, ends, segs, o, i, p);
    var q := p + h[p].size;
    ChunkIn(h, ends, segs, o, i, q);
    if q !in o.records {
      var r := q + h[q].size;
      ChunkIn(h, ends, segs, o, i, r);
      if r !in o.records { ChunkIn(h, ends, segs, o, i, r + h[r].size); }
    }
    forall x | Chunk(h, ends, x) && Within(segs[i], x) ensures x == p || x == q {
      ChunkIn(h, ends, segs, o, i, x);
      Apart(h, ends, segs, p, x);
      Apart(h, ends, segs, q, x);
    }
  }

  lemma {:induction false} Apart(h: Heap, ends: set<int>, segs: seq<Segment>, p: int, q: int)
    requires Layout(h, ends, segs) && p in h && q in h
    ensures p < q ==> p + h[p].size <= q
  {
    assert p < q ==> Clear(h, p, q);
  }

  lemma {:induction false} UnusedStart(h: Heap, ends: set<int>, segs: seq<Segment>, o: Owners, i: nat)
    requires Safe(h, ends, segs, o) && 0 < i < |segs|
    ensures Chunk(h, ends, segs[i].base) && Within(segs[i], segs[i].base)
  {
    assert SegmentOk(h, ends, segs[i]);
  }

  /** The owners after an unused segment went, with free chunk `p` and record `r`. */
  ghost function Dropped(o: Owners, p: int, r: int): Owners {
    o.(binned := o.binned - {p}, records := o.records - {r},
       dv := if IsDv(o, p) then 0 else o.dv, dvsize := if IsDv(o, p) then 0 else o.dvsize)
  }

  /** Giving back an unused segment keeps the heap safe and touches no block. */
  lemma {:induction false} DropSafe(h: Heap, ends: set<int>, segs: seq<Segment>, o: Owners, i: nat)
    requires Safe(h, ends, segs, o) && 0 < i < |segs| && Unused(h, segs[i])
    ensures var p := segs[i].base;
            Safe(DropMem(h, segs[i]), DropEnds(ends, segs[i]), DropAt(segs, i), Dropped(o, p, p + h[p].size))
    ensures Kept(h, DropMem(h, segs[i]), o.live)
  {
    var p := segs[i].base;
    var r := p + h[p].size;
    var h', ends', segs', o' := DropMem(h, segs[i]), DropEnds(ends, segs[i]), DropAt(segs, i), Dropped(o, p, r);
    OnlyTwo(h, ends, segs, o, i);
    DropKeeps(h, ends, segs, i);
    forall q | q in h' && q !in ends' ensures OwnerOk(h', ends', o', q) {
      assert OwnerOk(h, ends, o, q);
      NeighboursStay(h, ends, segs, i, q);
    }
    forall q | HasRole(o', q) ensures Chunk(h', ends', q) {
      assert HasRole(o, q);
      assert Chunk(h, ends, q);
    }
    forall q | q in o.live ensures Stays(h, h', q) {
      assert HasRole(o, q);
      assert OwnerOk(h, ends, o, q);
    }
    if o.topsize > 0 { DropTop(h, ends, segs, o, i); }
  }

  lemma {:induction false} DropTop(h: Heap, ends: set<int>, segs: seq<Segment>, o: Owners, i: nat)
    requires Safe(h, ends, segs, o) && 0 < i < |segs| && o.topsize > 0
    ensures TopOf(DropMem(h, segs[i]), DropEnds(ends, segs[i]), DropAt(segs, i), o.top)
  {
    assert HasRole(o, o.top);
    assert OwnerOk(h, ends, o, o.top) && ChunkOk(h, ends, o.top);
    assert Separate(segs[0], segs[i]);
  }

  // ---- The list of segments ------------------------------------------------------------------------------

  /** Segments come in whole units. */
  ghost predicate Grained(segs: seq<Segment>) {
    forall i {:trigger segs[i]} :: 0 <= i < |segs| ==> segs[i].size % GRANULARITY == 0
  }

  /** The records behind the first one in the list of segments are in chunks of the segments that they describe. */
  ghost predicate Linked(links: seq<int>, segs: seq<Segment>, records: set<int>) {
    && |links| == (if |segs| == 0 then 0 else |segs| - 1)
    && forall k {:trigger links[k]} :: 0 <= k < |links| ==>
         Within(segs[k + 1], links[k]) && links[k] - TWO_SIZE_T_SIZES in records
  }

  ghost predicate Listed(links: seq<int>, segs: seq<Segment>, records: set<int>) {
    Grained(segs) && Linked(links, segs, records)
  }

  /** `has_segment_link` fails for the first segment: it can always be cut. */
  lemma {:induction false} NoLinkInTop(h: Heap, ends: set<int>, segs: seq<Segment>, o: Owners, links: seq<int>)
    requires Safe(h, ends, segs, o) && Listed(links, segs, o.records) && |segs| > 0
    ensures forall k :: 0 <= k < |links| ==> !Within(segs[0], links[k])
  {
    forall k | 0 <= k < |links| ensures !Within(segs[0], links[k]) { assert Separate(segs[0], segs[k + 1]); }
  }

  lemma {:induction false} Grains(a: int, b: int)
    requires a % GRANULARITY == 0 && b % GRANULARITY == 0
    ensures (a + b) % GRANULARITY == 0 && (a - b) % GRANULARITY == 0 && a % CHUNK_ALIGN == 0
  {
    GrainAligned(a);
  }

  lemma {:induction false} GrainAligned(a: int)
    requires a % GRANULARITY == 0
    ensures a % CHUNK_ALIGN == 0
  {
    assert a == CHUNK_ALIGN * (a / GRANULARITY * 0x1000);
  }

  lemma {:induction false} ListedFirst(s: Segment, records: set<int>)
    requires s.size % GRANULARITY == 0
    ensures Listed([], [s], records)
  {}

  lemma {:induction false} NoLinks(links: seq<int>, segs: seq<Segment>, records: set<int>)
    requires Listed(links, segs, records)
    ensures |segs| == 0 ==> links == []
  {}

  lemma {:induction false} ListedUp(links: seq<int>, segs: seq<Segment>, records: set<int>, tsize: int)
    requires Listed(links, segs, records) && |segs| > 0 && tsize % GRANULARITY == 0
    ensures Listed(links, segs[0 := Segment(segs[0].base, segs[0].size + tsize)], records)
  {
    Grains(segs[0].size, tsize);
  }

  /** What `sys_trim` relies on about the end of `top`. */
  lemma {:induction false} ListedCut(h: Heap, ends: set<int>, segs: seq<Segment>, o: Owners, links: seq<int>,
                                     extra: nat)
    requires Safe(h, ends, segs, o) && Listed(links, segs, o.records) && extra < o.topsize && extra % GRANULARITY == 0
    ensures |segs| > 0 && extra < segs[0].size && extra % CHUNK_ALIGN == 0
    ensures Listed(links, segs[0 := Segment(segs[0].base, segs[0].size - extra)], o.records)
  {
    assert HasRole(o, o.top);
    assert OwnerOk(h, ends, o, o.top);
    Grains(segs[0].size, extra);
    GrainAligned(extra);
  }

  lemma {:induction false} ListedDown(links: seq<int>, segs: seq<Segment>, records: set<int>, i: nat, tbase: int,
                                      tsize: nat)
    requires Listed(links, segs, records) && i < |segs| && tsize % GRANULARITY == 0 && segs[i].base == tbase + tsize
    ensures Listed(links, segs[i := Segment(tbase, segs[i].size + tsize)], records)
  {
    Grains(segs[i].size, tsize);
  }

  lemma {:induction false} ListedNew(links: seq<int>, segs: seq<Segment>, records: set<int>, s: Segment, r: int)
    requires Listed(links, segs, records) && |segs| > 0 && s.size % GRANULARITY == 0
    requires Within(segs[0], r + TWO_SIZE_T_SIZES)
    ensures Listed([r + TWO_SIZE_T_SIZES] + links, [s] + segs, records + {r})
  {
    var links', segs' := [r + TWO_SIZE_T_SIZES] + links, [s] + segs;
    forall k | 0 <= k < |links'|
      ensures Within(segs'[k + 1], links'[k]) && links'[k] - TWO_SIZE_T_SIZES in records + {r}
    {
      if k > 0 { assert links'[k] == links[k - 1] && segs'[k + 1] == segs[k]; }
    }
    forall j | 0 <= j < |segs'| ensures segs'[j].size % GRANULARITY == 0 {
      if j > 0 { assert segs'[j] == segs[j - 1]; }
    }
  }

  /** The record of the segment that is about to be closed is in this segment. */
  lemma {:induction false} RecordInTop(h: Heap, ends: set<int>, segs: seq<Segment>, o: Owners)
    requires Safe(h, ends, segs, o) && o.topsize > 0
    ensures Within(segs[0], RecordAt(o.top, o.topsize) + TWO_SIZE_T_SIZES)
  {
    assert HasRole(o, o.top);
    assert OwnerOk(h, ends, o, o.top) && ChunkOk(h, ends, o.top);
  }

  lemma {:induction false} ListedDrop(h: Heap, ends: set<int>, segs: seq<Segment>, o: Owners, links: seq<int>, i: nat,
                                      r: int)
    requires Safe(h, ends, segs, o) && Listed(links, segs, o.records) && 0 < i < |segs|
    requires Within(segs[i], r + TWO_SIZE_T_SIZES)
    ensures |links| == |segs| - 1 && Listed(DropAt(links, i - 1), DropAt(segs, i), o.records - {r})
  {
    var records := o.records;
    var links', segs' := DropAt(links, i - 1), DropAt(segs, i);
    forall k | 0 <= k < |links'|
      ensures Within(segs'[k + 1], links'[k]) && links'[k] - TWO_SIZE_T_SIZES in records - {r}
    {
      var j := if k < i - 1 then k else k + 1;
      assert links'[k] == links[j] && segs'[k + 1] == segs[j + 1];
      if links[j] == r + TWO_SIZE_T_SIZES { SegmentsMeet(segs, h, ends, i, j + 1, links[j]); }
    }
    forall j | 0 <= j < |segs'| ensures segs'[j].size % GRANULARITY == 0 {
      assert segs'[j] == segs[if j < i then j else j + 1];
    }
  }

  /** What `release_unused_segments` relies on: the free chunk is `dv` or in a tree, and the record is the segment's
      own. */
  lemma {:induction false} UnusedFacts(h: Heap, ends: set<int>, segs: seq<Segment>, o: Owners, links: seq<int>, i: nat)
    requires Safe(h, ends, segs, o) && Listed(links, segs, o.records) && 0 < i < |segs| && Unused(h, segs[i])
    ensures var p := segs[i].base;
            && p in h && h[p].size >= GRANULARITY - TOP_FOOT_SIZE && p > 0 && segs[i].size > 0
            && (IsDv(o, p) <==> p !in o.binned) && (p in o.binned ==> o.binned[p] == h[p].size)
            && Within(segs[i], p + h[p].size + TWO_SIZE_T_SIZES)
  {
    hide Layout, Owned;
    OnlyTwo(h, ends, segs, o, i);
    ChunkIn(h, ends, segs, o, i, segs[i].base + h[segs[i].base].size);
    SegmentSize(h, ends, segs, i);
  }

  lemma {:induction false} SegmentSize(h: Heap, ends: set<int>, segs: seq<Segment>, i: nat)
    requires Layout(h, ends, segs) && Grained(segs) && i < |segs|
    ensures segs[i].size >= GRANULARITY && segs[i].base > 0
  {
    assert SegmentOk(h, ends, segs[i]);
  }

  // ---- What the system gets back -------------------------------------------------------------------------

  /** The bytes of all segments. */
  function Bytes(segs: seq<Segment>): int {
    if |segs| == 0 then 0 else Bytes(segs[..|segs| - 1]) + segs[|segs| - 1].size
  }

  lemma {:induction false} BytesSet(segs: seq<Segment>, i: nat, s: Segment)
    requires i < |segs|
    ensures Bytes(segs[i := s]) == Bytes(segs) - segs[i].size + s.size
  {
    var n := |segs| - 1;
    if i < n {
      BytesSet(segs[..n], i, s);
      assert segs[i := s][..n] == segs[..n][i := s];
    } else {
      assert segs[i := s][..n] == segs[..n];
    }
  }

  lemma {:induction false} BytesDrop(segs: seq<Segment>, i: nat)
    requires i < |segs|
    ensures Bytes(DropAt(segs, i)) == Bytes(segs) - segs[i].size
  {
    var n := |segs| - 1;
    if i < n {
      BytesDrop(segs[..n], i);
      assert DropAt(segs, i)[..n - 1] == DropAt(segs[..n], i);
    } else {
      assert DropAt(segs, i) == segs[..n];
    }
  }

  /** Segment `t` is part of one of `segs`. */
  ghost predicate PartOfOne(segs: seq<Segment>, t: Segment) {
    exists i {:trigger segs[i]} :: 0 <= i < |segs| && Holds(segs[i], t.base, t.base + t.size)
  }

  /** Nothing was added to the segments. */
  ghost predicate Inside(segs: seq<Segment>, segs': seq<Segment>) {
    forall j {:trigger segs'[j]} :: 0 <= j < |segs'| ==> PartOfOne(segs, segs'[j])
  }

  lemma {:induction false} InsideSelf(segs: seq<Segment>)
    ensures Inside(segs, segs)
  {
    forall j | 0 <= j < |segs| ensures PartOfOne(segs, segs[j]) {
      assert Holds(segs[j], segs[j].base, segs[j].base + segs[j].size);
    }
  }

  lemma {:induction false} InsideCut(segs: seq<Segment>, extra: nat)
    requires |segs| > 0
    ensures Inside(segs, segs[0 := Segment(segs[0].base, segs[0].size - extra)])
  {
    var segs' := segs[0 := Segment(segs[0].base, segs[0].size - extra)];
    forall j | 0 <= j < |segs'| ensures PartOfOne(segs, segs'[j]) {
      assert Holds(segs[j], segs'[j].base, segs'[j].base + segs'[j].size);
    }
  }

  lemma {:induction false} InsideDrop(segs: seq<Segment>, i: nat)
    requires i < |segs|
    ensures Inside(segs, DropAt(segs, i))
  {
    forall j | 0 <= j < |segs| - 1 ensures PartOfOne(segs, DropAt(segs, i)[j]) {
      var k := if j < i then j else j + 1;
      assert DropAt(segs, i)[j] == segs[k];
      assert Holds(segs[k], segs[k].base, segs[k].base + segs[k].size);
    }
  }

  lemma {:induction false} PagedCut(mapped: Heap, segs: seq<Segment>, extra: nat)
    requires |segs| > 0
    ensures Paged(segs, mapped) ==> Paged(segs[0 := Segment(segs[0].base, segs[0].size - extra)], mapped)
  {}

  lemma {:induction false} PagedDrop(mapped: Heap, segs: seq<Segment>, i: nat)
    requires i < |segs|
    ensures Paged(segs, mapped) ==> Paged(DropAt(segs, i), mapped)
  {
    forall j | 0 <= j < |segs| - 1 && Paged(segs, mapped) ensures DropAt(segs, i)[j].base % PageIndex.PAGE == 0 {
      assert DropAt(segs, i)[j] == segs[if j < i then j else j + 1];
    }
  }

  /** Directly mapped chunks and the least address, with less memory in the segments. */
  lemma {:induction false} LessHeld(least: int, mapped: Heap, segs: seq<Segment>, segs': seq<Segment>)
    requires MapsOk(mapped, segs) && LeastOk(least, mapped, segs) && Inside(segs, segs')
    ensures MapsOk(mapped, segs') && LeastOk(least, mapped, segs')
  {
    forall p | p in mapped ensures MapOk(mapped, segs', p) {
      assert MapOk(mapped, segs, p);
      var r := MapRegion(mapped, p);
      forall j | 0 <= j < |segs'| ensures Separate(segs'[j], r) {
        assert PartOfOne(segs, segs'[j]);
        var i :| 0 <= i < |segs| && Holds(segs[i], segs'[j].base, segs'[j].base + segs'[j].size);
        assert Separate(segs[i], r);
      }
    }
    forall p, q | p in mapped && q in mapped && p != q ensures MapsApart(mapped, p, q) {}
    forall j | 0 <= j < |segs'| ensures least <= segs'[j].base {
      assert PartOfOne(segs, segs'[j]);
    }
    if |segs'| > 0 { assert PartOfOne(segs, segs'[0]); }
  }

  /** Memory of `released` bytes left the segments, and no block with it. */
  ghost predicate GaveBack(h: Heap, segs: seq<Segment>, h': Heap, segs': seq<Segment>, live: set<int>, released: int) {
    Kept(h, h', live) && Inside(segs, segs') && Bytes(segs') + released == Bytes(segs)
  }

  lemma {:induction false} GaveNothing(h: Heap, ends: set<int>, segs: seq<Segment>, o: Owners)
    requires Safe(h, ends, segs, o)
    ensures GaveBack(h, segs, h, segs, o.live, 0)
  {
    InsideSelf(segs);
    forall p | p in o.live ensures Stays(h, h, p) {
      assert HasRole(o, p);
      assert OwnerOk(h, ends, o, p);
    }
  }

  lemma {:induction false} GaveMore(h: Heap, segs: seq<Segment>, h1: Heap, segs1: seq<Segment>, h2: Heap,
                                    segs2: seq<Segment>, live: set<int>, a: int, b: int)
    requires GaveBack(h, segs, h1, segs1, live, a) && GaveBack(h1, segs1, h2, segs2, live, b)
    ensures GaveBack(h, segs, h2, segs2, live, a + b)
  {
    KeptTrans(h, h1, h2, live, live);
    forall j | 0 <= j < |segs2| ensures PartOfOne(segs, segs2[j]) {
      assert PartOfOne(segs1, segs2[j]);
      var k :| 0 <= k < |segs1| && Holds(segs1[k], segs2[j].base, segs2[j].base + segs2[j].size);
      assert PartOfOne(segs, segs1[k]);
      var i :| 0 <= i < |segs| && Holds(segs[i], segs1[k].base, segs1[k].base + segs1[k].size);
      assert Holds(segs[i], segs2[j].base, segs2[j].base + segs2[j].size);
    }
  }

  /** The other segments are as unused as before. */
  lemma {:induction false} OthersAsBefore(h: Heap, ends: set<int>, segs: seq<Segment>, o: Owners, i: nat, j: nat)
    requires Safe(h, ends, segs, o) && i < |segs| && j < |segs| && j != i
    ensures Unused(DropMem(h, segs[i]), segs[j]) <==> Unused(h, segs[j])
  {
    assert SegmentOk(h, ends, segs[j]);
    assert i < j ==> Separate(segs[i], segs[j]);
    assert j < i ==> Separate(segs[j], segs[i]);
  }

  /** What holds of the whole allocator after unused segment `i` went. */
  lemma {:induction false} DropAll(h: Heap, ends: set<int>, segs: seq<Segment>, o: Owners, links: seq<int>,
                                   mapped: Heap, least: int, i: nat)
    requires Safe(h, ends, segs, o) && Listed(links, segs, o.records) && MapsOk(mapped, segs)
    requires LeastOk(least, mapped, segs)
    requires 0 < i < |segs| && Unused(h, segs[i])
    ensures segs[i].base in h
    ensures var p, segs' := segs[i].base, DropAt(segs, i);
            && Safe(DropMem(h, segs[i]), DropEnds(ends, segs[i]), segs', Dropped(o, p, p + h[p].size))
            && |links| == |segs| - 1 && Listed(DropAt(links, i - 1), segs', o.records - {p + h[p].size})
            && MapsOk(mapped, segs') && LeastOk(least, mapped, segs')
            && GaveBack(h, segs, DropMem(h, segs[i]), segs', o.live, segs[i].size)
  {
    hide Safe, Listed, MapsOk, LeastOk, Kept, Inside, Bytes, Unused, DropMem, DropEnds;
    UnusedFacts(h, ends, segs, o, links, i);
    DropSafe(h, ends, segs, o, i);
    ListedDrop(h, ends, segs, o, links, i, segs[i].base + h[segs[i].base].size);
    InsideDrop(segs, i);
    BytesDrop(segs, i);
    LessHeld(least, mapped, segs, DropAt(segs, i));
  }

  /** And after the end of `top` went. */
  lemma {:induction false} CutAll(h: Heap, ends: set<int>, segs: seq<Segment>, o: Owners, links: seq<int>, mapped: Heap,
                                  least: int, extra: nat)
    requires Safe(h, ends, segs, o) && Listed(links, segs, o.records) && MapsOk(mapped, segs)
    requires LeastOk(least, mapped, segs)
    requires 0 < extra < o.topsize && extra % GRANULARITY == 0
    ensures |segs| > 0 && extra < segs[0].size && o.top in h && h[o.top].size == o.topsize
    ensures var e, segs' := o.top + o.topsize, segs[0 := Segment(segs[0].base, segs[0].size - extra)];
            && Safe(CutTopMem(h, o.top, extra), ends - {e} + {e - extra}, segs', o.(topsize := o.topsize - extra))
            && Listed(links, segs', o.records) && MapsOk(mapped, segs') && LeastOk(least, mapped, segs')
            && GaveBack(h, segs, CutTopMem(h, o.top, extra), segs', o.live, extra)
  {
    hide Safe, Listed, MapsOk, LeastOk, Kept, Inside, Bytes, CutTopMem;
    ListedCut(h, ends, segs, o, links, extra);
    CutTopSafe(h, ends, segs, o, extra);
    InsideCut(segs, extra);
    BytesSet(segs, 0, Segment(segs[0].base, segs[0].size - extra));
    LessHeld(least, mapped, segs, segs[0 := Segment(segs[0].base, segs[0].size - extra)]);
  }
}
