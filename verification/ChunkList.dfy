/** The chunk list of the kernel heap (`kernel/k_memory.c`): chunks in list order tile the heap, and
    splitting and merging keep it tiled. */
module ChunkList {
  /** `sizeof(kheap_chunk_t)`. */
  const HEADER: int := 32
  const GRAIN: int := 32

  const MAGIC_FREE: int := 0xDEADBEEFDEADBEEF
  const MAGIC_ALLOCATED: int := 0xDEADBABADEADBABA
  const MAGIC_ALIGNED: int := 0xBEEFBABADEADDEAD

  /** A chunk header; `size` does not count the header itself. */
  datatype Chunk = Chunk(addr: int, size: int, magic: int)

  function End(c: Chunk): int {
    c.addr + HEADER + c.size
  }

  predicate IsFree(c: Chunk) {
    c.magic == MAGIC_FREE
  }

  ghost predicate ChunkOk(c: Chunk) {
    && c.addr > 0 && c.addr % GRAIN == 0 && c.size >= 0 && c.size % GRAIN == 0
    && (c.magic == MAGIC_FREE || c.magic == MAGIC_ALLOCATED)
  }

  /** Chunk `i` ends where the next one starts. */
  ghost predicate LinkOk(s: seq<Chunk>, i: int)
    requires 0 <= i < |s| - 1
  {
    End(s[i]) == s[i + 1].addr
  }

  /** The list tiles `[base, limit)`. */
  ghost predicate Tiled(s: seq<Chunk>, base: int, limit: int) {
    && |s| > 0 && s[0].addr == base && End(s[|s| - 1]) == limit
    && (forall i {:trigger ChunkOk(s[i])} :: 0 <= i < |s| ==> ChunkOk(s[i]))
    && (forall i {:trigger LinkOk(s, i)} :: 0 <= i < |s| - 1 ==> LinkOk(s, i))
  }

  /** Two free neighbours only where one expansion of the heap meets the next. */
  ghost predicate SeamOk(s: seq<Chunk>, seams: set<int>, i: int)
    requires 0 <= i < |s| - 1
  {
    IsFree(s[i]) && IsFree(s[i + 1]) ==> s[i + 1].addr in seams
  }

  ghost predicate Merged(s: seq<Chunk>, seams: set<int>) {
    forall i {:trigger SeamOk(s, seams, i)} :: 0 <= i < |s| - 1 ==> SeamOk(s, seams, i)
  }

  // ---- Consequences ------------------------------------------------------------------------------------

  /** The list is in address order. */
  lemma {:induction false} Ordered(s: seq<Chunk>, base: int, limit: int, i: nat, j: nat)
    requires Tiled(s, base, limit) && i < j < |s|
    ensures End(s[i]) <= s[j].addr
    decreases j - i
  {
    assert LinkOk(s, j - 1) && ChunkOk(s[j - 1]);
    if i < j - 1 { Ordered(s, base, limit, i, j - 1); }
  }

  lemma {:induction false} Within(s: seq<Chunk>, base: int, limit: int, i: nat)
    requires Tiled(s, base, limit) && i < |s|
    ensures base <= s[i].addr && End(s[i]) <= limit && ChunkOk(s[i])
  {
    assert ChunkOk(s[i]) && ChunkOk(s[0]) && ChunkOk(s[|s| - 1]);
    if i > 0 { Ordered(s, base, limit, 0, i); }
    if i < |s| - 1 { Ordered(s, base, limit, i, |s| - 1); }
  }

  lemma {:induction false} SameAddr(s: seq<Chunk>, base: int, limit: int, i: nat, j: nat)
    requires Tiled(s, base, limit) && i < |s| && j < |s| && s[i].addr == s[j].addr
    ensures i == j
  {
    assert ChunkOk(s[i]) && ChunkOk(s[j]);
    if i < j { Ordered(s, base, limit, i, j); }
    if j < i { Ordered(s, base, limit, j, i); }
  }

  /** All bytes, headers included. */
  ghost function Total(s: seq<Chunk>): int {
    if s == [] then 0 else Total(s[..|s| - 1]) + HEADER + s[|s| - 1].size
  }

  /** Nothing is lost: headers and chunks add up to the heap. */
  lemma {:induction false} Conserved(s: seq<Chunk>, base: int, limit: int)
    requires Tiled(s, base, limit)
    ensures Total(s) == limit - base
  {
    var t := s[..|s| - 1];
    if |s| > 1 {
      assert LinkOk(s, |s| - 2);
      forall i | 0 <= i < |t| ensures ChunkOk(t[i]) { assert ChunkOk(s[i]); }
      forall i | 0 <= i < |t| - 1 ensures LinkOk(t, i) { assert LinkOk(s, i); }
      Conserved(t, base, s[|s| - 1].addr);
    }
  }

  // ---- Split ------------------------------------------------------------------------------------------------

  /** Chunk `i` cut after `size` bytes; the rest is a free chunk behind it. */
  function Split(s: seq<Chunk>, i: int, size: int): seq<Chunk>
    requires 0 <= i < |s|
  {
    s[..i] + [s[i].(size := size), Chunk(s[i].addr + HEADER + size, s[i].size - size - HEADER, MAGIC_FREE)] + s[i + 1..]
  }

  lemma {:induction false} SplitAt(s: seq<Chunk>, i: int, size: int, j: int)
    requires 0 <= i < |s| && 0 <= j <= |s|
    ensures |Split(s, i, size)| == |s| + 1
    ensures Split(s, i, size)[j] ==
            if j < i then s[j] else if j == i then s[i].(size := size)
            else if j == i + 1 then Chunk(s[i].addr + HEADER + size, s[i].size - size - HEADER, MAGIC_FREE)
            else s[j - 1]
  {}

  lemma {:induction false} SplitTiled(s: seq<Chunk>, base: int, limit: int, seams: set<int>, i: int, size: int)
    requires Tiled(s, base, limit) && Merged(s, seams) && 0 <= i < |s| && IsFree(s[i])
    requires size >= 0 && size % GRAIN == 0 && s[i].size - size >= HEADER
    ensures Tiled(Split(s, i, size), base, limit)
    ensures Merged(Use(Split(s, i, size), i), seams)
  {
    hide Split;
    var t := Split(s, i, size);
    assert ChunkOk(s[i]);
    SplitAt(s, i, size, 0);
    SplitAt(s, i, size, |s|);
    forall j | 0 <= j < |t| ensures ChunkOk(t[j]) {
      SplitAt(s, i, size, j);
      assert j < i ==> ChunkOk(s[j]);
      assert j > i + 1 ==> ChunkOk(s[j - 1]);
    }
    forall j | 0 <= j < |t| - 1 ensures LinkOk(t, j) {
      SplitAt(s, i, size, j);
      SplitAt(s, i, size, j + 1);
      assert j < i ==> LinkOk(s, j);
      assert j > i ==> LinkOk(s, j - 1);
    }
    var u := Use(t, i);
    forall j | 0 <= j < |u| - 1 ensures SeamOk(u, seams, j) {
      SplitAt(s, i, size, j);
      SplitAt(s, i, size, j + 1);
      assert j < i ==> SeamOk(s, seams, j);
      assert j > i ==> SeamOk(s, seams, j - 1);
    }
  }

  /** Chunk `i` goes into use. */
  function Use(s: seq<Chunk>, i: int): seq<Chunk>
    requires 0 <= i < |s|
  {
    s[i := s[i].(magic := MAGIC_ALLOCATED)]
  }

  lemma {:induction false} UseTiled(s: seq<Chunk>, base: int, limit: int, seams: set<int>, i: int)
    requires Tiled(s, base, limit) && 0 <= i < |s|
    ensures Tiled(Use(s, i), base, limit)
    ensures Merged(s, seams) ==> Merged(Use(s, i), seams)
  {
    var u := Use(s, i);
    forall j | 0 <= j < |u| ensures ChunkOk(u[j]) { assert ChunkOk(s[j]); }
    forall j | 0 <= j < |u| - 1 ensures LinkOk(u, j) { assert LinkOk(s, j); }
    if Merged(s, seams) {
      forall j | 0 <= j < |u| - 1 ensures SeamOk(u, seams, j) { assert SeamOk(s, seams, j); }
    }
  }

  /** Chunk `i` is marked free. */
  function Unuse(s: seq<Chunk>, i: int): seq<Chunk>
    requires 0 <= i < |s|
  {
    s[i := s[i].(magic := MAGIC_FREE)]
  }

  // ---- Merge ------------------------------------------------------------------------------------------------

  /** `kheap_merge_chunk_into_prev` on chunk `i + 1`. */
  function Join(s: seq<Chunk>, i: int): seq<Chunk>
    requires 0 <= i < |s| - 1
  {
    s[..i] + [s[i].(size := s[i].size + s[i + 1].size + HEADER)] + s[i + 2..]
  }

  lemma {:induction false} JoinAt(s: seq<Chunk>, i: int, j: int)
    requires 0 <= i < |s| - 1 && 0 <= j < |s| - 1
    ensures |Join(s, i)| == |s| - 1
    ensures Join(s, i)[j] ==
            if j < i then s[j] else if j == i then s[i].(size := s[i].size + s[i + 1].size + HEADER) else s[j + 1]
  {}

  lemma {:induction false} JoinedOk(c: Chunk, d: Chunk)
    requires ChunkOk(c) && ChunkOk(d)
    ensures ChunkOk(c.(size := c.size + d.size + HEADER))
  {}

  lemma {:induction false} JoinTiled(s: seq<Chunk>, base: int, limit: int, i: int)
    requires Tiled(s, base, limit) && 0 <= i < |s| - 1
    ensures Tiled(Join(s, i), base, limit)
  {
    hide Join, ChunkOk;
    var t := Join(s, i);
    assert LinkOk(s, i) && ChunkOk(s[i]) && ChunkOk(s[i + 1]);
    JoinedOk(s[i], s[i + 1]);
    JoinAt(s, i, 0);
    JoinAt(s, i, |s| - 2);
    forall j | 0 <= j < |t| ensures ChunkOk(t[j]) {
      JoinAt(s, i, j);
      assert j < i ==> ChunkOk(s[j]);
      assert j > i ==> ChunkOk(s[j + 1]);
    }
    forall j | 0 <= j < |t| - 1 ensures LinkOk(t, j) {
      JoinAt(s, i, j);
      JoinAt(s, i, j + 1);
      assert j < i ==> LinkOk(s, j);
      assert j >= i ==> LinkOk(s, j + 1);
    }
  }

  lemma {:induction false} UnuseTiled(s: seq<Chunk>, base: int, limit: int, i: int)
    requires Tiled(s, base, limit) && 0 <= i < |s|
    ensures Tiled(Unuse(s, i), base, limit)
  {
    var u := Unuse(s, i);
    forall j | 0 <= j < |u| ensures ChunkOk(u[j]) { assert ChunkOk(s[j]); }
    forall j | 0 <= j < |u| - 1 ensures LinkOk(u, j) { assert LinkOk(s, j); }
  }

  /** Neighbours may both be free at place `i` only. */
  ghost predicate MergedBut(s: seq<Chunk>, seams: set<int>, x: set<int>) {
    forall i {:trigger SeamOk(s, seams, i)} :: 0 <= i < |s| - 1 && i !in x ==> SeamOk(s, seams, i)
  }

  lemma {:induction false} UnuseMerged(s: seq<Chunk>, seams: set<int>, i: int)
    requires Merged(s, seams) && 0 <= i < |s|
    ensures MergedBut(Unuse(s, i), seams, {i - 1, i})
  {
    var u := Unuse(s, i);
    forall j | 0 <= j < |u| - 1 && j !in {i - 1, i} ensures SeamOk(u, seams, j) { assert SeamOk(s, seams, j); }
  }

  /** Merging the chunks at `i` and `i + 1`, both free. */
  lemma {:induction false} JoinMerged(s: seq<Chunk>, seams: set<int>, i: int, x: set<int>, x': set<int>)
    requires 0 <= i < |s| - 1 && MergedBut(s, seams, x) && IsFree(s[i]) && IsFree(s[i + 1])
    requires forall j :: j in x ==> (j < i ==> j in x') && (j > i ==> j - 1 in x')
    ensures MergedBut(Join(s, i), seams, x')
  {
    hide Join;
    var t := Join(s, i);
    JoinAt(s, i, 0);
    forall j | 0 <= j < |t| - 1 && j !in x' ensures SeamOk(t, seams, j) {
      JoinAt(s, i, j);
      JoinAt(s, i, j + 1);
      assert j < i && j !in x ==> SeamOk(s, seams, j);
      assert j >= i && j + 1 !in x ==> SeamOk(s, seams, j + 1);
    }
  }

  // ---- Growth ------------------------------------------------------------------------------------------------

  lemma {:induction false} GrowTiled(s: seq<Chunk>, base: int, limit: int, seams: set<int>, size: int)
    requires Tiled(s, base, limit) && Merged(s, seams) && size >= 0 && size % GRAIN == 0
    ensures limit > 0 && limit % GRAIN == 0
    ensures Tiled(s + [Chunk(limit, size, MAGIC_FREE)], base, limit + HEADER + size)
    ensures Merged(s + [Chunk(limit, size, MAGIC_FREE)], seams + {limit})
  {
    assert ChunkOk(s[|s| - 1]);
    var t, seams' := s + [Chunk(limit, size, MAGIC_FREE)], seams + {limit};
    forall j | 0 <= j < |t| ensures ChunkOk(t[j]) { assert j < |s| ==> ChunkOk(s[j]); }
    forall j | 0 <= j < |t| - 1 ensures LinkOk(t, j) && SeamOk(t, seams', j) {
      assert j < |s| - 1 ==> LinkOk(s, j) && SeamOk(s, seams, j);
    }
  }
}
