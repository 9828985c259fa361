/** The kernel heap of `kernel/k_memory.c`: first fit over the chunk list, growth at its end, aligned
    blocks with a small header of their own, and merging on free. */
module KernelHeap {
  import opened Words
  import opened PageIndex
  import opened KernelRange
  import opened ChunkList

  const CHUNK_MIN_SIZE: int := 32
  /** `sizeof(kheap_aligned_header_t)`. */
  const ALIGNED_HEADER: int := 16

  /** A block handed out: the pointer and the size of its chunk. */
  datatype Block = Block(ptr: int, size: int)

  /** What a request comes to. `Lost` is a search for new memory that goes astray, `Outside` an aligned header that
      would be stored outside the block. */
  datatype Outcome = Given(ptr: int) | NoMemory | Lost | Outside

  // ---- Sizes ---------------------------------------------------------------------------------------------

  /** `ALIGNUP(size, 32)` on a 64-bit word. */
  function RoundUp(size: nat): nat {
    (size + 31) % WORD / 32 * 32
  }

  /** A rounded size has room for the request exactly if the addition does not wrap. */
  lemma {:induction false} RoundUpFits(size: nat)
    requires size < WORD
    ensures RoundUp(size) % 32 == 0
    ensures size <= RoundUp(size) <==> size <= WORD - 32
    ensures size <= WORD - 32 ==> RoundUp(size) < size + 32
  {}

  /** The largest requests are rounded to nothing. */
  lemma {:induction false} RoundUpWraps(size: nat)
    requires WORD - 32 < size < WORD
    ensures RoundUp(size) == 0
  {}

  /** `ALIGNUP(p, align)` for a power of two. */
  function AlignUp(p: int, align: nat): int
    requires align > 0
  {
    (p + align - 1) / align * align
  }

  lemma {:induction false} AlignUpFacts(p: nat, align: nat)
    requires align > 0
    ensures p <= AlignUp(p, align) < p + align
    ensures AlignUp(p, align) % align == 0
  {
    var q := (p + align - 1) / align;
    assert (p + align - 1) == q * align + (p + align - 1) % align;
    MultipleMod(q, align);
  }

  lemma {:induction false} MultipleMod(q: nat, a: nat)
    requires a > 0
    ensures q * a % a == 0
  {
    var r := q * a / a;
    assert r * a <= q * a < r * a + a;
    StepGap(r, q, a);
    StepGap(q, r, a);
  }

  lemma {:induction false} StepGap(d: nat, q: nat, a: nat)
    ensures d < q ==> d * a + a <= q * a
    decreases q
  {
    if d < q {
      assert q * a == (q - 1) * a + a;
      if d < q - 1 { StepGap(d, q - 1, a); }
    }
  }

  ghost predicate PowerOfTwo(a: nat) {
    exists k: nat :: a == Pow2(k)
  }

  /** Alignments of at least 32 are multiples of the heap's grain. */
  lemma {:induction false} PowerGrain(a: nat)
    requires PowerOfTwo(a) && a >= 32
    ensures a % 32 == 0
  {
    var k: nat :| a == Pow2(k);
    ExponentGrain(k);
  }

  lemma {:induction false} ExponentGrain(k: nat)
    ensures if k < 5 then Pow2(k) < 32 else Pow2(k) % 32 == 0
  {
    if k > 0 { ExponentGrain(k - 1); }
    if k == 5 { assert Pow2(4) == 2 * Pow2(3) && Pow2(3) == 2 * Pow2(2) && Pow2(2) == 2 * Pow2(1); }
  }

  lemma {:induction false} MultipleGrain(p: nat, a: nat)
    requires a > 0 && a % 32 == 0
    ensures AlignUp(p, a) % 32 == 0
  {
    var q, b := (p + a - 1) / a, a / 32;
    assert q * a == q * b * 32;
  }

  /** A power of two that fits a word is at most half of it. */
  lemma {:induction false} PowerAtMostHalf(a: nat)
    requires PowerOfTwo(a) && a < WORD
    ensures a <= HALF
  {
    var k: nat :| a == Pow2(k);
    Pow2Values();
    if k > 63 { Pow2Grows(64, k); } else { Pow2Grows(k, 63); }
  }

  lemma {:induction false} Pow2Grows(a: nat, b: nat)
    requires a <= b
    ensures Pow2(a) <= Pow2(b)
    decreases b
  {
    if a < b { Pow2Grows(a, b - 1); }
  }

  /** What is left of a chunk for a request: its front if the rest can be a chunk, else all of it. */
  function Served(size: int, want: nat): int {
    if size - want >= CHUNK_MIN_SIZE + HEADER then want else size
  }

  /** The chunk that an expansion for `want` bytes adds. */
  function Grown(limit: int, want: nat): Chunk {
    Chunk(limit, PagesOf(want + HEADER) * PAGE - HEADER, MAGIC_FREE)
  }

  /** `i` is the first free chunk of at least `want` bytes, or the end of the list. */
  ghost predicate FirstFitAt(s: seq<Chunk>, want: int, i: nat) {
    && i <= |s| && (i < |s| ==> IsFree(s[i]) && s[i].size >= want)
    && forall j :: 0 <= j < i ==> !(IsFree(s[j]) && s[j].size >= want)
  }

  /** What `kmem_alloc_aligned` asks `kmem_alloc` for, rounded. */
  function Asked(size: nat, align: nat): nat {
    RoundUp(if align < 32 then size else (size + align) % WORD)
  }

  /** Neither the sum of size and alignment nor its rounding wraps. */
  predicate NoWrap(size: nat, align: nat) {
    size + (if align < 32 then 0 else align) <= WORD - 32
  }

  /** The aligned pointer is not the block's own, and its header is not in the block. */
  predicate Strays(ptr: int, size: int, align: nat)
    requires align > 0
  {
    var ret := AlignUp(ptr, align) % WORD;
    ret != ptr && !(ptr <= ret <= ptr + size)
  }

  // ---- Blocks and chunks ---------------------------------------------------------------------------------------

  /** `ptr` is the chunk's payload, or lies in it behind a header that leads back to the payload. */
  ghost predicate PointerOk(words: map<int, int>, a: int, b: Block) {
    b.ptr == a + HEADER || AlignedOk(words, a, b)
  }

  ghost predicate AlignedOk(words: map<int, int>, a: int, b: Block) {
    && b.ptr % GRAIN == 0 && a + HEADER + GRAIN <= b.ptr <= a + HEADER + b.size
    && b.ptr - 16 in words && words[b.ptr - 16] == a + HEADER
    && b.ptr - 8 in words && words[b.ptr - 8] == MAGIC_ALIGNED
  }

  ghost predicate HeldAt(s: seq<Chunk>, holder: map<int, Block>, i: int)
    requires 0 <= i < |s|
  {
    s[i].magic == MAGIC_ALLOCATED ==> s[i].addr in holder && holder[s[i].addr].size == s[i].size
  }

  ghost predicate InList(s: seq<Chunk>, a: int, size: int) {
    exists i {:trigger s[i]} :: 0 <= i < |s| && s[i] == Chunk(a, size, MAGIC_ALLOCATED)
  }

  /** Blocks in use and allocated chunks are the same thing. */
  ghost predicate Held(s: seq<Chunk>, words: map<int, int>, holder: map<int, Block>) {
    && (forall i {:trigger HeldAt(s, holder, i)} :: 0 <= i < |s| ==> HeldAt(s, holder, i))
    && (forall a {:trigger a in holder} :: a in holder ==>
          InList(s, a, holder[a].size) && PointerOk(words, a, holder[a]))
  }

  lemma {:induction false} UseHeld(s: seq<Chunk>, base: int, limit: int, words: map<int, int>, holder: map<int, Block>,
                                   i: int)
    requires Tiled(s, base, limit) && Held(s, words, holder) && 0 <= i < |s| && IsFree(s[i])
    ensures s[i].addr !in holder
    ensures Held(Use(s, i), words, holder[s[i].addr := Block(s[i].addr + HEADER, s[i].size)])
  {
    var u, a := Use(s, i), s[i].addr;
    FreeNotHeld(s, base, limit, words, holder, i);
    var holder' := holder[a := Block(a + HEADER, s[i].size)];
    forall j | 0 <= j < |u| ensures HeldAt(u, holder', j) { assert HeldAt(s, holder, j); }
    forall b | b in holder' ensures InList(u, b, holder'[b].size) && PointerOk(words, b, holder'[b]) {
      if b == a {
        assert u[i] == Chunk(a, s[i].size, MAGIC_ALLOCATED);
      } else {
        var j :| 0 <= j < |s| && s[j] == Chunk(b, holder[b].size, MAGIC_ALLOCATED);
        assert u[j] == s[j];
      }
    }
  }

  lemma {:induction false} FreeNotHeld(s: seq<Chunk>, base: int, limit: int, words: map<int, int>,
                                       holder: map<int, Block>, i: int)
    requires Tiled(s, base, limit) && Held(s, words, holder) && 0 <= i < |s| && IsFree(s[i])
    ensures s[i].addr !in holder
  {
    if s[i].addr in holder {
      var j :| 0 <= j < |s| && s[j] == Chunk(s[i].addr, holder[s[i].addr].size, MAGIC_ALLOCATED);
      SameAddr(s, base, limit, i, j);
    }
  }

  lemma {:induction false} SplitHeld(s: seq<Chunk>, base: int, limit: int, words: map<int, int>,
                                     holder: map<int, Block>, i: int, size: int)
    requires Tiled(s, base, limit) && Held(s, words, holder) && 0 <= i < |s| && IsFree(s[i])
    ensures Held(Split(s, i, size), words, holder)
  {
    hide Split;
    var t := Split(s, i, size);
    SplitAt(s, i, size, 0);
    forall j | 0 <= j < |t| ensures HeldAt(t, holder, j) {
      SplitAt(s, i, size, j);
      assert j < i ==> HeldAt(s, holder, j);
      assert j > i + 1 ==> HeldAt(s, holder, j - 1);
    }
    forall b | b in holder ensures InList(t, b, holder[b].size) {
      var j :| 0 <= j < |s| && s[j] == Chunk(b, holder[b].size, MAGIC_ALLOCATED);
      assert j != i;
      SplitAt(s, i, size, if j < i then j else j + 1);
    }
  }

  lemma {:induction false} JoinHeld(s: seq<Chunk>, words: map<int, int>, holder: map<int, Block>, i: int)
    requires Held(s, words, holder) && 0 <= i < |s| - 1 && IsFree(s[i]) && IsFree(s[i + 1])
    ensures Held(Join(s, i), words, holder)
  {
    hide Join;
    var t := Join(s, i);
    JoinAt(s, i, 0);
    forall j | 0 <= j < |t| ensures HeldAt(t, holder, j) {
      JoinAt(s, i, j);
      assert j < i ==> HeldAt(s, holder, j);
      assert j > i ==> HeldAt(s, holder, j + 1);
    }
    forall b | b in holder ensures InList(t, b, holder[b].size) {
      var j :| 0 <= j < |s| && s[j] == Chunk(b, holder[b].size, MAGIC_ALLOCATED);
      assert j != i && j != i + 1;
      JoinAt(s, i, if j < i then j else j - 1);
    }
  }

  lemma {:induction false} UnuseHeld(s: seq<Chunk>, base: int, limit: int, words: map<int, int>,
                                     holder: map<int, Block>, i: int)
    requires Tiled(s, base, limit) && Held(s, words, holder) && 0 <= i < |s|
    ensures Held(Unuse(s, i), words, holder - {s[i].addr})
  {
    var u, a := Unuse(s, i), s[i].addr;
    var holder' := holder - {a};
    forall j | 0 <= j < |u| ensures HeldAt(u, holder', j) {
      assert HeldAt(s, holder, j);
      if s[j].addr == a { SameAddr(s, base, limit, i, j); }
    }
    forall b | b in holder' ensures InList(u, b, holder'[b].size) && PointerOk(words, b, holder'[b]) {
      assert b in holder;
      var j :| 0 <= j < |s| && s[j] == Chunk(b, holder[b].size, MAGIC_ALLOCATED);
      assert u[j] == s[j];
    }
  }

  lemma {:induction false} GrowHeld(s: seq<Chunk>, words: map<int, int>, holder: map<int, Block>, c: Chunk)
    requires Held(s, words, holder) && IsFree(c)
    ensures Held(s + [c], words, holder)
  {
    var t := s + [c];
    forall j | 0 <= j < |t| ensures HeldAt(t, holder, j) { assert j < |s| ==> HeldAt(s, holder, j); }
    forall b | b in holder ensures InList(t, b, holder[b].size) {
      var j :| 0 <= j < |s| && s[j] == Chunk(b, holder[b].size, MAGIC_ALLOCATED);
      assert t[j] == s[j];
    }
  }

  // ---- What the pointers mean ----------------------------------------------------------------------------------

  /** Address `x` is in the payload of the chunk at `a`. */
  ghost predicate InPayload(a: int, b: Block, x: int) {
    a + HEADER <= x < a + HEADER + b.size
  }

  /** Blocks in use do not overlap. */
  lemma {:induction false} BlocksDisjoint(s: seq<Chunk>, base: int, limit: int, words: map<int, int>,
                                          holder: map<int, Block>, a: int, b: int, x: int)
    requires Tiled(s, base, limit) && Held(s, words, holder) && a in holder && b in holder && a != b
    ensures !(InPayload(a, holder[a], x) && InPayload(b, holder[b], x))
  {
    var i :| 0 <= i < |s| && s[i] == Chunk(a, holder[a].size, MAGIC_ALLOCATED);
    var j :| 0 <= j < |s| && s[j] == Chunk(b, holder[b].size, MAGIC_ALLOCATED);
    if i < j { Ordered(s, base, limit, i, j); } else { Ordered(s, base, limit, j, i); }
  }

  /** No chunk header starts inside a payload. */
  lemma {:induction false} NoHeaderInside(s: seq<Chunk>, base: int, limit: int, i: nat, j: nat)
    requires Tiled(s, base, limit) && i < |s| && j < |s|
    ensures !(s[i].addr < s[j].addr < End(s[i]))
  {
    if i < j { Ordered(s, base, limit, i, j); } else if j < i { Ordered(s, base, limit, j, i); assert ChunkOk(s[j]); }
  }

  /** Different blocks have different pointers: the pointer alone tells what to free. */
  lemma {:induction false} PointersDistinct(s: seq<Chunk>, base: int, limit: int, words: map<int, int>,
                                            holder: map<int, Block>, a: int, b: int)
    requires Tiled(s, base, limit) && Held(s, words, holder) && a in holder && b in holder
    requires holder[a].ptr == holder[b].ptr
    ensures a == b
  {
    var i :| 0 <= i < |s| && s[i] == Chunk(a, holder[a].size, MAGIC_ALLOCATED);
    var j :| 0 <= j < |s| && s[j] == Chunk(b, holder[b].size, MAGIC_ALLOCATED);
    assert ChunkOk(s[i]) && ChunkOk(s[j]);
    if i < j { Ordered(s, base, limit, i, j); }
    if j < i { Ordered(s, base, limit, j, i); }
  }

  class Heap {
    var chunks: seq<Chunk>
    /** The words of aligned headers. */
    var words: map<int, int>
    /** The mapped kernel pages. */
    var mapped: set<int>
    ghost var base: int
    ghost var limit: int
    /** Where the mapped kernel pages end: at the end of the heap, unless an expansion has left all pages mapped. */
    ghost var extent: nat
    ghost var seams: set<int>
    ghost var holder: map<int, Block>

    ghost predicate Valid()
      reads this
    {
      && Tiled(chunks, base, limit) && Merged(chunks, seams) && Held(chunks, words, holder)
      && base >= KERNEL_BEGIN && limit % PAGE == 0 && 0 < limit <= LAST * PAGE
      && Prefix(mapped, KERNEL_BEGIN / PAGE, extent) && (extent == limit / PAGE || extent == PAGES)
    }

    /** `kmem_heap_init`: the first page after the mapped ones becomes the first chunk. */
    constructor (mapped: set<int>, ghost first: nat)
      requires Prefix(mapped, KERNEL_BEGIN / PAGE, first) && InRegion(first, KERNEL_END, PAGE)
      ensures Valid() && holder == map[] && base == first * PAGE && limit == first * PAGE + PAGE
      ensures chunks == [Chunk(first * PAGE, PAGE - HEADER, MAGIC_FREE)] && extent == first + 1
    {
      var r := AllocVaddr(mapped, KERNEL_BEGIN / PAGE, KERNEL_END, PAGE);
      FirstFreeAfterPrefix(mapped, KERNEL_BEGIN / PAGE, first, KERNEL_END, PAGE, r);
      this.mapped := mapped + {r.page};
      chunks := [Chunk(r.page * PAGE, PAGE - HEADER, MAGIC_FREE)];
      words, base, limit, extent, seams, holder := map[], first * PAGE, first * PAGE + PAGE, first + 1, {}, map[];
      new;
      assert ChunkOk(chunks[0]);
      PageBehind(first);
    }

    /** The first free chunk of at least `size` bytes, or the end of the list. */
    method FirstFit(size: int) returns (i: nat)
      ensures FirstFitAt(chunks, size, i)
    {
      i := 0;
      while i < |chunks| && !(IsFree(chunks[i]) && chunks[i].size >= size)
        invariant i <= |chunks| && forall j :: 0 <= j < i ==> !(IsFree(chunks[j]) && chunks[j].size >= size)
      {
        i := i + 1;
      }
    }

    /** Nothing but the mapped pages may have changed. */
    twostate predicate OnlyPages()
      reads this
    {
      unchanged(`chunks, `words, `base, `limit, `seams, `holder)
    }

    /** `kheap_expand(min)`: a new free chunk at the end of the list, which is the end of the heap. The sum with the
        header is a word. Without a chunk nothing changes, unless the pages of the range go on behind the last one and
        there are frames for all up to there: these stay mapped. */
    method Expand(min: nat, frames: nat) returns (r: Search)
      requires Valid() && min % GRAIN == 0 && min < WORD
      modifies this
      ensures Valid() && words == old(words) && holder == old(holder) && base == old(base)
      ensures var n := (min + HEADER) % WORD;
              r == Allocated(old(extent), n, frames) && extent == Extent(old(extent), n, frames)
      ensures !r.Found? ==> OnlyPages() && (extent == old(extent) ==> mapped == old(mapped))
      ensures r.Found? ==>
                && chunks == old(chunks) + [Chunk(old(limit), PagesOf(min + HEADER) * PAGE - HEADER, MAGIC_FREE)]
                && chunks[|chunks| - 1].size >= min && seams == old(seams) + {old(limit)}
    {
      hide Tiled, Merged, Held, PagesOf, PageCount, Allocated, Extent;
      var n := (min + HEADER) % WORD;
      ghost var k := extent;
      var mapped';
      r, mapped' := KernAllocAnywhere(mapped, n, frames);
      assert Prefix(mapped, KERNEL_BEGIN / PAGE, k);
      extent := Extent(k, n, frames);
      ExtentFacts(k, n, frames);
      PrefixGrows(mapped, KERNEL_BEGIN / PAGE, k, extent - k);
      mapped := mapped';
      if !r.Found? { return; }
      ExpandFacts(min, k, limit, frames);
      var size := PagesOf(n) * PAGE - HEADER;
      GrowTiled(chunks, base, limit, seams, size);
      GrowHeld(chunks, words, holder, Chunk(limit, size, MAGIC_FREE));
      chunks := chunks + [Chunk(r.page * PAGE, size, MAGIC_FREE)];
      seams := seams + {limit};
      limit := limit + HEADER + size;
    }

    /** Chunk `i` of `s` serves `want` bytes: its front, or all of it. */
    twostate predicate TookAt(s: seq<Chunk>, i: nat, want: nat, ptr: int)
      reads this
    {
      && i < |s| && ptr == s[i].addr + HEADER && s[i].addr !in old(holder)
      && holder == old(holder)[s[i].addr := Block(ptr, Served(s[i].size, want))]
    }

    /** `kmem_alloc(size)`; `frames` is what an expansion can get. The first chunk that fits serves, and if there is
        none, an expansion. */
    method Alloc(size: nat, frames: nat) returns (r: Outcome, ghost i: nat)
      requires Valid() && size < WORD
      modifies this
      ensures Valid() && words == old(words) && base == old(base) && !r.Outside?
      ensures !r.Given? ==> OnlyPages() && (extent == old(extent) ==> mapped == old(mapped))
      ensures FirstFitAt(old(chunks), RoundUp(size), i)
      ensures var want, n := RoundUp(size), (RoundUp(size) + HEADER) % WORD;
              if i < |old(chunks)| then r.Given? && TookAt(old(chunks), i, want, r.ptr) && extent == old(extent)
              else
                && extent == Extent(old(extent), n, frames)
                && match Allocated(old(extent), n, frames)
                   case Found(_) => r.Given? && TookAt(old(chunks) + [Grown(old(limit), want)], i, want, r.ptr)
                   case Nothing => r.NoMemory?
                   case Leaked(_) => r.NoMemory?
                   case Astray => r.Lost?
    {
      hide Tiled, Merged, Held, RoundUp, Allocated, Extent, PagesOf;
      RoundUpFits(size);
      var want := RoundUp(size);
      var k := FirstFit(want);
      i := k;
      if k == |chunks| {
        var e := Expand(want, frames);
        if !e.Found? { return if e.Astray? then Lost else NoMemory, i; }
        assert k == |chunks| - 1 && chunks[k] == Grown(old(limit), want);
      }
      var ptr := TakeAt(k, want);
      return Given(ptr), i;
    }

    /** Chunk `i` serves `want` bytes; what is left over becomes a chunk if it is large enough. */
    method TakeAt(i: nat, want: nat) returns (ptr: int)
      requires Valid() && i < |chunks| && IsFree(chunks[i]) && chunks[i].size >= want && want % GRAIN == 0
      modifies `chunks, `holder
      ensures Valid() && TookAt(old(chunks), i, want, ptr)
    {
      hide Merged, Held;
      assert ChunkOk(chunks[i]);
      if chunks[i].size - want >= CHUNK_MIN_SIZE + HEADER {
        SplitTiled(chunks, base, limit, seams, i, want);
        SplitHeld(chunks, base, limit, words, holder, i, want);
        SplitAt(chunks, i, want, i);
        chunks := Split(chunks, i, want);
        UseTiled(chunks, base, limit, seams, i);
      } else {
        UseTiled(chunks, base, limit, seams, i);
      }
      UseHeld(chunks, base, limit, words, holder, i);
      holder := holder[chunks[i].addr := Block(chunks[i].addr + HEADER, chunks[i].size)];
      ptr := chunks[i].addr + HEADER;
      chunks := Use(chunks, i);
    }

    /** The chunk at `a` is new and in use. */
    twostate predicate NewBlock(a: int, ptr: int)
      reads this
    {
      a !in old(holder) && a in holder && holder == old(holder)[a := Block(ptr, holder[a].size)]
    }

    /** `kmem_alloc_aligned(size, align)`. A block that is handed out has `size` bytes behind its pointer if and only
        if neither the sum nor its rounding wraps, and without a wrap no header is stored outside the block. */
    method AllocAligned(size: nat, align: nat, frames: nat) returns (r: Outcome, ghost a: int, ghost i: nat)
      requires Valid() && PowerOfTwo(align) && size < WORD && align < WORD
      modifies this
      ensures Valid()
      ensures r.NoMemory? || r.Lost? ==> OnlyPages() && (extent == old(extent) ==> mapped == old(mapped))
      ensures r.Given? ==>
                && NewBlock(a, r.ptr) && a + HEADER <= r.ptr
                && (r.ptr + size <= a + HEADER + holder[a].size <==> NoWrap(size, align))
                && (align >= 32 ==> r.ptr % align == 0)
      ensures r.Outside? ==> NewBlock(a, a + HEADER) && !NoWrap(size, align)
      ensures FirstFitAt(old(chunks), Asked(size, align), i)
      ensures i < |old(chunks)| ==>
                && (r.Given? || r.Outside?) && a == old(chunks)[i].addr && a in holder
                && holder[a].size == Served(old(chunks)[i].size, Asked(size, align)) && extent == old(extent)
      ensures i == |old(chunks)| ==>
                var want, n := Asked(size, align), (Asked(size, align) + HEADER) % WORD;
                && extent == Extent(old(extent), n, frames)
                && match Allocated(old(extent), n, frames)
                   case Found(_) =>
                     && (r.Given? || r.Outside?) && a == old(limit) && a in holder
                     && holder[a].size == Served(Grown(old(limit), want).size, want)
                   case Nothing => r.NoMemory?
                   case Leaked(_) => r.NoMemory?
                   case Astray => r.Lost?
      ensures r.Given? || r.Outside? ==> (r.Outside? <==> align >= 32 && Strays(a + HEADER, holder[a].size, align))
    {
      hide Tiled, Merged, Held, RoundUp, AlignUp, Allocated, Extent, PowerOfTwo, NoWrap;
      a := 0;
      if align < 32 {
        r, i := Alloc(size, frames);
        if r.Given? {
          a := r.ptr - HEADER;
          PlainFits(chunks, base, limit, words, holder, a, size, align);
        }
        return;
      }
      r, i := Alloc((size + align) % WORD, frames);
      if !r.Given? { return; }
      var ptr := r.ptr;
      a := ptr - HEADER;
      var ret := AlignUp(ptr, align) % WORD;
      AlignedFits(chunks, base, limit, words, holder, a, size, align);
      if ret == ptr { return; }
      var j := Find(ptr - HEADER);
      BlockAt(chunks, base, limit, words, holder, a, j);
      if ret < ptr || ret > ptr + chunks[j].size { return Outside, a, i; }
      AlignHeld(chunks, base, limit, words, holder, a, ret);
      words := words[ret - 16 := ptr];
      words := words[ret - 8 := MAGIC_ALIGNED];
      holder := holder[a := Block(ret, holder[a].size)];
      r := Given(ret);
    }

    /** The place of the chunk at `a` in the list, or the end of the list. */
    method Find(a: int) returns (i: nat)
      ensures i <= |chunks| && (i < |chunks| ==> chunks[i].addr == a)
      ensures i == |chunks| ==> forall j :: 0 <= j < |chunks| ==> chunks[j].addr != a
    {
      i := 0;
      while i < |chunks| && chunks[i].addr != a
        invariant i <= |chunks| && forall j :: 0 <= j < i ==> chunks[j].addr != a
      {
        i := i + 1;
      }
    }

    /** `kmem_free(ptr)` for a block in use, aligned or not: exactly its chunk is released. */
    method Free(ptr: int, ghost a: int)
      requires Valid() && a in holder && holder[a].ptr == ptr
      modifies this
      ensures Valid() && holder == old(holder) - {a}
      ensures words == old(words) && base == old(base) && limit == old(limit) && mapped == old(mapped)
    {
      hide Merged, Held;
      FreeFacts(chunks, base, limit, words, holder, a);
      var i := Find(ptr - HEADER);
      var magic := if i < |chunks| then chunks[i].magic else words[ptr - 8];
      var p := ptr;
      if magic == MAGIC_ALIGNED { p := words[ptr - 16]; }
      i := Find(p - HEADER);
      UnuseTiled(chunks, base, limit, i);
      UnuseMerged(chunks, seams, i);
      UnuseHeld(chunks, base, limit, words, holder, i);
      chunks := Unuse(chunks, i);
      holder := holder - {a};
      MergeAround(i);
    }

    /** The freed chunk `i` is merged with free neighbours. */
    method MergeAround(i: nat)
      requires Tiled(chunks, base, limit) && Held(chunks, words, holder) && i < |chunks| && IsFree(chunks[i])
      requires MergedBut(chunks, seams, {i - 1, i})
      modifies `chunks
      ensures Tiled(chunks, base, limit) && Held(chunks, words, holder) && Merged(chunks, seams)
    {
      hide Tiled, Held, MergedBut;
      var k := i;
      if i > 0 && IsFree(chunks[i - 1]) {
        JoinTiled(chunks, base, limit, i - 1);
        JoinHeld(chunks, words, holder, i - 1);
        JoinMerged(chunks, seams, i - 1, {i - 1, i}, {i - 1});
        JoinAt(chunks, i - 1, i - 1);
        chunks := Join(chunks, i - 1);
        k := i - 1;
      } else {
        OnlyBehind(chunks, seams, i);
      }
      if k + 1 < |chunks| && IsFree(chunks[k + 1]) {
        JoinTiled(chunks, base, limit, k);
        JoinHeld(chunks, words, holder, k);
        JoinMerged(chunks, seams, k, {k}, {});
        chunks := Join(chunks, k);
      } else {
        NoneLeft(chunks, seams, k);
      }
      AllMerged(chunks, seams);
    }
  }

  lemma {:induction false} OnlyBehind(s: seq<Chunk>, seams: set<int>, i: nat)
    requires i < |s| && MergedBut(s, seams, {i - 1, i}) && (i == 0 || !IsFree(s[i - 1]))
    ensures MergedBut(s, seams, {i})
  {
    forall j | 0 <= j < |s| - 1 && j != i ensures SeamOk(s, seams, j) {}
  }

  lemma {:induction false} NoneLeft(s: seq<Chunk>, seams: set<int>, k: nat)
    requires k < |s| && MergedBut(s, seams, {k}) && (k + 1 == |s| || !IsFree(s[k + 1]))
    ensures MergedBut(s, seams, {})
  {
    forall j | 0 <= j < |s| - 1 ensures SeamOk(s, seams, j) {}
  }

  lemma {:induction false} AllMerged(s: seq<Chunk>, seams: set<int>)
    requires MergedBut(s, seams, {})
    ensures Merged(s, seams)
  {
    forall j | 0 <= j < |s| - 1 ensures SeamOk(s, seams, j) {}
  }

  /** What `kmem_free` reads: the word before a plain pointer is the magic of its chunk, the word before
      an aligned one is that of its header, and the header leads to the chunk. */
  lemma {:induction false} FreeFacts(s: seq<Chunk>, base: int, limit: int, words: map<int, int>,
                                     holder: map<int, Block>, a: int)
    requires Tiled(s, base, limit) && Held(s, words, holder) && a in holder
    ensures exists i :: 0 <= i < |s| && s[i] == Chunk(a, holder[a].size, MAGIC_ALLOCATED)
    ensures var ptr := holder[a].ptr;
            if ptr == a + HEADER then forall i :: 0 <= i < |s| && s[i].addr == ptr - HEADER ==>
              s[i].magic == MAGIC_ALLOCATED
            else && (forall i :: 0 <= i < |s| ==> s[i].addr != ptr - HEADER)
                 && ptr - 8 in words && words[ptr - 8] == MAGIC_ALIGNED && ptr - 16 in words
                 && words[ptr - 16] == a + HEADER
  {
    var k :| 0 <= k < |s| && s[k] == Chunk(a, holder[a].size, MAGIC_ALLOCATED);
    var ptr := holder[a].ptr;
    if ptr == a + HEADER {
      forall i | 0 <= i < |s| && s[i].addr == ptr - HEADER ensures s[i].magic == MAGIC_ALLOCATED {
        SameAddr(s, base, limit, i, k);
      }
    } else {
      forall i | 0 <= i < |s| ensures s[i].addr != ptr - HEADER { NoHeaderInside(s, base, limit, k, i); }
    }
  }

  /** An aligned header disturbs no other: it lies in the payload of its own chunk. */
  lemma {:induction false} AlignHeld(s: seq<Chunk>, base: int, limit: int, words: map<int, int>,
                                     holder: map<int, Block>, a: int, ret: int)
    requires Tiled(s, base, limit) && Held(s, words, holder) && a in holder
    requires ret % GRAIN == 0 && a + HEADER + GRAIN <= ret <= a + HEADER + holder[a].size
    ensures Held(s, words[ret - 16 := a + HEADER][ret - 8 := MAGIC_ALIGNED], holder[a := Block(ret, holder[a].size)])
  {
    var words' := words[ret - 16 := a + HEADER][ret - 8 := MAGIC_ALIGNED];
    var holder' := holder[a := Block(ret, holder[a].size)];
    forall i | 0 <= i < |s| ensures HeldAt(s, holder', i) { assert HeldAt(s, holder, i); }
    forall b | b in holder' ensures InList(s, b, holder'[b].size) && PointerOk(words', b, holder'[b]) {
      assert b in holder;
      if b != a { OtherHeader(s, base, limit, words, holder, a, b, ret); }
    }
  }

  lemma {:induction false} OtherHeader(s: seq<Chunk>, base: int, limit: int, words: map<int, int>,
                                       holder: map<int, Block>, a: int, b: int, ret: int)
    requires Tiled(s, base, limit) && Held(s, words, holder) && a in holder && b in holder && a != b
    requires a + HEADER + GRAIN <= ret <= a + HEADER + holder[a].size
    ensures PointerOk(words[ret - 16 := a + HEADER][ret - 8 := MAGIC_ALIGNED], b, holder[b])
  {
    var i :| 0 <= i < |s| && s[i] == Chunk(a, holder[a].size, MAGIC_ALLOCATED);
    var j :| 0 <= j < |s| && s[j] == Chunk(b, holder[b].size, MAGIC_ALLOCATED);
    if i < j { Ordered(s, base, limit, i, j); } else { Ordered(s, base, limit, j, i); }
  }

  /** The mapped pages end where they did, behind the new range, or nowhere before the last page. */
  lemma {:induction false} ExtentFacts(k: nat, n: nat, frames: nat)
    requires k <= PAGES && n < WORD
    ensures k <= Extent(k, n, frames)
    ensures Allocated(k, n, frames).Found? ==> Extent(k, n, frames) == k + PageCount(n)
    ensures !Allocated(k, n, frames).Found? ==> Extent(k, n, frames) == k || Extent(k, n, frames) == PAGES
  {
    hide PageCount;
  }

  /** What an expansion that succeeds knows about sizes. */
  lemma {:induction false} ExpandFacts(min: nat, k: nat, limit: int, frames: nat)
    requires min % GRAIN == 0 && min < WORD && limit % PAGE == 0 && 0 < limit <= LAST * PAGE
    requires (k == limit / PAGE || k == PAGES) && Allocated(k, (min + HEADER) % WORD, frames).Found?
    ensures min + HEADER < WORD && PageCount(min + HEADER) == PagesOf(min + HEADER) && k == limit / PAGE
    ensures k * PAGE == limit
    ensures Allocated(k, min + HEADER, frames) == Found(k)
    ensures var size := PagesOf(min + HEADER) * PAGE - HEADER;
            && size >= min && size % GRAIN == 0
            && (limit + HEADER + size) % PAGE == 0
            && (limit + HEADER + size) / PAGE == k + PagesOf(min + HEADER) <= LAST
  {
    hide Allocated, PagesOf, PageCount;
    NotEmpty(min, k, frames);
    PageCountIs(min + HEADER);
    AllocatedIs(k, min + HEADER, frames);
    PageMultiple(min, k, limit, PagesOf(min + HEADER));
  }

  /** The sum wraps only to 0, and an expansion by 0 bytes does not succeed. */
  lemma {:induction false} NotEmpty(min: nat, k: nat, frames: nat)
    requires min % GRAIN == 0 && min < WORD && 0 < k <= PAGES && Allocated(k, (min + HEADER) % WORD, frames).Found?
    ensures k <= LAST && min + HEADER < WORD && (min + HEADER) % WORD == min + HEADER
  {
    hide PageCount, PagesOf;
    PageCountIs(0);
    assert min + HEADER >= WORD ==> min == WORD - GRAIN;
  }

  lemma {:induction false} PageMultiple(min: nat, k: nat, limit: int, m: nat)
    requires min % GRAIN == 0 && limit % PAGE == 0 && k == limit / PAGE && m == PagesOf(min + HEADER)
    ensures k * PAGE == limit && m * PAGE >= min + HEADER && (m * PAGE - HEADER) % GRAIN == 0
    ensures (limit + m * PAGE) % PAGE == 0 && (limit + m * PAGE) / PAGE == k + m
  {
    hide PagesOf;
    PagesHold(min + HEADER);
    var t := k + m;
    assert limit + m * PAGE == t * PAGE;
    assert t * PAGE / PAGE == t && t * PAGE % PAGE == 0;
    GrainOfPages(m);
  }

  lemma {:induction false} PageBehind(k: nat)
    ensures (k * PAGE + PAGE) % PAGE == 0 && (k * PAGE + PAGE) / PAGE == k + 1
  {
    var t := k + 1;
    assert t * PAGE == k * PAGE + PAGE && t * PAGE / PAGE == t;
  }

  lemma {:induction false} PagesHold(size: nat)
    ensures PagesOf(size) * PAGE >= size
  {}

  lemma {:induction false} GrainOfPages(m: nat)
    ensures (m * PAGE - HEADER) % GRAIN == 0
  {
    assert m * PAGE - HEADER == GRAIN * (m * 0x1_0000 - 1);
  }

  /** A block lies in the kernel's region, so it is small against a word. */
  lemma {:induction false} BlockSmall(s: seq<Chunk>, base: int, limit: int, words: map<int, int>,
                                      holder: map<int, Block>, a: int)
    requires Tiled(s, base, limit) && Held(s, words, holder) && a in holder && base >= KERNEL_BEGIN && limit <= WORD
    ensures 0 < a && a + HEADER + holder[a].size <= WORD && 0 <= holder[a].size < HALF - 32 && a % GRAIN == 0
    ensures a >= KERNEL_BEGIN
  {
    var i :| 0 <= i < |s| && s[i] == Chunk(a, holder[a].size, MAGIC_ALLOCATED);
    assert ChunkOk(s[i]);
    Within(s, base, limit, i);
  }

  lemma {:induction false} BlockAt(s: seq<Chunk>, base: int, limit: int, words: map<int, int>, holder: map<int, Block>,
                                   a: int, j: nat)
    requires Tiled(s, base, limit) && Held(s, words, holder) && a in holder
    requires j <= |s| && (if j < |s| then s[j].addr == a else forall k :: 0 <= k < |s| ==> s[k].addr != a)
    ensures j < |s| && s[j].size == holder[a].size
  {
    var i :| 0 <= i < |s| && s[i] == Chunk(a, holder[a].size, MAGIC_ALLOCATED);
    if j < |s| { SameAddr(s, base, limit, i, j); }
  }

  /** A plain block holds the request if and only if its rounding does not wrap. */
  lemma {:induction false} PlainFits(s: seq<Chunk>, base: int, limit: int, words: map<int, int>,
                                     holder: map<int, Block>, a: int, size: nat, align: nat)
    requires Tiled(s, base, limit) && Held(s, words, holder) && a in holder && base >= KERNEL_BEGIN && limit <= WORD
    requires size < WORD && align < 32 && RoundUp(size) <= holder[a].size
    ensures size <= holder[a].size <==> NoWrap(size, align)
  {
    BlockSmall(s, base, limit, words, holder, a);
    RoundUpFits(size);
  }

  /** The same for an aligned one; without a wrap the aligned pointer and its header are in the block. */
  lemma {:induction false} AlignedFits(s: seq<Chunk>, base: int, limit: int, words: map<int, int>,
                                       holder: map<int, Block>, a: int, size: nat, align: nat)
    requires Tiled(s, base, limit) && Held(s, words, holder) && a in holder && base >= KERNEL_BEGIN && limit <= WORD
    requires size < WORD && PowerOfTwo(align) && 32 <= align < WORD && RoundUp((size + align) % WORD) <= holder[a].size
    ensures var ptr := a + HEADER;
            var ret := AlignUp(ptr, align) % WORD;
            && ptr > 0 && (ret >= ptr ==> ret % align == 0 && ret % GRAIN == 0)
            && (ret > ptr ==> ret >= ptr + GRAIN)
            && (ret >= ptr ==> (ret + size <= ptr + holder[a].size <==> NoWrap(size, align)))
            && (NoWrap(size, align) ==> ptr <= ret <= ptr + holder[a].size)
  {
    hide RoundUp, AlignUp, Tiled, Held, PowerOfTwo, Pow2, NoWrap;
    BlockSmall(s, base, limit, words, holder, a);
    PowerAtMostHalf(align);
    PowerGrain(align);
    var ptr := a + HEADER;
    AlignUpFacts(ptr, align);
    MultipleGrain(ptr, align);
    if NoWrap(size, align) { SumFits(size, align); }
    AlignedRoom(ptr, AlignUp(ptr, align), align, size, holder[a].size);
  }

  lemma {:induction false} SumFits(size: nat, align: nat)
    requires align >= 32 && NoWrap(size, align)
    ensures size + align <= RoundUp((size + align) % WORD)
  {
    RoundUpFits(size + align);
  }

  lemma {:induction false} AlignedRoom(ptr: int, u: int, align: nat, size: nat, block: int)
    requires 0 < ptr && ptr + block <= WORD && 0 <= block < HALF - 32 && 32 <= align <= HALF && size < WORD
    requires ptr % GRAIN == 0 && u % GRAIN == 0 && ptr <= u < ptr + align
    requires NoWrap(size, align) ==> size + align <= block
    ensures var ret := u % WORD;
            && (ret >= ptr ==> ret == u) && (ret > ptr ==> ret >= ptr + GRAIN)
            && (ret >= ptr ==> (ret + size <= ptr + block <==> NoWrap(size, align)))
            && (NoWrap(size, align) ==> ptr <= ret <= ptr + block)
  {
    assert if u < WORD then u % WORD == u else u % WORD == u - WORD < ptr;
  }

  lemma {:induction false} StraysBehind(a: int)
    requires 0 <= a && a % PAGE == 0 && a + 64 < WORD
    ensures Strays(a + HEADER, 0, 64)
  {
    var k := a / 64;
    assert a == 64 * k;
    assert AlignUp(a + HEADER, 64) == a + 64;
  }

  lemma {:induction false} Power64()
    ensures PowerOfTwo(64)
  {
    assert Pow2(3) == 8;
    assert Pow2(6) == 64;
  }

  lemma {:induction false} AskedNothing()
    ensures Asked(WORD - 64, 64) == 0
  {
    assert (WORD - 64 + 64) % WORD == 0;
  }

  /** A request that wraps, on a fresh heap: the header of the aligned pointer falls outside the block, on the next
      chunk. */
  method WrappedRequest(mapped: set<int>, ghost first: nat, frames: nat)
    returns (heap: Heap, r: Outcome, ghost a: int)
    requires Prefix(mapped, KERNEL_BEGIN / PAGE, first) && InRegion(first, KERNEL_END, PAGE)
    ensures r.Outside? && heap.Valid() && heap.holder.Keys == {a} && Strays(a + HEADER, heap.holder[a].size, 64)
  {
    hide Asked, Strays, Pow2, NoWrap, PowerOfTwo;
    heap := new Heap(mapped, first);
    Power64();
    AskedNothing();
    ghost var c := heap.chunks[0];
    ghost var i;
    r, a, i := heap.AllocAligned(WORD - 64, 64, frames);
    assert i == 0;
    StraysBehind(a);
  }

  lemma {:induction false} EmptySum()
    ensures RoundUp(WORD - 40) == WORD - 32 && (RoundUp(WORD - 40) + HEADER) % WORD == 0
  {}

  /** A request whose sum with the header is 0, on a fresh heap: if there are frames for just the pages that are left,
      all of them stay mapped though the request fails, and no expansion succeeds from then on. */
  method LeakingRequest(mapped: set<int>, ghost first: nat, frames: nat, size: nat, more: nat)
    returns (r: Outcome, q: Outcome, heap: Heap)
    requires Prefix(mapped, KERNEL_BEGIN / PAGE, first) && InRegion(first, KERNEL_END, PAGE)
    requires frames == PAGES - first - 1 && PAGE <= size <= WORD - 32
    ensures r.NoMemory? && !q.Given? && heap.Valid() && Prefix(heap.mapped, KERNEL_BEGIN / PAGE, PAGES)
  {
    hide RoundUp, Allocated, Extent;
    heap := new Heap(mapped, first);
    EmptySum();
    ghost var i;
    r, i := heap.Alloc(WORD - 40, frames);
    LeakedIff(first + 1, 0, frames);
    RoundUpFits(size);
    q, i := heap.Alloc(size, more);
    AllMapped((RoundUp(size) + HEADER) % WORD, more);
  }

  lemma {:induction false} AllMapped(n: nat, frames: nat)
    requires n < WORD
    ensures !Allocated(PAGES, n, frames).Found? && Extent(PAGES, n, frames) == PAGES
  {}
}
