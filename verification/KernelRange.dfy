/** `vm_alloc_vaddr` of `kernel/k_memory.c`: the first free range of pages in a region, and why the
    kernel heap always grows at its end. */
module KernelRange {
  import opened Words
  import opened PageIndex

  /** `KERNEL_VADDR_BEGIN` and `KERNEL_VADDR_END`. */
  const KERNEL_BEGIN: nat := 0xFFFF_FFFF_8000_0000
  const KERNEL_END: nat := 0xFFFF_FFFF_FFFF_FFFF
  /** The number of pages that a 64-bit address can name, and the last of them. */
  const PAGES: nat := 0x800_0000_0000
  const LAST: nat := PAGES - 1

  /** What the search for a range, or its mapping, comes to. `Astray` is a step from the last page to address 0, where
      the search or the mapping goes on. `Leaked` is a failure after which all pages from `page` on stay mapped. */
  datatype Search = Found(page: nat) | Nothing | Astray | Leaked(page: nat)

  /** Pages are named by their numbers: `mapped` holds those for which `vm_is_mapped` is true. A range of
      `size` bytes that starts at page `n` is free if no page of it is mapped, the first included. */
  ghost predicate FreeAt(mapped: set<int>, n: int, size: nat) {
    n !in mapped && forall q {:trigger q in mapped} :: n <= q && (q - n) * PAGE < size ==> q !in mapped
  }

  /** The range from page `n` is inside the region: the source's `p < end - size`, where that does not wrap. */
  predicate InRegion(n: int, end: nat, size: nat) {
    n * PAGE + size < end
  }

  /** The range from page `n` has bytes in the last page. */
  predicate Reaches(n: int, size: nat) {
    LAST * PAGE < n * PAGE + size
  }

  /** A range that the search can find. */
  ghost predicate Usable(mapped: set<int>, n: int, end: nat, size: nat) {
    InRegion(n, end, size) && FreeAt(mapped, n, size) && !Reaches(n, size)
  }

  /** A free range has bytes in the last page, or the last page is mapped and not beyond the region. */
  ghost predicate Overruns(mapped: set<int>, begin: nat, end: nat, size: nat) {
    || (exists n {:trigger FreeAt(mapped, n, size)} ::
          begin <= n && InRegion(n, end, size) && FreeAt(mapped, n, size) && Reaches(n, size))
    || (LAST in mapped && begin <= LAST && InRegion(LAST, end, size))
  }

  /** `r` is the lowest usable start. The search goes astray if and only if there is none and a range overruns;
      it finds nothing if and only if no range of the region is free and none overruns. */
  ghost predicate Searched(mapped: set<int>, begin: nat, end: nat, size: nat, r: Search) {
    match r
    case Found(p) =>
      && begin <= p <= LAST && Usable(mapped, p, end, size)
      && (forall n {:trigger FreeAt(mapped, n, size)} :: begin <= n < p ==> !FreeAt(mapped, n, size))
    case Nothing =>
      && !Overruns(mapped, begin, end, size)
      && (forall n {:trigger FreeAt(mapped, n, size)} ::
            begin <= n && InRegion(n, end, size) ==> !FreeAt(mapped, n, size))
    case Astray =>
      && Overruns(mapped, begin, end, size)
      && (forall n {:trigger FreeAt(mapped, n, size)} :: begin <= n ==> !Usable(mapped, n, end, size))
    case Leaked(_) => false
  }

  /** `vm_alloc_vaddr(as, begin, end, size)`, in pages. The bound `end - size` and the end of a range are words. What
      is found lies inside the region if and only if the size is no larger than the region's end. */
  method AllocVaddr(mapped: set<int>, begin: nat, end: nat, size: nat) returns (r: Search)
    requires begin < PAGES && size < WORD && end < WORD
    ensures size <= end ==> Searched(mapped, begin, end, size, r)
    ensures r.Found? ==> begin <= r.page < PAGES && (InRegion(r.page, end, size) <==> size <= end)
  {
    var p := begin;
    while p * PAGE < Sub(end, size)
      invariant begin <= p < PAGES
      invariant size <= end ==>
                  forall n {:trigger FreeAt(mapped, n, size)} :: begin <= n < p ==> !FreeAt(mapped, n, size)
      decreases PAGES - p
    {
      if p in mapped {
        if p == LAST {
          if size <= end { LastMapped(mapped, begin, end, size); }
          return Astray;
        }
        p := p + 1;
        continue;
      }
      var q, stop := p, (p * PAGE + size) % WORD;
      while q * PAGE < stop && q !in mapped
        invariant p <= q < PAGES && forall x {:trigger x in mapped} :: p <= x < q ==> x !in mapped
        decreases PAGES - q
      {
        if q == LAST {
          if size <= end { OverrunHere(mapped, begin, end, size, p); }
          return Astray;
        }
        q := q + 1;
      }
      if q * PAGE >= stop {
        return Found(p);
      }
      p := q;
    }
    return Nothing;
  }

  /** All pages from `p` to the last are free, and the range from `p` has bytes in the last. */
  lemma {:induction false} OverrunHere(mapped: set<int>, begin: nat, end: nat, size: nat, p: nat)
    requires begin <= p <= LAST && end < WORD && size < WORD && LAST * PAGE < (p * PAGE + size) % WORD
    requires forall x {:trigger x in mapped} :: p <= x <= LAST ==> x !in mapped
    requires size <= end && p * PAGE < Sub(end, size)
    requires forall n {:trigger FreeAt(mapped, n, size)} :: begin <= n < p ==> !FreeAt(mapped, n, size)
    ensures Searched(mapped, begin, end, size, Astray)
  {
    assert p * PAGE + size < WORD;
    forall x | x in mapped && p <= x ensures (x - p) * PAGE >= size { assert x > LAST; }
    assert FreeAt(mapped, p, size) && Reaches(p, size);
    forall n | begin <= n ensures !Usable(mapped, n, end, size) {
      if n >= p {
        assert n * PAGE >= p * PAGE;
      } else {
        assert !FreeAt(mapped, n, size);
      }
    }
  }

  /** The last page is mapped, and no page below it starts a free range. */
  lemma {:induction false} LastMapped(mapped: set<int>, begin: nat, end: nat, size: nat)
    requires LAST in mapped && begin <= LAST && size <= end < WORD && LAST * PAGE < Sub(end, size)
    requires forall n {:trigger FreeAt(mapped, n, size)} :: begin <= n < LAST ==> !FreeAt(mapped, n, size)
    ensures Searched(mapped, begin, end, size, Astray)
  {
    forall n | begin <= n ensures !Usable(mapped, n, end, size) { assert n > LAST ==> n * PAGE >= WORD; }
  }

  /** The mapped pages of a region are the first ones. */
  ghost predicate Prefix(mapped: set<int>, begin: int, limit: int) {
    begin <= limit && forall n {:trigger n in mapped} :: begin <= n ==> (n in mapped <==> n < limit)
  }

  /** If the mapped pages form a prefix, the first free range starts where it ends, unless that leads to the last
      page. */
  lemma {:induction false} FirstFreeAfterPrefix(mapped: set<int>, begin: nat, limit: nat, end: nat, size: nat,
                                                r: Search)
    requires Prefix(mapped, begin, limit) && limit <= LAST && Searched(mapped, begin, end, size, r)
    ensures r == if !InRegion(limit, end, size) then Nothing else if Reaches(limit, size) then Astray else Found(limit)
  {
    assert FreeAt(mapped, limit, size);
    assert forall n {:trigger FreeAt(mapped, n, size)} :: FreeAt(mapped, n, size) ==> n !in mapped;
    forall n | limit <= n ensures InRegion(n, end, size) ==> InRegion(limit, end, size) {
      assert n * PAGE >= limit * PAGE;
    }
  }

  /** If all pages are mapped, the walk goes astray, unless the region ends before the last page for this size. */
  lemma {:induction false} NothingAfterAll(mapped: set<int>, begin: nat, end: nat, size: nat, r: Search)
    requires Prefix(mapped, begin, PAGES) && begin <= LAST && end < WORD && Searched(mapped, begin, end, size, r)
    ensures r == if InRegion(LAST, end, size) then Astray else Nothing
  {
    assert LAST in mapped;
    forall n | begin <= n && InRegion(n, end, size) ensures !FreeAt(mapped, n, size) { assert n < PAGES; }
  }

  /** With the last page alone unmapped, even the smallest range leads astray. */
  lemma {:induction false} LastPageAstray(mapped: set<int>, size: nat, r: Search)
    requires Prefix(mapped, KERNEL_BEGIN / PAGE, LAST) && 0 < size < PAGE - 1
    requires Searched(mapped, KERNEL_BEGIN / PAGE, KERNEL_END, size, r)
    ensures r.Astray?
  {
    FirstFreeAfterPrefix(mapped, KERNEL_BEGIN / PAGE, LAST, KERNEL_END, size, r);
  }

  predicate Between(p: int, n: int, q: int) {
    p <= q < p + n
  }

  /** The `n` pages from page `p` on. */
  function PageRange(p: int, n: nat): set<int> {
    set q: int | p <= q < p + n && Between(p, n, q)
  }

  /** `DIV_CEIL(size, KMEM_PAGE_SIZE)`: for size 0 the subtraction wraps, and the count is all pages there are. */
  function PageCount(size: nat): nat
    requires size < WORD
  {
    Sub(size, 1) / PAGE + 1
  }

  lemma {:induction false} PageCountIs(size: nat)
    requires size < WORD
    ensures PageCount(size) == if size == 0 then PAGES else PagesOf(size)
  {}

  /** The range from page `limit` is in the region, but its pages go on behind the last one. */
  predicate Spills(limit: nat, size: nat)
    requires size < WORD
  {
    limit < PAGES && InRegion(limit, KERNEL_END, size) && !Reaches(limit, size) && PAGES < limit + PageCount(size)
  }

  /** What an allocation of `size` bytes comes to when the mapped kernel pages end at `limit` and `frames` pages can
      be had. */
  function Allocated(limit: nat, size: nat, frames: nat): Search
    requires limit <= PAGES && size < WORD
  {
    if limit == PAGES then
      if InRegion(LAST, KERNEL_END, size) then Astray else Nothing
    else if Spills(limit, size) then
      if frames < PAGES - limit then Nothing else if frames == PAGES - limit then Leaked(limit) else Astray
    else if !InRegion(limit, KERNEL_END, size) then Nothing
    else if Reaches(limit, size) then Astray
    else if frames >= PageCount(size) then Found(limit)
    else Nothing
  }

  /** Where the mapped pages end afterwards, or when the mapping goes astray. */
  function Extent(limit: nat, size: nat, frames: nat): nat
    requires limit <= PAGES && size < WORD
  {
    if Allocated(limit, size, frames).Found? then limit + PageCount(size)
    else if Spills(limit, size) && frames >= PAGES - limit then PAGES
    else limit
  }

  /** For a size that is not 0, only a range with bytes in the last page goes astray, and nothing leaks. */
  lemma {:induction false} AllocatedIs(limit: nat, size: nat, frames: nat)
    requires limit <= LAST && 0 < size < WORD
    ensures Allocated(limit, size, frames) ==
      if !InRegion(limit, KERNEL_END, size) then Nothing
      else if Reaches(limit, size) then Astray
      else if frames >= PagesOf(size) then Found(limit)
      else Nothing
    ensures Allocated(limit, size, frames).Found? ==> limit + PagesOf(size) <= LAST
    ensures Extent(limit, size, frames)
            == if Allocated(limit, size, frames).Found? then limit + PagesOf(size) else limit
  {
    PageCountIs(size);
    if InRegion(limit, KERNEL_END, size) && !Reaches(limit, size) { EndsBefore(limit, size); }
  }

  /** The rollback unmaps nothing if and only if the size is 0 and the frames last for just the pages that there are:
      then the end of the mapped pages has wrapped to 0. */
  lemma {:induction false} LeakedIff(limit: nat, size: nat, frames: nat)
    requires 0 < limit <= PAGES && size < WORD
    ensures Allocated(limit, size, frames).Leaked? <==> size == 0 && limit < PAGES && frames == PAGES - limit
    ensures Allocated(limit, size, frames).Leaked? ==> Extent(limit, size, frames) == PAGES
  {
    PageCountIs(size);
    if size == 0 {
      assert limit < PAGES ==> limit * PAGE <= LAST * PAGE < KERNEL_END;
    } else if limit < PAGES {
      AllocatedIs(limit, size, frames);
    }
  }

  lemma {:induction false} EndsBefore(p: int, size: nat)
    requires !Reaches(p, size)
    ensures p + PagesOf(size) <= LAST
  {
    assert PagesOf(size) * PAGE < size + PAGE;
    assert (p + PagesOf(size)) * PAGE < (LAST + 1) * PAGE;
  }

  /** `vm_kern_alloc_anywhere(size)`: a free range of kernel pages is mapped as a whole, or nothing is; or the search or
      the mapping goes astray, or the rollback unmaps nothing. `frames` is the number of pages for which frames and
      tables can be had. */
  method KernAllocAnywhere(mapped: set<int>, size: nat, frames: nat) returns (r: Search, mapped': set<int>)
    requires size < WORD
    ensures r.Found? ==> mapped' == mapped + PageRange(r.page, PageCount(size))
    ensures r.Leaked? ==> r.page < PAGES && mapped' == mapped + PageRange(r.page, PAGES - r.page)
    ensures (r.Nothing? || r.Astray?) && size > 0 ==> mapped' == mapped
    ensures forall limit: nat {:trigger Prefix(mapped, KERNEL_BEGIN / PAGE, limit)} ::
              limit <= PAGES && Prefix(mapped, KERNEL_BEGIN / PAGE, limit) ==>
                r == Allocated(limit, size, frames)
                && limit <= Extent(limit, size, frames)
                && mapped' == mapped + PageRange(limit, Extent(limit, size, frames) - limit)
  {
    hide PageCount, Prefix, FreeAt, InRegion, Reaches;
    mapped' := mapped;
    r := AllocVaddr(mapped, KERNEL_BEGIN / PAGE, KERNEL_END, size);
    forall limit: nat | limit <= PAGES && Prefix(mapped, KERNEL_BEGIN / PAGE, limit)
      ensures SearchedAfter(limit, size, r)
    {
      AfterPrefix(mapped, limit, size, r);
    }
    if !r.Found? { return; }
    var p, n := r.page, PageCount(size);
    var i := 0;
    PageCountIs(size);
    if size > 0 { EndsBefore(p, size); }
    while i < n
      invariant i <= n && i <= frames && p + i <= PAGES && mapped' == mapped + PageRange(p, i)
    {
      if i == frames {
        var next := (p + i) % PAGES;
        mapped' := TakeBack(mapped', p, next);
        RolledBack(mapped, p, size, i);
        return if p + i == PAGES then Leaked(p) else Nothing, mapped';
      }
      if p + i == PAGES { return Astray, mapped'; }
      mapped' := mapped' + {p + i};
      i := i + 1;
    }
  }

  /** What the search finds behind a prefix of mapped pages, or if all are mapped. */
  predicate SearchedAfter(limit: nat, size: nat, r: Search) {
    r == if limit == PAGES then if InRegion(LAST, KERNEL_END, size) then Astray else Nothing
         else if !InRegion(limit, KERNEL_END, size) then Nothing
         else if Reaches(limit, size) then Astray
         else Found(limit)
  }

  lemma {:induction false} AfterPrefix(mapped: set<int>, limit: nat, size: nat, r: Search)
    requires limit <= PAGES && Prefix(mapped, KERNEL_BEGIN / PAGE, limit)
    requires Searched(mapped, KERNEL_BEGIN / PAGE, KERNEL_END, size, r)
    ensures SearchedAfter(limit, size, r)
  {
    if limit == PAGES {
      NothingAfterAll(mapped, KERNEL_BEGIN / PAGE, KERNEL_END, size, r);
    } else {
      FirstFreeAfterPrefix(mapped, KERNEL_BEGIN / PAGE, limit, KERNEL_END, size, r);
    }
  }

  /** The rollback: the pages from `p` to the one that was to be mapped next are unmapped. If that is page 0 again,
      none is. */
  method TakeBack(mapped: set<int>, p: nat, next: nat) returns (mapped': set<int>)
    ensures mapped' == if p <= next then mapped - PageRange(p, next - p) else mapped
  {
    mapped' := mapped;
    var q := p;
    while q < next
      invariant (if p <= next then p <= q <= next else q == p) && mapped' == mapped - PageRange(p, q - p)
    {
      mapped' := mapped' - {q};
      q := q + 1;
    }
  }

  lemma {:induction false} RangeFree(mapped: set<int>, p: int, size: nat, i: nat)
    requires FreeAt(mapped, p, size) && i <= PagesOf(size)
    ensures PageRange(p, i) !! mapped
  {
    forall q | q in PageRange(p, i) ensures q !in mapped { PageInside(p, q, size); }
  }

  /** Taking the pages out again gives the mapped pages back, if none of them was mapped before. */
  lemma {:induction false} RolledBack(mapped: set<int>, p: nat, size: nat, i: nat)
    requires FreeAt(mapped, p, size) && size < WORD && i <= PageCount(size)
    ensures var back := mapped + PageRange(p, i) - PageRange(p, i);
            && (size > 0 ==> back == mapped)
            && (forall limit: nat {:trigger Prefix(mapped, KERNEL_BEGIN / PAGE, limit)} ::
                  Prefix(mapped, KERNEL_BEGIN / PAGE, limit) && p == limit ==> back == mapped)
  {
    PageCountIs(size);
    if size > 0 { RangeFree(mapped, p, size, i); }
  }

  lemma {:induction false} PageInside(p: int, q: int, size: nat)
    requires p <= q < p + PagesOf(size)
    ensures (q - p) * PAGE < size
  {}

  /** Mapping the pages behind a prefix gives a longer one. */
  lemma {:induction false} PrefixGrows(mapped: set<int>, begin: int, limit: int, n: nat)
    requires Prefix(mapped, begin, limit)
    ensures Prefix(mapped + PageRange(limit, n), begin, limit + n)
  {}
}
