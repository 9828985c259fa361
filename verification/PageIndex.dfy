/** Virtual addresses of `kernel/k_memory.c`: 2 MB pages, and the three table indices that the
    hardware takes from bits 21 to 47 of an address. */
module PageIndex {
  import opened Words

  const PAGE: nat := 0x20_0000
  const ENTRIES: nat := 512
  /** `USERLAND_VADDR_END` and the number of pages below it. */
  const USER_END: nat := 0x8000_0000_0000
  const USER_PAGES: nat := 0x400_0000
  /** The upper half starts here. */
  const KERNEL_BASE: nat := 0xFFFF_8000_0000_0000

  /** The number of pages that `size` bytes take. */
  function PagesOf(size: nat): nat {
    (size + PAGE - 1) / PAGE
  }

  /** `PML4IDX`, `PDPIDX` and `PDIDX`. */
  function Pml4Index(va: nat): nat {
    va / 0x80_0000_0000 % 512
  }

  function PdpIndex(va: nat): nat {
    va / 0x4000_0000 % 512
  }

  function PdIndex(va: nat): nat {
    va / 0x20_0000 % 512
  }

  /** `get_page`: the address of a page from its indices, sign-extended from bit 47. */
  function GetPage(i: nat, j: nat, k: nat): nat {
    var a := i * 0x80_0000_0000 + j * 0x4000_0000 + k * 0x20_0000;
    if a >= USER_END then a + 0xFFFF_0000_0000_0000 else a
  }

  predicate Canonical(va: nat) {
    va < USER_END || KERNEL_BASE <= va < WORD
  }

  lemma {:induction false} SplitPage(n: nat)
    ensures n == n / 0x4_0000 * 0x4_0000 + n / 512 % 512 * 512 + n % 512
  {
    assert n / 512 / 512 == n / 0x4_0000;
    assert n / 512 == n / 512 / 512 * 512 + n / 512 % 512;
  }

  lemma {:induction false} IndexOfPage(va: nat)
    ensures va / 0x4000_0000 == va / PAGE / 512 && va / 0x80_0000_0000 == va / PAGE / 0x4_0000
  {}

  /** The indices of a canonical address lead back to its page: the table walk loses nothing. */
  lemma {:induction false} PageRoundTrip(va: nat)
    requires Canonical(va)
    ensures GetPage(Pml4Index(va), PdpIndex(va), PdIndex(va)) == va - va % PAGE
  {
    var n := va / PAGE;
    IndexOfPage(va);
    SplitPage(n);
    TopIndex(va, n / 0x4_0000);
    assert va - va % PAGE == n * PAGE;
  }

  /** The bits above the top index repeat its highest bit. */
  lemma {:induction false} TopIndex(va: nat, t: nat)
    requires Canonical(va) && t == va / 0x80_0000_0000
    ensures if va < USER_END then t < 256 && t % 512 == t else 256 <= t % 512 && t % 512 == t - 0x1FF_FE00
  {
    if va >= USER_END {
      assert 0x1FF_FF00 <= t < 0x200_0000;
      assert 0x1FF_FE00 == 512 * 0xFFFF;
    }
  }

  /** Distinct pages have distinct index triples. */
  lemma {:induction false} TriplesDistinct(va: nat, vb: nat)
    requires Canonical(va) && Canonical(vb)
    requires Pml4Index(va) == Pml4Index(vb) && PdpIndex(va) == PdpIndex(vb) && PdIndex(va) == PdIndex(vb)
    ensures va / PAGE == vb / PAGE
  {
    PageRoundTrip(va);
    PageRoundTrip(vb);
  }

  /** User addresses use the lower half of the top table. */
  lemma {:induction false} UserIndex(va: nat)
    ensures Pml4Index(va) < 512 && PdpIndex(va) < 512 && PdIndex(va) < 512
    ensures va < USER_END ==> Pml4Index(va) < 256
  {}
}
