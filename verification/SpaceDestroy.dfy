/** `vm_address_space_destroy` of `kernel/k_memory.c`, and what it does to a clone: every reference
    count is as it was before the clone, except that of the root table's frame. */
module SpaceDestroy {
  import opened PageIndex
  import opened PageTables
  import opened PageRights
  import opened VirtualMemory
  import opened SpaceClone

  // ---- The frames of a clone are distinct -----------------------------------------------------------------

  lemma {:induction false} TwoMembers(m: Memory, es: seq<Entry>, n: nat, x: nat, y: nat, level: nat)
    requires x < y < n <= |es| && es[x].present && es[y].present
    ensures Tree(m, es[x].addr, level) + Tree(m, es[y].addr, level) <= Uses(m, es, n, level)
  {
    hide Tree;
    if y < n - 1 { TwoMembers(m, es, n - 1, x, y, level); } else { UsesMember(m, es, n - 1, x, level); }
  }

  /** Two pages on one frame would count it twice. */
  lemma {:induction false} LeavesCounted(m: Memory, p: Page, q: Page)
    requires OnPath(m, p) && OnPath(m, q) && p.root == q.root && p != q && FrameOf(m, p) == FrameOf(m, q)
    ensures UserUses(m, p.root)[FrameOf(m, p)] > 1
  {
    hide Uses, Tree;
    var f := FrameOf(m, p);
    LeafCounted(m, p);
    LeafCounted(m, q);
    var es := Entries(m, p.root);
    if p.i != q.i {
      var x, y := if p.i < q.i then p.i else q.i, if p.i < q.i then q.i else p.i;
      TwoMembers(m, es, USER_ENTRIES, x, y, 2);
      SubCount(Tree(m, es[x].addr, 2) + Tree(m, es[y].addr, 2), UserUses(m, p.root), f);
    } else {
      var pdp := es[p.i].addr;
      PdpLeavesCounted(m, p, q);
      UsesMember(m, es, USER_ENTRIES, p.i, 2);
      SubCount(Tree(m, pdp, 2), UserUses(m, p.root), f);
    }
  }

  lemma {:induction false} PdpLeavesCounted(m: Memory, p: Page, q: Page)
    requires OnPath(m, p) && OnPath(m, q) && p.root == q.root && p.i == q.i && p != q && FrameOf(m, p) == FrameOf(m, q)
    ensures Tree(m, Entries(m, p.root)[p.i].addr, 2)[FrameOf(m, p)] > 1
  {
    hide Uses, Tree;
    var f, pdp := FrameOf(m, p), Entries(m, p.root)[p.i].addr;
    var es := Entries(m, pdp);
    LeafCounted(m, p);
    LeafCounted(m, q);
    TreeRoot(m, pdp, 2);
    SubCount(Uses(m, es, ENTRIES, 1), Tree(m, pdp, 2), f);
    if p.j != q.j {
      var x, y := if p.j < q.j then p.j else q.j, if p.j < q.j then q.j else p.j;
      TwoMembers(m, es, ENTRIES, x, y, 1);
      SubCount(Tree(m, es[x].addr, 1) + Tree(m, es[y].addr, 1), Uses(m, es, ENTRIES, 1), f);
    } else {
      PdLeavesCounted(m, p, q);
      UsesMember(m, es, ENTRIES, p.j, 1);
      SubCount(Tree(m, es[p.j].addr, 1), Uses(m, es, ENTRIES, 1), f);
    }
  }

  lemma {:induction false} PdLeavesCounted(m: Memory, p: Page, q: Page)
    requires OnPath(m, p) && OnPath(m, q) && p.root == q.root && p.i == q.i && p.j == q.j && p != q
    requires FrameOf(m, p) == FrameOf(m, q)
    ensures Tree(m, Entries(m, Entries(m, p.root)[p.i].addr)[p.j].addr, 1)[FrameOf(m, p)] > 1
  {
    hide Uses, Tree;
    var f, pd := FrameOf(m, p), Entries(m, Entries(m, p.root)[p.i].addr)[p.j].addr;
    var es := Entries(m, pd);
    TreeRoot(m, pd, 1);
    TreeRoot(m, f, 0);
    var x, y := if p.k < q.k then p.k else q.k, if p.k < q.k then q.k else p.k;
    TwoMembers(m, es, ENTRIES, x, y, 0);
    SubCount(Tree(m, es[x].addr, 0) + Tree(m, es[y].addr, 0), Uses(m, es, ENTRIES, 0), f);
    SubCount(Uses(m, es, ENTRIES, 0), Tree(m, pd, 1), f);
  }

  /** The pages of a clone are on frames that were free before, no two on the same. */
  lemma {:induction false} CloneFramesFresh(c0: seq<nat>, c: seq<nat>, m: Memory, d: int, p: Page, q: Page)
    requires Grew(c0, c, UserUses(m, d) + multiset{d}) && OnPath(m, p) && OnPath(m, q) && p.root == q.root == d
    ensures 0 < FrameOf(m, p) < |c0| && c0[FrameOf(m, p)] == 0 && FrameOf(m, p) != d
    ensures p != q ==> FrameOf(m, p) != FrameOf(m, q)
  {
    hide Uses, Tree;
    var u, f := UserUses(m, d) + multiset{d}, FrameOf(m, p);
    LeafCounted(m, p);
    assert u[f] > 0;
    assert GrewAt(c0, c, u, f);
    if p != q && f == FrameOf(m, q) { LeavesCounted(m, p, q); }
  }

  // ---- Emptying tables ------------------------------------------------------------------------------------------

  /** Counts are bytes: one less than 0 is 255. */
  ghost predicate LoweredAt(c: seq<nat>, c': seq<nat>, u: multiset<int>, f: int)
    requires 0 <= f < |c| == |c'|
  {
    c'[f] == (c[f] as int - u[f] as int) % 256
  }

  ghost predicate Lowered(c: seq<nat>, c': seq<nat>, u: multiset<int>) {
    |c'| == |c| && forall f {:trigger LoweredAt(c, c', u, f)} :: 0 <= f < |c| ==> LoweredAt(c, c', u, f)
  }

  ghost predicate Bytes(c: seq<nat>) {
    forall f {:trigger c[f]} :: 0 <= f < |c| ==> c[f] < 256
  }

  lemma {:induction false} LoweredNothing(c: seq<nat>)
    requires Bytes(c)
    ensures Lowered(c, c, multiset{})
  {}

  lemma {:induction false} LoweredMore(c: seq<nat>, c1: seq<nat>, c2: seq<nat>, u: multiset<int>, v: multiset<int>)
    requires Lowered(c, c1, u) && Lowered(c1, c2, v)
    ensures Lowered(c, c2, u + v)
  {
    var w := u + v;
    forall f | 0 <= f < |c| ensures LoweredAt(c, c2, w, f) {
      assert LoweredAt(c, c1, u, f) && LoweredAt(c1, c2, v, f);
      ModTwice(c[f], u[f], v[f]);
    }
  }

  lemma {:induction false} ModTwice(a: int, b: int, d: int)
    ensures ((a - b) % 256 - d) % 256 == (a - (b + d)) % 256
  {}

  lemma {:induction false} LoweredOne(c: seq<nat>, f: int)
    requires Bytes(c) && 0 <= f < |c|
    ensures Lowered(c, c[f := (c[f] + 255) % 256], multiset{f})
  {
    var c', u := c[f := (c[f] + 255) % 256], multiset{f};
    forall g | 0 <= g < |c| ensures LoweredAt(c, c', u, g) {}
  }

  lemma {:induction false} LoweredBytes(c: seq<nat>, c': seq<nat>, u: multiset<int>)
    requires Lowered(c, c', u)
    ensures Bytes(c')
  {
    forall f | 0 <= f < |c'| ensures c'[f] < 256 { assert LoweredAt(c, c', u, f); }
  }

  /** Level-0 uses do not depend on memory. */
  lemma {:induction false} LeafUsesSame(m: Memory, m': Memory, es: seq<Entry>, n: nat)
    requires n <= |es|
    ensures Uses(m', es, n, 0) == Uses(m, es, n, 0)
  {
    if n > 0 { LeafUsesSame(m, m', es, n - 1); }
  }

  /** `pma_free(addr, KMEM_PAGE_SIZE)` for one frame. */
  method Free(vm: Vm, f: int)
    requires Bytes(vm.counts) && 0 <= f < |vm.counts|
    modifies vm`counts
    ensures Lowered(old(vm.counts), vm.counts, multiset{f}) && Bytes(vm.counts)
  {
    LoweredOne(vm.counts, f);
    LoweredBytes(vm.counts, vm.counts[f := (vm.counts[f] + 255) % 256], multiset{f});
    vm.counts := vm.counts[f := (vm.counts[f] + 255) % 256];
  }

  /** The frames that the present entries lead to exist. */
  ghost predicate InMemory(m: Memory, es: seq<Entry>, n: nat) {
    forall x {:trigger es[x]} :: 0 <= x < n && x < |es| && es[x].present ==> 0 <= es[x].addr < |m|
  }

  /** Frame `f` may differ. */
  ghost predicate OnlyFrame(m: Memory, m': Memory, f: int) {
    |m'| == |m| && forall g {:trigger m'[g]} :: 0 <= g < |m| && g != f ==> m'[g] == m[g]
  }

  /** `vm_empty_pd`. */
  method EmptyPd(vm: Vm, f: int)
    requires |vm.counts| == |vm.mem| && Bytes(vm.counts) && IsTable(vm.mem, f)
    requires InMemory(vm.mem, Entries(vm.mem, f), ENTRIES)
    modifies vm`counts, vm`mem
    ensures Lowered(old(vm.counts), vm.counts, Uses(old(vm.mem), Entries(old(vm.mem), f), ENTRIES, 0))
    ensures Bytes(vm.counts)
    ensures OnlyFrame(old(vm.mem), vm.mem, f) && IsTable(vm.mem, f)
    ensures forall k {:trigger Entries(vm.mem, f)[k]} :: 0 <= k < ENTRIES ==> !Entries(vm.mem, f)[k].present
  {
    hide Lowered, Uses, Bytes;
    ghost var c0, m0, es := vm.counts, vm.mem, Entries(vm.mem, f);
    LoweredNothing(c0);
    UsesNone(m0, es, 0);
    for k := 0 to ENTRIES
      invariant |vm.counts| == |c0| && Bytes(vm.counts) && Lowered(c0, vm.counts, Uses(m0, es, k, 0))
      invariant OnlyFrame(m0, vm.mem, f) && IsTable(vm.mem, f)
      invariant forall x {:trigger Entries(vm.mem, f)[x]} :: 0 <= x < k ==> !Entries(vm.mem, f)[x].present
      invariant forall x {:trigger Entries(vm.mem, f)[x]} :: k <= x < ENTRIES ==> Entries(vm.mem, f)[x] == es[x]
    {
      assert Entries(vm.mem, f)[k] == es[k];
      UsesNext(m0, es, k, 0);
      if vm.mem[f].entries[k].present {
        LeafTree(m0, es[k].addr);
        ghost var c := vm.counts;
        Free(vm, vm.mem[f].entries[k].addr);
        LoweredMore(c0, c, vm.counts, Uses(m0, es, k, 0), multiset{es[k].addr});
        LoweredLength(c0, vm.counts, Uses(m0, es, k + 1, 0));
        vm.mem := Store(vm.mem, f, k, vm.mem[f].entries[k].(present := false));
      }
    }
  }

  lemma {:induction false} LoweredLength(c: seq<nat>, c': seq<nat>, u: multiset<int>)
    requires Lowered(c, c', u)
    ensures |c'| == |c|
  {}

  lemma {:induction false} UsesNone(m: Memory, es: seq<Entry>, level: nat)
    ensures Uses(m, es, 0, level) == multiset{}
  {}

  lemma {:induction false} UsesNext(m: Memory, es: seq<Entry>, n: nat, level: nat)
    requires n < |es|
    ensures Uses(m, es, n + 1, level)
            == Uses(m, es, n, level) + if es[n].present then Tree(m, es[n].addr, level) else multiset{}
    ensures !es[n].present ==> Uses(m, es, n + 1, level) == Uses(m, es, n, level)
  {}

  lemma {:induction false} LeafTree(m: Memory, a: int)
    ensures Tree(m, a, 0) == multiset{a}
  {}

  // ---- Emptying trees of tables -----------------------------------------------------------------------------

  /** A table that lost entries. */
  ghost predicate Thinned(m: Memory, m': Memory, g: int) {
    && IsTable(m', g)
    && forall x {:trigger Entries(m', g)[x]} :: 0 <= x < ENTRIES ==>
         Entries(m', g)[x] == Entries(m, g)[x] || !Entries(m', g)[x].present
  }

  lemma {:induction false} ThinnedTable(m: Memory, m': Memory, o: Owner, g: int)
    requires g in o && TableOk(m, o, g) && Thinned(m, m', g)
    ensures TableOk(m', o, g)
  {
    match o[g].node
    case Root =>
      forall i | 0 <= i < USER_ENTRIES ensures ChildOk(o, m'[g].entries[i], Place(g, Pdp(i))) {
        assert ChildOk(o, m[g].entries[i], Place(g, Pdp(i)));
        assert Entries(m', g)[i] == m'[g].entries[i];
      }
    case Pdp(i) =>
      forall j | 0 <= j < ENTRIES ensures ChildOk(o, m'[g].entries[j], Place(o[g].root, Pd(i, j))) {
        assert ChildOk(o, m[g].entries[j], Place(o[g].root, Pd(i, j)));
        assert Entries(m', g)[j] == m'[g].entries[j];
      }
    case Pd(_, _) =>
  }

  lemma {:induction false} ThinnedTables(m: Memory, m': Memory, o: Owner, f: int)
    requires Tables(m, o) && f in o && OnlyFrame(m, m', f) && Thinned(m, m', f)
    ensures Tables(m', o)
  {
    forall g | g in o ensures TableOk(m', o, g) {
      assert TableOk(m, o, g);
      if g == f { ThinnedTable(m, m', o, g); }
    }
  }

  /** Place `p` is in the subtree of entry `i` of root `r`. */
  ghost predicate InSub(p: Place, r: int, i: int) {
    p.root == r && (p.node == Pdp(i) || (p.node.Pd? && p.node.i == i))
  }

  /** Memory changed at most in tables of that subtree. */
  ghost predicate OnlySub(m: Memory, m': Memory, o: Owner, r: int, i: int) {
    |m'| == |m| && forall g {:trigger m'[g]} :: 0 <= g < |m| && !(g in o && InSub(o[g], r, i)) ==> m'[g] == m[g]
  }

  /** The leaf tables below entries `j` and above are as they were. */
  ghost predicate LaterKept(m: Memory, m': Memory, o: Owner, r: int, i: int, j: int) {
    |m'| == |m| && forall g {:trigger m'[g]} :: g in o && 0 <= g < |m| && LaterPd(o[g], r, i, j) ==> m'[g] == m[g]
  }

  ghost predicate LaterPd(p: Place, r: int, i: int, j: int) {
    p.root == r && p.node.Pd? && p.node.i == i && p.node.j >= j
  }

  /** What is left to do at entry `j`. */
  ghost predicate Emptying(c0: seq<nat>, m0: Memory, vm: Vm, f: int, r: int, i: int, j: nat)
    requires j <= ENTRIES
    reads vm
  {
    && |vm.counts| == |vm.mem| == |m0| && Bytes(vm.counts) && Tables(vm.mem, vm.owner)
    && Lowered(c0, vm.counts, Uses(m0, Entries(m0, f), j, 1))
    && OnlySub(m0, vm.mem, vm.owner, r, i) && LaterKept(m0, vm.mem, vm.owner, r, i, j) && IsTable(vm.mem, f)
    && (forall x {:trigger Entries(vm.mem, f)[x]} :: j <= x < ENTRIES ==> Entries(vm.mem, f)[x] == Entries(m0, f)[x])
  }

  /** All frames of a tree exist. */
  ghost predicate Exist(m: Memory, u: multiset<int>) {
    forall g {:trigger u[g]} :: u[g] > 0 ==> 0 <= g < |m|
  }

  lemma {:induction false} ExistSub(m: Memory, u: multiset<int>, v: multiset<int>)
    requires Exist(m, u) && v <= u
    ensures Exist(m, v)
  {
    forall g | v[g] > 0 ensures 0 <= g < |m| { assert u[g] >= v[g]; }
  }

  lemma {:induction false} ExistEntries(m: Memory, es: seq<Entry>, n: nat, level: nat)
    requires n <= |es| && Exist(m, Uses(m, es, n, level))
    ensures InMemory(m, es, n)
  {
    hide Uses, Tree;
    forall x | 0 <= x < n && es[x].present ensures 0 <= es[x].addr < |m| {
      UsesMember(m, es, n, x, level);
      TreeRoot(m, es[x].addr, level);
      SubCount(Tree(m, es[x].addr, level), Uses(m, es, n, level), es[x].addr);
    }
  }

  /** One round of the loop of `vm_empty_pdp`. */
  method EmptyPdpEntry(vm: Vm, f: int, ghost r: int, ghost i: int, j: nat, ghost c0: seq<nat>, ghost m0: Memory)
    requires j < ENTRIES && Emptying(c0, m0, vm, f, r, i, j) && f in vm.owner && vm.owner[f] == Place(r, Pdp(i))
    requires Exist(m0, Uses(m0, Entries(m0, f), ENTRIES, 1))
    modifies vm`counts, vm`mem
    ensures Emptying(c0, m0, vm, f, r, i, j + 1)
  {
    hide Lowered, Uses, Tree, Bytes, Exist, Tables;
    ghost var c, m, es := vm.counts, vm.mem, Entries(m0, f);
    assert Entries(vm.mem, f)[j] == es[j];
    UsesNext(m0, es, j, 1);
    if vm.mem[f].entries[j].present {
      var pd := vm.mem[f].entries[j].addr;
      PdBelow(m, vm.owner, f, r, i, j);
      PdLeaves(m0, m, es, j, pd);
      EmptyPd(vm, pd);
      ghost var c1, m1 := vm.counts, vm.mem;
      LoweredLength(c, c1, Uses(m, Entries(m, pd), ENTRIES, 0));
      Free(vm, pd);
      LoweredLength(c1, vm.counts, multiset{pd});
      vm.mem := Store(vm.mem, f, j, vm.mem[f].entries[j].(present := false));
      EmptiedPd(c0, c, c1, vm.counts, m0, m, es, j, pd);
      ThinTwice(m, m1, vm.mem, vm.owner, pd, f, j);
    }
  }

  lemma {:induction false} PdBelow(m: Memory, o: Owner, f: int, r: int, i: int, j: nat)
    requires Tables(m, o) && f in o && o[f] == Place(r, Pdp(i)) && IsTable(m, f) && j < ENTRIES
    requires m[f].entries[j].present
    ensures var pd := m[f].entries[j].addr;
            pd in o && o[pd] == Place(r, Pd(i, j)) && IsTable(m, pd) && pd != f
  {
    assert TableOk(m, o, f);
    assert ChildOk(o, m[f].entries[j], Place(r, Pd(i, j)));
    assert TableOk(m, o, m[f].entries[j].addr);
  }

  /** The leaf table about to be emptied is as it was at the start, and its pages exist. */
  lemma {:induction false} PdLeaves(m0: Memory, m: Memory, es: seq<Entry>, j: nat, pd: int)
    requires j < ENTRIES == |es| && es[j].present && es[j].addr == pd && Exist(m0, Uses(m0, es, ENTRIES, 1))
    requires |m| == |m0| && 0 <= pd < |m| && m[pd] == m0[pd]
    ensures Entries(m, pd) == Entries(m0, pd) && InMemory(m, Entries(m, pd), ENTRIES)
  {
    hide Uses, Tree;
    UsesMember(m0, es, ENTRIES, j, 1);
    ExistSub(m0, Uses(m0, es, ENTRIES, 1), Tree(m0, pd, 1));
    TreeRoot(m0, pd, 1);
    ExistSub(m0, Tree(m0, pd, 1), Uses(m0, Entries(m0, pd), ENTRIES, 0));
    ExistEntries(m0, Entries(m0, pd), ENTRIES, 0);
  }

  lemma {:induction false} EmptiedPd(c0: seq<nat>, c: seq<nat>, c1: seq<nat>, c2: seq<nat>, m0: Memory, m: Memory,
                                     es: seq<Entry>, j: nat, pd: int)
    requires j < |es| && es[j].present && es[j].addr == pd && Entries(m, pd) == Entries(m0, pd)
    requires Lowered(c0, c, Uses(m0, es, j, 1)) && Lowered(c, c1, Uses(m, Entries(m, pd), ENTRIES, 0))
    requires Lowered(c1, c2, multiset{pd})
    ensures Lowered(c0, c2, Uses(m0, es, j + 1, 1))
  {
    hide Lowered, Uses;
    LeafUsesSame(m0, m, Entries(m, pd), ENTRIES);
    LoweredMore(c, c1, c2, Uses(m, Entries(m, pd), ENTRIES, 0), multiset{pd});
    LoweredMore(c0, c, c2, Uses(m0, es, j, 1), Tree(m0, pd, 1));
    UsesNext(m0, es, j, 1);
  }

  lemma {:induction false} ThinTwice(m: Memory, m1: Memory, m2: Memory, o: Owner, pd: int, f: int, j: nat)
    requires Tables(m, o) && pd in o && f in o && pd != f && IsTable(m, f) && IsTable(m, pd) && j < ENTRIES
    requires OnlyFrame(m, m1, pd) && IsTable(m1, pd)
    requires forall k {:trigger Entries(m1, pd)[k]} :: 0 <= k < ENTRIES ==> !Entries(m1, pd)[k].present
    requires IsTable(m1, f) && m2 == Store(m1, f, j, m1[f].entries[j].(present := false))
    ensures Tables(m2, o)
  {
    ThinnedTables(m, m1, o, pd);
    ThinnedTables(m1, m2, o, f);
  }

  /** `vm_empty_pdp`. */
  method EmptyPdp(vm: Vm, f: int, ghost r: int, ghost i: int)
    requires |vm.counts| == |vm.mem| && Bytes(vm.counts) && Tables(vm.mem, vm.owner)
    requires f in vm.owner && vm.owner[f] == Place(r, Pdp(i))
    requires Exist(vm.mem, Uses(vm.mem, Entries(vm.mem, f), ENTRIES, 1))
    modifies vm`counts, vm`mem
    ensures |vm.counts| == |vm.mem| && Bytes(vm.counts) && Tables(vm.mem, vm.owner)
    ensures Lowered(old(vm.counts), vm.counts, Uses(old(vm.mem), Entries(old(vm.mem), f), ENTRIES, 1))
    ensures OnlySub(old(vm.mem), vm.mem, vm.owner, r, i)
  {
    hide Lowered, Uses, Bytes, Exist;
    ghost var c0, m0 := vm.counts, vm.mem;
    assert TableOk(vm.mem, vm.owner, f);
    LoweredNothing(c0);
    UsesNone(m0, Entries(m0, f), 1);
    for j := 0 to ENTRIES
      invariant Emptying(c0, m0, vm, f, r, i, j)
    {
      EmptyPdpEntry(vm, f, r, i, j, c0, m0);
    }
  }

  /** The subtrees of entries `n` and above are as they were. */
  ghost predicate SubsKept(m: Memory, m': Memory, o: Owner, r: int, n: int) {
    |m'| == |m| && forall g {:trigger m'[g]} :: g in o && 0 <= g < |m| && LaterSub(o[g], r, n) ==> m'[g] == m[g]
  }

  ghost predicate LaterSub(p: Place, r: int, n: int) {
    p.root == r && match p.node case Root => false case Pdp(i) => i >= n case Pd(i, _) => i >= n
  }

  /** Only tables of address space `r` differ. */
  ghost predicate OnlySpace(m: Memory, m': Memory, o: Owner, r: int) {
    |m'| == |m| && forall g {:trigger m'[g]} :: 0 <= g < |m| && !(g in o && o[g].root == r) ==> m'[g] == m[g]
  }

  ghost predicate Destroying(c0: seq<nat>, m0: Memory, vm: Vm, r: int, n: nat)
    requires n <= USER_ENTRIES
    reads vm
  {
    && |vm.counts| == |vm.mem| == |m0| && Bytes(vm.counts) && Tables(vm.mem, vm.owner)
    && Lowered(c0, vm.counts, Uses(m0, Entries(m0, r), n, 2))
    && OnlySpace(m0, vm.mem, vm.owner, r) && SubsKept(m0, vm.mem, vm.owner, r, n) && IsTable(vm.mem, r)
    && (forall x {:trigger Entries(vm.mem, r)[x]} :: 0 <= x < n ==> !Entries(vm.mem, r)[x].present)
    && (forall x {:trigger Entries(vm.mem, r)[x]} :: n <= x < ENTRIES ==> Entries(vm.mem, r)[x] == Entries(m0, r)[x])
  }

  /** A subtree whose tables did not change still uses the same frames. */
  lemma {:induction false} SubUses(m0: Memory, m: Memory, o: Owner, r: int, i: int, pdp: int, n: nat)
    requires Tables(m, o) && pdp in o && o[pdp] == Place(r, Pdp(i)) && SubsKept(m0, m, o, r, i) && n <= ENTRIES
    ensures Entries(m, pdp) == Entries(m0, pdp) && Uses(m, Entries(m, pdp), n, 1) == Uses(m0, Entries(m0, pdp), n, 1)
  {
    hide Tree, Uses;
    assert TableOk(m, o, pdp);
    var es := Entries(m, pdp);
    if n == 0 {
      UsesNone(m, es, 1);
      UsesNone(m0, es, 1);
    } else {
      SubUses(m0, m, o, r, i, pdp, n - 1);
      UsesNext(m, es, n - 1, 1);
      UsesNext(m0, es, n - 1, 1);
      if es[n - 1].present {
        PdBelow(m, o, pdp, r, i, n - 1);
        PdTreeSame(m0, m, es[n - 1].addr);
      }
    }
  }

  lemma {:induction false} PdTreeSame(m0: Memory, m: Memory, pd: int)
    requires Entries(m, pd) == Entries(m0, pd)
    ensures Tree(m, pd, 1) == Tree(m0, pd, 1)
  {
    hide Uses;
    LeafUsesSame(m0, m, Entries(m, pd), ENTRIES);
  }

  lemma {:induction false} PdpBelow(m: Memory, o: Owner, r: int, n: nat)
    requires Tables(m, o) && IsSpace(o, r) && IsTable(m, r) && n < USER_ENTRIES && m[r].entries[n].present
    ensures var pdp := m[r].entries[n].addr;
            pdp in o && o[pdp] == Place(r, Pdp(n)) && IsTable(m, pdp) && pdp != r
  {
    assert TableOk(m, o, r);
    assert ChildOk(o, m[r].entries[n], Place(r, Pdp(n)));
    assert TableOk(m, o, m[r].entries[n].addr);
  }

  /** One round of the loop of `vm_empty_userland`. */
  method EmptyUserEntry(vm: Vm, r: int, n: nat, ghost c0: seq<nat>, ghost m0: Memory)
    requires n < USER_ENTRIES && Destroying(c0, m0, vm, r, n) && IsSpace(vm.owner, r) && Exist(m0, UserUses(m0, r))
    modifies vm`counts, vm`mem
    ensures Destroying(c0, m0, vm, r, n + 1)
  {
    hide Lowered, Uses, Tree, Bytes, Exist, Tables;
    ghost var c, m, es := vm.counts, vm.mem, Entries(m0, r);
    assert Entries(vm.mem, r)[n] == es[n];
    UsesNext(m0, es, n, 2);
    if vm.mem[r].entries[n].present {
      var pdp := vm.mem[r].entries[n].addr;
      PdpBelow(m, vm.owner, r, n);
      SubUses(m0, m, vm.owner, r, n, pdp, ENTRIES);
      SubExists(m0, m, es, n, pdp);
      EmptyPdp(vm, pdp, r, n);
      ghost var c1, m1 := vm.counts, vm.mem;
      vm.mem := Store(vm.mem, r, n, vm.mem[r].entries[n].(present := false));
      Free(vm, pdp);
      LoweredLength(c1, vm.counts, multiset{pdp});
      EmptiedPdp(c0, c, c1, vm.counts, m0, es, n, pdp);
      ThinnedTables(m1, vm.mem, vm.owner, r);
    }
  }

  lemma {:induction false} SubExists(m0: Memory, m: Memory, es: seq<Entry>, n: nat, pdp: int)
    requires n < USER_ENTRIES <= |es| && es[n].present && es[n].addr == pdp && Exist(m0, Uses(m0, es, USER_ENTRIES, 2))
    requires |m| == |m0|
    requires Uses(m, Entries(m, pdp), ENTRIES, 1) == Uses(m0, Entries(m0, pdp), ENTRIES, 1)
    ensures Exist(m, Uses(m, Entries(m, pdp), ENTRIES, 1))
  {
    hide Uses, Tree;
    UsesMember(m0, es, USER_ENTRIES, n, 2);
    ExistSub(m0, Uses(m0, es, USER_ENTRIES, 2), Tree(m0, pdp, 2));
    TreeRoot(m0, pdp, 2);
    ExistSub(m0, Tree(m0, pdp, 2), Uses(m0, Entries(m0, pdp), ENTRIES, 1));
  }

  lemma {:induction false} EmptiedPdp(c0: seq<nat>, c: seq<nat>, c1: seq<nat>, c2: seq<nat>, m0: Memory, es: seq<Entry>,
                                      n: nat, pdp: int)
    requires n < |es| && es[n].present && es[n].addr == pdp
    requires Lowered(c0, c, Uses(m0, es, n, 2)) && Lowered(c, c1, Uses(m0, Entries(m0, pdp), ENTRIES, 1))
    requires Lowered(c1, c2, multiset{pdp})
    ensures Lowered(c0, c2, Uses(m0, es, n + 1, 2))
  {
    hide Lowered, Uses;
    LoweredMore(c, c1, c2, Uses(m0, Entries(m0, pdp), ENTRIES, 1), multiset{pdp});
    LoweredMore(c0, c, c2, Uses(m0, es, n, 2), Tree(m0, pdp, 2));
    UsesNext(m0, es, n, 2);
  }

  /** The tables and pages of all spaces but `r`. */
  ghost function OtherTables(o: Owner, r: int): Owner {
    map f | f in o && o[f].root != r :: o[f]
  }

  ghost function OtherPages(v: View, r: int): View {
    map p | p in v && p.root != r :: v[p]
  }

  /** No page of `r` shares its frame with a page of another space. */
  ghost predicate Unshared(v: View, r: int) {
    forall p, q {:trigger p in v, q in v} :: p in v && q in v && p.root == r && q.root != r ==> v[p].addr != v[q].addr
  }

  /** Frame `f` is still counted, as a byte, when the references in `u` are gone. */
  ghost predicate Outlasts(c: seq<nat>, u: multiset<int>, f: int) {
    0 <= f < |c| && (c[f] as int - u[f] as int) % 256 != 0
  }

  /** The frames of the pages of all spaces but `r` outlast it. */
  ghost predicate OthersLast(c: seq<nat>, m: Memory, v: View, r: int) {
    forall q {:trigger q in v} :: q in v && q.root != r ==> Outlasts(c, UserUses(m, r), v[q].addr)
  }

  /** `vm_address_space_destroy`: every reference from the user half is dropped. The root table's own
      frame stays counted. The other spaces are as they were. */
  method Destroy(vm: Vm, r: int)
    requires vm.Valid() && IsSpace(vm.owner, r) && Exist(vm.mem, UserUses(vm.mem, r))
    modifies vm
    ensures Lowered(old(vm.counts), vm.counts, UserUses(old(vm.mem), r))
    ensures OnlySpace(old(vm.mem), vm.mem, old(vm.owner), r)
    ensures forall i :: 0 <= i < USER_ENTRIES ==> !EntryAt(vm.mem, r, i).present
    ensures vm.owner == OtherTables(old(vm.owner), r) && vm.view == OtherPages(old(vm.view), r)
    ensures old(vm.Quiet()) ==> vm.Valid()
    ensures old(vm.Quiet()) ==> (vm.Quiet() <==> OthersLast(old(vm.counts), old(vm.mem), old(vm.view), r))
    ensures old(vm.Quiet()) && Unshared(old(vm.view), r) ==> vm.Quiet()
  {
    hide Lowered, Uses, Exist, Viewed, Settled, OtherTables, OtherPages, Unshared, OthersLast;
    ghost var c0, m0, o0, v0 := vm.counts, vm.mem, vm.owner, vm.view;
    assert TableOk(vm.mem, vm.owner, r);
    LoweredNothing(c0);
    UsesNone(m0, Entries(m0, r), 2);
    for n := 0 to USER_ENTRIES
      invariant Destroying(c0, m0, vm, r, n) && vm.owner == o0 && vm.view == v0
    {
      EmptyUserEntry(vm, r, n, c0, m0);
    }
    forall i | 0 <= i < USER_ENTRIES ensures !EntryAt(vm.mem, r, i).present { assert !Entries(vm.mem, r)[i].present; }
    if Settled(c0, o0, v0) {
      OthersSound(c0, m0, o0, v0, vm.counts, vm.mem, r);
      OthersSettled(c0, m0, o0, v0, vm.counts, r);
      if Unshared(v0, r) { UnsharedLast(c0, m0, o0, v0, r); }
    }
    vm.owner, vm.view := OtherTables(o0, r), OtherPages(v0, r);
  }

  /** No table of another space is among the frames that `r` uses. */
  lemma {:induction false} TableNotUsed(c0: seq<nat>, m0: Memory, o: Owner, v: View, r: int, f: int)
    requires Sound(c0, m0, o, v) && Settled(c0, o, v) && IsSpace(o, r) && f in o && o[f].root != r
    ensures UserUses(m0, r)[f] == 0
  {
    hide Uses, Sound;
    if UserUses(m0, r)[f] > 0 {
      var p := UsedFrame(m0, r, f);
      PathSeen(c0, m0, o, v, p);
    }
  }

  lemma {:induction false} OthersSound(c0: seq<nat>, m0: Memory, o: Owner, v: View, c: seq<nat>, m: Memory, r: int)
    requires Sound(c0, m0, o, v) && Settled(c0, o, v) && IsSpace(o, r)
    requires Lowered(c0, c, UserUses(m0, r)) && Bytes(c) && OnlySpace(m0, m, o, r)
    ensures Sound(c, m, OtherTables(o, r), OtherPages(v, r))
  {
    hide Uses, Viewed, Tables;
    var o', v' := OtherTables(o, r), OtherPages(v, r);
    forall f | f in o' ensures Counted(c, f) && Counted(c, o'[f].root) {
      StillCountedTable(c0, m0, o, v, c, r, f);
      assert IsSpace(o, o[f].root);
      StillCountedTable(c0, m0, o, v, c, r, o[f].root);
    }
    OthersTables(m0, m, o, r);
    OthersViewed(c0, m0, o, v, m, r);
  }

  lemma {:induction false} StillCountedTable(c0: seq<nat>, m0: Memory, o: Owner, v: View, c: seq<nat>, r: int, f: int)
    requires Sound(c0, m0, o, v) && Settled(c0, o, v) && IsSpace(o, r) && f in o && o[f].root != r
    requires Lowered(c0, c, UserUses(m0, r))
    ensures Counted(c, f)
  {
    hide Uses, Viewed, Tables, Settled;
    TableNotUsed(c0, m0, o, v, r, f);
    assert Counted(c0, f);
    assert LoweredAt(c0, c, UserUses(m0, r), f);
  }

  lemma {:induction false} OthersTables(m0: Memory, m: Memory, o: Owner, r: int)
    requires Tables(m0, o) && OnlySpace(m0, m, o, r)
    ensures Tables(m, OtherTables(o, r))
  {
    var o' := OtherTables(o, r);
    forall f | f in o' ensures TableOk(m, o', f) {
      assert TableOk(m0, o, f);
      assert m[f] == m0[f];
    }
  }

  lemma {:induction false} OthersViewed(c0: seq<nat>, m0: Memory, o: Owner, v: View, m: Memory, r: int)
    requires Sound(c0, m0, o, v) && OnlySpace(m0, m, o, r)
    ensures Viewed(m, OtherTables(o, r), OtherPages(v, r))
  {
    hide Sound;
    var o', v' := OtherTables(o, r), OtherPages(v, r);
    forall p | UserPage(p) && IsSpace(o', p.root) ensures Shows(m, v', p) {
      assert IsSpace(o, p.root);
      ShownAt(c0, m0, o, v, p);
    }
    forall p | p in v' ensures UserPage(p) && IsSpace(o', p.root) { SeenPage(c0, m0, o, v, p); }
  }

  lemma {:induction false} OthersSettled(c0: seq<nat>, m0: Memory, o: Owner, v: View, c: seq<nat>, r: int)
    requires Settled(c0, o, v) && Lowered(c0, c, UserUses(m0, r))
    ensures Settled(c, OtherTables(o, r), OtherPages(v, r)) <==> OthersLast(c0, m0, v, r)
  {
    hide Uses;
    var o', v', u := OtherTables(o, r), OtherPages(v, r), UserUses(m0, r);
    forall f | f in o' ensures IsSpace(o', o'[f].root) { assert IsSpace(o, o[f].root); }
    forall q | q in v && q.root != r ensures PageSettled(c, o', v[q], q.root) <==> Outlasts(c0, u, v[q].addr) {
      assert PageSettled(c0, o, v[q], q.root);
      assert LoweredAt(c0, c, u, v[q].addr);
    }
    assert forall q :: q in v' <==> q in v && q.root != r;
  }

  /** Without shared frames this is always so. */
  lemma {:induction false} UnsharedLast(c0: seq<nat>, m0: Memory, o: Owner, v: View, r: int)
    requires Sound(c0, m0, o, v) && Settled(c0, o, v) && IsSpace(o, r) && Unshared(v, r)
    ensures OthersLast(c0, m0, v, r)
  {
    hide Uses, Sound;
    forall q | q in v && q.root != r ensures Outlasts(c0, UserUses(m0, r), v[q].addr) {
      assert PageSettled(c0, o, v[q], q.root);
      FrameNotUsed(c0, m0, o, v, r, q);
      ByteCount(c0, m0, o, v, v[q].addr);
    }
  }

  lemma {:induction false} ByteCount(c0: seq<nat>, m0: Memory, o: Owner, v: View, f: int)
    requires Sound(c0, m0, o, v) && 0 <= f < |c0|
    ensures c0[f] < 256
  {}

  lemma {:induction false} FrameNotUsed(c0: seq<nat>, m0: Memory, o: Owner, v: View, r: int, q: Page)
    requires Sound(c0, m0, o, v) && Settled(c0, o, v) && IsSpace(o, r) && Unshared(v, r) && q in v && q.root != r
    ensures UserUses(m0, r)[v[q].addr] == 0
  {
    hide Uses, Sound;
    var g := v[q].addr;
    assert PageSettled(c0, o, v[q], q.root);
    if UserUses(m0, r)[g] > 0 {
      var p := UsedFrame(m0, r, g);
      PathSeen(c0, m0, o, v, p);
    }
  }

  /** Cloning and destroying the clone: all counts are back, except that the root table's frame leaks
      one, and the spaces that were there before are as they were. */
  lemma {:induction false} CloneThenDestroy(c0: seq<nat>, m0: Memory, o0: Owner, v0: View, d: int,
                                            c1: seq<nat>, m1: Memory, o1: Owner, c2: seq<nat>, m2: Memory)
    requires Sound(c0, m0, o0, v0)
    requires Grew(c0, c1, UserUses(m1, d) + multiset{d}) && Untouched(c0, m0, m1)
    requires Lowered(c1, c2, UserUses(m1, d)) && OnlySpace(m1, m2, o1, d)
    requires TablesFresh(c0, o1, d)
    ensures |c2| == |c0| && 0 < d < |c0| && c0[d] == 0 && c2[d] == 1
    ensures forall f :: 0 <= f < |c0| && f != d ==> c2[f] == c0[f]
    ensures Sound(c2, m2, o0, v0)
  {
    hide Uses, Tables, Viewed;
    var u := UserUses(m1, d);
    assert (u + multiset{d})[d] > 0;
    forall f | 0 <= f < |c0| ensures c2[f] == if f == d then 1 else c0[f] {
      assert GrewAt(c0, c1, u + multiset{d}, f) && LoweredAt(c1, c2, u, f);
      assert c0[f] < 256;
    }
    assert GrewAt(c0, c1, u + multiset{d}, d);
    forall f | f in o0 && 0 < f < |m0| ensures m2[f] == m0[f] { assert Counted(c0, f); }
    forall f | 0 < f < |c2| && c0[f] > 0 ensures c2[f] > 0 {}
    OffTables(c0, m0, o0, v0, c2, m2);
  }

  /** A clone that is destroyed leaves everything as it was, but for the count of its root table's frame. */
  method CloneAndDestroy(vm: Vm, s: int, current: int, structOk: bool) returns (d: int)
    requires vm.Valid() && IsSpace(vm.owner, s) && IsTable(vm.mem, current) && Backed(vm.counts, vm.view, s)
    modifies vm
    ensures d != 0 <==> structOk && Reserved(old(vm.counts))
                        && |FreeFrames(old(vm.counts))| > |UserUses(old(vm.mem), s)|
    ensures d != 0 ==>
              && |vm.counts| == |old(vm.counts)| && 0 < d < |vm.counts| && old(vm.counts)[d] == 0 && vm.counts[d] == 1
              && (forall f :: 0 <= f < |vm.counts| && f != d ==> vm.counts[f] == old(vm.counts)[f])
              && Sound(vm.counts, vm.mem, old(vm.owner), old(vm.view))
  {
    hide Uses, Sound, Grew, Untouched, Lowered, OnlySpace, TablesFresh, PagesCopied, CopyView, Exist, NewOnes,
         OwnerGrew;
    ghost var c0, m0, o0, v0 := vm.counts, vm.mem, vm.owner, vm.view;
    d := SpaceClone.Clone(vm, s, current, structOk);
    if d == 0 { return; }
    ghost var c1, m1, o1 := vm.counts, vm.mem, vm.owner;
    CloneExists(c0, m0, c1, m1, d);
    Destroy(vm, d);
    CloneThenDestroy(c0, m0, o0, v0, d, c1, m1, o1, vm.counts, vm.mem);
  }

  lemma {:induction false} CloneExists(c0: seq<nat>, m0: Memory, c1: seq<nat>, m1: Memory, d: int)
    requires Grew(c0, c1, UserUses(m1, d) + multiset{d}) && Untouched(c0, m0, m1)
    ensures Exist(m1, UserUses(m1, d))
  {
    hide Uses;
    var u := UserUses(m1, d);
    forall g | u[g] > 0 ensures 0 <= g < |m1| { assert (u + multiset{d})[g] > 0; }
  }

  // ---- A shared page that is counted once ----------------------------------------------------------------------

  lemma {:induction false} UsesTwice(m: Memory, es: seq<Entry>, n: nat, level: nat, g: int) returns (x: nat, y: nat)
    requires n <= |es| && Uses(m, es, n, level)[g] >= 2
    ensures x < n && y < n && es[x].present && es[y].present
    ensures Tree(m, es[x].addr, level)[g] > 0 && Tree(m, es[y].addr, level)[g] > 0
    ensures x == y ==> Tree(m, es[x].addr, level)[g] >= 2
  {
    hide Tree;
    if es[n - 1].present && Tree(m, es[n - 1].addr, level)[g] >= 2 {
      x, y := n - 1, n - 1;
    } else if es[n - 1].present && Tree(m, es[n - 1].addr, level)[g] > 0 {
      x := UsesFrom(m, es, n - 1, level, g);
      y := n - 1;
    } else {
      x, y := UsesTwice(m, es, n - 1, level, g);
    }
  }

  lemma {:induction false} TreeTwice(m: Memory, f: int, level: nat, g: int)
    requires g != f
    ensures Tree(m, f, level)[g] == if level == 0 then 0 else Uses(m, Entries(m, f), ENTRIES, level - 1)[g]
  {
    hide Uses;
  }

  ghost predicate PageAt(m: Memory, p: Page, g: int) {
    UserPage(p) && OnPath(m, p) && FrameOf(m, p) == g
  }

  lemma {:induction false} PageInPd(m: Memory, r: int, i: nat, j: nat, g: int) returns (k: nat)
    requires i < USER_ENTRIES && j < ENTRIES && Entries(m, r)[i].present && Entries(m, Entries(m, r)[i].addr)[j].present
    requires var pd := Entries(m, Entries(m, r)[i].addr)[j].addr; g != pd && Tree(m, pd, 1)[g] > 0
    ensures k < ENTRIES && PageAt(m, Page(r, i, j, k), g)
  {
    hide Uses, Tree;
    var pd := Entries(m, Entries(m, r)[i].addr)[j].addr;
    TreeFrom(m, pd, 1, g);
    k := UsesFrom(m, Entries(m, pd), ENTRIES, 0, g);
    TreeFrom(m, Entries(m, pd)[k].addr, 0, g);
  }

  /** Frame `g` is none of the tables below entry `i` of root `r`. */
  ghost predicate NoTable(m: Memory, r: int, i: nat, g: int)
    requires i < USER_ENTRIES
  {
    var pdp := Entries(m, r)[i].addr;
    g != pdp && forall j {:trigger Entries(m, pdp)[j]} ::
      0 <= j < ENTRIES && Entries(m, pdp)[j].present ==> g != Entries(m, pdp)[j].addr
  }

  lemma {:induction false} PageInPdp(m: Memory, r: int, i: nat, g: int) returns (p: Page)
    requires i < USER_ENTRIES && Entries(m, r)[i].present && NoTable(m, r, i, g)
    requires Tree(m, Entries(m, r)[i].addr, 2)[g] > 0
    ensures p.root == r && p.i == i && PageAt(m, p, g)
  {
    hide Uses, Tree;
    var pdp := Entries(m, r)[i].addr;
    TreeFrom(m, pdp, 2, g);
    var j := UsesFrom(m, Entries(m, pdp), ENTRIES, 1, g);
    var k := PageInPd(m, r, i, j, g);
    p := Page(r, i, j, k);
  }

  lemma {:induction false} TwoInPdp(m: Memory, r: int, i: nat, g: int) returns (p: Page, q: Page)
    requires i < USER_ENTRIES && Entries(m, r)[i].present && NoTable(m, r, i, g)
    requires Tree(m, Entries(m, r)[i].addr, 2)[g] >= 2
    ensures p != q && p.root == q.root == r && PageAt(m, p, g) && PageAt(m, q, g)
  {
    hide Uses, Tree;
    var pdp := Entries(m, r)[i].addr;
    TreeTwice(m, pdp, 2, g);
    var j, j' := UsesTwice(m, Entries(m, pdp), ENTRIES, 1, g);
    if j != j' {
      var k := PageInPd(m, r, i, j, g);
      var k' := PageInPd(m, r, i, j', g);
      p, q := Page(r, i, j, k), Page(r, i, j', k');
    } else {
      var pd := Entries(m, pdp)[j].addr;
      TreeTwice(m, pd, 1, g);
      var k, k' := UsesTwice(m, Entries(m, pd), ENTRIES, 0, g);
      LeafTree(m, Entries(m, pd)[k].addr);
      LeafTree(m, Entries(m, pd)[k'].addr);
      p, q := Page(r, i, j, k), Page(r, i, j, k');
    }
  }

  lemma {:induction false} NoTableBelow(c: seq<nat>, m: Memory, o: Owner, v: View, r: int, i: nat, g: int)
    requires Sound(c, m, o, v) && IsSpace(o, r) && g !in o && i < USER_ENTRIES && Entries(m, r)[i].present
    ensures NoTable(m, r, i, g)
  {
    hide Sound;
    PathSeen(c, m, o, v, Page(r, i, 0, 0));
    var pdp := Entries(m, r)[i].addr;
    forall j | 0 <= j < ENTRIES && Entries(m, pdp)[j].present ensures g != Entries(m, pdp)[j].addr {
      PathSeen(c, m, o, v, Page(r, i, j, 0));
    }
  }

  /** A frame that is no table is used twice only if two pages are on it. */
  lemma {:induction false} TwoPages(c: seq<nat>, m: Memory, o: Owner, v: View, r: int, g: int)
    returns (p: Page, q: Page)
    requires Sound(c, m, o, v) && IsSpace(o, r) && g !in o && UserUses(m, r)[g] >= 2
    ensures p != q && p.root == q.root == r && p in v && q in v && v[p].addr == v[q].addr == g
  {
    hide Uses, Tree, Sound, NoTable;
    var i, i' := UsesTwice(m, Entries(m, r), USER_ENTRIES, 2, g);
    NoTableBelow(c, m, o, v, r, i, g);
    if i != i' {
      NoTableBelow(c, m, o, v, r, i', g);
      p := PageInPdp(m, r, i, g);
      q := PageInPdp(m, r, i', g);
    } else {
      p, q := TwoInPdp(m, r, i, g);
    }
    PathSeen(c, m, o, v, p);
    PathSeen(c, m, o, v, q);
  }

  lemma {:induction false} UsedOnce(c: seq<nat>, m: Memory, o: Owner, v: View, p: Page)
    requires Sound(c, m, o, v) && p in v && v[p].addr !in o
    requires forall q :: q in v && q.root == p.root && v[q].addr == v[p].addr ==> q == p
    ensures UserUses(m, p.root)[v[p].addr] == 1
  {
    hide Uses, Sound;
    SeenPage(c, m, o, v, p);
    PathSeen(c, m, o, v, p);
    LeafCounted(m, p);
    if UserUses(m, p.root)[v[p].addr] >= 2 { var q, q' := TwoPages(c, m, o, v, p.root, v[p].addr); }
  }

  lemma {:induction false} QuietExists(c: seq<nat>, m: Memory, o: Owner, v: View, r: int)
    requires Sound(c, m, o, v) && Settled(c, o, v) && IsSpace(o, r)
    ensures Exist(m, UserUses(m, r))
  {
    hide Uses, Settled;
    SettledBacked(c, o, v, r);
    BackedInUse(c, m, o, v, r);
  }

  /** The root of one space is not on a walk in another. */
  lemma {:induction false} OffOtherWalks(c: seq<nat>, m: Memory, o: Owner, v: View, p: Page, t: int, y: int)
    requires Sound(c, m, o, v) && IsSpace(o, p.root) && UserPage(p) && IsSpace(o, t) && t != p.root
    ensures !OnWalk(m, p, t, y)
  {
    WalkPlaces(m, o, p);
  }

  /** Two spaces after boot, and room for a page that both will map. */
  method TwoSpaces(counts: seq<nat>, mem: Memory, current: int) returns (vm: Vm, s: int, t: int, f: int)
    requires |counts| == |mem| && forall g {:trigger counts[g]} :: 0 <= g < |counts| ==> counts[g] < 256
    requires IsTable(mem, current)
    ensures fresh(vm)
    ensures f != 0 <==> Reserved(counts) && |FreeFrames(counts)| >= 3
    ensures f != 0 ==>
              && vm.Quiet() && vm.view == map[] && IsSpace(vm.owner, s) && IsSpace(vm.owner, t) && s != t
              && Ready(vm.counts, vm.owner, f) && vm.counts[f] == 1
              && Reserved(vm.counts) && |FreeFrames(vm.counts)| == |FreeFrames(counts)| - 3
    ensures forall i {:trigger EntryAt(vm.mem, s, i)} {:trigger EntryAt(vm.mem, t, i)} ::
              f != 0 && 0 <= i < USER_ENTRIES ==> !EntryAt(vm.mem, s, i).present && !EntryAt(vm.mem, t, i).present
  {
    hide Sound, Settled, NewRoot, FreeFrames;
    t, f := 0, 0;
    FewFrames(counts);
    vm, s := SpaceClone.Boot(counts, mem, current, true);
    if s == 0 { return; }
    OneTaken(counts, s);
    NewRootEmpty(mem[current].entries, s);
    FewFrames(vm.counts);
    ghost var c1 := vm.counts;
    t := SpaceClone.Create(vm, s, true);
    if t == 0 { return; }
    OneTaken(c1, t);
    NewRootEmpty(NewRoot(mem[current].entries, s), t);
    ghost var c := vm.counts;
    NoneFree(c);
    f := vm.Alloc();
    if f == 0 { return; }
    OneTaken(c, f);
    TakenQuiet(c, vm.mem, vm.owner, vm.view, f);
  }

  /** Both spaces map the frame, which is counted once. */
  method SharedPage(counts: seq<nat>, mem: Memory, current: int, va: nat, attr: Attr)
    returns (vm: Vm, s: int, t: int, f: int, ok: bool)
    requires |counts| == |mem| && forall g {:trigger counts[g]} :: 0 <= g < |counts| ==> counts[g] < 256
    requires IsTable(mem, current) && va < USER_END
    ensures fresh(vm) && (ok <==> Reserved(counts) && |FreeFrames(counts)| >= 7)
    ensures ok ==>
              && vm.Quiet() && IsSpace(vm.owner, s) && IsSpace(vm.owner, t) && s != t && Ready(vm.counts, vm.owner, f)
              && vm.counts[f] == 1
              && vm.view == map[PageOf(s, va) := Leaf(f, attr), PageOf(t, va) := Leaf(f, attr)]
  {
    hide Sound, Settled, FreeFrames, OnlyWalk, OnWalk;
    ok := false;
    vm, s, t, f := TwoSpaces(counts, mem, current);
    if f == 0 { return; }
    UserIndex(va);
    ghost var m, o := vm.mem, vm.owner;
    ok := vm.MapPage(s, va, f, attr);
    if !ok { return; }
    assert !EntryAt(vm.mem, t, PageOf(t, va).i).present by {
      OffOtherWalks(vm.counts, vm.mem, vm.owner, vm.view, PageOf(s, va), t, PageOf(t, va).i);
      WalkFrame(m, vm.mem, o, vm.owner, PageOf(s, va), t, PageOf(t, va).i);
    }
    ok := vm.MapPage(t, va, f, attr);
  }

  lemma {:induction false} WalkFrame(m: Memory, m': Memory, o: Owner, o': Owner, p: Page, g: int, y: int)
    requires OnlyWalk(m, m', o, o', p) && g in o && g in o' && !OnWalk(m', p, g, y)
    ensures EntryAt(m', g, y) == EntryAt(m, g, y)
  {
    hide OnWalk;
  }

  /** A run from boot that ends with a page on a frame that nobody counts: two spaces map the same frame, which is
      counted once, and one of them is destroyed. */
  method SharedPageLost(counts: seq<nat>, mem: Memory, current: int, va: nat, attr: Attr)
    returns (vm: Vm, ok: bool, s: int, f: int)
    requires |counts| == |mem| && forall g {:trigger counts[g]} :: 0 <= g < |counts| ==> counts[g] < 256
    requires IsTable(mem, current) && va < USER_END
    ensures ok <==> Reserved(counts) && |FreeFrames(counts)| >= 7
    ensures ok ==>
              && vm.Valid() && !vm.Quiet() && PageOf(s, va) in vm.view && vm.view[PageOf(s, va)].addr == f
              && 0 <= f < |vm.counts| && vm.counts[f] == 0
  {
    hide Sound, Settled, OthersLast, Lowered, Uses, Exist, OnlySpace, FreeFrames;
    var t;
    vm, s, t, f, ok := SharedPage(counts, mem, current, va, attr);
    if !ok { return; }
    ghost var c0, m0, v0 := vm.counts, vm.mem, vm.view;
    UsedOnce(c0, m0, vm.owner, v0, PageOf(t, va));
    QuietExists(c0, m0, vm.owner, v0, t);
    Destroy(vm, t);
    LostCount(c0, vm.counts, m0, v0, t, PageOf(s, va));
  }

  lemma {:induction false} LostCount(c0: seq<nat>, c: seq<nat>, m0: Memory, v0: View, r: int, q: Page)
    requires Lowered(c0, c, UserUses(m0, r)) && q in v0 && q.root != r && 0 <= v0[q].addr < |c0|
    requires c0[v0[q].addr] == 1 && UserUses(m0, r)[v0[q].addr] == 1
    ensures !OthersLast(c0, m0, v0, r) && |c| == |c0| && c[v0[q].addr] == 0 && q in OtherPages(v0, r)
  {
    hide Uses;
    assert LoweredAt(c0, c, UserUses(m0, r), v0[q].addr);
    assert !Outlasts(c0, UserUses(m0, r), v0[q].addr);
  }
}
