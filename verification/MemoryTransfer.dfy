/** `syscall_mtransfer` of `kernel/k_syscall.c`: a range of pages moves from one address space to
    another, or nothing moves. */
module MemoryTransfer {
  import opened Words
  import opened PageIndex
  import opened PageTables
  import opened PageRights
  import opened VirtualMemory

  const USERLAND_VADDR_BEGIN: nat := 0x20_0000

  /** `Beyond` stands for a page loop that has left user space. */
  datatype Answer = Moved(vaddr: nat) | Invalid | Denied | NoMemory | Beyond

  /** Page `t` of a range that starts at page boundary `va`. */
  function At(root: int, va: nat, t: nat): Page {
    PageOf(root, va + t * PAGE)
  }

  /** The range of `n` pages from `va` lies in user space. */
  ghost predicate Range(va: nat, n: nat) {
    va % PAGE == 0 && va + n * PAGE <= USER_END
  }

  lemma {:induction false} AtDistinct(root: int, va: nat, n: nat, a: nat, b: nat)
    requires Range(va, n) && a < n && b < n && At(root, va, a) == At(root, va, b)
    ensures a == b
  {
    PageBound(va, n, a);
    PageBound(va, n, b);
    TriplesDistinct(va + a * PAGE, va + b * PAGE);
  }

  lemma {:induction false} PageBound(va: nat, n: nat, t: nat)
    requires Range(va, n) && t < n
    ensures va + t * PAGE < USER_END && (va + t * PAGE) % PAGE == 0
  {
    assert t * PAGE + PAGE <= n * PAGE;
  }

  /** The map after the first `n` source pages were mapped into the destination too. */
  ghost function Shared(view: View, src: int, dst: int, vs: nat, vd: nat, n: nat, attr: Attr): View {
    if n == 0 then view
    else
      var v := Shared(view, src, dst, vs, vd, n - 1, attr);
      var p := At(src, vs, n - 1);
      v[At(dst, vd, n - 1) := Leaf(if p in view then view[p].addr else 0, attr)]
  }

  ghost predicate InRange(root: int, va: nat, n: nat, p: Page) {
    exists t :: 0 <= t < n && p == At(root, va, t)
  }

  /** Without the first `n` pages from `va`. */
  ghost function Without(view: View, root: int, va: nat, n: nat): View {
    map p | p in view && !InRange(root, va, n, p) :: view[p]
  }

  /** The map after a whole transfer: the source pages are gone, and the destination pages lead to
      the same frames. */
  ghost function Transferred(view: View, src: int, dst: int, vs: nat, vd: nat, n: nat, attr: Attr): View {
    Without(Shared(view, src, dst, vs, vd, n, attr), src, vs, n)
  }

  lemma {:induction false} SharedAt(view: View, src: int, dst: int, vs: nat, vd: nat, n: nat, attr: Attr, p: Page)
    requires Range(vd, n)
    ensures var v := Shared(view, src, dst, vs, vd, n, attr);
            && (InRange(dst, vd, n, p) ==> p in v)
            && (!InRange(dst, vd, n, p) ==> (p in v <==> p in view) && (p in view ==> v[p] == view[p]))
  {
    if n > 0 {
      SharedAt(view, src, dst, vs, vd, n - 1, attr, p);
      if p == At(dst, vd, n - 1) {
        assert InRange(dst, vd, n, p);
      } else if InRange(dst, vd, n, p) {
        var t :| 0 <= t < n && p == At(dst, vd, t);
        assert t < n - 1 && InRange(dst, vd, n - 1, p);
      } else {
        assert InRange(dst, vd, n - 1, p) ==> InRange(dst, vd, n, p);
      }
    }
  }

  lemma {:induction false} SharedFrame(view: View, src: int, dst: int, vs: nat, vd: nat, n: nat, attr: Attr, t: nat)
    requires Range(vd, n) && t < n
    ensures var v := Shared(view, src, dst, vs, vd, n, attr);
            var p := At(src, vs, t);
            At(dst, vd, t) in v && v[At(dst, vd, t)] == Leaf(if p in view then view[p].addr else 0, attr)
  {
    if t < n - 1 {
      SharedFrame(view, src, dst, vs, vd, n - 1, attr, t);
      if At(dst, vd, t) == At(dst, vd, n - 1) { AtDistinct(dst, vd, n, t, n - 1); }
    }
  }

  /** What a transfer does, page by page: the frames of the source range are in the destination range
      and no longer in the source, and no other page changes. */
  lemma {:induction false} TransferMoves(view: View, src: int, dst: int, vs: nat, vd: nat, n: nat, attr: Attr, t: nat)
    requires Range(vs, n) && Range(vd, n) && src != dst && t < n && At(src, vs, t) in view
    ensures var v := Transferred(view, src, dst, vs, vd, n, attr);
            && At(src, vs, t) !in v
            && At(dst, vd, t) in v && v[At(dst, vd, t)] == Leaf(view[At(src, vs, t)].addr, attr)
  {
    SharedFrame(view, src, dst, vs, vd, n, attr, t);
    assert InRange(src, vs, n, At(src, vs, t));
    assert !InRange(src, vs, n, At(dst, vd, t));
  }

  lemma {:induction false} TransferSpares(view: View, src: int, dst: int, vs: nat, vd: nat, n: nat, attr: Attr, p: Page)
    requires Range(vs, n) && Range(vd, n) && !InRange(src, vs, n, p) && !InRange(dst, vd, n, p)
    ensures var v := Transferred(view, src, dst, vs, vd, n, attr);
            (p in v <==> p in view) && (p in view ==> v[p] == view[p])
  {
    SharedAt(view, src, dst, vs, vd, n, attr, p);
  }

  /** Taking the shared pages out again gives the map back. */
  lemma {:induction false} RollBack(view: View, src: int, dst: int, vs: nat, vd: nat, n: nat, attr: Attr)
    requires Range(vd, n) && forall t :: 0 <= t < n ==> At(dst, vd, t) !in view
    ensures Without(Shared(view, src, dst, vs, vd, n, attr), dst, vd, n) == view
  {
    var w := Without(Shared(view, src, dst, vs, vd, n, attr), dst, vd, n);
    forall p ensures (p in w <==> p in view) && (p in view ==> w[p] == view[p]) {
      SharedAt(view, src, dst, vs, vd, n, attr, p);
    }
  }

  lemma {:induction false} WithoutStep(view: View, root: int, va: nat, t: nat)
    ensures Without(view, root, va, t) - {At(root, va, t)} == Without(view, root, va, t + 1)
  {
    var w, w' := Without(view, root, va, t) - {At(root, va, t)}, Without(view, root, va, t + 1);
    forall p ensures p in w <==> p in w' {
      if InRange(root, va, t + 1, p) && p != At(root, va, t) {
        var u :| 0 <= u < t + 1 && p == At(root, va, u);
        assert InRange(root, va, t, p);
      }
      assert p == At(root, va, t) ==> InRange(root, va, t + 1, p);
      if InRange(root, va, t, p) { assert InRange(root, va, t + 1, p); }
    }
  }

  /** `vm_unmap_n(as, vma, n * PAGE)`. */
  method UnmapRange(vm: Vm, root: int, va: nat, ghost n: nat, size: nat)
    requires vm.Valid() && IsSpace(vm.owner, root) && Range(va, n) && n == PagesOf(size)
    requires forall t :: 0 <= t < n ==> At(root, va, t) in vm.view
    modifies vm`mem, vm`view
    ensures vm.Valid() && vm.view == Without(old(vm.view), root, va, n) && (old(vm.Quiet()) ==> vm.Quiet())
    ensures OnlyUser(old(vm.mem), vm.mem, vm.owner, vm.owner, {root})
  {
    hide Sound, Leaf, Settled, OnlyUser;
    UserSame(vm.mem, vm.owner, {root});
    if size == 0 {
      assert vm.view == Without(vm.view, root, va, 0);
      return;
    }
    ghost var t := 0;
    var p := va;
    assert vm.view == Without(vm.view, root, va, 0);
    while p < va + size
      invariant t <= n && p == va + t * PAGE && vm.Valid() && IsSpace(vm.owner, root)
      invariant vm.view == Without(old(vm.view), root, va, t) && (old(vm.Quiet()) ==> vm.Quiet())
      invariant OnlyUser(old(vm.mem), vm.mem, vm.owner, vm.owner, {root})
      decreases n - t
    {
      ghost var m := vm.mem;
      StepInside(size, n, t);
      PageBound(va, n, t);
      StillThere(old(vm.view), root, va, n, t);
      WithoutStep(old(vm.view), root, va, t);
      var _ := vm.UnmapPage(root, p);
      UserTrans(old(vm.mem), m, vm.mem, vm.owner, vm.owner, vm.owner, {root}, {root});
      p := p + PAGE;
      t := t + 1;
    }
    StepsDone(size, n, t);
  }

  lemma {:induction false} StepInside(size: nat, n: nat, t: nat)
    requires n == PagesOf(size) && t * PAGE < size
    ensures t < n
  {}

  lemma {:induction false} StepsDone(size: nat, n: nat, t: nat)
    requires n == PagesOf(size) && t <= n && t * PAGE >= size
    ensures t == n
  {}

  lemma {:induction false} StillThere(view: View, root: int, va: nat, n: nat, t: nat)
    requires Range(va, n) && t < n && At(root, va, t) in view
    ensures At(root, va, t) in Without(view, root, va, t)
  {
    if InRange(root, va, t, At(root, va, t)) {
      var u :| 0 <= u < t && At(root, va, t) == At(root, va, u);
      AtDistinct(root, va, n, t, u);
    }
  }

  /** The argument checks, in the order of the source; both additions are on 64-bit words. A zero
      destination is refused here, so the branch that would choose an address is never taken. */
  function Refusal(vd: nat, vs: nat, size: nat, flagsOk: bool): (r: Answer)
    ensures !r.Beyond? && !r.NoMemory? && (r.Moved? ==> vs < USER_END && vd < USER_END)
  {
    if vs == 0 && vd == 0 then Invalid
    else if vs >= USER_END || vd >= USER_END then Denied
    else if (vs + size) % WORD > USER_END || (vd + size) % WORD > USER_END then Denied
    else if vs < USERLAND_VADDR_BEGIN || vd < USERLAND_VADDR_BEGIN then Invalid
    else if vs % PAGE != 0 || vd % PAGE != 0 then Invalid
    else if !flagsOk then Denied
    else Moved(vd)
  }

  /** A page of user space that a program may name. */
  predicate UserPage(va: nat) {
    USERLAND_VADDR_BEGIN <= va < USER_END && va % PAGE == 0
  }

  /** The range starts or, as far as its end fits a word, ends beyond user space. */
  predicate LeavesUser(va: nat, size: nat)
    requires va < WORD && size < WORD
  {
    va >= USER_END || USER_END < va + size < WORD || va + size > WORD + USER_END
  }

  /** One of the two sums does not fit a word. */
  predicate Wraps(vd: nat, vs: nat, size: nat) {
    vs + size >= WORD || vd + size >= WORD
  }

  /** Arguments that pass the checks name two ranges of user space if and only if neither sum wraps. */
  lemma {:induction false} AcceptedRange(vd: nat, vs: nat, size: nat, flagsOk: bool)
    requires Refusal(vd, vs, size, flagsOk).Moved?
    ensures Range(vs, PagesOf(size)) && Range(vd, PagesOf(size)) <==> !Wraps(vd, vs, size)
    ensures flagsOk && vd != 0
  {
    if Wraps(vd, vs, size) {
      assert PagesOf(size) * PAGE >= size;
    } else {
      RoundUpFits(vs, size);
      RoundUpFits(vd, size);
    }
  }

  lemma {:induction false} RangeIff(va: nat, size: nat)
    requires va % PAGE == 0
    ensures Range(va, PagesOf(size)) <==> va + size <= USER_END
  {
    if va + size <= USER_END { RoundUpFits(va, size); }
    assert PagesOf(size) * PAGE >= size;
  }

  /** The checks pass just for allowed flags and two user pages, each with the whole range behind it in user space,
      if no sum wraps; if one does, what is left of it counts. Ranges that leave user space are denied, and so are, last
      of all, flags that are not allowed; the rest is invalid. */
  lemma {:induction false} AcceptedIff(vd: nat, vs: nat, size: nat, flagsOk: bool)
    requires vs < WORD && vd < WORD && size < WORD
    ensures !Wraps(vd, vs, size) ==>
              (Refusal(vd, vs, size, flagsOk).Moved? <==>
                 && flagsOk && UserPage(vs) && UserPage(vd)
                 && Range(vs, PagesOf(size)) && Range(vd, PagesOf(size)))
    ensures Wraps(vd, vs, size) ==>
              (Refusal(vd, vs, size, flagsOk).Moved? <==>
                 && flagsOk && UserPage(vs) && UserPage(vd)
                 && (vs + size < WORD ==> Range(vs, PagesOf(size))) && vs + size <= WORD + USER_END
                 && (vd + size < WORD ==> Range(vd, PagesOf(size))) && vd + size <= WORD + USER_END)
    ensures Refusal(vd, vs, size, flagsOk).Denied? <==>
              && !(vs == 0 && vd == 0)
              && (LeavesUser(vs, size) || LeavesUser(vd, size) || (UserPage(vs) && UserPage(vd) && !flagsOk))
    ensures !Refusal(vd, vs, size, flagsOk).Moved? && !Refusal(vd, vs, size, flagsOk).Denied? ==>
              Refusal(vd, vs, size, flagsOk) == Invalid
  {
    if vs % PAGE == 0 && vd % PAGE == 0 {
      RangeIff(vs, size);
      RangeIff(vd, size);
    }
    if vs + size >= WORD { assert (vs + size) % WORD == vs + size - WORD; }
    if vd + size >= WORD { assert (vd + size) % WORD == vd + size - WORD; }
  }

  /** A size that passes the checks because both sums wrap: already the second destination page is the self-map
      entry of the top table. */
  lemma {:induction false} WrappingAccepted()
    ensures var vd, vs, size := USER_END - PAGE, PAGE, WORD - PAGE;
            && Refusal(vd, vs, size, true).Moved? && Wraps(vd, vs, size) && UserRounds(vd, vs) == 1
            && Pml4Index(vd + PAGE) == 256
  {
    assert (PAGE + (WORD - PAGE)) % WORD == 0;
    assert USER_END - PAGE + (WORD - PAGE) == WORD + (USER_END - 2 * PAGE);
    assert (USER_END - PAGE + (WORD - PAGE)) % WORD == USER_END - 2 * PAGE;
  }

  /** The rounds of the page loop in which both pages are in user space. */
  function UserRounds(vd: nat, vs: nat): nat
    requires vs <= USER_END && vd <= USER_END
  {
    var a, b := (USER_END - vs) / PAGE, (USER_END - vd) / PAGE;
    if a < b then a else b
  }

  lemma {:induction false} RoundsInside(vd: nat, vs: nat, size: nat, flagsOk: bool)
    requires Refusal(vd, vs, size, flagsOk).Moved?
    ensures Range(vs, UserRounds(vd, vs)) && Range(vd, UserRounds(vd, vs))
    ensures Wraps(vd, vs, size) <==> UserRounds(vd, vs) * PAGE < size
    ensures !Wraps(vd, vs, size) ==> PagesOf(size) <= UserRounds(vd, vs)
  {
    assert USER_END == USER_PAGES * PAGE;
    var a, b := (USER_END - vs) / PAGE, (USER_END - vd) / PAGE;
    assert vs + a * PAGE == USER_END && vd + b * PAGE == USER_END;
    if !Wraps(vd, vs, size) {
      RoundUpFits(vs, size);
      RoundUpFits(vd, size);
      var n := PagesOf(size);
      assert n * PAGE <= a * PAGE && n * PAGE <= b * PAGE;
    }
  }

  /** The rounds that the model follows. */
  ghost function Rounds(vd: nat, vs: nat, size: nat): nat
    requires vs <= USER_END && vd <= USER_END
  {
    if Wraps(vd, vs, size) then UserRounds(vd, vs) else PagesOf(size)
  }

  /** Round `t` is inside both ranges, or the loop is done, or it leaves user space, which takes a wrapped sum. */
  lemma {:induction false} RoundState(vd: nat, vs: nat, size: nat, flagsOk: bool, t: nat, n: nat)
    requires Refusal(vd, vs, size, flagsOk).Moved? && n == Rounds(vd, vs, size) && t <= n
    ensures Range(vs, n) && Range(vd, n) && Refusal(vd, vs, size, flagsOk) == Moved(vd)
    ensures t * PAGE < size ==> if t == UserRounds(vd, vs) then Wraps(vd, vs, size) else t < n
    ensures t * PAGE >= size ==> !Wraps(vd, vs, size) && t == n
  {
    hide UserRounds, PagesOf;
    AcceptedRange(vd, vs, size, flagsOk);
    RoundsInside(vd, vs, size, flagsOk);
    if Wraps(vd, vs, size) {
      assert t * PAGE <= UserRounds(vd, vs) * PAGE;
    } else {
      if t * PAGE < size { StepInside(size, n, t); } else { StepsDone(size, n, t); }
    }
  }

  lemma {:induction false} RoundUpFits(va: nat, size: nat)
    requires va % PAGE == 0 && va + size <= USER_END
    ensures va + PagesOf(size) * PAGE <= USER_END
  {
    var a := va / PAGE;
    assert va == a * PAGE;
    assert USER_END == USER_PAGES * PAGE;
    assert PagesOf(size) * PAGE <= size + PAGE - 1;
    assert (a + PagesOf(size)) * PAGE == va + PagesOf(size) * PAGE < (USER_PAGES + 1) * PAGE;
  }

  /** The pages of `src` are on frames that may be mapped elsewhere too: counted, and no tables. */
  ghost predicate SourceReady(counts: seq<nat>, owner: Owner, view: View, src: int) {
    forall p {:trigger p in view} :: p in view && p.root == src ==> Ready(counts, owner, view[p].addr)
  }

  /** Memory is quiet, and the pages that `src` had in `view` may be mapped elsewhere. */
  ghost predicate QuietFor(vm: Vm, view: View, src: int)
    reads vm
  {
    vm.Quiet() && SourceReady(vm.counts, vm.owner, view, src)
  }

  /** Every source page is mapped and no destination page is. */
  ghost predicate Movable(view: View, src: int, dst: int, vs: nat, vd: nat, n: nat) {
    forall t {:trigger At(src, vs, t)} {:trigger At(dst, vd, t)} :: 0 <= t < n ==>
      At(src, vs, t) in view && At(dst, vd, t) !in view
  }

  lemma {:induction false} MovableStep(view: View, src: int, dst: int, vs: nat, vd: nat, t: nat)
    requires Movable(view, src, dst, vs, vd, t) && At(src, vs, t) in view && At(dst, vd, t) !in view
    ensures Movable(view, src, dst, vs, vd, t + 1)
  {}

  /** Earlier pages of the loop do not hide or fill later ones. */
  lemma {:induction false} SharedLater(view: View, src: int, dst: int, vs: nat, vd: nat, n: nat, t: nat, attr: Attr)
    requires Range(vs, n) && Range(vd, n) && src != dst && t < n
    ensures var v := Shared(view, src, dst, vs, vd, t, attr);
            && (At(src, vs, t) in v <==> At(src, vs, t) in view)
            && (At(src, vs, t) in view ==> v[At(src, vs, t)] == view[At(src, vs, t)])
            && (At(dst, vd, t) in v <==> At(dst, vd, t) in view)
  {
    assert Range(vd, t) by { assert t * PAGE <= n * PAGE; }
    SharedAt(view, src, dst, vs, vd, t, attr, At(src, vs, t));
    SharedAt(view, src, dst, vs, vd, t, attr, At(dst, vd, t));
    if InRange(dst, vd, t, At(dst, vd, t)) {
      var u :| 0 <= u < t && At(dst, vd, t) == At(dst, vd, u);
      AtDistinct(dst, vd, n, t, u);
    }
  }

  /** The loop failed at page `t`: the pages mapped so far are taken out of the destination. */
  method Undo(vm: Vm, ghost view: View, ghost src: int, dst: int, ghost vs: nat, vd: nat, t: nat, ghost n: nat,
              ghost attr: Attr)
    requires vm.Valid() && IsSpace(vm.owner, dst) && Range(vd, n) && t <= n
    requires vm.view == Shared(view, src, dst, vs, vd, t, attr) && Movable(view, src, dst, vs, vd, t)
    modifies vm`mem, vm`view
    ensures vm.Valid() && vm.view == view && (old(vm.Quiet()) ==> vm.Quiet())
    ensures OnlyUser(old(vm.mem), vm.mem, vm.owner, vm.owner, {dst})
  {
    hide Sound, Settled, OnlyUser;
    assert Range(vd, t) by { assert t * PAGE <= n * PAGE; }
    forall u | 0 <= u < t ensures At(dst, vd, u) in vm.view { SharedFrame(view, src, dst, vs, vd, t, attr, u); }
    RollBack(view, src, dst, vs, vd, t, attr);
    assert PagesOf(t * PAGE) == t;
    UnmapRange(vm, dst, vd, t, t * PAGE);
  }

  /** `syscall_mtransfer` between two distinct address spaces. Reference counts are not touched here. Only a size
      whose sum with an address wraps can lead the loop out of user space, where the model stops. */
  method Transfer(vm: Vm, dst: int, src: int, vd: nat, vs: nat, size: nat, attr: Attr, flagsOk: bool)
    returns (r: Answer)
    requires vm.Valid() && IsSpace(vm.owner, src) && IsSpace(vm.owner, dst) && src != dst
    modifies vm
    ensures vm.Valid() && (old(QuietFor(vm, vm.view, src)) ==> vm.Quiet())
    ensures r.Moved? ==>
              && Refusal(vd, vs, size, flagsOk) == r && !Wraps(vd, vs, size)
              && Movable(old(vm.view), src, dst, vs, vd, PagesOf(size))
              && vm.view == Transferred(old(vm.view), src, dst, vs, vd, PagesOf(size), attr)
    ensures r.Beyond? ==>
              && Refusal(vd, vs, size, flagsOk).Moved? && Wraps(vd, vs, size)
              && Movable(old(vm.view), src, dst, vs, vd, UserRounds(vd, vs))
    ensures !r.Moved? && !r.Beyond? ==> vm.view == old(vm.view)
    ensures Refusal(vd, vs, size, flagsOk).Moved? ==>
              if Wraps(vd, vs, size) then Movable(old(vm.view), src, dst, vs, vd, UserRounds(vd, vs)) ==>
                r.Beyond? || r.NoMemory?
              else Movable(old(vm.view), src, dst, vs, vd, PagesOf(size)) ==> r.Moved? || r.NoMemory?
    ensures if Refusal(vd, vs, size, flagsOk).Moved? then !r.Denied?
            else r == Refusal(vd, vs, size, flagsOk) && unchanged(vm)
    ensures r.NoMemory? ==> Exhausted(vm.counts) || !Reserved(old(vm.counts))
    ensures OnlyUser(old(vm.mem), vm.mem, old(vm.owner), vm.owner, {src, dst})
  {
    hide Sound, PagesOf, At, UserRounds, Wraps, Refusal, Settled, SourceReady, OnlyUser;
    UserSame(vm.mem, vm.owner, {dst});
    UserSame(vm.mem, vm.owner, {src, dst});
    r := Refusal(vd, vs, size, flagsOk);
    if !r.Moved? { return; }
    RoundState(vd, vs, size, flagsOk, 0, Rounds(vd, vs, size));
    ghost var view, n := vm.view, Rounds(vd, vs, size);
    var stop := UserRounds(vd, vs);
    var t := 0;
    assert vm.view == Shared(view, src, dst, vs, vd, 0, attr);
    while t * PAGE < size
      invariant t <= n && vm.Valid() && IsSpace(vm.owner, src) && IsSpace(vm.owner, dst)
      invariant vm.view == Shared(view, src, dst, vs, vd, t, attr) && Movable(view, src, dst, vs, vd, t)
      invariant old(QuietFor(vm, vm.view, src)) ==> QuietFor(vm, view, src)
      invariant Reserved(old(vm.counts)) ==> Reserved(vm.counts)
      invariant OnlyUser(old(vm.mem), vm.mem, old(vm.owner), vm.owner, {dst})
      decreases n - t
    {
      ghost var m, o := vm.mem, vm.owner;
      RoundState(vd, vs, size, flagsOk, t, n);
      if t == stop {
        UserMore(old(vm.mem), vm.mem, old(vm.owner), vm.owner, {dst}, {src, dst});
        return Beyond;
      }
      r := Step(vm, view, dst, src, vd, vs, t, n, attr);
      UserTrans(old(vm.mem), m, vm.mem, old(vm.owner), o, vm.owner, {dst}, {dst});
      if !r.Moved? {
        m := vm.mem;
        Undo(vm, view, src, dst, vs, vd, t, n, attr);
        UserTrans(old(vm.mem), m, vm.mem, old(vm.owner), vm.owner, vm.owner, {dst}, {dst});
        UserMore(old(vm.mem), vm.mem, old(vm.owner), vm.owner, {dst}, {src, dst});
        return;
      }
      t := t + 1;
    }
    RoundState(vd, vs, size, flagsOk, t, n);
    SourceThere(view, src, dst, vs, vd, n, attr);
    ghost var m := vm.mem;
    UnmapRange(vm, src, vs, n, size);
    UserMore(m, vm.mem, vm.owner, vm.owner, {src}, {src, dst});
    UserTrans(old(vm.mem), m, vm.mem, old(vm.owner), vm.owner, vm.owner, {dst}, {src, dst});
    r := Moved(vd);
  }

  lemma {:induction false} SourceThere(view: View, src: int, dst: int, vs: nat, vd: nat, n: nat, attr: Attr)
    requires Range(vd, n) && src != dst && Movable(view, src, dst, vs, vd, n)
    ensures forall t :: 0 <= t < n ==> At(src, vs, t) in Shared(view, src, dst, vs, vd, n, attr)
  {
    forall t | 0 <= t < n ensures At(src, vs, t) in Shared(view, src, dst, vs, vd, n, attr) {
      SharedAt(view, src, dst, vs, vd, n, attr, At(src, vs, t));
    }
  }

  /** One round of the page loop: page `t` is mapped into the destination, or nothing changes. */
  method Step(vm: Vm, ghost view: View, dst: int, src: int, vd: nat, vs: nat, t: nat, ghost n: nat, attr: Attr)
    returns (r: Answer)
    requires vm.Valid() && IsSpace(vm.owner, src) && IsSpace(vm.owner, dst) && src != dst
    requires Range(vs, n) && Range(vd, n) && t < n
    requires vm.view == Shared(view, src, dst, vs, vd, t, attr) && Movable(view, src, dst, vs, vd, t)
    modifies vm
    ensures vm.Valid() && IsSpace(vm.owner, src) && IsSpace(vm.owner, dst)
    ensures old(QuietFor(vm, view, src)) ==> QuietFor(vm, view, src)
    ensures r.Moved? ==>
              vm.view == Shared(view, src, dst, vs, vd, t + 1, attr) && Movable(view, src, dst, vs, vd, t + 1)
    ensures !r.Moved? ==> vm.view == old(vm.view)
    ensures r.Invalid? ==> !Movable(view, src, dst, vs, vd, n)
    ensures r.Invalid? || r.NoMemory? || r.Moved?
    ensures r.NoMemory? ==> Exhausted(vm.counts) || !Reserved(old(vm.counts))
    ensures r.Moved? ==> (Reserved(old(vm.counts)) ==> Reserved(vm.counts))
    ensures OnlyUser(old(vm.mem), vm.mem, old(vm.owner), vm.owner, {dst})
  {
    hide Sound, Settled, Ready, OnlyUser, OnlyWalk, RightsMoved, WalksKept, LenientAll, RightsOf, Asked, FreeFrames,
         Missing, Affords, DataKept, OwnersKept, Lookup;
    UserSame(vm.mem, vm.owner, {dst});
    PageBound(vs, n, t);
    PageBound(vd, n, t);
    SharedLater(view, src, dst, vs, vd, n, t, attr);
    var here := vm.IsMapped(src, vs + t * PAGE);
    if !here { return Invalid; }
    var there := vm.IsMapped(dst, vd + t * PAGE);
    if there { return Invalid; }
    var pma := vm.GetPma(src, vs + t * PAGE);
    FrameOf(vm.view[At(src, vs, t)].addr, vs + t * PAGE, pma);
    var ok := vm.MapPage(dst, vd + t * PAGE, pma / PAGE, attr);
    assert IsSpace(vm.owner, src) && IsSpace(vm.owner, dst);
    UserIndex(vd + t * PAGE);
    WalkInUser(vm.counts, old(vm.mem), vm.mem, old(vm.owner), vm.owner, vm.view, PageOf(dst, vd + t * PAGE));
    if !ok { return NoMemory; }
    MovableStep(view, src, dst, vs, vd, t);
    return Moved(vd);
  }

  lemma {:induction false} FrameOf(frame: int, va: nat, pma: int)
    requires va % PAGE == 0 && pma == frame * PAGE + va % PAGE
    ensures pma / PAGE == frame
  {}
}
