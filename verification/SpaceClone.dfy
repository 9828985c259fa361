/** `vm_address_space_clone` and `vm_address_space_destroy` of `kernel/k_memory.c`: a deep copy of the
    user half of an address space onto free frames, and the way back. */
module SpaceClone {
  import opened PageIndex
  import opened PageTables
  import opened PageRights
  import opened VirtualMemory

  // ---- Frames that a table tree uses ---------------------------------------------------------------
  // Level 0 is a page, level 1 a leaf table, level 2 a table of leaf tables; the root is level 3.

  ghost function Entries(m: Memory, f: int): (es: seq<Entry>)
    ensures |es| == ENTRIES
  {
    if 0 <= f < |m| && m[f].Table? && |m[f].entries| == ENTRIES then m[f].entries else Zeros()
  }

  /** Frame `f` and all that it refers to, once for each reference. */
  ghost function Tree(m: Memory, f: int, level: nat): multiset<int>
    decreases level, 0
  {
    if level == 0 then multiset{f} else Uses(m, Entries(m, f), ENTRIES, level - 1) + multiset{f}
  }

  /** What the first `n` entries of a table refer to. */
  ghost function Uses(m: Memory, es: seq<Entry>, n: nat, level: nat): multiset<int>
    requires n <= |es|
    decreases level, n + 1
  {
    if n == 0 then multiset{}
    else Uses(m, es, n - 1, level) + if es[n - 1].present then Tree(m, es[n - 1].addr, level) else multiset{}
  }

  /** Everything that the user half of an address space refers to, its root excepted. */
  ghost function UserUses(m: Memory, root: int): multiset<int> {
    Uses(m, Entries(m, root), USER_ENTRIES, 2)
  }

  /** The frames of `u` are the same in both memories. */
  ghost predicate Agree(m: Memory, m': Memory, u: multiset<int>) {
    |m'| == |m| && forall g {:trigger u[g]} :: u[g] > 0 && 0 <= g < |m| ==> m'[g] == m[g]
  }

  lemma {:induction false} AgreeSub(m: Memory, m': Memory, u: multiset<int>, v: multiset<int>)
    requires Agree(m, m', u) && v <= u
    ensures Agree(m, m', v)
  {
    forall g | v[g] > 0 && 0 <= g < |m| ensures m'[g] == m[g] { assert u[g] >= v[g]; }
  }

  lemma {:induction false} UsesMember(m: Memory, es: seq<Entry>, n: nat, x: nat, level: nat)
    requires x < n <= |es| && es[x].present
    ensures Tree(m, es[x].addr, level) <= Uses(m, es, n, level)
  {
    hide Tree;
    if x < n - 1 { UsesMember(m, es, n - 1, x, level); }
  }

  lemma {:induction false} TreeRoot(m: Memory, f: int, level: nat)
    ensures Tree(m, f, level)[f] > 0
    ensures level > 0 ==> Uses(m, Entries(m, f), ENTRIES, level - 1) <= Tree(m, f, level)
  {}

  /** A tree is the same in a memory with the same frames. */
  lemma {:induction false} TreeSame(m: Memory, m': Memory, f: int, level: nat)
    requires Agree(m, m', Tree(m, f, level))
    ensures Tree(m', f, level) == Tree(m, f, level)
    decreases level, 0
  {
    if level > 0 {
      TreeRoot(m, f, level);
      AgreeSub(m, m', Tree(m, f, level), Uses(m, Entries(m, f), ENTRIES, level - 1));
      EntriesSame(m, m', Tree(m, f, level), f);
      UsesSame(m, m', Entries(m, f), Entries(m', f), ENTRIES, level - 1);
    }
  }

  lemma {:induction false} EntriesSame(m: Memory, m': Memory, u: multiset<int>, f: int)
    requires Agree(m, m', u) && u[f] > 0
    ensures Entries(m', f) == Entries(m, f)
  {}

  lemma {:induction false} UsesSame(m: Memory, m': Memory, es: seq<Entry>, es': seq<Entry>, n: nat, level: nat)
    requires n <= |es| && n <= |es'| && forall x {:trigger es'[x]} :: 0 <= x < n ==> es'[x] == es[x]
    requires Agree(m, m', Uses(m, es, n, level))
    ensures Uses(m', es', n, level) == Uses(m, es, n, level)
    decreases level, n + 1
  {
    if n > 0 {
      AgreeSub(m, m', Uses(m, es, n, level), Uses(m, es, n - 1, level));
      UsesSame(m, m', es, es', n - 1, level);
      assert es'[n - 1] == es[n - 1];
      if es[n - 1].present {
        UsesMember(m, es, n, n - 1, level);
        AgreeSub(m, m', Uses(m, es, n, level), Tree(m, es[n - 1].addr, level));
        TreeSame(m, m', es[n - 1].addr, level);
      }
    }
  }

  // ---- Reference counts ------------------------------------------------------------------------------

  ghost predicate GrewAt(c: seq<nat>, c': seq<nat>, u: multiset<int>, f: int)
    requires 0 <= f < |c| == |c'|
  {
    c'[f] == c[f] + u[f] && (u[f] > 0 ==> c[f] == 0 && u[f] == 1)
  }

  /** The frames of `u`, each once, went from free to referenced. */
  ghost predicate Grew(c: seq<nat>, c': seq<nat>, u: multiset<int>) {
    && |c'| == |c|
    && (forall f {:trigger GrewAt(c, c', u, f)} :: 0 <= f < |c| ==> GrewAt(c, c', u, f))
    && (forall f {:trigger u[f]} :: u[f] > 0 ==> 0 < f < |c|)
  }

  lemma {:induction false} GrewNothing(c: seq<nat>)
    ensures Grew(c, c, multiset{})
  {}

  lemma {:induction false} GrewOne(c: seq<nat>, c': seq<nat>, u: multiset<int>, f: int)
    requires Grew(c, c', u) && 0 < f < |c'| && c'[f] == 0
    ensures Grew(c, c'[f := 1], u + multiset{f})
  {
    assert GrewAt(c, c', u, f);
    var c2, u2 := c'[f := 1], u + multiset{f};
    forall g | 0 <= g < |c| ensures GrewAt(c, c2, u2, g) { assert GrewAt(c, c', u, g); }
    forall g | u2[g] > 0 ensures 0 < g < |c| { assert g != f ==> u[g] > 0; }
  }

  lemma {:induction false} GrewMore(c: seq<nat>, c1: seq<nat>, c2: seq<nat>, u: multiset<int>, v: multiset<int>)
    requires Grew(c, c1, u) && Grew(c1, c2, v)
    ensures Grew(c, c2, u + v)
  {
    var w := u + v;
    forall f | 0 <= f < |c| ensures GrewAt(c, c2, w, f) { assert GrewAt(c, c1, u, f) && GrewAt(c1, c2, v, f); }
    forall f | w[f] > 0 ensures 0 < f < |c| { assert u[f] > 0 || v[f] > 0; }
  }

  lemma {:induction false} GrewFrom(c: seq<nat>, c': seq<nat>, u: multiset<int>, f: int)
    requires Grew(c, c', u) && 0 <= f < |c| && c[f] > 0
    ensures c'[f] == c[f] && u[f] == 0
  {
    assert GrewAt(c, c', u, f);
  }

  /** Frames in use keep their contents. */
  ghost predicate Untouched(c: seq<nat>, m: Memory, m': Memory) {
    |m'| == |m| == |c| && forall f {:trigger m'[f]} :: 0 <= f < |m| && c[f] > 0 ==> m'[f] == m[f]
  }

  lemma {:induction false} UntouchedMore(c: seq<nat>, c1: seq<nat>, u: multiset<int>, m: Memory, m1: Memory, m2: Memory)
    requires Grew(c, c1, u) && Untouched(c, m, m1) && Untouched(c1, m1, m2)
    ensures Untouched(c, m, m2)
  {
    forall f | 0 <= f < |m| && c[f] > 0 ensures m2[f] == m[f] { GrewFrom(c, c1, u, f); }
  }

  // ---- Copies ------------------------------------------------------------------------------------------

  /** An entry and its copy differ only in the frame. */
  ghost predicate SameBits(e: Entry, e': Entry) {
    e' == e.(addr := e'.addr)
  }

  /** `d` is a copy of `s`: a page with the same contents, or a table with the same entries whose
      links lead to copies. */
  ghost predicate Copied(m: Memory, m': Memory, s: int, d: int, level: nat)
    decreases level, 0
  {
    if level == 0 then 0 <= s < |m| && 0 <= d < |m'| && m'[d] == m[s]
    else CopiedTo(m, m', s, d, ENTRIES, level - 1)
  }

  ghost predicate CopiedTo(m: Memory, m': Memory, s: int, d: int, n: nat, level: nat)
    requires n <= ENTRIES
    decreases level, 2
  {
    forall x {:trigger EntryCopied(m, m', s, d, x, level)} :: 0 <= x < n ==> EntryCopied(m, m', s, d, x, level)
  }

  ghost predicate EntryCopied(m: Memory, m': Memory, s: int, d: int, x: int, level: nat)
    requires 0 <= x < ENTRIES
    decreases level, 1
  {
    var e, e' := Entries(m, s)[x], Entries(m', d)[x];
    SameBits(e, e') && (e.present ==> Copied(m, m', e.addr, e'.addr, level))
  }

  /** A copy stays a copy while its frames do not change. */
  lemma {:induction false} CopiedStays(m: Memory, m1: Memory, m2: Memory, s: int, d: int, level: nat)
    requires Copied(m, m1, s, d, level) && Agree(m1, m2, Tree(m1, d, level))
    ensures Copied(m, m2, s, d, level)
    decreases level, 0
  {
    TreeRoot(m1, d, level);
    if level == 0 {
      assert Tree(m1, d, 0)[d] > 0;
    } else {
      EntriesSame(m1, m2, Tree(m1, d, level), d);
      AgreeSub(m1, m2, Tree(m1, d, level), Uses(m1, Entries(m1, d), ENTRIES, level - 1));
      CopiedToStays(m, m1, m2, s, d, ENTRIES, level - 1);
    }
  }

  lemma {:induction false} CopiedToStays(m: Memory, m1: Memory, m2: Memory, s: int, d: int, n: nat, level: nat)
    requires n <= ENTRIES && CopiedTo(m, m1, s, d, n, level)
    requires forall x {:trigger Entries(m2, d)[x]} :: 0 <= x < n ==> Entries(m2, d)[x] == Entries(m1, d)[x]
    requires Agree(m1, m2, Uses(m1, Entries(m1, d), n, level))
    ensures CopiedTo(m, m2, s, d, n, level)
    decreases level, 1
  {
    forall x | 0 <= x < n ensures EntryCopied(m, m2, s, d, x, level) {
      assert EntryCopied(m, m1, s, d, x, level);
      var e' := Entries(m1, d)[x];
      assert Entries(m2, d)[x] == e';
      if e'.present {
        UsesMember(m1, Entries(m1, d), n, x, level);
        AgreeSub(m1, m2, Uses(m1, Entries(m1, d), n, level), Tree(m1, e'.addr, level));
        CopiedStays(m, m1, m2, Entries(m, s)[x].addr, e'.addr, level);
      }
    }
  }

  /** It does not matter at which moment the source is looked at, while its frames do not change. */
  lemma {:induction false} CopiedSource(m0: Memory, m: Memory, m': Memory, s: int, d: int, level: nat)
    requires Copied(m, m', s, d, level) && Agree(m0, m, Tree(m0, s, level))
    ensures Copied(m0, m', s, d, level)
    decreases level
  {
    TreeRoot(m0, s, level);
    if level == 0 {
      assert Tree(m0, s, 0)[s] > 0;
    } else {
      var l := level - 1;
      var u := Uses(m0, Entries(m0, s), ENTRIES, l);
      EntriesSame(m0, m, Tree(m0, s, level), s);
      AgreeSub(m0, m, Tree(m0, s, level), u);
      forall x | 0 <= x < ENTRIES ensures EntryCopied(m0, m', s, d, x, l) {
        assert EntryCopied(m, m', s, d, x, l);
        var e := Entries(m0, s)[x];
        if e.present {
          UsesMember(m0, Entries(m0, s), ENTRIES, x, l);
          AgreeSub(m0, m, u, Tree(m0, e.addr, l));
          CopiedSource(m0, m, m', e.addr, Entries(m', d)[x].addr, l);
        }
      }
    }
  }

  /** A copy has as many references as its source. */
  lemma {:induction false} CopiedSize(m: Memory, m': Memory, s: int, d: int, level: nat)
    requires Copied(m, m', s, d, level)
    ensures |Tree(m', d, level)| == |Tree(m, s, level)|
    decreases level, 1
  {
    if level > 0 { CopiedToSize(m, m', s, d, ENTRIES, level - 1); }
  }

  lemma {:induction false} CopiedToSize(m: Memory, m': Memory, s: int, d: int, n: nat, level: nat)
    requires n <= ENTRIES && CopiedTo(m, m', s, d, n, level)
    ensures |Uses(m', Entries(m', d), n, level)| == |Uses(m, Entries(m, s), n, level)|
    decreases level, n + 2
  {
    if n > 0 {
      CopiedToSize(m, m', s, d, n - 1, level);
      assert EntryCopied(m, m', s, d, n - 1, level);
      var e, e' := Entries(m, s)[n - 1], Entries(m', d)[n - 1];
      if e.present { CopiedSize(m, m', e.addr, e'.addr, level); }
    }
  }

  /** The references of the first `n` entries are fewer than those of more entries with one that is present. */
  lemma {:induction false} UsesGrow(m: Memory, es: seq<Entry>, n: nat, k: nat, level: nat)
    requires n <= k <= |es|
    ensures |Uses(m, es, n, level)| <= |Uses(m, es, k, level)|
    ensures n < k && es[n].present ==> |Uses(m, es, n, level)| + |Tree(m, es[n].addr, level)| <= |Uses(m, es, k, level)|
    decreases k
  {
    hide Tree;
    if n < k { UsesGrow(m, es, n, k - 1, level); }
  }

  // ---- Free frames ---------------------------------------------------------------------------------------

  lemma {:induction false} GrewReserved(c: seq<nat>, c': seq<nat>, u: multiset<int>)
    requires Grew(c, c', u) && Reserved(c)
    ensures Reserved(c')
  {
    assert GrewAt(c, c', u, 0);
  }

  /** As many frames are no longer free as were taken. */
  lemma {:induction false} GrewFree(c: seq<nat>, c': seq<nat>, u: multiset<int>)
    requires Grew(c, c', u)
    ensures |FreeFrames(c)| == |FreeFrames(c')| + |u|
  {
    var taken := FreeFrames(c) - FreeFrames(c');
    forall f ensures u[f] == multiset(taken)[f] {
      if 0 <= f < |c| { assert GrewAt(c, c', u, f); }
    }
    assert u == multiset(taken);
    forall f | f in FreeFrames(c') ensures f in FreeFrames(c) { assert GrewAt(c, c', u, f); }
    assert FreeFrames(c) == FreeFrames(c') + taken;
  }

  lemma {:induction false} AnyFree(c: seq<nat>)
    ensures FreeFrames(c) == {} <==> Exhausted(c)
  {
    forall f | 0 <= f < |c| && FreeFrames(c) == {} ensures c[f] != 0 { assert f !in FreeFrames(c); }
  }

  lemma {:induction false} ExhaustedFree(c: seq<nat>)
    requires Exhausted(c)
    ensures FreeFrames(c) == {}
  {}

  /** The frames of `u` were taken, no more could be had, and `need` would have been needed. */
  ghost predicate RanShort(c: seq<nat>, c': seq<nat>, u: multiset<int>, need: nat) {
    Grew(c, c', u) && Exhausted(c') && |u| < need
  }

  /** All frames of a tree are in use. */
  ghost predicate InUse(c: seq<nat>, u: multiset<int>) {
    forall g {:trigger u[g]} :: u[g] > 0 ==> 0 <= g < |c| && c[g] > 0
  }

  lemma {:induction false} InUseSub(c: seq<nat>, u: multiset<int>, v: multiset<int>)
    requires InUse(c, u) && v <= u
    ensures InUse(c, v)
  {
    forall g | v[g] > 0 ensures 0 <= g < |c| && c[g] > 0 { assert u[g] >= v[g]; }
  }

  lemma {:induction false} InUseKept(c: seq<nat>, m: Memory, m': Memory, u: multiset<int>)
    requires InUse(c, u) && Untouched(c, m, m')
    ensures Agree(m, m', u)
  {
    forall g | u[g] > 0 && 0 <= g < |m| ensures m'[g] == m[g] { assert c[g] > 0; }
  }

  lemma {:induction false} InUseGrew(c: seq<nat>, c': seq<nat>, u: multiset<int>, v: multiset<int>)
    requires InUse(c, u) && Grew(c, c', v)
    ensures InUse(c', u)
  {
    forall g | u[g] > 0 ensures 0 <= g < |c'| && c'[g] > 0 { GrewFrom(c, c', v, g); }
  }

  // ---- Copying a table, entry by entry ---------------------------------------------------------------------

  /** The first `n` entries of table `d` lead to copies; the others are still the source's. */
  ghost predicate Progress(c0: seq<nat>, m0: Memory, c: seq<nat>, m: Memory, s: int, d: int, n: nat, level: nat)
    requires n <= ENTRIES
  {
    && |c0| == |m0| && IsTable(m, d)
    && Grew(c0, c, Uses(m, Entries(m, d), n, level) + multiset{d}) && Untouched(c0, m0, m)
    && CopiedTo(m0, m, s, d, n, level)
    && forall x {:trigger Entries(m, d)[x]} :: n <= x < ENTRIES ==> Entries(m, d)[x] == Entries(m0, s)[x]
  }

  ghost predicate IsTable(m: Memory, d: int) {
    0 < d < |m| && m[d].Table? && |m[d].entries| == ENTRIES
  }

  lemma {:induction false} Start(c: seq<nat>, m: Memory, s: int, d: int, level: nat)
    requires |c| == |m| && 0 < d < |m| && c[d] == 0
    ensures Progress(c, m, c[d := 1], m[d := Table(Entries(m, s))], s, d, 0, level)
  {
    GrewNothing(c);
    GrewOne(c, c, multiset{}, d);
    assert Uses(m[d := Table(Entries(m, s))], Entries(m, s), 0, level) + multiset{d} == multiset{} + multiset{d};
  }

  lemma {:induction false} Skip(c0: seq<nat>, m0: Memory, c: seq<nat>, m: Memory, s: int, d: int, n: nat, level: nat)
    requires n < ENTRIES && Progress(c0, m0, c, m, s, d, n, level) && !Entries(m0, s)[n].present
    ensures Progress(c0, m0, c, m, s, d, n + 1, level)
  {
    var es := Entries(m, d);
    assert es[n] == Entries(m0, s)[n];
    forall x | 0 <= x < n + 1 ensures EntryCopied(m0, m, s, d, x, level) {
      assert x < n ==> EntryCopied(m0, m, s, d, x, level);
    }
    assert Uses(m, es, n + 1, level) == Uses(m, es, n, level);
  }

  /** What `Progress` says about the counts. */
  lemma {:induction false} ProgressFrames(c0: seq<nat>, m0: Memory, c: seq<nat>, m: Memory, s: int, d: int, n: nat,
                                          level: nat)
    requires n <= ENTRIES && Progress(c0, m0, c, m, s, d, n, level)
    ensures IsTable(m, d) && |c| == |m| == |m0| == |c0| && c[d] > 0 && c0[d] == 0
    ensures Uses(m, Entries(m, d), n, level)[d] == 0
    ensures InUse(c, Uses(m, Entries(m, d), n, level)) && InUse(c, Uses(m, Entries(m, d), n, level) + multiset{d})
  {
    var u := Uses(m, Entries(m, d), n, level) + multiset{d};
    assert u[d] > 0;
    assert GrewAt(c0, c, u, d);
    forall g | u[g] > 0 ensures 0 <= g < |c| && c[g] > 0 { assert GrewAt(c0, c, u, g); }
    InUseSub(c, u, Uses(m, Entries(m, d), n, level));
  }

  /** The copy `x` of what entry `n` leads to is finished: from (`c`, `m`) to (`c1`, `m1`). */
  ghost predicate ChildDone(c: seq<nat>, m: Memory, c1: seq<nat>, m1: Memory, s: int, x: int, level: nat) {
    && Grew(c, c1, Tree(m1, x, level)) && Untouched(c, m, m1) && Copied(m, m1, s, x, level)
  }

  lemma {:induction false} Step(c0: seq<nat>, m0: Memory, c: seq<nat>, m: Memory, s: int, d: int, n: nat, level: nat,
                                c1: seq<nat>, m1: Memory, x: int)
    requires n < ENTRIES && Progress(c0, m0, c, m, s, d, n, level)
    requires var e := Entries(m0, s)[n];
             e.present && InUse(c0, Tree(m0, e.addr, level)) && ChildDone(c, m, c1, m1, e.addr, x, level)
    ensures IsTable(m1, d) && Entries(m1, d)[n] == Entries(m0, s)[n]
    ensures Progress(c0, m0, c1, Store(m1, d, n, Entries(m1, d)[n].(addr := x)), s, d, n + 1, level)
  {
    hide Progress, Grew, Uses, Tree, CopiedTo, Copied, Untouched, InUse;
    ProgressFrames(c0, m0, c, m, s, d, n, level);
    StepTable(c0, m0, c, m, s, d, n, level, c1, m1);
    var m2 := Store(m1, d, n, Entries(m1, d)[n].(addr := x));
    StepGrew(c0, m0, c, m, s, d, n, level, c1, m1, x);
    StepCopied(c0, m0, c, m, s, d, n, level, c1, m1, x);
    StepRest(c0, m0, c, m, s, d, n, level, c1, m1, x);
  }

  lemma {:induction false} StepTable(c0: seq<nat>, m0: Memory, c: seq<nat>, m: Memory, s: int, d: int, n: nat,
                                     level: nat, c1: seq<nat>, m1: Memory)
    requires n < ENTRIES && Progress(c0, m0, c, m, s, d, n, level) && Untouched(c, m, m1)
    ensures IsTable(m1, d) && Entries(m1, d) == Entries(m, d) && Entries(m1, d)[n] == Entries(m0, s)[n]
  {
    ProgressFrames(c0, m0, c, m, s, d, n, level);
  }

  /** The memory after the link was stored: what was in use is the same, the table itself excepted. */
  lemma {:induction false} StepAgree(c0: seq<nat>, m0: Memory, c: seq<nat>, m: Memory, s: int, d: int, n: nat,
                                     level: nat, m1: Memory, e: Entry)
    requires n < ENTRIES && Progress(c0, m0, c, m, s, d, n, level) && Untouched(c, m, m1) && IsTable(m1, d)
    ensures Agree(m, Store(m1, d, n, e), Uses(m, Entries(m, d), n, level))
  {
    var u := Uses(m, Entries(m, d), n, level);
    ProgressFrames(c0, m0, c, m, s, d, n, level);
    InUseKept(c, m, m1, u);
    forall g | u[g] > 0 && 0 <= g < |m| ensures Store(m1, d, n, e)[g] == m[g] { assert g != d; }
  }

  lemma {:induction false} ChildFrames(c0: seq<nat>, m0: Memory, c: seq<nat>, m: Memory, s: int, d: int, n: nat,
                                       level: nat, c1: seq<nat>, m1: Memory, x: int, e: Entry)
    requires n < ENTRIES && Progress(c0, m0, c, m, s, d, n, level)
    requires Grew(c, c1, Tree(m1, x, level)) && Untouched(c, m, m1) && IsTable(m1, d)
    ensures Agree(m1, Store(m1, d, n, e), Tree(m1, x, level))
    ensures Tree(Store(m1, d, n, e), x, level) == Tree(m1, x, level)
  {
    ProgressFrames(c0, m0, c, m, s, d, n, level);
    GrewFrom(c, c1, Tree(m1, x, level), d);
    TreeSame(m1, Store(m1, d, n, e), x, level);
  }

  lemma {:induction false} StepGrew(c0: seq<nat>, m0: Memory, c: seq<nat>, m: Memory, s: int, d: int, n: nat,
                                    level: nat, c1: seq<nat>, m1: Memory, x: int)
    requires n < ENTRIES && Progress(c0, m0, c, m, s, d, n, level) && Entries(m0, s)[n].present
    requires Grew(c, c1, Tree(m1, x, level)) && Untouched(c, m, m1) && IsTable(m1, d) && Entries(m1, d) == Entries(m, d)
    ensures var m2 := Store(m1, d, n, Entries(m1, d)[n].(addr := x));
            Grew(c0, c1, Uses(m2, Entries(m2, d), n + 1, level) + multiset{d})
  {
    var e := Entries(m1, d)[n].(addr := x);
    var m2 := Store(m1, d, n, e);
    var u := Uses(m, Entries(m, d), n, level);
    assert Entries(m, d)[n] == Entries(m0, s)[n];
    StepAgree(c0, m0, c, m, s, d, n, level, m1, e);
    UsesSame(m, m2, Entries(m, d), Entries(m2, d), n, level);
    ChildFrames(c0, m0, c, m, s, d, n, level, c1, m1, x, e);
    assert Entries(m2, d)[n] == e;
    GrewMore(c0, c, c1, u + multiset{d}, Tree(m1, x, level));
    assert u + multiset{d} + Tree(m1, x, level) == Uses(m2, Entries(m2, d), n + 1, level) + multiset{d};
  }

  lemma {:induction false} StepCopied(c0: seq<nat>, m0: Memory, c: seq<nat>, m: Memory, s: int, d: int, n: nat,
                                      level: nat, c1: seq<nat>, m1: Memory, x: int)
    requires n < ENTRIES && Progress(c0, m0, c, m, s, d, n, level) && Entries(m0, s)[n].present
    requires InUse(c0, Tree(m0, Entries(m0, s)[n].addr, level))
    requires ChildDone(c, m, c1, m1, Entries(m0, s)[n].addr, x, level)
    requires IsTable(m1, d) && Entries(m1, d) == Entries(m, d)
    ensures CopiedTo(m0, Store(m1, d, n, Entries(m1, d)[n].(addr := x)), s, d, n + 1, level)
  {
    var a := Entries(m0, s)[n].addr;
    var e := Entries(m1, d)[n].(addr := x);
    var m2 := Store(m1, d, n, e);
    assert Entries(m, d)[n] == Entries(m0, s)[n];
    StepAgree(c0, m0, c, m, s, d, n, level, m1, e);
    CopiedToStays(m0, m, m2, s, d, n, level);
    InUseKept(c0, m0, m, Tree(m0, a, level));
    CopiedSource(m0, m, m1, a, x, level);
    ChildFrames(c0, m0, c, m, s, d, n, level, c1, m1, x, e);
    CopiedStays(m0, m1, m2, a, x, level);
    forall y | 0 <= y < n + 1 ensures EntryCopied(m0, m2, s, d, y, level) {
      assert y < n ==> EntryCopied(m0, m2, s, d, y, level);
    }
  }

  lemma {:induction false} StepRest(c0: seq<nat>, m0: Memory, c: seq<nat>, m: Memory, s: int, d: int, n: nat,
                                    level: nat, c1: seq<nat>, m1: Memory, x: int)
    requires n < ENTRIES && Progress(c0, m0, c, m, s, d, n, level)
    requires Untouched(c, m, m1) && IsTable(m1, d) && Entries(m1, d) == Entries(m, d)
    requires var m2 := Store(m1, d, n, Entries(m1, d)[n].(addr := x));
             Grew(c0, c1, Uses(m2, Entries(m2, d), n + 1, level) + multiset{d}) && CopiedTo(m0, m2, s, d, n + 1, level)
    ensures Progress(c0, m0, c1, Store(m1, d, n, Entries(m1, d)[n].(addr := x)), s, d, n + 1, level)
  {
    var m2 := Store(m1, d, n, Entries(m1, d)[n].(addr := x));
    ProgressFrames(c0, m0, c, m, s, d, n, level);
    UntouchedMore(c0, c, Uses(m, Entries(m, d), n, level) + multiset{d}, m0, m, m1);
    forall f | 0 <= f < |m0| && c0[f] > 0 ensures m2[f] == m0[f] { assert f != d; }
    forall y | n + 1 <= y < ENTRIES ensures Entries(m2, d)[y] == Entries(m0, s)[y] {
      assert Entries(m, d)[y] == Entries(m0, s)[y];
    }
  }

  /** Walks see no change as long as table frames do not change. */
  lemma {:induction false} OffTables(c: seq<nat>, m: Memory, owner: Owner, view: View, c': seq<nat>, m': Memory)
    requires Sound(c, m, owner, view) && |c'| == |m'| == |m|
    requires forall f {:trigger f in owner} :: f in owner && 0 < f < |m| ==> m'[f] == m[f]
    requires forall f {:trigger c'[f]} :: 0 < f < |c'| && c[f] > 0 ==> c'[f] > 0
    requires forall f {:trigger c'[f]} :: 0 <= f < |c'| ==> c'[f] < 256
    ensures Sound(c', m', owner, view)
  {
    forall f | f in owner ensures TableOk(m', owner, f) { assert TableOk(m, owner, f); }
    forall p | UserPage(p) && IsSpace(owner, p.root) ensures Shows(m', view, p) {
      ShownAt(c, m, owner, view, p);
    }
  }

  /** Frames taken from the free ones are no tables, so walks do not notice what happens to them. */
  lemma {:induction false} GrewOffTables(c: seq<nat>, m: Memory, owner: Owner, view: View, c': seq<nat>, m': Memory,
                                         u: multiset<int>)
    requires Sound(c, m, owner, view) && Grew(c, c', u) && Untouched(c, m, m')
    ensures Sound(c', m', owner, view)
  {
    forall f | 0 <= f < |c'| ensures c'[f] < 256 && (c[f] > 0 ==> c'[f] > 0) {
      assert GrewAt(c, c', u, f) && c[f] < 256;
    }
    OffTables(c, m, owner, view, c', m');
  }

  /** A finished table takes its place. */
  lemma {:induction false} TableAdded(c: seq<nat>, m: Memory, owner: Owner, view: View, d: int, place: Place)
    requires Sound(c, m, owner, view) && d !in owner && Counted(c, d) && Counted(c, place.root) && !place.node.Root?
    requires TableOk(m, owner[d := place], d)
    ensures Sound(c, m, owner[d := place], view) && SameSpaces(owner, owner[d := place])
  {
    var owner' := owner[d := place];
    forall f | f in owner' ensures TableOk(m, owner', f) {
      if f != d { assert TableOk(m, owner, f); PlaceAdded(m, owner, d, place, f); }
    }
    forall p | UserPage(p) && IsSpace(owner', p.root) ensures Shows(m, view, p) {
      assert IsSpace(owner, p.root);
      assert Shows(m, view, p);
    }
    forall p | p in view ensures UserPage(p) && IsSpace(owner', p.root) { assert IsSpace(owner, p.root); }
  }

  lemma {:induction false} PlaceAdded(m: Memory, owner: Owner, d: int, place: Place, f: int)
    requires f in owner && d !in owner && TableOk(m, owner, f)
    ensures TableOk(m, owner[d := place], f)
  {
    var owner' := owner[d := place];
    match owner[f].node
    case Root =>
      forall i | 0 <= i < USER_ENTRIES ensures ChildOk(owner', m[f].entries[i], Place(f, Pdp(i))) {
        assert ChildOk(owner, m[f].entries[i], Place(f, Pdp(i)));
      }
    case Pdp(i) =>
      forall j | 0 <= j < ENTRIES ensures ChildOk(owner', m[f].entries[j], Place(owner[f].root, Pd(i, j))) {
        assert ChildOk(owner, m[f].entries[j], Place(owner[f].root, Pd(i, j)));
      }
    case Pd(_, _) =>
  }

  lemma {:induction false} TableAt(c: seq<nat>, m: Memory, owner: Owner, view: View, f: int)
    requires Sound(c, m, owner, view) && f in owner
    ensures TableOk(m, owner, f) && 0 < f < |c| && c[f] > 0
  {
    assert TableOk(m, owner, f);
  }

  lemma {:induction false} FreeNoTable(c: seq<nat>, m: Memory, owner: Owner, view: View, f: int)
    requires Sound(c, m, owner, view) && 0 <= f < |c| && c[f] == 0
    ensures f !in owner
  {}

  // ---- vm_clone_pd -----------------------------------------------------------------------------------------

  /** A finished copy of a table is a finished child of the level above. */
  lemma {:induction false} TableDone(c0: seq<nat>, m0: Memory, c: seq<nat>, m: Memory, s: int, d: int, level: nat)
    requires Progress(c0, m0, c, m, s, d, ENTRIES, level)
    ensures ChildDone(c0, m0, c, m, s, d, level + 1)
  {}

  /** `kmemcpy(dst_page, src_page)` into a free frame. */
  lemma {:induction false} PageDone(c: seq<nat>, m: Memory, a: int, pm: int)
    requires |c| == |m| && 0 < pm < |m| && c[pm] == 0 && 0 <= a < |m|
    ensures ChildDone(c, m, c[pm := 1], m[pm := m[a]], a, pm, 0)
  {
    GrewNothing(c);
    GrewOne(c, c, multiset{}, pm);
    assert multiset{} + multiset{pm} == Tree(m[pm := m[a]], pm, 0);
  }

  /** The source's frames below entry `n` are in use. */
  lemma {:induction false} EntryInUse(c: seq<nat>, m: Memory, s: int, n: nat, limit: nat, level: nat)
    requires n < limit <= ENTRIES && InUse(c, Uses(m, Entries(m, s), limit, level)) && Entries(m, s)[n].present
    ensures InUse(c, Tree(m, Entries(m, s)[n].addr, level))
    ensures 0 <= Entries(m, s)[n].addr < |c| && c[Entries(m, s)[n].addr] > 0
  {
    UsesMember(m, Entries(m, s), limit, n, level);
    InUseSub(c, Uses(m, Entries(m, s), limit, level), Tree(m, Entries(m, s)[n].addr, level));
    TreeRoot(m, Entries(m, s)[n].addr, level);
  }

  /** The source table looks the same during the whole copy. */
  lemma {:induction false} SourceSame(c0: seq<nat>, m0: Memory, c: seq<nat>, m: Memory, s: int, d: int, n: nat,
                                      level: nat)
    requires n <= ENTRIES && Progress(c0, m0, c, m, s, d, n, level) && 0 <= s < |c0| && c0[s] > 0
    ensures |m| == |m0| && m[s] == m0[s] && Entries(m, s) == Entries(m0, s)
  {
    ProgressFrames(c0, m0, c, m, s, d, n, level);
  }

  /** One round of the loop of `vm_clone_pd`. */
  method CopyEntry(vm: Vm, s: int, d: int, k: nat, ghost c0: seq<nat>, ghost m0: Memory) returns (ok: bool)
    requires k < ENTRIES && Progress(c0, m0, vm.counts, vm.mem, s, d, k, 0) && IsTable(m0, s) && c0[s] > 0
    requires InUse(c0, Uses(m0, Entries(m0, s), ENTRIES, 0)) && Reserved(c0)
    modifies vm`counts, vm`mem
    ensures ok ==> Progress(c0, m0, vm.counts, vm.mem, s, d, k + 1, 0)
    ensures !ok ==> && Progress(c0, m0, vm.counts, vm.mem, s, d, k, 0) && Exhausted(vm.counts)
                    && Entries(m0, s)[k].present
  {
    hide Progress, InUse, Grew, Uses, Copied, Untouched, ChildDone;
    ok := true;
    ProgressFrames(c0, m0, vm.counts, vm.mem, s, d, k, 0);
    SourceSame(c0, m0, vm.counts, vm.mem, s, d, k, 0);
    var e := vm.mem[s].entries[k];
    if e.present {
      ghost var c, m := vm.counts, vm.mem;
      EntryInUse(c0, m0, s, k, ENTRIES, 0);
      StillReserved(c0, m0, c, m, s, d, k, 0);
      var pm := vm.Alloc();
      if pm == 0 { return false; }
      PageDone(c, m, e.addr, pm);
      vm.mem := vm.mem[pm := vm.mem[e.addr]];
      Step(c0, m0, c, m, s, d, k, 0, vm.counts, vm.mem, pm);
      vm.mem := Store(vm.mem, d, k, vm.mem[d].entries[k].(addr := pm));
    } else {
      Skip(c0, m0, vm.counts, vm.mem, s, d, k, 0);
    }
  }

  lemma {:induction false} StillReserved(c0: seq<nat>, m0: Memory, c: seq<nat>, m: Memory, s: int, d: int, n: nat,
                                         level: nat)
    requires n <= ENTRIES && Progress(c0, m0, c, m, s, d, n, level) && Reserved(c0)
    ensures Reserved(c)
  {
    GrewReserved(c0, c, Uses(m, Entries(m, d), n, level) + multiset{d});
  }

  /** A table copy that ends at entry `n` for want of a frame has taken fewer frames than the source has references. */
  lemma {:induction false} StopsShort(c0: seq<nat>, m0: Memory, o0: Owner, v0: View, c: seq<nat>, m: Memory, s: int,
                                      d: int, n: nat, limit: nat, level: nat)
    requires n < limit <= ENTRIES && Progress(c0, m0, c, m, s, d, n, level) && Sound(c0, m0, o0, v0) && Exhausted(c)
    requires Entries(m0, s)[n].present
    ensures var u := Uses(m, Entries(m, d), n, level) + multiset{d};
            RanShort(c0, c, u, |Uses(m0, Entries(m0, s), limit, level)| + 1) && Sound(c, m, o0, v0)
    ensures Untouched(c0, m0, m)
  {
    hide Uses, Tree, Grew, CopiedTo, Sound;
    var u := Uses(m, Entries(m, d), n, level) + multiset{d};
    CopiedToSize(m0, m, s, d, n, level);
    UsesGrow(m0, Entries(m0, s), n, limit, level);
    TreeRoot(m0, Entries(m0, s)[n].addr, level);
    GrewOffTables(c0, m0, o0, v0, c, m, u);
  }

  /** `vm_clone_pd`: a copy of a leaf table and of its pages, for `place` in the new address space; or frames have run
      out, those of `u` being taken. */
  method ClonePd(vm: Vm, s: int, ghost place: Place) returns (d: int, ghost u: multiset<int>)
    requires vm.Valid() && s in vm.owner && InUse(vm.counts, Tree(vm.mem, s, 1)) && Reserved(vm.counts)
    requires place.node.Pd? && Counted(vm.counts, place.root)
    modifies vm
    ensures vm.Valid() && vm.view == old(vm.view)
    ensures d != 0 ==>
              && d !in old(vm.owner) && vm.owner == old(vm.owner)[d := place]
              && ChildDone(old(vm.counts), old(vm.mem), vm.counts, vm.mem, s, d, 1)
    ensures d == 0 ==>
              && vm.owner == old(vm.owner) && Untouched(old(vm.counts), old(vm.mem), vm.mem)
              && RanShort(old(vm.counts), vm.counts, u, |Tree(old(vm.mem), s, 1)|)
  {
    hide Progress, Tables, Viewed, ChildDone, InUse, Uses, Tree, RanShort;
    u := multiset{};
    ghost var c0, m0, owner, view := vm.counts, vm.mem, vm.owner, vm.view;
    TableAt(vm.counts, vm.mem, vm.owner, vm.view, s);
    TreeRoot(m0, s, 1);
    InUseSub(c0, Tree(m0, s, 1), Uses(m0, Entries(m0, s), ENTRIES, 0));
    TreeSize(m0, s, 1);
    d := vm.Alloc();
    if d == 0 {
      NothingTaken(c0, |Tree(m0, s, 1)|);
      return;
    }
    Start(c0, m0, s, d, 0);
    vm.mem := vm.mem[d := Table(vm.mem[s].entries)];
    for k := 0 to ENTRIES
      invariant Progress(c0, m0, vm.counts, vm.mem, s, d, k, 0) && vm.owner == owner && vm.view == view
    {
      var ok := CopyEntry(vm, s, d, k, c0, m0);
      if !ok {
        StopsShort(c0, m0, owner, view, vm.counts, vm.mem, s, d, k, ENTRIES, 0);
        return 0, Uses(vm.mem, Entries(vm.mem, d), k, 0) + multiset{d};
      }
    }
    TableDone(c0, m0, vm.counts, vm.mem, s, d, 0);
    PdPlaced(c0, m0, vm.counts, vm.mem, owner, view, s, d, place);
    vm.owner := vm.owner[d := place];
  }

  lemma {:induction false} TreeSize(m: Memory, s: int, level: nat)
    requires level > 0
    ensures |Tree(m, s, level)| == |Uses(m, Entries(m, s), ENTRIES, level - 1)| + 1
  {
    hide Uses;
  }

  lemma {:induction false} NothingTaken(c: seq<nat>, need: nat)
    requires Exhausted(c) && need > 0
    ensures RanShort(c, c, multiset{}, need)
  {
    GrewNothing(c);
  }

  lemma {:induction false} PdPlaced(c0: seq<nat>, m0: Memory, c: seq<nat>, m: Memory, owner: Owner, view: View, s: int,
                                    d: int, place: Place)
    requires Sound(c0, m0, owner, view) && Progress(c0, m0, c, m, s, d, ENTRIES, 0)
    requires place.node.Pd? && Counted(c0, place.root)
    ensures d !in owner && Sound(c, m, owner[d := place], view)
  {
    hide Tables, Viewed, Uses;
    ProgressFrames(c0, m0, c, m, s, d, ENTRIES, 0);
    FreeNoTable(c0, m0, owner, view, d);
    GrewOffTables(c0, m0, owner, view, c, m, Uses(m, Entries(m, d), ENTRIES, 0) + multiset{d});
    GrewFrom(c0, c, Uses(m, Entries(m, d), ENTRIES, 0) + multiset{d}, place.root);
    TableAdded(c, m, owner, view, d, place);
  }

  // ---- vm_clone_pdp ----------------------------------------------------------------------------------------

  ghost predicate OwnerGrew(o: Owner, o': Owner) {
    && (forall f {:trigger f in o} :: f in o ==> f in o' && o'[f] == o[f])
    && SameSpaces(o, o')
  }

  lemma {:induction false} OwnerGrewSelf(o: Owner)
    ensures OwnerGrew(o, o)
  {}

  lemma {:induction false} OwnerGrewMore(o: Owner, o1: Owner, o2: Owner)
    requires OwnerGrew(o, o1) && OwnerGrew(o1, o2)
    ensures OwnerGrew(o, o2)
  {
    SpacesTrans(o, o1, o2);
    forall f | f in o ensures f in o2 && o2[f] == o[f] { assert f in o1; }
  }

  lemma {:induction false} OwnerGrewOne(o: Owner, d: int, place: Place)
    requires d !in o && !place.node.Root?
    ensures OwnerGrew(o, o[d := place])
  {}

  /** The first `n` entries of a table at `place` lead to tables in their places. */
  ghost predicate Placed(owner: Owner, es: seq<Entry>, n: int, place: Place) {
    forall x {:trigger es[x]} :: 0 <= x < n && x < |es| ==> ChildOk(owner, es[x], Below(place, x))
  }

  lemma {:induction false} PlacedStep(owner: Owner, owner': Owner, es: seq<Entry>, es': seq<Entry>, n: int,
                                      place: Place)
    requires Placed(owner, es, n, place) && OwnerGrew(owner, owner') && 0 <= n < |es| == |es'|
    requires forall x {:trigger es'[x]} :: 0 <= x < n ==> es'[x] == es[x]
    requires ChildOk(owner', es'[n], Below(place, n))
    ensures Placed(owner', es', n + 1, place)
  {
    forall x | 0 <= x < n + 1 ensures ChildOk(owner', es'[x], Below(place, x)) {
      assert x < n ==> es'[x] == es[x] && ChildOk(owner, es[x], Below(place, x));
    }
  }

  /** A store into a frame that is no table yet. */
  lemma {:induction false} StoreOff(c: seq<nat>, m: Memory, owner: Owner, view: View, d: int, n: nat, e: Entry)
    requires Sound(c, m, owner, view) && d !in owner && IsTable(m, d) && n < ENTRIES
    ensures Sound(c, Store(m, d, n, e), owner, view)
  {
    forall f | 0 <= f < |c| ensures c[f] < 256 {}
    OffTables(c, m, owner, view, c, Store(m, d, n, e));
  }

  /** Tables that were not there before are on frames that were free before, and belong to space `r`. */
  ghost predicate NewOnes(c0: seq<nat>, o0: Owner, o: Owner, r: int) {
    forall f {:trigger f in o} :: f in o && f !in o0 ==> 0 <= f < |c0| && c0[f] == 0 && o[f].root == r
  }

  /** The state of a table copy whose children are tables. */
  ghost predicate Building(c0: seq<nat>, m0: Memory, o0: Owner, v0: View, vm: Vm, s: int, d: int, n: nat, level: nat,
                           place: Place)
    requires n <= ENTRIES
    reads vm
  {
    && Progress(c0, m0, vm.counts, vm.mem, s, d, n, level) && vm.Valid() && vm.view == v0
    && OwnerGrew(o0, vm.owner) && NewOnes(c0, o0, vm.owner, place.root) && d !in vm.owner
    && Placed(vm.owner, Entries(vm.mem, d), n, place)
  }

  /** The subtree below entry `n` of the source, as it stands during the copy. */
  lemma {:induction false} SourceChild(c0: seq<nat>, m0: Memory, c: seq<nat>, m: Memory, s: int, d: int, n: nat,
                                       limit: nat, level: nat)
    requires n < limit <= ENTRIES && Progress(c0, m0, c, m, s, d, n, level) && 0 <= s < |c0| && c0[s] > 0
    requires InUse(c0, Uses(m0, Entries(m0, s), limit, level)) && Entries(m0, s)[n].present
    ensures InUse(c0, Tree(m0, Entries(m0, s)[n].addr, level))
    ensures InUse(c, Tree(m, Entries(m0, s)[n].addr, level))
  {
    var a := Entries(m0, s)[n].addr;
    EntryInUse(c0, m0, s, n, limit, level);
    InUseKept(c0, m0, m, Tree(m0, a, level));
    TreeSame(m0, m, a, level);
    InUseGrew(c0, c, Tree(m0, a, level), Uses(m, Entries(m, d), n, level) + multiset{d});
  }

  /** A child table `x` was copied and is linked into entry `n`. */
  lemma {:induction false} Linked(c0: seq<nat>, m0: Memory, c: seq<nat>, m: Memory, o: Owner, s: int, d: int, n: nat,
                                  level: nat, c1: seq<nat>, m1: Memory, o1: Owner, v: View, x: int, place: Place)
    requires n < ENTRIES && Progress(c0, m0, c, m, s, d, n, level)
    requires Entries(m0, s)[n].present && InUse(c0, Tree(m0, Entries(m0, s)[n].addr, level))
    requires ChildDone(c, m, c1, m1, Entries(m0, s)[n].addr, x, level)
    requires Placed(o, Entries(m, d), n, place) && OwnerGrew(o, o1) && d !in o1 && x in o1 && o1[x] == Below(place, n)
    requires Sound(c1, m1, o1, v)
    ensures IsTable(m1, d)
    ensures var m2 := Store(m1, d, n, Entries(m1, d)[n].(addr := x));
            && Progress(c0, m0, c1, m2, s, d, n + 1, level) && Placed(o1, Entries(m2, d), n + 1, place)
            && Sound(c1, m2, o1, v)
  {
    hide Progress, InUse, ChildDone, Tables, Viewed, Counts, OwnerGrew, Below;
    Step(c0, m0, c, m, s, d, n, level, c1, m1, x);
    var e := Entries(m1, d)[n].(addr := x);
    var m2 := Store(m1, d, n, e);
    StoreOff(c1, m1, o1, v, d, n, e);
    ChildTable(c, m, c1, m1, Entries(m0, s)[n].addr, x, level, c0, m0, s, d, n);
    PlacedStep(o, o1, Entries(m, d), Entries(m2, d), n, place);
  }

  lemma {:induction false} ChildTable(c: seq<nat>, m: Memory, c1: seq<nat>, m1: Memory, a: int, x: int, level: nat,
                                      c0: seq<nat>, m0: Memory, s: int, d: int, n: nat)
    requires n < ENTRIES && Progress(c0, m0, c, m, s, d, n, level) && ChildDone(c, m, c1, m1, a, x, level)
    ensures Entries(m1, d) == Entries(m, d)
  {
    ProgressFrames(c0, m0, c, m, s, d, n, level);
  }

  /** A copy was given up for want of frames: the old spaces are as they were, and all new tables belong to `r`. */
  ghost predicate BrokeOff(c0: seq<nat>, m0: Memory, o0: Owner, v0: View, vm: Vm, u: multiset<int>, need: nat, r: int)
    reads vm
  {
    && vm.Valid() && vm.view == v0 && OwnerGrew(o0, vm.owner) && NewOnes(c0, o0, vm.owner, r)
    && Untouched(c0, m0, vm.mem) && RanShort(c0, vm.counts, u, need)
  }

  /** The copy of what entry `n` leads to ran short, and so does the table. */
  lemma {:induction false} ChildShort(c0: seq<nat>, m0: Memory, c: seq<nat>, m: Memory, s: int, d: int, n: nat,
                                      limit: nat, level: nat, c1: seq<nat>, m1: Memory, w: multiset<int>)
    requires n < limit <= ENTRIES && Progress(c0, m0, c, m, s, d, n, level) && Entries(m0, s)[n].present
    requires var a := Entries(m0, s)[n].addr;
             InUse(c0, Tree(m0, a, level)) && RanShort(c, c1, w, |Tree(m, a, level)|) && Untouched(c, m, m1)
    ensures var u := Uses(m, Entries(m, d), n, level) + multiset{d};
            RanShort(c0, c1, u + w, |Uses(m0, Entries(m0, s), limit, level)| + 1) && Untouched(c0, m0, m1)
  {
    hide Uses, Tree, CopiedTo, InUse;
    var a, u := Entries(m0, s)[n].addr, Uses(m, Entries(m, d), n, level) + multiset{d};
    InUseKept(c0, m0, m, Tree(m0, a, level));
    TreeSame(m0, m, a, level);
    CopiedToSize(m0, m, s, d, n, level);
    UsesGrow(m0, Entries(m0, s), n, limit, level);
    GrewMore(c0, c, c1, u, w);
    UntouchedMore(c0, c, u, m0, m, m1);
  }

  /** One round of the loop of `vm_clone_pdp`. */
  method ClonePdpEntry(vm: Vm, s: int, d: int, n: nat, ghost place: Place,
                       ghost c0: seq<nat>, ghost m0: Memory, ghost o0: Owner, ghost v0: View)
    returns (ok: bool, ghost u: multiset<int>)
    requires n < ENTRIES && Building(c0, m0, o0, v0, vm, s, d, n, 1, place) && place.node.Pdp?
    requires Counted(c0, place.root)
    requires Sound(c0, m0, o0, v0) && s in o0 && o0[s].node.Pdp? && InUse(c0, Uses(m0, Entries(m0, s), ENTRIES, 1))
    requires Reserved(c0)
    modifies vm
    ensures ok ==> Building(c0, m0, o0, v0, vm, s, d, n + 1, 1, place)
    ensures !ok ==> BrokeOff(c0, m0, o0, v0, vm, u, |Tree(m0, s, 2)|, place.root)
  {
    hide Progress, InUse, Grew, Uses, Tree, ChildDone, Tables, Viewed, OwnerGrew, Placed, RanShort, Untouched;
    u := multiset{};
    ok := true;
    TableAt(c0, m0, o0, v0, s);
    SourceSame(c0, m0, vm.counts, vm.mem, s, d, n, 1);
    ghost var c, m, o := vm.counts, vm.mem, vm.owner;
    ProgressFrames(c0, m0, c, m, s, d, n, 1);
    var e := vm.mem[s].entries[n];
    if e.present {
      SourceChild(c0, m0, c, m, s, d, n, ENTRIES, 1);
      StillCounted(c0, m0, c, m, s, d, n, 1, place.root);
      SourceLink(c0, m0, o0, v0, o, s, n);
      StillReserved(c0, m0, c, m, s, d, n, 1);
      ghost var w;
      var x;
      x, w := ClonePd(vm, e.addr, Below(place, n));
      if x == 0 {
        ChildShort(c0, m0, c, m, s, d, n, ENTRIES, 1, vm.counts, vm.mem, w);
        TreeSize(m0, s, 2);
        return false, Uses(m, Entries(m, d), n, 1) + multiset{d} + w;
      }
      OwnerGrewOne(o, x, Below(place, n));
      OwnerGrewMore(o0, o, vm.owner);
      FreshChild(c, m, vm.counts, vm.mem, e.addr, x, 1, d);
      FreeBefore(c0, m0, c, m, s, d, n, 1, x);
      Linked(c0, m0, c, m, o, s, d, n, 1, vm.counts, vm.mem, vm.owner, v0, x, place);
      vm.mem := Store(vm.mem, d, n, vm.mem[d].entries[n].(addr := x));
    } else {
      Skip(c0, m0, c, m, s, d, n, 1);
      SkipPlaced(c0, m0, c, m, o, s, d, n, 1, place);
    }
  }

  lemma {:induction false} SourceLink(c0: seq<nat>, m0: Memory, o0: Owner, v0: View, o: Owner, s: int, n: nat)
    requires Sound(c0, m0, o0, v0) && s in o0 && OwnerGrew(o0, o) && n < ENTRIES && Entries(m0, s)[n].present
    requires o0[s].node.Pdp? || (o0[s].node.Root? && n < USER_ENTRIES)
    ensures Entries(m0, s)[n].addr in o && o[Entries(m0, s)[n].addr] == Below(o0[s], n)
  {
    assert TableOk(m0, o0, s);
    assert ChildOk(o0, m0[s].entries[n], Below(o0[s], n));
  }

  lemma {:induction false} FreshChild(c: seq<nat>, m: Memory, c1: seq<nat>, m1: Memory, a: int, x: int, level: nat,
                                      d: int)
    requires ChildDone(c, m, c1, m1, a, x, level) && 0 <= d < |c| && c[d] > 0
    ensures x != d && 0 <= x < |c| && c[x] == 0
  {
    TreeRoot(m1, x, level);
    var u := Tree(m1, x, level);
    assert u[x] > 0;
    assert GrewAt(c, c1, u, x);
    GrewFrom(c, c1, u, d);
  }

  lemma {:induction false} StillCounted(c0: seq<nat>, m0: Memory, c: seq<nat>, m: Memory, s: int, d: int, n: nat,
                                        level: nat, f: int)
    requires n <= ENTRIES && Progress(c0, m0, c, m, s, d, n, level) && Counted(c0, f)
    ensures Counted(c, f)
  {
    GrewFrom(c0, c, Uses(m, Entries(m, d), n, level) + multiset{d}, f);
  }

  lemma {:induction false} FreeBefore(c0: seq<nat>, m0: Memory, c: seq<nat>, m: Memory, s: int, d: int, n: nat,
                                      level: nat, x: int)
    requires n <= ENTRIES && Progress(c0, m0, c, m, s, d, n, level) && 0 <= x < |c| && c[x] == 0
    ensures c0[x] == 0
  {
    assert GrewAt(c0, c, Uses(m, Entries(m, d), n, level) + multiset{d}, x);
  }

  lemma {:induction false} SkipPlaced(c0: seq<nat>, m0: Memory, c: seq<nat>, m: Memory, o: Owner, s: int, d: int,
                                      n: nat, level: nat, place: Place)
    requires n < ENTRIES && Progress(c0, m0, c, m, s, d, n, level) && !Entries(m0, s)[n].present
    requires Placed(o, Entries(m, d), n, place)
    ensures Placed(o, Entries(m, d), n + 1, place)
  {
    assert Entries(m, d)[n] == Entries(m0, s)[n];
  }

  /** `vm_clone_pdp`. */
  method ClonePdp(vm: Vm, s: int, ghost place: Place) returns (d: int, ghost u: multiset<int>)
    requires vm.Valid() && s in vm.owner && vm.owner[s].node.Pdp? && InUse(vm.counts, Tree(vm.mem, s, 2))
    requires Reserved(vm.counts)
    requires place.node.Pdp? && 0 <= place.node.i < USER_ENTRIES && Counted(vm.counts, place.root)
    modifies vm
    ensures d != 0 ==>
              && vm.Valid() && vm.view == old(vm.view) && OwnerGrew(old(vm.owner), vm.owner)
              && d !in old(vm.owner) && d in vm.owner && vm.owner[d] == place
              && ChildDone(old(vm.counts), old(vm.mem), vm.counts, vm.mem, s, d, 2)
              && NewOnes(old(vm.counts), old(vm.owner), vm.owner, place.root)
    ensures d == 0 ==>
              BrokeOff(old(vm.counts), old(vm.mem), old(vm.owner), old(vm.view), vm, u, |Tree(old(vm.mem), s, 2)|,
                       place.root)
  {
    hide Progress, Tables, Viewed, ChildDone, InUse, Uses, Tree, OwnerGrew, Placed, RanShort;
    u := multiset{};
    ghost var c0, m0, o0, v0 := vm.counts, vm.mem, vm.owner, vm.view;
    TableAt(c0, m0, o0, v0, s);
    TreeRoot(m0, s, 2);
    InUseSub(c0, Tree(m0, s, 2), Uses(m0, Entries(m0, s), ENTRIES, 1));
    TreeSize(m0, s, 2);
    OwnerGrewSelf(o0);
    d := vm.Alloc();
    if d == 0 {
      NothingTaken(c0, |Tree(m0, s, 2)|);
      return;
    }
    StartBuilding(c0, m0, o0, v0, s, d, 1, place);
    vm.mem := vm.mem[d := Table(vm.mem[s].entries)];
    for n := 0 to ENTRIES
      invariant Building(c0, m0, o0, v0, vm, s, d, n, 1, place)
    {
      ghost var w;
      var ok;
      ok, w := ClonePdpEntry(vm, s, d, n, place, c0, m0, o0, v0);
      if !ok { return 0, w; }
    }
    TableDone(c0, m0, vm.counts, vm.mem, s, d, 1);
    PdpPlaced(c0, m0, vm.counts, vm.mem, o0, vm.owner, v0, s, d, place);
    ProgressFrames(c0, m0, vm.counts, vm.mem, s, d, ENTRIES, 1);
    vm.owner := vm.owner[d := place];
  }

  lemma {:induction false} StartBuilding(c0: seq<nat>, m0: Memory, o0: Owner, v0: View, s: int, d: int, level: nat,
                                         place: Place)
    requires Sound(c0, m0, o0, v0) && IsTable(m0, s) && 0 < d < |c0| && c0[d] == 0
    ensures var m := m0[d := Table(m0[s].entries)];
            && Progress(c0, m0, c0[d := 1], m, s, d, 0, level) && Sound(c0[d := 1], m, o0, v0)
            && OwnerGrew(o0, o0) && NewOnes(c0, o0, o0, place.root) && d !in o0 && Placed(o0, Entries(m, d), 0, place)
  {
    hide Tables, Viewed;
    Start(c0, m0, s, d, level);
    FreeNoTable(c0, m0, o0, v0, d);
    GrewNothing(c0);
    GrewOne(c0, c0, multiset{}, d);
    GrewOffTables(c0, m0, o0, v0, c0[d := 1], m0[d := Table(m0[s].entries)], multiset{} + multiset{d});
  }

  lemma {:induction false} PdpPlaced(c0: seq<nat>, m0: Memory, c: seq<nat>, m: Memory, o0: Owner, o: Owner, v: View,
                                     s: int, d: int, place: Place)
    requires Sound(c, m, o, v) && Progress(c0, m0, c, m, s, d, ENTRIES, 1) && d !in o && OwnerGrew(o0, o)
    requires Counted(c0, place.root)
    requires place.node.Pdp? && 0 <= place.node.i < USER_ENTRIES && Placed(o, Entries(m, d), ENTRIES, place)
    ensures Sound(c, m, o[d := place], v) && OwnerGrew(o0, o[d := place]) && d !in o0
  {
    hide Tables, Viewed, Progress, Uses, Tree;
    ProgressFrames(c0, m0, c, m, s, d, ENTRIES, 1);
    StillCounted(c0, m0, c, m, s, d, ENTRIES, 1, place.root);
    var o' := o[d := place];
    forall j | 0 <= j < ENTRIES ensures ChildOk(o', m[d].entries[j], Place(place.root, Pd(place.node.i, j))) {
      assert ChildOk(o, Entries(m, d)[j], Below(place, j));
    }
    TableAdded(c, m, o, v, d, place);
    OwnerGrewOne(o, d, place);
    OwnerGrewMore(o0, o, o');
  }

  // ---- vm_clone_pml4 and vm_address_space_clone ---------------------------------------------------------------

  /** One round of the loop of `vm_clone_pml4`. */
  method ClonePml4Entry(vm: Vm, s: int, d: int, n: nat,
                        ghost c0: seq<nat>, ghost m0: Memory, ghost o0: Owner, ghost v0: View)
    returns (ok: bool, ghost u: multiset<int>)
    requires n < USER_ENTRIES && Building(c0, m0, o0, v0, vm, s, d, n, 2, Place(d, Root))
    requires Sound(c0, m0, o0, v0) && IsSpace(o0, s) && InUse(c0, UserUses(m0, s)) && Reserved(c0)
    modifies vm
    ensures ok ==> Building(c0, m0, o0, v0, vm, s, d, n + 1, 2, Place(d, Root))
    ensures !ok ==> && BrokeOff(c0, m0, o0, v0, vm, u, |Uses(m0, Entries(m0, s), n + 1, 2)| + 1, d)
                    && Entries(m0, s)[n].present
  {
    hide Progress, InUse, Grew, Uses, Tree, ChildDone, Tables, Viewed, OwnerGrew, Placed, RanShort, NewOnes, Untouched;
    u := multiset{};
    ok := true;
    ghost var place := Place(d, Root);
    TableAt(c0, m0, o0, v0, s);
    SourceSame(c0, m0, vm.counts, vm.mem, s, d, n, 2);
    ghost var c, m, o := vm.counts, vm.mem, vm.owner;
    ProgressFrames(c0, m0, c, m, s, d, n, 2);
    var e := vm.mem[s].entries[n];
    if e.present {
      SourceChild(c0, m0, c, m, s, d, n, USER_ENTRIES, 2);
      SourceLink(c0, m0, o0, v0, o, s, n);
      StillReserved(c0, m0, c, m, s, d, n, 2);
      ghost var w;
      var x;
      x, w := ClonePdp(vm, e.addr, Below(place, n));
      OwnerGrewMore(o0, o, vm.owner);
      if x == 0 {
        ChildShort(c0, m0, c, m, s, d, n, n + 1, 2, vm.counts, vm.mem, w);
        NewOnesMore(c0, m0, c, m, s, d, n, 2, o0, o, vm.owner, d);
        return false, Uses(m, Entries(m, d), n, 2) + multiset{d} + w;
      }
      FreshChild(c, m, vm.counts, vm.mem, e.addr, x, 2, d);
      NewOnesMore(c0, m0, c, m, s, d, n, 2, o0, o, vm.owner, d);
      Linked(c0, m0, c, m, o, s, d, n, 2, vm.counts, vm.mem, vm.owner, v0, x, place);
      vm.mem := Store(vm.mem, d, n, vm.mem[d].entries[n].(addr := x));
    } else {
      Skip(c0, m0, c, m, s, d, n, 2);
      SkipPlaced(c0, m0, c, m, o, s, d, n, 2, place);
    }
  }

  lemma {:induction false} NewOnesMore(c0: seq<nat>, m0: Memory, c: seq<nat>, m: Memory, s: int, d: int, n: nat,
                                       level: nat, o0: Owner, o: Owner, o1: Owner, r: int)
    requires n <= ENTRIES && Progress(c0, m0, c, m, s, d, n, level) && d !in o
    requires OwnerGrew(o, o1) && NewOnes(c0, o0, o, r) && NewOnes(c, o, o1, r)
    ensures NewOnes(c0, o0, o1, r) && d !in o1
  {
    ProgressFrames(c0, m0, c, m, s, d, n, level);
    forall f | f in o1 && f !in o0 ensures 0 <= f < |c0| && c0[f] == 0 && o1[f].root == r {
      if f !in o { FreeBefore(c0, m0, c, m, s, d, n, level, f); } else { assert f in o; }
    }
  }

  /** A page of an address space, seen in a copy of it. */
  /** Every page of `s` has a copy under `d`: the same attributes and rights, and a frame with the same contents. */
  ghost predicate PagesCopied(m0: Memory, m: Memory, s: int, d: int) {
    forall p {:trigger PageCopied(m0, m, s, d, p)} :: UserPage(p) ==> PageCopied(m0, m, s, d, p)
  }

  ghost predicate PageCopied(m0: Memory, m: Memory, s: int, d: int, p: Page) {
    var e, e' := Lookup(m0, p.(root := s)), Lookup(m, p.(root := d));
    && SameBits(e, e')
    && (e.present ==>
          && Copied(m0, m, e.addr, e'.addr, 0) && RightsOf(m, p.(root := d)) == RightsOf(m0, p.(root := s)))
  }

  lemma {:induction false} LookupCopied(m: Memory, m': Memory, s: int, d: int, p: Page)
    requires CopiedTo(m, m', s, d, USER_ENTRIES, 2) && UserPage(p) && IsTable(m, s) && IsTable(m', d)
    requires var e4 := Entries(m, s)[p.i];
             e4.present ==> IsTable(m, e4.addr) && IsTable(m', Entries(m', d)[p.i].addr)
    requires var e4 := Entries(m, s)[p.i];
             e4.present && Entries(m, e4.addr)[p.j].present ==>
               IsTable(m, Entries(m, e4.addr)[p.j].addr) && IsTable(m', Entries(m', Entries(m', d)[p.i].addr)[p.j].addr)
    ensures PageCopied(m, m', s, d, p)
  {
    assert EntryCopied(m, m', s, d, p.i, 2);
    var e4, f4 := Entries(m, s)[p.i], Entries(m', d)[p.i];
    if e4.present {
      assert EntryCopied(m, m', e4.addr, f4.addr, p.j, 1);
      var e3, f3 := Entries(m, e4.addr)[p.j], Entries(m', f4.addr)[p.j];
      if e3.present {
        assert EntryCopied(m, m', e3.addr, f3.addr, p.k, 0);
      }
    }
  }

  ghost function CopyPages(view: View, s: int, d: int): set<Page> {
    set q | q in view && q.root == s :: q.(root := d)
  }

  /** The pages of all spaces, with those of `s` once more under `d`. */
  ghost function CopyView(view: View, m: Memory, s: int, d: int): View {
    view + map p | p in CopyPages(view, s, d) :: Lookup(m, p)
  }

  lemma {:induction false} InCopyPages(view: View, s: int, d: int, p: Page)
    ensures p in CopyPages(view, s, d) <==> p.root == d && p.(root := s) in view
  {
    if p.root == d && p.(root := s) in view { assert p == p.(root := s).(root := d); }
  }

  /** The finished root becomes an address space. */
  lemma {:induction false} RootPlaced(c0: seq<nat>, m0: Memory, o0: Owner, v0: View, c: seq<nat>, m: Memory, o: Owner,
                                      s: int, d: int)
    requires Sound(c0, m0, o0, v0) && IsSpace(o0, s) && Sound(c, m, o, v0) && OwnerGrew(o0, o) && d !in o
    requires Progress(c0, m0, c, m, s, d, USER_ENTRIES, 2) && Placed(o, Entries(m, d), USER_ENTRIES, Place(d, Root))
    ensures Sound(c, m, o[d := Place(d, Root)], CopyView(v0, m, s, d)) && PagesCopied(m0, m, s, d)
  {
    hide Progress, Uses, Tree, Copied, CopiedTo, Grew, CopyView, Lookup, RightsOf;
    var o' := o[d := Place(d, Root)];
    ProgressFrames(c0, m0, c, m, s, d, USER_ENTRIES, 2);
    RootTables(c, m, o, v0, d);
    assert IsSpace(o', d);
    forall p | UserPage(p) ensures PageCopied(m0, m, s, d, p) {
      RootLookup(c0, m0, o0, v0, c, m, o', s, d, p.(root := s));
      assert p.(root := s).(root := d) == p.(root := d) && p.(root := s).(root := s) == p.(root := s);
    }
    forall p | UserPage(p) && IsSpace(o', p.root) ensures Shows(m, CopyView(v0, m, s, d), p) {
      assert p.root != d ==> IsSpace(o, p.root);
      CopyShows(c0, m0, o0, v0, c, m, o, s, d, p);
    }
    forall p | p in CopyView(v0, m, s, d) ensures UserPage(p) && IsSpace(o', p.root) {
      CopyViewKeys(c, m, o, v0, s, d, p);
    }
  }

  lemma {:induction false} CopyViewKeys(c: seq<nat>, m: Memory, o: Owner, v: View, s: int, d: int, p: Page)
    requires Sound(c, m, o, v) && d !in o && p in CopyView(v, m, s, d)
    ensures UserPage(p) && (p.root == d || IsSpace(o, p.root))
  {
    InCopyPages(v, s, d, p);
    NoPagesYet(c, m, o, v, d, p);
    NoPagesYet(c, m, o, v, d, p.(root := s));
  }

  lemma {:induction false} CopyShows(c0: seq<nat>, m0: Memory, o0: Owner, v0: View, c: seq<nat>, m: Memory, o: Owner,
                                     s: int, d: int, p: Page)
    requires Sound(c0, m0, o0, v0) && IsSpace(o0, s) && Sound(c, m, o, v0) && d !in o
    requires UserPage(p) && (p.root == d || IsSpace(o, p.root)) && PageCopied(m0, m, s, d, p)
    ensures Shows(m, CopyView(v0, m, s, d), p)
  {
    hide Lookup;
    InCopyPages(v0, s, d, p);
    NoPagesYet(c, m, o, v0, d, p);
    if p.root == d {
      ShownAt(c0, m0, o0, v0, p.(root := s));
      assert p.(root := d) == p;
    } else {
      ShownAt(c, m, o, v0, p);
    }
  }

  lemma {:induction false} NoPagesYet(c: seq<nat>, m: Memory, o: Owner, v: View, d: int, p: Page)
    requires Sound(c, m, o, v) && d !in o
    ensures p.root == d ==> p !in v
    ensures p in v ==> UserPage(p) && IsSpace(o, p.root)
  {}

  lemma {:induction false} RootTables(c: seq<nat>, m: Memory, o: Owner, v: View, d: int)
    requires Sound(c, m, o, v) && d !in o && IsTable(m, d) && Placed(o, Entries(m, d), USER_ENTRIES, Place(d, Root))
    requires d < |c| && c[d] > 0
    ensures Tables(m, o[d := Place(d, Root)]) && Counts(c, m, o[d := Place(d, Root)])
  {
    var o' := o[d := Place(d, Root)];
    forall f | f in o' ensures TableOk(m, o', f) {
      if f != d {
        assert TableOk(m, o, f);
        PlaceAdded(m, o, d, Place(d, Root), f);
      } else {
        forall i | 0 <= i < USER_ENTRIES ensures ChildOk(o', m[d].entries[i], Place(d, Pdp(i))) {
          assert ChildOk(o, Entries(m, d)[i], Below(Place(d, Root), i));
        }
      }
    }
  }

  lemma {:induction false} RootLookup(c0: seq<nat>, m0: Memory, o0: Owner, v0: View, c: seq<nat>, m: Memory, o': Owner,
                                      s: int, d: int, p: Page)
    requires Sound(c0, m0, o0, v0) && IsSpace(o0, s) && Tables(m, o') && IsSpace(o', d)
    requires Progress(c0, m0, c, m, s, d, USER_ENTRIES, 2) && UserPage(p) && p.root == s
    ensures PageCopied(m0, m, s, d, p)
  {
    hide Uses, Tree, Copied, Grew, Untouched;
    WalkTables(m0, o0, p);
    WalkTables(m, o', p.(root := d));
    assert EntryCopied(m0, m, s, d, p.i, 2);
    if Entries(m0, s)[p.i].present { CopiedEntry(m0, m, s, d, p.i, p.j); }
    LookupCopied(m0, m, s, d, p);
  }

  lemma {:induction false} CopiedEntry(m: Memory, m': Memory, s: int, d: int, i: int, j: int)
    requires 0 <= i < ENTRIES && 0 <= j < ENTRIES && EntryCopied(m, m', s, d, i, 2) && Entries(m, s)[i].present
    ensures SameBits(Entries(m, Entries(m, s)[i].addr)[j], Entries(m', Entries(m', d)[i].addr)[j])
  {
    assert EntryCopied(m, m', Entries(m, s)[i].addr, Entries(m', d)[i].addr, j, 1);
  }

  /** The tables that the walk to `p` passes. */
  lemma {:induction false} WalkTables(m: Memory, owner: Owner, p: Page)
    requires Tables(m, owner) && IsSpace(owner, p.root) && UserPage(p)
    ensures IsTable(m, p.root)
    ensures var e4 := Entries(m, p.root)[p.i];
            e4.present ==>
              && IsTable(m, e4.addr)
              && (Entries(m, e4.addr)[p.j].present ==> IsTable(m, Entries(m, e4.addr)[p.j].addr))
  {
    WalkPlaces(m, owner, p);
    assert TableOk(m, owner, p.root);
    var e4 := Entries(m, p.root)[p.i];
    if e4.present {
      assert TableOk(m, owner, e4.addr);
      var e3 := Entries(m, e4.addr)[p.j];
      if e3.present { assert TableOk(m, owner, e3.addr); }
    }
  }

  // ---- Pages and the frames that a space uses -----------------------------------------------------------------

  /** The leaf of `p` as a tree path. */
  ghost predicate OnPath(m: Memory, p: Page) {
    && UserPage(p) && Entries(m, p.root)[p.i].present
    && Entries(m, Entries(m, p.root)[p.i].addr)[p.j].present
    && Entries(m, Entries(m, Entries(m, p.root)[p.i].addr)[p.j].addr)[p.k].present
  }

  ghost function FrameOf(m: Memory, p: Page): int
    requires UserPage(p)
  {
    Entries(m, Entries(m, Entries(m, p.root)[p.i].addr)[p.j].addr)[p.k].addr
  }

  lemma {:induction false} SubCount(u: multiset<int>, v: multiset<int>, f: int)
    requires u <= v
    ensures u[f] <= v[f]
  {}

  lemma {:induction false} LeafCounted(m: Memory, p: Page)
    requires OnPath(m, p)
    ensures var pdp := Entries(m, p.root)[p.i].addr;
            var pd := Entries(m, pdp)[p.j].addr;
            && Tree(m, pd, 1)[FrameOf(m, p)] > 0 && Tree(m, pdp, 2)[FrameOf(m, p)] > 0
            && UserUses(m, p.root)[FrameOf(m, p)] > 0
  {
    hide Uses, Tree;
    var pdp := Entries(m, p.root)[p.i].addr;
    var pd := Entries(m, pdp)[p.j].addr;
    var f := FrameOf(m, p);
    TreeRoot(m, f, 0);
    UsesMember(m, Entries(m, pd), ENTRIES, p.k, 0);
    TreeRoot(m, pd, 1);
    UsesMember(m, Entries(m, pdp), ENTRIES, p.j, 1);
    TreeRoot(m, pdp, 2);
    UsesMember(m, Entries(m, p.root), USER_ENTRIES, p.i, 2);
    SubCount(Tree(m, f, 0), Uses(m, Entries(m, pd), ENTRIES, 0), f);
    SubCount(Uses(m, Entries(m, pd), ENTRIES, 0), Tree(m, pd, 1), f);
    SubCount(Tree(m, pd, 1), Uses(m, Entries(m, pdp), ENTRIES, 1), f);
    SubCount(Uses(m, Entries(m, pdp), ENTRIES, 1), Tree(m, pdp, 2), f);
    SubCount(Tree(m, pdp, 2), UserUses(m, p.root), f);
  }

  lemma {:induction false} UsesFrom(m: Memory, es: seq<Entry>, n: nat, level: nat, g: int) returns (x: nat)
    requires n <= |es| && Uses(m, es, n, level)[g] > 0
    ensures x < n && es[x].present && Tree(m, es[x].addr, level)[g] > 0
  {
    hide Tree;
    if es[n - 1].present && Tree(m, es[n - 1].addr, level)[g] > 0 {
      x := n - 1;
    } else {
      x := UsesFrom(m, es, n - 1, level, g);
    }
  }

  lemma {:induction false} TreeFrom(m: Memory, f: int, level: nat, g: int)
    requires Tree(m, f, level)[g] > 0
    ensures g == f || (level > 0 && Uses(m, Entries(m, f), ENTRIES, level - 1)[g] > 0)
  {
    hide Uses;
  }

  /** A frame that a space uses is one of its tables, or that of a page. */
  lemma {:induction false} UsedFrame(m: Memory, root: int, g: int) returns (p: Page)
    requires UserUses(m, root)[g] > 0
    ensures UserPage(p) && p.root == root && Entries(m, root)[p.i].present
    ensures var pdp := Entries(m, root)[p.i].addr;
            || g == pdp
            || (Entries(m, pdp)[p.j].present
                && (g == Entries(m, pdp)[p.j].addr || (OnPath(m, p) && g == FrameOf(m, p))))
  {
    hide Uses, Tree;
    var i := UsesFrom(m, Entries(m, root), USER_ENTRIES, 2, g);
    var pdp := Entries(m, root)[i].addr;
    p := Page(root, i, 0, 0);
    TreeFrom(m, pdp, 2, g);
    if g != pdp {
      var j := UsesFrom(m, Entries(m, pdp), ENTRIES, 1, g);
      var pd := Entries(m, pdp)[j].addr;
      p := Page(root, i, j, 0);
      TreeFrom(m, pd, 1, g);
      if g != pd {
        var k := UsesFrom(m, Entries(m, pd), ENTRIES, 0, g);
        TreeFrom(m, Entries(m, pd)[k].addr, 0, g);
        p := Page(root, i, j, k);
      }
    }
  }

  /** The tables of a sound space are in their places, and its leaves are the pages. */
  lemma {:induction false} PathSeen(c: seq<nat>, m: Memory, o: Owner, v: View, p: Page)
    requires Sound(c, m, o, v) && IsSpace(o, p.root) && UserPage(p)
    ensures OnPath(m, p) <==> p in v
    ensures p in v ==> v[p].addr == FrameOf(m, p)
    ensures var e4 := Entries(m, p.root)[p.i];
            e4.present ==>
              && e4.addr in o && o[e4.addr].root == p.root
              && var e3 := Entries(m, e4.addr)[p.j];
                 e3.present ==> e3.addr in o && o[e3.addr].root == p.root
  {
    hide Tables, Viewed;
    ShownAt(c, m, o, v, p);
  }

  /** A page is on a counted frame if and only if all frames of its space are in use. */
  lemma {:induction false} BackedInUse(c: seq<nat>, m: Memory, o: Owner, v: View, s: int)
    requires Sound(c, m, o, v) && IsSpace(o, s)
    ensures Backed(c, v, s) <==> InUse(c, UserUses(m, s))
  {
    hide Sound, OnPath, FrameOf, Uses;
    if Backed(c, v, s) {
      forall g | UserUses(m, s)[g] > 0 ensures 0 <= g < |c| && c[g] > 0 {
        var p := UsedFrame(m, s, g);
        PathSeen(c, m, o, v, p);
        TablesCounted(c, m, o, v, g);
      }
    }
    if InUse(c, UserUses(m, s)) {
      forall p | p in v && p.root == s ensures Referenced(c, v[p].addr) {
        SeenPage(c, m, o, v, p);
        PathSeen(c, m, o, v, p);
        LeafCounted(m, p);
      }
    }
  }

  lemma {:induction false} TablesCounted(c: seq<nat>, m: Memory, o: Owner, v: View, g: int)
    requires Sound(c, m, o, v)
    ensures g in o ==> 0 <= g < |c| && c[g] > 0
  {
    assert g in o ==> Counted(c, g);
  }

  lemma {:induction false} SeenPage(c: seq<nat>, m: Memory, o: Owner, v: View, p: Page)
    requires Sound(c, m, o, v) && p in v
    ensures UserPage(p) && IsSpace(o, p.root)
  {}

  /** The root of a new address space: no user pages, the kernel half of the current one, and entry
      256 leading back to the table itself. */
  function NewRoot(current: seq<Entry>, r: int): seq<Entry>
    requires |current| == ENTRIES
  {
    seq(ENTRIES, i requires 0 <= i < ENTRIES =>
      if i < USER_ENTRIES then ZERO else if i == USER_ENTRIES then current[i].(addr := r) else current[i])
  }

  lemma {:induction false} NewRootEmpty(current: seq<Entry>, r: int)
    requires |current| == ENTRIES
    ensures |NewRoot(current, r)| == ENTRIES && forall i :: 0 <= i < USER_ENTRIES ==> NewRoot(current, r)[i] == ZERO
    ensures NewRoot(current, r)[USER_ENTRIES] == current[USER_ENTRIES].(addr := r)
    ensures forall i :: USER_ENTRIES < i < ENTRIES ==> NewRoot(current, r)[i] == current[i]
  {}

  /** `vm_address_space_create`; `structOk` tells whether the kernel heap had room for the record. `current` is the
      table that is loaded: at boot it belongs to no address space. */
  method Create(vm: Vm, current: int, structOk: bool) returns (r: int)
    requires vm.Valid() && IsTable(vm.mem, current)
    modifies vm
    ensures old(vm.Quiet()) && r != 0 ==> vm.Quiet()
    ensures r != 0 <==> structOk && Reserved(old(vm.counts)) && FreeFrames(old(vm.counts)) != {}
    ensures r == 0 ==>
              && unchanged(vm`mem, vm`owner, vm`view)
              && vm.counts == var c := old(vm.counts); if |c| > 0 && c[0] == 0 then c[0 := 1] else c
    ensures r != 0 ==>
              && vm.Valid() && vm.view == old(vm.view) && IsSpace(vm.owner, r)
              && vm.owner == old(vm.owner)[r := Place(r, Root)] && r !in old(vm.owner)
              && 0 < r < |old(vm.counts)| && old(vm.counts)[r] == 0 && vm.counts == old(vm.counts)[r := 1]
              && vm.mem == old(vm.mem)[r := Table(NewRoot(old(vm.mem)[current].entries, r))]
    ensures r != 0 ==> forall i {:trigger EntryAt(vm.mem, r, i)} :: 0 <= i < ENTRIES ==>
              EntryAt(vm.mem, r, i) == if i < USER_ENTRIES then ZERO
                                       else if i > USER_ENTRIES then old(EntryAt(vm.mem, current, i))
                                       else old(EntryAt(vm.mem, current, i)).(addr := r)
  {
    hide Tables, Viewed, NewRoot, Settled;
    AnyFree(vm.counts);
    r := vm.Alloc();
    if r == 0 { return; }
    if !structOk {
      vm.counts := vm.counts[r := vm.counts[r] - 1];
      return 0;
    }
    CreateSound(old(vm.counts), vm.mem, vm.owner, vm.view, current, r);
    if old(vm.Quiet()) { TableSettled(old(vm.counts), vm.owner, vm.view, r, Place(r, Root)); }
    NewRootEmpty(vm.mem[current].entries, r);
    vm.mem := vm.mem[r := Table(NewRoot(vm.mem[current].entries, r))];
    vm.owner := vm.owner[r := Place(r, Root)];
  }

  /** The first address space after boot, with the kernel half of the boot table. */
  method Boot(counts: seq<nat>, mem: Memory, current: int, structOk: bool) returns (vm: Vm, r: int)
    requires |counts| == |mem| && forall f {:trigger counts[f]} :: 0 <= f < |counts| ==> counts[f] < 256
    requires IsTable(mem, current)
    ensures fresh(vm) && (r != 0 ==> vm.Quiet() && IsSpace(vm.owner, r) && vm.view == map[])
    ensures forall i :: r != 0 && USER_ENTRIES < i < ENTRIES ==> EntryAt(vm.mem, r, i) == EntryAt(mem, current, i)
    ensures r != 0 <==> structOk && Reserved(counts) && FreeFrames(counts) != {}
    ensures r != 0 ==>
              && 0 < r < |counts| && counts[r] == 0 && vm.counts == counts[r := 1]
              && vm.owner == map[r := Place(r, Root)]
              && vm.mem == mem[r := Table(NewRoot(mem[current].entries, r))]
  {
    vm := new Vm(counts, mem);
    r := Create(vm, current, structOk);
  }

  lemma {:induction false} CreateSound(c: seq<nat>, m: Memory, o: Owner, v: View, current: int, r: int)
    requires Sound(c, m, o, v) && IsTable(m, current) && 0 < r < |c| && c[r] == 0
    ensures r !in o && Sound(c[r := 1], m[r := Table(NewRoot(m[current].entries, r))], o[r := Place(r, Root)], v)
  {
    hide Tables, Viewed;
    var m', o' := m[r := Table(NewRoot(m[current].entries, r))], o[r := Place(r, Root)];
    FreeNoTable(c, m, o, v, r);
    GrewNothing(c);
    GrewOne(c, c, multiset{}, r);
    GrewOffTables(c, m, o, v, c[r := 1], m', multiset{} + multiset{r});
    RootTables(c[r := 1], m', o, v, r);
    EmptyShows(c[r := 1], m', o, v, r);
  }

  /** A root without user entries shows no pages. */
  lemma {:induction false} EmptyShows(c: seq<nat>, m: Memory, o: Owner, v: View, r: int)
    requires Sound(c, m, o, v) && r !in o && IsTable(m, r)
    requires forall i {:trigger Entries(m, r)[i]} :: 0 <= i < USER_ENTRIES ==> !Entries(m, r)[i].present
    ensures Viewed(m, o[r := Place(r, Root)], v)
  {
    var o' := o[r := Place(r, Root)];
    forall p | UserPage(p) && IsSpace(o', p.root) ensures Shows(m, v, p) {
      NoPagesYet(c, m, o, v, r, p);
      if p.root == r {
        assert !Entries(m, r)[p.i].present;
      } else {
        assert IsSpace(o, p.root);
        ShownAt(c, m, o, v, p);
      }
    }
  }

  /** `vm_address_space_clone`: when it succeeds, and what it then gives. What the rollback of a copy that fails leaves is
      not claimed. */
  method Clone(vm: Vm, s: int, current: int, structOk: bool) returns (d: int)
    requires vm.Valid() && IsSpace(vm.owner, s) && IsTable(vm.mem, current) && Backed(vm.counts, vm.view, s)
    modifies vm
    ensures d != 0 <==> structOk && Reserved(old(vm.counts))
                        && |FreeFrames(old(vm.counts))| > |UserUses(old(vm.mem), s)|
    ensures d != 0 ==> CopiedTo(old(vm.mem), vm.mem, s, d, USER_ENTRIES, 2) && KernelShared(old(vm.mem), vm.mem, s, d)
    ensures old(vm.Quiet()) && d != 0 ==> vm.Quiet()
    ensures d != 0 ==> OwnerGrew(old(vm.owner), vm.owner - {d}) && NewOnes(old(vm.counts), old(vm.owner), vm.owner, d)
    ensures d != 0 ==>
              && vm.Valid() && IsSpace(vm.owner, d) && vm.view == CopyView(old(vm.view), vm.mem, s, d)
              && PagesCopied(old(vm.mem), vm.mem, s, d)
              && Grew(old(vm.counts), vm.counts, UserUses(vm.mem, d) + multiset{d})
              && Untouched(old(vm.counts), old(vm.mem), vm.mem) && TablesFresh(old(vm.counts), vm.owner, d)
  {
    hide Progress, Tables, Viewed, InUse, Uses, Tree, OwnerGrew, Placed, CopyView, PagesCopied, Grew, Untouched,
         NewRoot, Settled, Backed, NewOnes, CopiedTo, KernelShared, RanShort;
    ghost var c0, m0, o0, v0 := vm.counts, vm.mem, vm.owner, vm.view;
    TableAt(c0, m0, o0, v0, s);
    BackedInUse(c0, m0, o0, v0, s);
    d := Create(vm, current, structOk);
    if d == 0 {
      FewFrames(c0);
      return;
    }
    StartBuilding(c0, m0, o0, v0, s, d, 2, Place(d, Root));
    vm.mem := vm.mem[d := Table(vm.mem[s].entries)];
    vm.owner := o0;
    assert vm.mem == m0[d := Table(m0[s].entries)];
    for n := 0 to USER_ENTRIES
      invariant Building(c0, m0, o0, v0, vm, s, d, n, 2, Place(d, Root))
    {
      ghost var u;
      var ok;
      ok, u := ClonePml4Entry(vm, s, d, n, c0, m0, o0, v0);
      if !ok {
        TooFewFrames(c0, vm.counts, u, m0, s, n);
        return 0;
      }
    }
    RootPlaced(c0, m0, o0, v0, vm.counts, vm.mem, vm.owner, s, d);
    CloneFacts(c0, m0, vm.counts, vm.mem, s, d);
    EnoughFrames(c0, vm.counts, m0, vm.mem, s, d);
    FreshTables(c0, m0, o0, v0, vm.owner, d);
    RootAdded(c0, o0, vm.owner, d);
    vm.owner := vm.owner[d := Place(d, Root)];
    vm.view := CopyView(v0, vm.mem, s, d);
    if Settled(c0, o0, v0) { CloneSettled(c0, m0, o0, v0, vm.counts, vm.mem, vm.owner, s, d); }
  }

  /** The kernel half of the root, the self-map entry included, is the source's. */
  ghost predicate KernelShared(m: Memory, m': Memory, s: int, d: int) {
    forall i {:trigger Entries(m', d)[i]} :: USER_ENTRIES <= i < ENTRIES ==> Entries(m', d)[i] == Entries(m, s)[i]
  }

  lemma {:induction false} OneTaken(c: seq<nat>, f: nat)
    requires f < |c| && c[f] == 0
    ensures |FreeFrames(c)| == |FreeFrames(c[f := 1])| + 1
  {
    assert FreeFrames(c) == FreeFrames(c[f := 1]) + {f};
  }

  lemma {:induction false} FewFrames(c: seq<nat>)
    ensures FreeFrames(c) == {} <==> |FreeFrames(c)| == 0
  {}

  lemma {:induction false} TooFewFrames(c0: seq<nat>, c: seq<nat>, u: multiset<int>, m0: Memory, s: int, n: nat)
    requires n < USER_ENTRIES && RanShort(c0, c, u, |Uses(m0, Entries(m0, s), n + 1, 2)| + 1)
    ensures |FreeFrames(c0)| <= |Uses(m0, Entries(m0, s), n + 1, 2)| <= |UserUses(m0, s)|
  {
    hide Uses, Grew;
    GrewFree(c0, c, u);
    ExhaustedFree(c);
    UsesGrow(m0, Entries(m0, s), n + 1, USER_ENTRIES, 2);
  }

  lemma {:induction false} EnoughFrames(c0: seq<nat>, c: seq<nat>, m0: Memory, m: Memory, s: int, d: int)
    requires Grew(c0, c, UserUses(m, d) + multiset{d}) && CopiedTo(m0, m, s, d, USER_ENTRIES, 2)
    ensures |FreeFrames(c0)| > |UserUses(m0, s)|
  {
    hide Uses, Grew, CopiedTo;
    GrewFree(c0, c, UserUses(m, d) + multiset{d});
    CopiedToSize(m0, m, s, d, USER_ENTRIES, 2);
  }

  lemma {:induction false} RootAdded(c0: seq<nat>, o0: Owner, o: Owner, d: int)
    requires OwnerGrew(o0, o) && NewOnes(c0, o0, o, d) && 0 <= d < |c0| && c0[d] == 0 && d !in o
    ensures OwnerGrew(o0, o[d := Place(d, Root)] - {d}) && NewOnes(c0, o0, o[d := Place(d, Root)], d)
  {
    assert o[d := Place(d, Root)] - {d} == o;
  }

  /** A clone of a settled space is settled: its frames were free, so they are no tables of other spaces. */
  lemma {:induction false} CloneSettled(c0: seq<nat>, m0: Memory, o0: Owner, v0: View, c: seq<nat>, m: Memory, o: Owner,
                                        s: int, d: int)
    requires Settled(c0, o0, v0) && Sound(c0, m0, o0, v0) && Sound(c, m, o, CopyView(v0, m, s, d)) && IsSpace(o, d)
    requires d !in o0
    requires OwnerGrew(o0, o - {d}) && NewOnes(c0, o0, o, d) && Grew(c0, c, UserUses(m, d) + multiset{d})
    ensures Settled(c, o, CopyView(v0, m, s, d))
  {
    hide Uses, Tree, Sound, CopyView, Settled;
    forall f | f in o ensures IsSpace(o, o[f].root) {
      if f in o0 { StandsAlready(c0, o0, v0, o, f, d); }
    }
    forall p | p in CopyView(v0, m, s, d) ensures PageSettled(c, o, CopyView(v0, m, s, d)[p], p.root) {
      if p.root == d {
        CopiedSettled(c0, m0, o0, v0, c, m, o, s, d, p);
      } else {
        KeptSettled(c0, m0, o0, v0, c, m, o, s, d, p);
      }
    }
    SettledFrom(c, o, CopyView(v0, m, s, d));
  }

  lemma {:induction false} SettledFrom(c: seq<nat>, o: Owner, v: View)
    requires forall f {:trigger f in o} :: f in o ==> IsSpace(o, o[f].root)
    requires forall p {:trigger p in v} :: p in v ==> PageSettled(c, o, v[p], p.root)
    ensures Settled(c, o, v)
  {}

  lemma {:induction false} StandsAlready(c0: seq<nat>, o0: Owner, v0: View, o: Owner, f: int, d: int)
    requires Settled(c0, o0, v0) && OwnerGrew(o0, o - {d}) && f in o0 && d !in o0
    ensures f in o && o[f] == o0[f] && IsSpace(o, o[f].root)
  {
    assert f in o - {d} && (o - {d})[f] == o0[f];
    assert IsSpace(o0, o0[f].root);
    assert o0[f].root in o - {d} && (o - {d})[o0[f].root] == o0[o0[f].root];
  }

  lemma {:induction false} CopiedSettled(c0: seq<nat>, m0: Memory, o0: Owner, v0: View, c: seq<nat>, m: Memory,
                                         o: Owner, s: int, d: int, p: Page)
    requires Sound(c0, m0, o0, v0) && Sound(c, m, o, CopyView(v0, m, s, d)) && IsSpace(o, d)
    requires NewOnes(c0, o0, o, d) && Grew(c0, c, UserUses(m, d) + multiset{d}) && p.root == d
    requires p in CopyView(v0, m, s, d)
    ensures PageSettled(c, o, CopyView(v0, m, s, d)[p], d)
  {
    hide Uses, Tree, Sound, CopyView;
    SeenPage(c, m, o, CopyView(v0, m, s, d), p);
    PathSeen(c, m, o, CopyView(v0, m, s, d), p);
    LeafCounted(m, p);
    var g, u := FrameOf(m, p), UserUses(m, d) + multiset{d};
    assert u[g] > 0;
    assert GrewAt(c0, c, u, g);
    TablesCounted(c0, m0, o0, v0, g);
  }

  lemma {:induction false} KeptSettled(c0: seq<nat>, m0: Memory, o0: Owner, v0: View, c: seq<nat>, m: Memory, o: Owner,
                                       s: int, d: int, p: Page)
    requires Settled(c0, o0, v0) && OwnerGrew(o0, o - {d}) && d !in o0
    requires NewOnes(c0, o0, o, d) && Grew(c0, c, UserUses(m, d) + multiset{d}) && p.root != d
    requires p in CopyView(v0, m, s, d)
    ensures PageSettled(c, o, CopyView(v0, m, s, d)[p], p.root)
  {
    hide Uses, Tree, OwnerGrew;
    InCopyPages(v0, s, d, p);
    assert p in v0 && CopyView(v0, m, s, d)[p] == v0[p];
    var g := v0[p].addr;
    assert PageSettled(c0, o0, v0[p], p.root);
    GrewFrom(c0, c, UserUses(m, d) + multiset{d}, g);
    if g in o0 { StandsAlready(c0, o0, v0, o, g, d); }
  }

  /** The tables of space `d` are on frames that were free. */
  ghost predicate TablesFresh(c0: seq<nat>, o: Owner, d: int) {
    forall g {:trigger g in o} :: g in o && o[g].root == d ==> 0 <= g < |c0| && c0[g] == 0
  }

  lemma {:induction false} FreshTables(c0: seq<nat>, m0: Memory, o0: Owner, v0: View, o: Owner, d: int)
    requires Sound(c0, m0, o0, v0) && OwnerGrew(o0, o) && NewOnes(c0, o0, o, d) && 0 <= d < |c0| && c0[d] == 0
    ensures TablesFresh(c0, o[d := Place(d, Root)], d)
  {
    forall g | g in o && o[g].root == d ensures 0 <= g < |c0| && c0[g] == 0 {
      assert g in o0 ==> Counted(c0, o0[g].root);
    }
  }

  lemma {:induction false} CloneFacts(c0: seq<nat>, m0: Memory, c: seq<nat>, m: Memory, s: int, d: int)
    requires Progress(c0, m0, c, m, s, d, USER_ENTRIES, 2) && IsTable(m0, s)
    ensures Grew(c0, c, UserUses(m, d) + multiset{d}) && Untouched(c0, m0, m)
    ensures CopiedTo(m0, m, s, d, USER_ENTRIES, 2) && KernelShared(m0, m, s, d)
  {
    hide Uses, Tree;
    assert Entries(m, d)[256] == Entries(m0, s)[256];
  }

  /** A frame taken for data leaves a quiet memory quiet, and may be mapped. */
  lemma {:induction false} TakenQuiet(c: seq<nat>, m: Memory, o: Owner, v: View, f: int)
    requires Sound(c, m, o, v) && Settled(c, o, v) && 0 < f < |c| && c[f] == 0
    ensures Sound(c[f := 1], m, o, v) && Settled(c[f := 1], o, v) && Ready(c[f := 1], o, f)
  {
    hide Tables, Viewed, Settled, Grew;
    FreeNoTable(c, m, o, v, f);
    GrewNothing(c);
    GrewOne(c, c, multiset{}, f);
    GrewOffTables(c, m, o, v, c[f := 1], m, multiset{} + multiset{f});
    CountedSettled(c, c[f := 1], o, v);
  }

  lemma {:induction false} SpaceIsTable(c: seq<nat>, m: Memory, o: Owner, v: View, s: int)
    requires Sound(c, m, o, v) && IsSpace(o, s)
    ensures IsTable(m, s)
  {
    assert TableOk(m, o, s) && Counted(c, s);
  }

  /** The copy of a page is a page of the copy, with the same attributes and on another frame. */
  lemma {:induction false} CopyShown(c: seq<nat>, m0: Memory, m: Memory, o: Owner, v0: View, s: int, d: int, p: Page)
    requires Sound(c, m0, o, v0) && PagesCopied(m0, m, s, d) && p in v0 && p.root == s
    ensures var v, q := CopyView(v0, m, s, d), p.(root := d);
            && q in v && SameBits(v0[p], v[q]) && Copied(m0, m, v0[p].addr, v[q].addr, 0)
            && RightsOf(m, q) == RightsOf(m0, p)
  {
    hide Lookup, SameBits, Copied, RightsOf;
    SeenPage(c, m0, o, v0, p);
    ShownAt(c, m0, o, v0, p);
    InCopyPages(v0, s, d, p.(root := d));
    assert PageCopied(m0, m, s, d, p);
    assert p.(root := s) == p;
  }

  /** If no entry but `x` is present, what the table refers to is what this one does. */
  lemma {:induction false} OnlyUse(m: Memory, es: seq<Entry>, n: nat, x: int, level: nat)
    requires n <= |es| && forall y :: 0 <= y < n && y != x ==> !es[y].present
    ensures Uses(m, es, n, level) ==
            if 0 <= x < n && es[x].present then Tree(m, es[x].addr, level) else multiset{}
  {
    hide Tree;
    if n > 0 { OnlyUse(m, es, n - 1, x, level); }
  }

  lemma {:induction false} OnlyTree(m: Memory, f: int, x: int, level: nat)
    requires level > 0 && 0 <= x < ENTRIES && Entries(m, f)[x].present
    requires forall y :: 0 <= y < ENTRIES && y != x ==> !Entries(m, f)[y].present
    ensures Tree(m, f, level) == Tree(m, Entries(m, f)[x].addr, level - 1) + multiset{f}
  {
    OnlyUse(m, Entries(m, f), ENTRIES, x, level - 1);
  }

  /** No entry of the user half is present except on the walk to `p`. */
  ghost predicate Lone(m: Memory, owner: Owner, p: Page) {
    forall g, y {:trigger EntryAt(m, g, y)} :: g in owner && (g == p.root ==> y < USER_ENTRIES) ==>
      OnWalk(m, p, g, y) || !EntryAt(m, g, y).present
  }

  lemma {:induction false} LoneIn(m: Memory, owner: Owner, p: Page, g: int, x: int, n: nat)
    requires n <= ENTRIES && g in owner && IsTable(m, g) && (g == p.root ==> n <= USER_ENTRIES) && Lone(m, owner, p)
    requires forall y :: OnWalk(m, p, g, y) ==> y == x
    ensures forall y :: 0 <= y < n && y != x ==> !Entries(m, g)[y].present
  {
    hide OnWalk;
    forall y | 0 <= y < n && y != x ensures !Entries(m, g)[y].present { assert !EntryAt(m, g, y).present; }
  }

  /** A space with one page and no other entries refers to two tables and a frame. */
  lemma {:induction false} OnePage(m: Memory, owner: Owner, p: Page)
    requires Tables(m, owner) && IsSpace(owner, p.root) && UserPage(p) && Lookup(m, p).present && Lone(m, owner, p)
    ensures |UserUses(m, p.root)| == 3
  {
    hide Tree, Uses, Lone, Tables;
    WalkTables(m, owner, p);
    WalkPlaces(m, owner, p);
    var a, b, c := Upper(m, p).addr, Middle(m, p).addr, Lookup(m, p).addr;
    LoneIn(m, owner, p, p.root, p.i, USER_ENTRIES);
    OnlyUse(m, Entries(m, p.root), USER_ENTRIES, p.i, 2);
    LoneIn(m, owner, p, a, p.j, ENTRIES);
    OnlyTree(m, a, p.j, 2);
    LoneIn(m, owner, p, b, p.k, ENTRIES);
    OnlyTree(m, b, p.k, 1);
    LeafTreeSize(m, c);
  }

  lemma {:induction false} LeafTreeSize(m: Memory, f: int)
    ensures |Tree(m, f, 0)| == 1
  {}

  /** The first page of a new space is alone in it. */
  lemma {:induction false} FirstPage(m: Memory, m': Memory, r: int, owner': Owner, p: Page)
    requires IsTable(m, r) && OnlyWalk(m, m', map[r := Place(r, Root)], owner', p) && p.root == r
    requires forall i {:trigger Entries(m, r)[i]} :: 0 <= i < USER_ENTRIES ==> !Entries(m, r)[i].present
    ensures Lone(m', owner', p)
  {
    hide OnWalk;
    forall g, y | g in owner' && (g == r ==> y < USER_ENTRIES) && !OnWalk(m', p, g, y)
      ensures !EntryAt(m', g, y).present
    {
      if g == r && 0 <= y { assert !Entries(m, r)[y].present; }
    }
  }

  lemma {:induction false} SoundTables(c: seq<nat>, m: Memory, o: Owner, v: View)
    requires Sound(c, m, o, v)
    ensures Tables(m, o)
  {}

  /** A run from boot: the first space, a frame, a page on it, and a clone that shows a copy of this page. It takes
      eight frames: two roots, two frames of data and two tables for each. */
  method BootAndClone(counts: seq<nat>, mem: Memory, current: int, va: nat, attr: Attr, structOk: bool)
    returns (vm: Vm, s: int, f: int, d: int)
    requires |counts| == |mem| && forall g {:trigger counts[g]} :: 0 <= g < |counts| ==> counts[g] < 256
    requires IsTable(mem, current) && va < USER_END
    ensures d != 0 <==> structOk && Reserved(counts) && |FreeFrames(counts)| >= 8
    ensures d != 0 ==>
              && vm.Quiet() && IsSpace(vm.owner, d) && PageOf(d, va) in vm.view
              && SameBits(Leaf(f, attr), vm.view[PageOf(d, va)]) && RightsOf(vm.mem, PageOf(d, va)) == Asked(attr)
  {
    hide Sound, Settled, SameBits, Leaf, PagesCopied, CopyView, NewOnes, OwnerGrew, Untouched, TablesFresh, Grew,
         UserUses, RightsOf, Asked, Lone, OnlyWalk, FreeFrames, NewRoot;
    FewFrames(counts);
    vm, s := Boot(counts, mem, current, structOk);
    f, d := 0, 0;
    if s == 0 { return; }
    OneTaken(counts, s);
    ghost var c := vm.counts;
    NoneFree(c);
    f := vm.Alloc();
    if f == 0 { return; }
    OneTaken(c, f);
    TakenQuiet(c, vm.mem, vm.owner, vm.view, f);
    UserIndex(va);
    ghost var m, p := vm.mem, PageOf(s, va);
    NewRootEmpty(mem[current].entries, s);
    var ok := vm.MapPage(s, va, f, attr);
    if !ok { return; }
    FirstPage(m, vm.mem, s, vm.owner, p);
    ShownAt(vm.counts, vm.mem, vm.owner, vm.view, p);
    assert Tables(vm.mem, vm.owner) by { SoundTables(vm.counts, vm.mem, vm.owner, vm.view); }
    OnePage(vm.mem, vm.owner, p);
    SpaceIsTable(vm.counts, vm.mem, vm.owner, vm.view, s);
    SettledBacked(vm.counts, vm.owner, vm.view, s);
    ghost var c1, m1, o1, v1 := vm.counts, vm.mem, vm.owner, vm.view;
    d := Clone(vm, s, s, structOk);
    if d != 0 { CopyShown(c1, m1, vm.mem, o1, v1, s, d, PageOf(s, va)); }
  }
}
