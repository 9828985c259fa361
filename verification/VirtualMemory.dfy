/** Address spaces of `kernel/k_memory.c`: frames with reference counts, mapping, unmapping and
    looking up pages. All address spaces share one physical memory. */
module VirtualMemory {
  import opened PageIndex
  import opened PageTables
  import opened PageRights

  type View = map<Page, Entry>

  function PageOf(root: int, va: nat): Page {
    Page(root, Pml4Index(va), PdpIndex(va), PdIndex(va))
  }

  // ---- The invariant ------------------------------------------------------------------------------

  /** The walk to `p` sees what the abstract map says. */
  ghost predicate Shows(m: Memory, view: View, p: Page) {
    var e := Lookup(m, p);
    (e.present <==> p in view) && (p in view ==> view[p] == e)
  }

  ghost predicate Viewed(m: Memory, owner: Owner, view: View) {
    && (forall p {:trigger Shows(m, view, p)} :: UserPage(p) && IsSpace(owner, p.root) ==> Shows(m, view, p))
    && (forall p {:trigger p in view} :: p in view ==> UserPage(p) && IsSpace(owner, p.root))
  }

  ghost predicate Counted(counts: seq<nat>, f: int) {
    0 < f < |counts| && counts[f] > 0
  }

  /** Reference counts are bytes, and table frames are counted. */
  ghost predicate Counts(counts: seq<nat>, m: Memory, owner: Owner) {
    && |counts| == |m|
    && (forall f {:trigger counts[f]} :: 0 <= f < |counts| ==> counts[f] < 256)
    && (forall f {:trigger f in owner} :: f in owner ==> Counted(counts, f) && Counted(counts, owner[f].root))
  }

  ghost predicate Sound(counts: seq<nat>, m: Memory, owner: Owner, view: View) {
    Counts(counts, m, owner) && Tables(m, owner) && Viewed(m, owner, view)
  }

  ghost predicate FirstFree(counts: seq<nat>, f: int) {
    0 <= f < |counts| && counts[f] == 0 && forall g :: 0 <= g < f ==> counts[g] != 0
  }

  ghost predicate Exhausted(counts: seq<nat>) {
    forall g :: 0 <= g < |counts| ==> counts[g] != 0
  }

  /** An operation that allocates fails only if no frame is left, or if the first one left is frame 0. */
  ghost predicate OutOfFrames(counts: seq<nat>, counts': seq<nat>, ok: bool) {
    && |counts'| == |counts|
    && if ok then |counts| > 0 ==> counts'[0] == counts[0]
       else Exhausted(counts') || (|counts| > 0 && counts[0] == 0)
  }

  /** The frames that nobody counts. */
  ghost function FreeFrames(c: seq<nat>): set<int> {
    set f: int | 0 <= f < |c| && c[f] == 0
  }

  /** Frame 0 is counted, so that 0 never stands for a frame. */
  ghost predicate Reserved(c: seq<nat>) {
    |c| > 0 && c[0] > 0
  }

  lemma {:induction false} TakenFree(counts: seq<nat>, f: nat)
    requires FirstFree(counts, f)
    ensures FreeFrames(counts) == FreeFrames(counts[f := 1]) + {f} && f !in FreeFrames(counts[f := 1])
    ensures |FreeFrames(counts)| == |FreeFrames(counts[f := 1])| + 1
  {}

  lemma {:induction false} NoneFree(counts: seq<nat>)
    ensures Exhausted(counts) <==> |FreeFrames(counts)| == 0
  {
    if !Exhausted(counts) {
      var f :| 0 <= f < |counts| && counts[f] == 0;
      assert f in FreeFrames(counts);
    }
  }

  // ---- The entries that lead to a page -------------------------------------------------------------------

  /** Entry `y` of table `g` is one that the walk to `p` looks at. */
  ghost predicate OnWalk(m: Memory, p: Page, g: int, y: int) {
    || (g == p.root && y == p.i)
    || (Upper(m, p).present && g == Upper(m, p).addr && y == p.j)
    || (Upper(m, p).present && Middle(m, p).present && g == Middle(m, p).addr && y == p.k)
  }

  /** No entry has changed in a table that was there, except on the walk to `p`; new tables have no other entries. */
  ghost predicate OnlyWalk(m: Memory, m': Memory, owner: Owner, owner': Owner, p: Page) {
    forall g, y {:trigger EntryAt(m', g, y)} :: g in owner' && !OnWalk(m', p, g, y) ==>
      EntryAt(m', g, y) == if g in owner then EntryAt(m, g, y) else ZERO
  }

  /** Tables stay where they are. */
  ghost predicate OwnersKept(owner: Owner, owner': Owner) {
    owner.Keys <= owner'.Keys && forall g {:trigger owner'[g]} :: g in owner ==> owner'[g] == owner[g]
  }

  /** No entry of a table that was there has changed, except in the user halves of the spaces in `roots`. */
  ghost predicate OnlyUser(m: Memory, m': Memory, owner: Owner, owner': Owner, roots: set<int>) {
    && OwnersKept(owner, owner')
    && forall g, y {:trigger EntryAt(m', g, y)} ::
         g in owner && (owner[g].root in roots ==> owner[g].root == g && y >= USER_ENTRIES) ==>
           EntryAt(m', g, y) == EntryAt(m, g, y)
  }

  lemma {:induction false} WalkInUser(counts: seq<nat>, m: Memory, m': Memory, owner: Owner, owner': Owner, view: View,
                                      p: Page)
    requires Sound(counts, m', owner', view) && IsSpace(owner', p.root) && UserPage(p)
    requires OnlyWalk(m, m', owner, owner', p) && OwnersKept(owner, owner')
    ensures OnlyUser(m, m', owner, owner', {p.root})
  {
    WalkPlaces(m', owner', p);
    forall g, y | g in owner && (owner[g].root == p.root ==> owner[g].root == g && y >= USER_ENTRIES)
      ensures EntryAt(m', g, y) == EntryAt(m, g, y)
    {
      assert owner'[g] == owner[g];
      assert !OnWalk(m', p, g, y);
    }
  }

  lemma {:induction false} UserSame(m: Memory, owner: Owner, roots: set<int>)
    ensures OnlyUser(m, m, owner, owner, roots)
  {}

  lemma {:induction false} UserMore(m: Memory, m': Memory, owner: Owner, owner': Owner, roots: set<int>, more: set<int>)
    requires OnlyUser(m, m', owner, owner', roots) && roots <= more
    ensures OnlyUser(m, m', owner, owner', more)
  {}

  lemma {:induction false} UserTrans(m: Memory, m1: Memory, m2: Memory, o: Owner, o1: Owner, o2: Owner, roots: set<int>,
                                     more: set<int>)
    requires OnlyUser(m, m1, o, o1, roots) && OnlyUser(m1, m2, o1, o2, more) && roots <= more
    ensures OnlyUser(m, m2, o, o2, more)
  {
    forall g, y | g in o && (o[g].root in more ==> o[g].root == g && y >= USER_ENTRIES)
      ensures EntryAt(m2, g, y) == EntryAt(m, g, y)
    {
      assert o1[g] == o[g];
      assert EntryAt(m1, g, y) == EntryAt(m, g, y);
    }
    forall g | g in o ensures o2[g] == o[g] { assert o1[g] == o[g]; }
  }

  /** The number of tables that are missing on the walk to `p`. */
  ghost function Missing(m: Memory, p: Page): nat {
    if !Upper(m, p).present then 2 else if !Middle(m, p).present then 1 else 0
  }

  lemma {:induction false} NoneMissing(m: Memory, p: Page, q: Page)
    requires Lookup(m, p).present && SameGigabyte(p, q)
    ensures Missing(m, q) == 0
  {}

  /** `n` frames can be had. */
  ghost predicate Affords(counts: seq<nat>, n: nat) {
    n == 0 || (Reserved(counts) && |FreeFrames(counts)| >= n)
  }

  ghost predicate SameSpaces(owner: Owner, owner': Owner) {
    forall r {:trigger IsSpace(owner', r)} :: IsSpace(owner', r) <==> IsSpace(owner, r)
  }

  /** Frames outside the tables of `owner'` keep their contents. */
  ghost predicate DataKept(m: Memory, m': Memory, owner': Owner) {
    |m'| == |m| && forall f {:trigger m'[f]} :: 0 <= f < |m| && f !in owner' ==> m'[f] == m[f]
  }

  // ---- What holds between calls --------------------------------------------------------------------------

  ghost predicate Referenced(counts: seq<nat>, f: int) {
    0 <= f < |counts| && counts[f] > 0
  }

  /** Every page of space `s` is on a frame that is counted. */
  ghost predicate Backed(counts: seq<nat>, view: View, s: int) {
    forall p {:trigger p in view} :: p in view && p.root == s ==> Referenced(counts, view[p].addr)
  }

  /** Page `p` is on a counted frame, and not on a table of another space. */
  ghost predicate PageSettled(counts: seq<nat>, owner: Owner, e: Entry, root: int) {
    Referenced(counts, e.addr) && (e.addr in owner ==> owner[e.addr].root == root)
  }

  /** Every table belongs to an address space, and every page is settled. */
  ghost predicate Settled(counts: seq<nat>, owner: Owner, view: View) {
    && (forall f {:trigger f in owner} :: f in owner ==> IsSpace(owner, owner[f].root))
    && (forall p {:trigger p in view} :: p in view ==> PageSettled(counts, owner, view[p], p.root))
  }

  lemma {:induction false} SettledBacked(counts: seq<nat>, owner: Owner, view: View, s: int)
    requires Settled(counts, owner, view)
    ensures Backed(counts, view, s)
  {
    forall p | p in view && p.root == s ensures Referenced(counts, view[p].addr) {
      assert PageSettled(counts, owner, view[p], p.root);
    }
  }

  /** Frame `f` may be mapped: it is counted, and no table. */
  ghost predicate Ready(counts: seq<nat>, owner: Owner, f: int) {
    Referenced(counts, f) && f !in owner
  }

  /** What is counted stays counted as often. */
  ghost predicate CountsKept(counts: seq<nat>, counts': seq<nat>) {
    && |counts'| == |counts|
    && forall f {:trigger counts'[f]} :: 0 <= f < |counts| && counts[f] > 0 ==> counts'[f] == counts[f]
  }

  lemma {:induction false} CountedSettled(counts: seq<nat>, counts': seq<nat>, owner: Owner, view: View)
    requires Settled(counts, owner, view) && CountsKept(counts, counts')
    ensures Settled(counts', owner, view)
  {
    forall p | p in view ensures PageSettled(counts', owner, view[p], p.root) {
      assert PageSettled(counts, owner, view[p], p.root);
    }
  }

  /** A table more, on a frame that was free. */
  lemma {:induction false} TableSettled(counts: seq<nat>, owner: Owner, view: View, c: int, place: Place)
    requires Settled(counts, owner, view) && 0 <= c < |counts| && counts[c] == 0 && c !in owner
    requires IsSpace(owner[c := place], place.root)
    ensures Settled(counts[c := 1], owner[c := place], view)
  {
    var owner' := owner[c := place];
    forall f | f in owner' ensures IsSpace(owner', owner'[f].root) { assert f != c ==> f in owner; }
    forall p | p in view ensures PageSettled(counts[c := 1], owner', view[p], p.root) {
      assert PageSettled(counts, owner, view[p], p.root);
    }
  }

  lemma {:induction false} HangSettled(counts: seq<nat>, owner: Owner, view: View, f: int, x: int, c: int)
    requires Settled(counts, owner, view) && f in owner && 0 <= c < |counts| && counts[c] == 0 && c !in owner
    ensures Settled(counts[c := 1], owner[c := Below(owner[f], x)], view)
  {
    assert IsSpace(owner, owner[f].root);
    TableSettled(counts, owner, view, c, Below(owner[f], x));
  }

  lemma {:induction false} MappedSettled(counts: seq<nat>, owner: Owner, view: View, p: Page, e: Entry)
    requires Settled(counts, owner, view) && PageSettled(counts, owner, e, p.root)
    ensures Settled(counts, owner, view[p := e])
  {}

  lemma {:induction false} ReadySettled(counts: seq<nat>, owner: Owner, view: View, p: Page, e: Entry)
    requires Settled(counts, owner, view) && Ready(counts, owner, e.addr)
    ensures Settled(counts, owner, view[p := e])
  {
    MappedSettled(counts, owner, view, p, e);
  }

  lemma {:induction false} UnmappedSettled(counts: seq<nat>, owner: Owner, view: View, p: Page)
    requires Settled(counts, owner, view)
    ensures Settled(counts, owner, view - {p})
  {
    forall q | q in view - {p} ensures PageSettled(counts, owner, (view - {p})[q], q.root) { assert q in view; }
  }

  lemma {:induction false} HangSound(counts: seq<nat>, m: Memory, owner: Owner, view: View, f: int, x: int, c: int,
                                     e: Entry)
    requires Sound(counts, m, owner, view) && Hangs(m, owner, f, x, c, e) && counts[c] == 0
    ensures TableOk(m, owner, f) && c != f
    ensures Sound(counts[c := 1], Hung(m, f, x, c, e), owner[c := Below(owner[f], x)], view)
    ensures SameSpaces(owner, owner[c := Below(owner[f], x)])
  {
    HungTables(m, owner, f, x, c, e);
    var m', owner' := Hung(m, f, x, c, e), owner[c := Below(owner[f], x)];
    forall p | UserPage(p) && IsSpace(owner', p.root) ensures Shows(m', view, p) {
      assert IsSpace(owner, p.root);
      HungLookup(m, owner, f, x, c, e, p);
      assert Shows(m, view, p);
    }
    forall p | p in view ensures UserPage(p) && IsSpace(owner', p.root) {}
  }

  lemma {:induction false} LeafSound(counts: seq<nat>, m: Memory, owner: Owner, view: View, f: int, q: Page, e: Entry)
    requires Sound(counts, m, owner, view) && IsSpace(owner, q.root) && UserPage(q)
    requires EntryAt(m, q.root, q.i).present && EntryAt(m, EntryAt(m, q.root, q.i).addr, q.j).present
    requires f == EntryAt(m, EntryAt(m, q.root, q.i).addr, q.j).addr
    ensures f in owner && TableOk(m, owner, f)
    ensures Sound(counts, Store(m, f, q.k, e), owner, if e.present then view[q := e] else view - {q})
  {
    LeafStore(m, owner, f, e, q, q);
    LeafStoreTables(m, owner, f, q.k, e);
    var m', view' := Store(m, f, q.k, e), if e.present then view[q := e] else view - {q};
    forall p | UserPage(p) && IsSpace(owner, p.root) ensures Shows(m', view', p) {
      LeafStore(m, owner, f, e, q, p);
      assert Shows(m, view, p);
    }
  }

  lemma {:induction false} RelinkSound(counts: seq<nat>, m: Memory, owner: Owner, view: View, f: int, x: int, e: Entry)
    requires Sound(counts, m, owner, view) && f in owner && !owner[f].node.Pd? && 0 <= x < ENTRIES
    requires EntryAt(m, f, x).present == e.present && EntryAt(m, f, x).addr == e.addr
    ensures TableOk(m, owner, f) && Sound(counts, Store(m, f, x, e), owner, view)
  {
    RelinkedTables(m, owner, f, x, e);
    var m' := Store(m, f, x, e);
    forall p | UserPage(p) && IsSpace(owner, p.root) ensures Shows(m', view, p) {
      RelinkedLookup(m, owner, f, x, e, p);
      assert Shows(m, view, p);
    }
  }

  lemma {:induction false} ShownAt(counts: seq<nat>, m: Memory, owner: Owner, view: View, p: Page)
    requires Sound(counts, m, owner, view) && IsSpace(owner, p.root) && UserPage(p)
    ensures TableOk(m, owner, p.root) && Shows(m, view, p)
    ensures var e4 := EntryAt(m, p.root, p.i);
            e4.present ==>
              && e4.addr in owner && owner[e4.addr] == Place(p.root, Pdp(p.i)) && TableOk(m, owner, e4.addr)
              && var e3 := EntryAt(m, e4.addr, p.j);
                 e3.present ==>
                   && e3.addr in owner && owner[e3.addr] == Place(p.root, Pd(p.i, p.j))
                   && TableOk(m, owner, e3.addr)
  {
    WalkPlaces(m, owner, p);
    assert TableOk(m, owner, p.root) && Shows(m, view, p);
    var e4 := EntryAt(m, p.root, p.i);
    if e4.present {
      assert TableOk(m, owner, e4.addr);
      var e3 := EntryAt(m, e4.addr, p.j);
      if e3.present { assert TableOk(m, owner, e3.addr); }
    }
  }

  lemma {:induction false} SpacesTrans(o: Owner, o1: Owner, o2: Owner)
    requires SameSpaces(o, o1) && SameSpaces(o1, o2)
    ensures SameSpaces(o, o2)
  {
    forall r ensures IsSpace(o2, r) <==> IsSpace(o, r) { assert IsSpace(o1, r) <==> IsSpace(o, r); }
  }

  lemma {:induction false} DataKeptTrans(m: Memory, m1: Memory, m2: Memory, o1: Owner, o2: Owner)
    requires DataKept(m, m1, o1) && DataKept(m1, m2, o2) && o1.Keys <= o2.Keys
    ensures DataKept(m, m2, o2)
  {}

  // ---- Rights ------------------------------------------------------------------------------------------

  /** The walks to all pages of `view` are the same in both memories. */
  ghost predicate WalksKept(m: Memory, m': Memory, view: View) {
    forall q {:trigger SameWalk(m, m', q)} :: q in view ==> SameWalk(m, m', q)
  }

  /** The rights on all pages of `view` are those after `p` was mapped with `attr`. */
  ghost predicate RightsMoved(m: Memory, m': Memory, view: View, p: Page, attr: Attr) {
    forall q {:trigger RightsOf(m', q)} :: q in view ==> RightsOf(m', q) == RightsAfter(m, q, p, attr)
  }

  /** All root entries are lenient. */
  ghost predicate LenientAll(m: Memory, view: View) {
    forall q {:trigger Lenient(m, q)} :: q in view ==> Lenient(m, q)
  }

  lemma {:induction false} SameWalks(m: Memory, view: View)
    ensures WalksKept(m, m, view)
  {}

  lemma {:induction false} WalksTrans(m: Memory, m1: Memory, m2: Memory, view: View)
    requires WalksKept(m, m1, view) && WalksKept(m1, m2, view)
    ensures WalksKept(m, m2, view)
  {
    forall q | q in view ensures SameWalk(m, m2, q) { assert SameWalk(m, m1, q) && SameWalk(m1, m2, q); }
  }

  lemma {:induction false} LenientKept(m: Memory, m': Memory, view: View)
    requires LenientAll(m, view) && WalksKept(m, m', view)
    ensures LenientAll(m', view)
  {
    forall q | q in view ensures Lenient(m', q) { assert Lenient(m, q) && SameWalk(m, m', q); }
  }

  lemma {:induction false} MovedAfter(m: Memory, m1: Memory, m2: Memory, view: View, p: Page, attr: Attr)
    requires WalksKept(m, m1, view) && RightsMoved(m1, m2, view, p, attr)
    ensures RightsMoved(m, m2, view, p, attr)
  {
    hide Meet, Join, Grants, Asked, Upper, Middle;
    forall q | q in view ensures RightsOf(m2, q) == RightsAfter(m, q, p, attr) {
      assert SameWalk(m, m1, q);
      assert RightsOf(m2, q) == RightsAfter(m1, q, p, attr);
    }
  }

  /** A page of the map is a page that its walk shows. */
  lemma {:induction false} Seen(counts: seq<nat>, m: Memory, owner: Owner, view: View, q: Page)
    requires Sound(counts, m, owner, view) && q in view
    ensures UserPage(q) && IsSpace(owner, q.root) && Lookup(m, q).present && Lookup(m, q) == view[q]
  {
    assert Shows(m, view, q);
  }

  /** The entries after table `c` was hung below entry `x` of table `f`. */
  lemma {:induction false} HungEntries(m: Memory, owner: Owner, f: int, x: int, c: int, e: Entry)
    requires 0 <= f < |m| && m[f].Table? && 0 <= x < |m[f].entries| && 0 <= c < |m| && c != f
    ensures EntryAt(Hung(m, f, x, c, e), f, x) == e && m[f].entries[x] == EntryAt(m, f, x)
    ensures forall g, y {:trigger EntryAt(Hung(m, f, x, c, e), g, y)} :: !(g == f && y == x) ==>
              EntryAt(Hung(m, f, x, c, e), g, y) == if g == c then ZERO else EntryAt(m, g, y)
  {
    hide Hung;
    forall g, y ensures EntryAt(Hung(m, f, x, c, e), g, y)
                        == if g == f && y == x then e else if g == c then ZERO else EntryAt(m, g, y)
    {
      HungAt(m, f, x, c, e, g, y);
    }
  }

  lemma {:induction false} HungWalks(counts: seq<nat>, m: Memory, owner: Owner, view: View, f: int, x: int, c: int,
                                     e: Entry)
    requires Sound(counts, m, owner, view) && Hangs(m, owner, f, x, c, e)
    ensures TableOk(m, owner, f) && c != f && WalksKept(m, Hung(m, f, x, c, e), view)
  {
    hide Sound, SameWalk;
    HungTables(m, owner, f, x, c, e);
    forall q | q in view ensures SameWalk(m, Hung(m, f, x, c, e), q) {
      Seen(counts, m, owner, view, q);
      HungWalk(m, owner, f, x, c, e, q);
    }
  }

  /** One store after the other, seen from page `q`. */
  lemma {:induction false} StoredSeen(counts: seq<nat>, m0: Memory, m1: Memory, m2: Memory, m3: Memory, owner: Owner,
                                      view: View, p: Page, e4: Entry, e3: Entry, e: Entry, q: Page)
    requires Sound(counts, m0, owner, view) && Sound(counts, m1, owner, view) && Sound(counts, m2, owner, view)
    requires IsSpace(owner, p.root) && UserPage(p) && Upper(m0, p).present && Middle(m0, p).present
    requires TableOk(m0, owner, p.root) && e4.present && e4.addr == Upper(m0, p).addr
    requires m1 == Store(m0, p.root, p.i, e4)
    requires e4.addr in owner && TableOk(m1, owner, e4.addr) && e3.present && e3.addr == Middle(m0, p).addr
    requires m2 == Store(m1, e4.addr, p.j, e3)
    requires e3.addr in owner && TableOk(m2, owner, e3.addr) && m3 == Store(m2, e3.addr, p.k, e)
    requires q in view && q != p
    ensures Upper(m3, q) == (if SameRootEntry(q, p) then e4 else Upper(m0, q))
    ensures Middle(m3, q) == (if SameGigabyte(q, p) then e3 else Middle(m0, q)) && Lookup(m3, q) == Lookup(m0, q)
  {
    hide Viewed, TableOk, Lookup;
    Seen(counts, m0, owner, view, q);
    UpperStore(m0, owner, p, e4, q);
    WalkStored(m0, owner, p, e4);
    Seen(counts, m1, owner, view, q);
    MiddleStore(m1, owner, p, e3, q);
    MiddleStored(m1, owner, p, e3);
    Seen(counts, m2, owner, view, q);
    LeafWalk(m2, owner, p, e, q);
  }

  lemma {:induction false} WalkStored(m: Memory, owner: Owner, p: Page, e: Entry)
    requires Tables(m, owner) && IsSpace(owner, p.root) && UserPage(p) && TableOk(m, owner, p.root)
    requires Upper(m, p).present && e.present && e.addr == Upper(m, p).addr
    ensures var m' := Store(m, p.root, p.i, e); Upper(m', p) == e && Middle(m', p) == Middle(m, p)
  {
    WalkPlaces(m, owner, p);
    StoreAt(m, p.root, p.i, e, p.root, p.i);
    StoreAt(m, p.root, p.i, e, e.addr, p.j);
  }

  lemma {:induction false} MiddleStored(m: Memory, owner: Owner, p: Page, e: Entry)
    requires Tables(m, owner) && IsSpace(owner, p.root) && UserPage(p)
    requires Upper(m, p).present && Middle(m, p).present && e.present && e.addr == Middle(m, p).addr
    ensures Upper(m, p).addr in owner && TableOk(m, owner, Upper(m, p).addr)
    ensures var m' := Store(m, Upper(m, p).addr, p.j, e); Upper(m', p) == Upper(m, p) && Middle(m', p) == e
  {
    WalkPlaces(m, owner, p);
    assert TableOk(m, owner, Upper(m, p).addr);
    StoreAt(m, Upper(m, p).addr, p.j, e, p.root, p.i);
    StoreAt(m, Upper(m, p).addr, p.j, e, Upper(m, p).addr, p.j);
  }

  /** Stores to the three entries of a walk that do not change where it leads. */
  lemma {:induction false} StoredOnWalk(m: Memory, owner: Owner, p: Page, e4: Entry, e3: Entry, e: Entry)
    requires Tables(m, owner) && IsSpace(owner, p.root) && UserPage(p) && Upper(m, p).present && Middle(m, p).present
    requires e4.present && e4.addr == Upper(m, p).addr && e3.present && e3.addr == Middle(m, p).addr
    ensures TableOk(m, owner, p.root) && Upper(m, p).addr in owner && TableOk(m, owner, Upper(m, p).addr)
    ensures Middle(m, p).addr in owner && TableOk(m, owner, Middle(m, p).addr)
    ensures var m' := Store(Store(Store(m, p.root, p.i, e4), Upper(m, p).addr, p.j, e3), Middle(m, p).addr, p.k, e);
            && OnlyWalk(m, m', owner, owner, p) && Upper(m', p) == e4 && Middle(m', p) == e3
  {
    WalkPlaces(m, owner, p);
    var f, pd := Upper(m, p).addr, Middle(m, p).addr;
    assert TableOk(m, owner, p.root) && TableOk(m, owner, f) && TableOk(m, owner, pd);
    assert p.root != f && f != pd && pd != p.root;
  }

  lemma {:induction false} StoredRightsAll(counts: seq<nat>, m0: Memory, m1: Memory, m2: Memory, m3: Memory,
                                           owner: Owner, view: View, p: Page, frame: int, attr: Attr)
    requires Sound(counts, m0, owner, view) && Sound(counts, m1, owner, view) && Sound(counts, m2, owner, view)
    requires IsSpace(owner, p.root) && UserPage(p) && Upper(m0, p).present && Middle(m0, p).present && p !in view
    requires var e4, e3 := UpperBits(Upper(m0, p), attr), MiddleBits(Middle(m0, p), attr);
             && TableOk(m0, owner, p.root) && m1 == Store(m0, p.root, p.i, e4)
             && e4.addr in owner && TableOk(m1, owner, e4.addr) && m2 == Store(m1, e4.addr, p.j, e3)
             && e3.addr in owner && TableOk(m2, owner, e3.addr) && m3 == Store(m2, e3.addr, p.k, Leaf(frame, attr))
    ensures RightsOf(m3, p) == Asked(attr) && RightsMoved(m0, m3, view, p, attr)
    ensures LenientAll(m0, view) ==> LenientAll(m3, view[p := Leaf(frame, attr)])
  {
    hide Viewed, TableOk, Lookup, Meet, Join, Grants, Asked, AtMost, Store;
    var e4, e3, e := UpperBits(Upper(m0, p), attr), MiddleBits(Middle(m0, p), attr), Leaf(frame, attr);
    WalkStored(m0, owner, p, e4);
    MiddleStored(m1, owner, p, e3);
    LeafWalk(m2, owner, p, e, p);
    StoredRights(Upper(m0, p), Middle(m0, p), frame, attr, Grants(e4), Grants(e));
    forall q | q in view
      ensures RightsOf(m3, q) == RightsAfter(m0, q, p, attr) && (Lenient(m0, q) ==> Lenient(m3, q))
    {
      StoredSeen(counts, m0, m1, m2, m3, owner, view, p, e4, e3, e, q);
      StoredRights(Upper(m0, p), Middle(m0, p), frame, attr, Grants(Upper(m0, q)), Grants(Lookup(m0, q)));
      StoredRights(Upper(m0, p), Middle(m0, p), frame, attr, Grants(Upper(m0, q)),
                   Meet(Grants(Middle(m0, q)), Grants(Lookup(m0, q))));
      assert SameRootEntry(q, p) ==> Upper(m0, q) == Upper(m0, p);
    }
    assert Lenient(m3, p);
  }

  lemma {:induction false} UnmappedWalks(counts: seq<nat>, m: Memory, m': Memory, owner: Owner, view: View, p: Page)
    requires Sound(counts, m, owner, view) && IsSpace(owner, p.root) && UserPage(p)
    requires Upper(m, p).present && Middle(m, p).present
    requires Middle(m, p).addr in owner && TableOk(m, owner, Middle(m, p).addr)
    requires m' == Store(m, Middle(m, p).addr, p.k, ZERO)
    ensures WalksKept(m, m', view - {p}) && (LenientAll(m, view) ==> LenientAll(m', view - {p}))
  {
    hide Viewed, TableOk, Lookup, Meet, Grants, AtMost, Store;
    forall q | q in view - {p} ensures SameWalk(m, m', q) && (Lenient(m, q) ==> Lenient(m', q)) {
      Seen(counts, m, owner, view, q);
      LeafWalk(m, owner, p, ZERO, q);
    }
  }

  class Vm {
    var counts: seq<nat>
    var mem: Memory
    ghost var owner: Owner
    ghost var view: View

    ghost predicate Valid()
      reads this
    {
      Sound(counts, mem, owner, view)
    }

    /** What holds between calls if only counted frames that are no tables are mapped. */
    ghost predicate Quiet()
      reads this
    {
      Valid() && Settled(counts, owner, view)
    }

    /** A quiet memory stays quiet, and frames that may be mapped stay so. */
    twostate predicate StaysQuiet()
      reads this
    {
      && (old(Quiet()) ==> Quiet()) && CountsKept(old(counts), counts)
      && (forall f {:trigger Ready(counts, owner, f)} :: old(Ready(counts, owner, f)) ==> Ready(counts, owner, f))
    }

    /** Machine memory at boot: no address space yet. */
    constructor (counts: seq<nat>, mem: Memory)
      requires |counts| == |mem| && forall f {:trigger counts[f]} :: 0 <= f < |counts| ==> counts[f] < 256
      ensures Quiet() && owner == map[] && view == map[] && this.counts == counts && this.mem == mem
    {
      this.counts, this.mem, owner, view := counts, mem, map[], map[];
    }

    // ---- Frames -----------------------------------------------------------------------------------

    /** `pma_alloc`: the first frame that nobody counts; 0 if there is none, or if frame 0 is it. */
    method Alloc() returns (f: nat)
      modifies `counts
      ensures if Exhausted(old(counts)) then f == 0 && counts == old(counts)
              else FirstFree(old(counts), f) && counts == old(counts)[f := 1]
    {
      for i := 0 to |counts|
        invariant counts == old(counts)
        invariant forall g :: 0 <= g < i ==> counts[g] != 0
      {
        if counts[i] == 0 {
          counts := counts[i := counts[i] + 1];
          return i;
        }
      }
      return 0;
    }

    /** A missing table below entry `x` of table `f` is allocated, zeroed and linked. */
    method NewTable(f: int, x: int) returns (ok: bool)
      requires Valid() && f in owner && !owner[f].node.Pd? && 0 <= x < ENTRIES
      requires (owner[f].node.Root? ==> x < USER_ENTRIES)
      requires !EntryAt(mem, f, x).present
      modifies this
      ensures Valid() && view == old(view) && SameSpaces(old(owner), owner) && DataKept(old(mem), mem, owner)
      ensures old(owner).Keys <= owner.Keys
      ensures forall g {:trigger owner[g]} :: g in old(owner) ==> owner[g] == old(owner)[g]
      ensures if ok then EntryAt(mem, f, x).present && EntryAt(mem, f, x).addr !in old(owner)
              else mem == old(mem) && owner == old(owner)
      ensures OutOfFrames(old(counts), counts, ok) && StaysQuiet()
      ensures ok <==> Affords(old(counts), 1)
      ensures ok ==> |FreeFrames(counts)| == |FreeFrames(old(counts))| - 1
      ensures forall g, y {:trigger EntryAt(mem, g, y)} :: g in owner && !(g == f && y == x) ==>
                EntryAt(mem, g, y) == if g in old(owner) then old(EntryAt(mem, g, y)) else ZERO
      ensures WalksKept(old(mem), mem, view)
    {
      hide Lookup, Settled, SameWalk, FreeFrames, EntryAt, Viewed;
      assert TableOk(mem, owner, f);
      ghost var c0, owner0 := counts, owner;
      NoneFree(counts);
      var c := Alloc();
      if !Exhausted(c0) { TakenFree(c0, c); }
      if c == 0 {
        if Settled(c0, owner0, view) { CountedSettled(c0, counts, owner0, view); }
        SameWalks(mem, view);
        return false;
      }
      ghost var e := mem[f].entries[x].(rw := true, present := true, addr := c);
      HangSound(old(counts), mem, owner, view, f, x, c, e);
      HungWalks(old(counts), mem, owner, view, f, x, c, e);
      if Settled(c0, owner0, view) { HangSettled(c0, owner0, view, f, x, c); }
      HungEntries(mem, owner, f, x, c, e);
      owner := owner[c := Below(owner[f], x)];
      mem := mem[c := Table(seq(ENTRIES, _ => ZERO))];
      mem := Store(mem, f, x, mem[f].entries[x].(rw := true, present := true, addr := c));
      assert mem == Hung(old(mem), f, x, c, e);
      return true;
    }

    // ---- Pages --------------------------------------------------------------------------------------

    /** `vm_is_mapped(as, vma)`. */
    method IsMapped(root: int, va: nat) returns (b: bool)
      requires Valid() && IsSpace(owner, root) && va < USER_END
      ensures b <==> PageOf(root, va) in view
    {
      hide Tables, Viewed, TableOk;
      var p := PageOf(root, va);
      UserIndex(va);
      ShownAt(counts, mem, owner, view, p);
      var e4 := EntryAt(mem, root, p.i);
      if !e4.present { return false; }
      var e3 := EntryAt(mem, e4.addr, p.j);
      if !e3.present { return false; }
      return EntryAt(mem, e3.addr, p.k).present;
    }

    /** `vm_get_pma_by_vma`: the physical address, or 0. */
    method GetPma(root: int, va: nat) returns (pma: int)
      requires Valid() && IsSpace(owner, root) && va < USER_END
      ensures pma == if PageOf(root, va) in view then view[PageOf(root, va)].addr * PAGE + va % PAGE else 0
    {
      hide Tables, Viewed, TableOk;
      var p := PageOf(root, va);
      UserIndex(va);
      ShownAt(counts, mem, owner, view, p);
      var e := Lookup(mem, p);
      return if e.present then e.addr * PAGE + va % PAGE else 0;
    }

    /** Both upper tables of page `p` exist afterwards, unless memory ran out. */
    method UpperTables(p: Page) returns (ok: bool)
      requires Valid() && IsSpace(owner, p.root) && UserPage(p)
      modifies this
      ensures Valid() && view == old(view) && SameSpaces(old(owner), owner) && DataKept(old(mem), mem, owner)
      ensures old(owner).Keys <= owner.Keys && OutOfFrames(old(counts), counts, ok) && StaysQuiet()
      ensures ok ==> EntryAt(mem, p.root, p.i).present && EntryAt(mem, EntryAt(mem, p.root, p.i).addr, p.j).present
      ensures WalksKept(old(mem), mem, view)
      ensures OnlyWalk(old(mem), mem, old(owner), owner, p) && OwnersKept(old(owner), owner)
      ensures ok <==> Affords(old(counts), Missing(old(mem), p))
      ensures ok ==> |FreeFrames(counts)| == |FreeFrames(old(counts))| - Missing(old(mem), p)
    {
      hide Tables, Viewed, TableOk, Lookup, Settled, Ready, WalksKept, FreeFrames;
      SameWalks(mem, view);
      ShownAt(counts, mem, owner, view, p);
      if !EntryAt(mem, p.root, p.i).present {
        ok := NewTable(p.root, p.i);
        if !ok { return; }
      }
      ghost var owner1, mem1 := owner, mem;
      ShownAt(counts, mem, owner, view, p);
      var pdp := EntryAt(mem, p.root, p.i).addr;
      ok := true;
      if !EntryAt(mem, pdp, p.j).present {
        ok := NewTable(pdp, p.j);
        SpacesTrans(old(owner), owner1, owner);
        DataKeptTrans(old(mem), mem1, mem, owner1, owner);
        WalksTrans(old(mem), mem1, mem, view);
      }
    }

    /** `vm_map_page(as, vma, pma, attr)`; remapping a page to another frame is a panic. */
    method MapPage(root: int, va: nat, frame: int, attr: Attr) returns (ok: bool)
      requires Valid() && IsSpace(owner, root) && va < USER_END
      requires PageOf(root, va) in view ==> view[PageOf(root, va)].addr == frame
      modifies this
      ensures Valid() && SameSpaces(old(owner), owner) && DataKept(old(mem), mem, owner)
      ensures old(owner).Keys <= owner.Keys
      ensures OutOfFrames(old(counts), counts, ok) && CountsKept(old(counts), counts)
      ensures old(Quiet()) && Ready(old(counts), old(owner), frame) ==> Quiet()
      ensures forall f {:trigger Ready(counts, owner, f)} :: Ready(old(counts), old(owner), f) ==>
              Ready(counts, owner, f)
      ensures view == if ok && PageOf(root, va) !in old(view) then old(view)[PageOf(root, va) := Leaf(frame, attr)]
                      else old(view)
      ensures if ok && PageOf(root, va) !in old(view)
              then && RightsOf(mem, PageOf(root, va)) == Asked(attr)
                   && RightsMoved(old(mem), mem, old(view), PageOf(root, va), attr)
              else WalksKept(old(mem), mem, view)
      ensures old(LenientAll(mem, view)) ==> LenientAll(mem, view)
      ensures OnlyWalk(old(mem), mem, old(owner), owner, PageOf(root, va)) && OwnersKept(old(owner), owner)
      ensures ok <==> Affords(old(counts), Missing(old(mem), PageOf(root, va)))
      ensures ok ==> |FreeFrames(counts)| == |FreeFrames(old(counts))| - Missing(old(mem), PageOf(root, va))
    {
      hide Tables, Viewed, TableOk, Settled, Ready, WalksKept, RightsMoved, LenientAll, RightsOf, Asked, FreeFrames;
      var p := PageOf(root, va);
      UserIndex(va);
      ok := UpperTables(p);
      if old(LenientAll(mem, view)) { LenientKept(old(mem), mem, view); }
      if !ok { return; }
      assert IsSpace(owner, root);
      ShownAt(counts, mem, owner, view, p);
      var pdp := EntryAt(mem, root, p.i).addr;
      var pd := EntryAt(mem, pdp, p.j).addr;
      if EntryAt(mem, pd, p.k).present {
        return;
      }
      ghost var before, mem1 := view, mem;
      StoreLeaf(p, pdp, pd, frame, attr);
      MovedAfter(old(mem), mem1, mem, before, p, attr);
      if old(Quiet()) && Ready(old(counts), old(owner), frame) {
        assert Ready(counts, owner, frame);
        ReadySettled(counts, owner, before, p, Leaf(frame, attr));
      }
    }

    /** Two pages of one gigabyte: the second call leaves to the first page only what both calls ask for, and so all
        that was asked for it if and only if the second asks for as much. */
    method MapBoth(root: int, va: nat, frame: int, attr: Attr, vb: nat, other: int, after: Attr) returns (ok: bool)
      requires Valid() && IsSpace(owner, root) && va < USER_END && vb < USER_END
      requires var p, q := PageOf(root, va), PageOf(root, vb);
               p != q && SameGigabyte(p, q) && p !in view && q !in view
      modifies this
      ensures Valid() && (ok <==> Affords(old(counts), Missing(old(mem), PageOf(root, va))))
      ensures ok ==>
                && RightsOf(mem, PageOf(root, vb)) == Asked(after)
                && RightsOf(mem, PageOf(root, va)) == Meet(Asked(attr), Asked(after))
                && (RightsOf(mem, PageOf(root, va)) == Asked(attr) <==> AtMost(Asked(attr), Asked(after)))
                && (attr.writable && !after.writable ==> !RightsOf(mem, PageOf(root, va)).writable)
    {
      hide Sound, Settled, WalksKept, RightsOf, LenientAll, Lookup;
      ok := MapPage(root, va, frame, attr);
      if ok {
        Seen(counts, mem, owner, view, PageOf(root, va));
        NoneMissing(mem, PageOf(root, va), PageOf(root, vb));
        ok := MapPage(root, vb, other, after);
      }
    }

    /** The stores of `vm_map_page` once the tables are there. */
    method StoreLeaf(p: Page, pdp: int, pd: int, frame: int, attr: Attr)
      requires Valid() && IsSpace(owner, p.root) && UserPage(p) && p !in view
      requires EntryAt(mem, p.root, p.i).present && pdp == EntryAt(mem, p.root, p.i).addr
      requires EntryAt(mem, pdp, p.j).present && pd == EntryAt(mem, pdp, p.j).addr
      modifies `mem, `view
      ensures Valid() && DataKept(old(mem), mem, owner) && view == old(view)[p := Leaf(frame, attr)]
      ensures RightsOf(mem, p) == Asked(attr) && RightsMoved(old(mem), mem, old(view), p, attr)
      ensures old(LenientAll(mem, view)) ==> LenientAll(mem, view)
      ensures OnlyWalk(old(mem), mem, owner, owner, p)
      ensures Upper(mem, p).present && Upper(mem, p).addr == pdp && Middle(mem, p).present && Middle(mem, p).addr == pd
    {
      hide Tables, Viewed, Lookup, RightsOf, Asked, RightsMoved, LenientAll, OnlyWalk;
      ghost var m0 := mem;
      ShownAt(counts, mem, owner, view, p);
      var e4 := EntryAt(mem, p.root, p.i);
      e4 := e4.(user := e4.user || !attr.privileged, rw := e4.rw || attr.writable, nx := e4.nx && !attr.executable);
      RelinkSound(counts, mem, owner, view, p.root, p.i, e4);
      mem := Store(mem, p.root, p.i, e4);
      ghost var m1 := mem;
      ShownAt(counts, mem, owner, view, p);
      var e3 := EntryAt(mem, pdp, p.j);
      e3 := e3.(user := !attr.privileged, rw := attr.writable, nx := !attr.executable);
      RelinkSound(counts, mem, owner, view, pdp, p.j, e3);
      mem := Store(mem, pdp, p.j, e3);
      ghost var m2 := mem;
      ShownAt(counts, mem, owner, view, p);
      LeafSound(counts, mem, owner, view, pd, p, Leaf(frame, attr));
      mem := Store(mem, pd, p.k, Leaf(frame, attr));
      StoredRightsAll(counts, m0, m1, m2, mem, owner, view, p, frame, attr);
      StoredOnWalk(m0, owner, p, e4, e3, Leaf(frame, attr));
      view := view[p := Leaf(frame, attr)];
    }

    /** `vm_unmap_page(as, vma)`: unmapping a page that is not mapped is a panic. */
    method UnmapPage(root: int, va: nat) returns (frame: int)
      requires Valid() && IsSpace(owner, root) && va < USER_END && PageOf(root, va) in view
      modifies `mem, `view
      ensures Valid() && DataKept(old(mem), mem, owner)
      ensures frame == old(view)[PageOf(root, va)].addr && view == old(view) - {PageOf(root, va)}
      ensures old(Quiet()) ==> Quiet()
      ensures WalksKept(old(mem), mem, view) && (old(LenientAll(mem, view)) ==> LenientAll(mem, view))
      ensures OnlyUser(old(mem), mem, owner, owner, {root})
      ensures var p := PageOf(root, va);
              forall g, y {:trigger EntryAt(mem, g, y)} ::
                EntryAt(mem, g, y) == if g == Middle(old(mem), p).addr && y == p.k then ZERO
                                      else EntryAt(old(mem), g, y)
    {
      hide Tables, Viewed, Settled, WalksKept, LenientAll;
      var p := PageOf(root, va);
      UserIndex(va);
      ShownAt(counts, mem, owner, view, p);
      var pdp := EntryAt(mem, root, p.i).addr;
      var pd := EntryAt(mem, pdp, p.j).addr;
      frame := EntryAt(mem, pd, p.k).addr;
      LeafSound(counts, mem, owner, view, pd, p, ZERO);
      mem := Store(mem, pd, p.k, ZERO);
      if Settled(counts, owner, view) { UnmappedSettled(counts, owner, view, p); }
      UnmappedWalks(counts, old(mem), mem, owner, view, p);
      view := view - {p};
    }
  }
}
