/** What the page tables of `kernel/k_memory.c` allow: the processor grants a right on a page only if all three entries
    on the walk to it do. `vm_map_page` stores rights in all three, and so touches those of other pages. */
module PageRights {
  import opened PageIndex
  import opened PageTables

  /** `enum VM_PAGE_ATTR` as flags. */
  datatype Attr = Attr(writable: bool, privileged: bool, executable: bool, global: bool)

  /** What a user program may do with a page. */
  datatype Rights = Rights(user: bool, writable: bool, executable: bool)

  /** The leaf entry that `vm_map_page` stores. */
  function Leaf(frame: int, attr: Attr): Entry {
    Entry(true, frame, attr.writable, !attr.privileged, !attr.executable, attr.global)
  }

  // ---- Attribute words ---------------------------------------------------------------------------------

  /** The word of attributes that stands for `attr`, without `VM_PAGE_PRESENT`. */
  function AttrWord(attr: Attr): nat {
    (if attr.writable then 2 else 0) + (if attr.privileged then 4 else 0) + (if attr.executable then 8 else 0)
    + (if attr.global then 256 else 0)
  }

  /** `get_attrs_by_vma`, on the leaf entry. */
  function AttrsOf(e: Entry): nat {
    (if e.present then 1 else 0) + (if e.user then 0 else 4) + (if e.rw then 2 else 0) + (if e.nx then 0 else 8)
    + (if e.global then 256 else 0)
  }

  /** Every attribute that a page is mapped with reads back from its leaf entry. */
  lemma {:induction false} AttrsReadBack(frame: int, attr: Attr)
    ensures AttrsOf(Leaf(frame, attr)) == AttrWord(attr) + 1 && Leaf(frame, attr).addr == frame
    ensures forall a :: AttrWord(a) == AttrWord(attr) ==> a == attr
    ensures AttrsOf(ZERO) % 2 == 0
  {}

  // ---- Rights ------------------------------------------------------------------------------------------

  function Meet(a: Rights, b: Rights): Rights {
    Rights(a.user && b.user, a.writable && b.writable, a.executable && b.executable)
  }

  function Join(a: Rights, b: Rights): Rights {
    Rights(a.user || b.user, a.writable || b.writable, a.executable || b.executable)
  }

  predicate AtMost(a: Rights, b: Rights) {
    Meet(a, b) == a
  }

  function Grants(e: Entry): Rights {
    Rights(e.user, e.rw, !e.nx)
  }

  /** The rights that attributes ask for. */
  function Asked(attr: Attr): Rights {
    Rights(!attr.privileged, attr.writable, attr.executable)
  }

  function Upper(m: Memory, p: Page): Entry {
    EntryAt(m, p.root, p.i)
  }

  function Middle(m: Memory, p: Page): Entry {
    EntryAt(m, Upper(m, p).addr, p.j)
  }

  /** The rights that the processor grants on page `p`. */
  function RightsOf(m: Memory, p: Page): Rights {
    Meet(Grants(Upper(m, p)), Meet(Grants(Middle(m, p)), Grants(Lookup(m, p))))
  }

  predicate SameGigabyte(p: Page, q: Page) {
    p.root == q.root && p.i == q.i && p.j == q.j
  }

  predicate SameRootEntry(p: Page, q: Page) {
    p.root == q.root && p.i == q.i
  }

  /** The rights on page `q` after another page `p` was mapped with `attr`. In the same gigabyte they are what the leaf
      of `q` and `attr` both grant; elsewhere below the same root entry only the root entry has become more generous. */
  function RightsAfter(m: Memory, q: Page, p: Page, attr: Attr): Rights {
    if SameGigabyte(q, p) then Meet(Grants(Lookup(m, q)), Asked(attr))
    else if SameRootEntry(q, p) then
      Meet(Join(Grants(Upper(m, q)), Asked(attr)), Meet(Grants(Middle(m, q)), Grants(Lookup(m, q))))
    else RightsOf(m, q)
  }

  /** The root entry grants all that the entries below it on the walk to `p` grant. */
  predicate Lenient(m: Memory, p: Page) {
    AtMost(Meet(Grants(Middle(m, p)), Grants(Lookup(m, p))), Grants(Upper(m, p)))
  }

  /** Mapping `p` leaves the rights of a page `q` of the same gigabyte alone if and only if they were what its leaf and
      the new attributes both grant. If `q` has all that its leaf grants, this is so if and only if the new attributes
      ask for at least as much. */
  lemma {:induction false} KeptIff(m: Memory, q: Page, p: Page, attr: Attr)
    requires SameGigabyte(q, p)
    ensures RightsAfter(m, q, p, attr) == RightsOf(m, q) <==> RightsOf(m, q) == Meet(Grants(Lookup(m, q)), Asked(attr))
    ensures RightsOf(m, q) == Grants(Lookup(m, q)) ==>
              (RightsAfter(m, q, p, attr) == RightsOf(m, q) <==> AtMost(RightsOf(m, q), Asked(attr)))
  {}

  /** Elsewhere rights are kept if the root entry is lenient, and only grow if it is not. */
  lemma {:induction false} KeptElsewhere(m: Memory, q: Page, p: Page, attr: Attr)
    requires !SameGigabyte(q, p)
    ensures Lenient(m, q) || !SameRootEntry(q, p) ==> RightsAfter(m, q, p, attr) == RightsOf(m, q)
    ensures AtMost(RightsOf(m, q), RightsAfter(m, q, p, attr))
  {}

  // ---- Walks and stores --------------------------------------------------------------------------------

  /** The entries on the walk to `p` are the same in both memories. */
  ghost predicate SameWalk(m: Memory, m': Memory, p: Page) {
    Upper(m', p) == Upper(m, p) && Middle(m', p) == Middle(m, p) && Lookup(m', p) == Lookup(m, p)
  }

  /** A new table is on no walk that leads to a page. */
  lemma {:induction false} HungWalk(m: Memory, owner: Owner, f: int, x: int, c: int, e: Entry, p: Page)
    requires Hangs(m, owner, f, x, c, e) && IsSpace(owner, p.root) && UserPage(p) && Lookup(m, p).present
    ensures TableOk(m, owner, f) && c != f && SameWalk(m, Hung(m, f, x, c, e), p)
  {
    HungLookup(m, owner, f, x, c, e, p);
    WalkPlaces(m, owner, p);
    HungAt(m, f, x, c, e, p.root, p.i);
    HungAt(m, f, x, c, e, Upper(m, p).addr, p.j);
  }

  /** New bits in a root entry are seen by the walks through it. */
  lemma {:induction false} UpperStore(m: Memory, owner: Owner, q: Page, e: Entry, p: Page)
    requires Tables(m, owner) && IsSpace(owner, p.root) && UserPage(p) && IsSpace(owner, q.root) && UserPage(q)
    requires Upper(m, q).present && e.present && e.addr == Upper(m, q).addr && Lookup(m, p).present
    ensures TableOk(m, owner, q.root)
    ensures var m' := Store(m, q.root, q.i, e);
            && Upper(m', p) == (if SameRootEntry(p, q) then e else Upper(m, p))
            && Middle(m', p) == Middle(m, p) && Lookup(m', p) == Lookup(m, p)
  {
    assert TableOk(m, owner, q.root);
    WalkPlaces(m, owner, p);
    RelinkedLookup(m, owner, q.root, q.i, e, p);
    StoreAt(m, q.root, q.i, e, p.root, p.i);
    StoreAt(m, q.root, q.i, e, Upper(m, p).addr, p.j);
  }

  lemma {:induction false} MiddleStore(m: Memory, owner: Owner, q: Page, e: Entry, p: Page)
    requires Tables(m, owner) && IsSpace(owner, p.root) && UserPage(p) && IsSpace(owner, q.root) && UserPage(q)
    requires Upper(m, q).present && Middle(m, q).present && e.present && e.addr == Middle(m, q).addr
    requires Lookup(m, p).present
    ensures Upper(m, q).addr in owner && TableOk(m, owner, Upper(m, q).addr)
    ensures var m' := Store(m, Upper(m, q).addr, q.j, e);
            && Middle(m', p) == (if SameGigabyte(p, q) then e else Middle(m, p))
            && Upper(m', p) == Upper(m, p) && Lookup(m', p) == Lookup(m, p)
  {
    WalkPlaces(m, owner, q);
    WalkPlaces(m, owner, p);
    var f := Upper(m, q).addr;
    assert TableOk(m, owner, f);
    RelinkedLookup(m, owner, f, q.j, e, p);
    StoreAt(m, f, q.j, e, p.root, p.i);
    StoreAt(m, f, q.j, e, Upper(m, p).addr, p.j);
  }

  lemma {:induction false} LeafWalk(m: Memory, owner: Owner, q: Page, e: Entry, p: Page)
    requires Tables(m, owner) && IsSpace(owner, p.root) && UserPage(p) && IsSpace(owner, q.root) && UserPage(q)
    requires Upper(m, q).present && Middle(m, q).present && (p == q || Lookup(m, p).present)
    ensures Middle(m, q).addr in owner && TableOk(m, owner, Middle(m, q).addr)
    ensures var m' := Store(m, Middle(m, q).addr, q.k, e);
            && Upper(m', p) == Upper(m, p) && Middle(m', p) == Middle(m, p)
            && Lookup(m', p) == if p == q then e else Lookup(m, p)
  {
    var f := Middle(m, q).addr;
    LeafStore(m, owner, f, e, q, p);
    WalkPlaces(m, owner, p);
    StoreAt(m, f, q.k, e, p.root, p.i);
    StoreAt(m, f, q.k, e, Upper(m, p).addr, p.j);
  }

  /** The bits that `vm_map_page` gives the two upper entries. */
  function UpperBits(e: Entry, attr: Attr): Entry {
    e.(user := e.user || !attr.privileged, rw := e.rw || attr.writable, nx := e.nx && !attr.executable)
  }

  function MiddleBits(e: Entry, attr: Attr): Entry {
    e.(user := !attr.privileged, rw := attr.writable, nx := !attr.executable)
  }

  /** The three entries grant what was asked for, and what they grant to another page. */
  lemma {:induction false} StoredRights(e4: Entry, e3: Entry, frame: int, attr: Attr, upper: Rights, rest: Rights)
    ensures Meet(Grants(UpperBits(e4, attr)), Meet(Grants(MiddleBits(e3, attr)), Grants(Leaf(frame, attr))))
            == Asked(attr)
    ensures Meet(Grants(UpperBits(e4, attr)), Meet(Grants(MiddleBits(e3, attr)), rest)) == Meet(rest, Asked(attr))
    ensures Grants(UpperBits(e4, attr)) == Join(Grants(e4), Asked(attr))
    ensures AtMost(Meet(Grants(MiddleBits(e3, attr)), rest), Grants(UpperBits(e4, attr)))
    ensures AtMost(rest, upper) ==> AtMost(rest, Join(upper, Asked(attr)))
  {}
}
