/** Three-level page tables of `kernel/k_memory.c` in physical memory: table frames, the walk from
    the root, and what one store into one table does to what the walks see. */
module PageTables {
  import opened PageIndex

  /** One table entry. `addr` is the number of the 2 MB frame it points at; `user` is the bit that
      the source calls `privileged`. */
  datatype Entry = Entry(present: bool, addr: int, rw: bool, user: bool, nx: bool, global: bool)

  const ZERO: Entry := Entry(false, 0, false, false, false, false)

  /** A physical frame, as a table or as data. */
  datatype Frame = Table(entries: seq<Entry>) | Data(bytes: seq<int>)
  type Memory = seq<Frame>

  const USER_ENTRIES: int := 256

  /** The place of a table in an address space. */
  datatype Node = Root | Pdp(i: int) | Pd(i: int, j: int)
  datatype Place = Place(root: int, node: Node)
  type Owner = map<int, Place>

  /** A page of an address space. */
  datatype Page = Page(root: int, i: int, j: int, k: int)

  ghost predicate UserPage(p: Page) {
    0 <= p.i < USER_ENTRIES && 0 <= p.j < ENTRIES && 0 <= p.k < ENTRIES
  }

  // ---- Walks ---------------------------------------------------------------------------------------

  function EntryAt(m: Memory, f: int, x: int): Entry {
    if 0 <= f < |m| && m[f].Table? && 0 <= x < |m[f].entries| then m[f].entries[x] else ZERO
  }

  /** `get_pde_by_vma`: the leaf entry, or an absent one if an upper table is missing. */
  function Lookup(m: Memory, p: Page): Entry {
    var e4 := EntryAt(m, p.root, p.i);
    if !e4.present then ZERO
    else var e3 := EntryAt(m, e4.addr, p.j);
         if !e3.present then ZERO else EntryAt(m, e3.addr, p.k)
  }

  // ---- The table trees -----------------------------------------------------------------------------

  ghost predicate ChildOk(owner: Owner, e: Entry, place: Place) {
    e.present ==> e.addr in owner && owner[e.addr] == place
  }

  ghost predicate PdpLinks(owner: Owner, f: int, es: seq<Entry>) {
    forall i {:trigger es[i]} :: 0 <= i < USER_ENTRIES && i < |es| ==> ChildOk(owner, es[i], Place(f, Pdp(i)))
  }

  ghost predicate PdLinks(owner: Owner, root: int, i: int, es: seq<Entry>) {
    forall j {:trigger es[j]} :: 0 <= j < |es| ==> ChildOk(owner, es[j], Place(root, Pd(i, j)))
  }

  /** Frame `f` is a table, and its user entries lead to the tables of the next level. */
  ghost predicate TableOk(m: Memory, owner: Owner, f: int)
    requires f in owner
  {
    && 0 < f < |m| && m[f].Table? && |m[f].entries| == ENTRIES
    && match owner[f].node
       case Root => owner[f].root == f && PdpLinks(owner, f, m[f].entries)
       case Pdp(i) => 0 <= i < USER_ENTRIES && PdLinks(owner, owner[f].root, i, m[f].entries)
       case Pd(i, j) => true
  }

  ghost predicate IsSpace(owner: Owner, root: int) {
    root in owner && owner[root] == Place(root, Root)
  }

  /** No table frame has two places: this is what keeps walks apart. */
  ghost predicate Tables(m: Memory, owner: Owner) {
    forall f {:trigger TableOk(m, owner, f)} :: f in owner ==> TableOk(m, owner, f)
  }

  // ---- Stores ----------------------------------------------------------------------------------------

  function Store(m: Memory, f: int, x: int, e: Entry): Memory
    requires 0 <= f < |m| && m[f].Table? && 0 <= x < |m[f].entries|
  {
    m[f := Table(m[f].entries[x := e])]
  }

  lemma {:induction false} StoreAt(m: Memory, f: int, x: int, e: Entry, g: int, y: int)
    requires 0 <= f < |m| && m[f].Table? && 0 <= x < |m[f].entries|
    ensures EntryAt(Store(m, f, x, e), g, y) == if g == f && y == x then e else EntryAt(m, g, y)
  {}

  /** Where the walk to `p` passes: the places of its upper two tables. */
  lemma {:induction false} WalkPlaces(m: Memory, owner: Owner, p: Page)
    requires Tables(m, owner) && IsSpace(owner, p.root) && UserPage(p)
    ensures var e4 := EntryAt(m, p.root, p.i);
            e4.present ==>
              && e4.addr in owner && owner[e4.addr] == Place(p.root, Pdp(p.i))
              && var e3 := EntryAt(m, e4.addr, p.j);
                 e3.present ==> e3.addr in owner && owner[e3.addr] == Place(p.root, Pd(p.i, p.j))
  {
    assert TableOk(m, owner, p.root);
    var e4 := EntryAt(m, p.root, p.i);
    assert ChildOk(owner, m[p.root].entries[p.i], Place(p.root, Pdp(p.i)));
    if e4.present {
      assert TableOk(m, owner, e4.addr);
      assert ChildOk(owner, m[e4.addr].entries[p.j], Place(p.root, Pd(p.i, p.j)));
    }
  }

  /** A store into a leaf table changes what one walk sees. */
  lemma {:induction false} LeafStore(m: Memory, owner: Owner, f: int, e: Entry, q: Page, p: Page)
    requires Tables(m, owner) && IsSpace(owner, p.root) && UserPage(p) && IsSpace(owner, q.root) && UserPage(q)
    requires EntryAt(m, q.root, q.i).present && EntryAt(m, EntryAt(m, q.root, q.i).addr, q.j).present
    requires f == EntryAt(m, EntryAt(m, q.root, q.i).addr, q.j).addr
    ensures f in owner && owner[f] == Place(q.root, Pd(q.i, q.j)) && TableOk(m, owner, f)
    ensures Lookup(Store(m, f, q.k, e), p) == if p == q then e else Lookup(m, p)
  {
    WalkPlaces(m, owner, q);
    WalkPlaces(m, owner, p);
    assert TableOk(m, owner, f);
    StoreAt(m, f, q.k, e, p.root, p.i);
    StoreAt(m, f, q.k, e, EntryAt(m, p.root, p.i).addr, p.j);
    StoreAt(m, f, q.k, e, EntryAt(m, EntryAt(m, p.root, p.i).addr, p.j).addr, p.k);
  }

  lemma {:induction false} LeafStoreTables(m: Memory, owner: Owner, f: int, x: int, e: Entry)
    requires Tables(m, owner) && f in owner && owner[f].node.Pd? && 0 <= x < ENTRIES
    ensures TableOk(m, owner, f) && Tables(Store(m, f, x, e), owner)
  {
    assert TableOk(m, owner, f);
    forall g | g in owner ensures TableOk(Store(m, f, x, e), owner, g) { assert TableOk(m, owner, g); }
  }

  // ---- New empty tables -------------------------------------------------------------------------------

  ghost function Zeros(): seq<Entry> {
    seq(ENTRIES, _ => ZERO)
  }

  /** The place of the table that entry `x` of a table at `place` leads to. */
  ghost function Below(place: Place, x: int): Place {
    match place.node
    case Root => Place(place.root, Pdp(x))
    case Pdp(i) => Place(place.root, Pd(i, x))
    case Pd(_, _) => place
  }

  ghost predicate Hangs(m: Memory, owner: Owner, f: int, x: int, c: int, e: Entry) {
    && Tables(m, owner) && f in owner && !owner[f].node.Pd? && 0 <= x < ENTRIES
    && (owner[f].node.Root? ==> x < USER_ENTRIES)
    && 0 < c < |m| && c !in owner && e.present && e.addr == c
    && !EntryAt(m, f, x).present
  }

  /** Frame `c`, zeroed, hung into entry `x` of table `f`. */
  ghost function Hung(m: Memory, f: int, x: int, c: int, e: Entry): Memory
    requires 0 <= f < |m| && m[f].Table? && 0 <= x < |m[f].entries| && 0 <= c < |m| && c != f
  {
    Store(m[c := Table(Zeros())], f, x, e)
  }

  lemma {:induction false} HungTables(m: Memory, owner: Owner, f: int, x: int, c: int, e: Entry)
    requires Hangs(m, owner, f, x, c, e)
    ensures TableOk(m, owner, f) && c != f && Tables(Hung(m, f, x, c, e), owner[c := Below(owner[f], x)])
  {
    assert TableOk(m, owner, f);
    var m', owner' := Hung(m, f, x, c, e), owner[c := Below(owner[f], x)];
    forall g | g in owner' ensures TableOk(m', owner', g) {
      if g != c {
        assert TableOk(m, owner, g);
        HungLinks(m, owner, f, x, c, e, g);
      }
    }
  }

  lemma {:induction false} HungLinks(m: Memory, owner: Owner, f: int, x: int, c: int, e: Entry, g: int)
    requires Hangs(m, owner, f, x, c, e) && g in owner && TableOk(m, owner, f) && c != f && TableOk(m, owner, g)
    ensures TableOk(Hung(m, f, x, c, e), owner[c := Below(owner[f], x)], g)
  {
    var m', owner' := Hung(m, f, x, c, e), owner[c := Below(owner[f], x)];
    match owner[g].node
    case Root =>
      forall i | 0 <= i < USER_ENTRIES ensures ChildOk(owner', m'[g].entries[i], Place(g, Pdp(i))) {
        assert ChildOk(owner, m[g].entries[i], Place(g, Pdp(i)));
      }
    case Pdp(i) =>
      forall j | 0 <= j < ENTRIES ensures ChildOk(owner', m'[g].entries[j], Place(owner[g].root, Pd(i, j))) {
        assert ChildOk(owner, m[g].entries[j], Place(owner[g].root, Pd(i, j)));
      }
    case Pd(_, _) =>
  }

  lemma {:induction false} HungAt(m: Memory, f: int, x: int, c: int, e: Entry, g: int, y: int)
    requires 0 <= f < |m| && m[f].Table? && 0 <= x < |m[f].entries| && 0 <= c < |m| && c != f
    ensures EntryAt(Hung(m, f, x, c, e), g, y)
            == if g == f && y == x then e else if g == c then ZERO else EntryAt(m, g, y)
  {}

  /** An empty table shows nothing. */
  lemma {:induction false} HungLookup(m: Memory, owner: Owner, f: int, x: int, c: int, e: Entry, p: Page)
    requires Hangs(m, owner, f, x, c, e) && IsSpace(owner, p.root) && UserPage(p)
    ensures TableOk(m, owner, f) && c != f
    ensures Lookup(Hung(m, f, x, c, e), p).present <==> Lookup(m, p).present
    ensures Lookup(m, p).present ==> Lookup(Hung(m, f, x, c, e), p) == Lookup(m, p)
  {
    assert TableOk(m, owner, f);
    WalkPlaces(m, owner, p);
    var e4 := EntryAt(m, p.root, p.i);
    HungAt(m, f, x, c, e, p.root, p.i);
    HungAt(m, f, x, c, e, e4.addr, p.j);
    HungAt(m, f, x, c, e, EntryAt(m, e4.addr, p.j).addr, p.k);
    HungAt(m, f, x, c, e, c, p.j);
    HungAt(m, f, x, c, e, c, p.k);
  }

  // ---- Attribute stores in upper tables ---------------------------------------------------------------

  /** A store that keeps the link of an upper entry changes no walk's leaf. */
  lemma {:induction false} RelinkedTables(m: Memory, owner: Owner, f: int, x: int, e: Entry)
    requires Tables(m, owner) && f in owner && 0 <= x < ENTRIES
    requires EntryAt(m, f, x).present == e.present && EntryAt(m, f, x).addr == e.addr
    ensures TableOk(m, owner, f) && Tables(Store(m, f, x, e), owner)
  {
    assert TableOk(m, owner, f);
    var m' := Store(m, f, x, e);
    forall g | g in owner ensures TableOk(m', owner, g) {
      assert TableOk(m, owner, g);
      match owner[g].node
      case Root =>
        forall i | 0 <= i < USER_ENTRIES ensures ChildOk(owner, m'[g].entries[i], Place(g, Pdp(i))) {
          assert ChildOk(owner, m[g].entries[i], Place(g, Pdp(i)));
        }
      case Pdp(i) =>
        forall j | 0 <= j < ENTRIES ensures ChildOk(owner, m'[g].entries[j], Place(owner[g].root, Pd(i, j))) {
          assert ChildOk(owner, m[g].entries[j], Place(owner[g].root, Pd(i, j)));
        }
      case Pd(_, _) =>
    }
  }

  lemma {:induction false} RelinkedLookup(m: Memory, owner: Owner, f: int, x: int, e: Entry, p: Page)
    requires Tables(m, owner) && f in owner && !owner[f].node.Pd? && 0 <= x < ENTRIES
    requires EntryAt(m, f, x).present == e.present && EntryAt(m, f, x).addr == e.addr
    requires IsSpace(owner, p.root) && UserPage(p)
    ensures TableOk(m, owner, f) && Lookup(Store(m, f, x, e), p) == Lookup(m, p)
  {
    assert TableOk(m, owner, f);
    WalkPlaces(m, owner, p);
    var e4 := EntryAt(m, p.root, p.i);
    StoreAt(m, f, x, e, p.root, p.i);
    StoreAt(m, f, x, e, e4.addr, p.j);
    StoreAt(m, f, x, e, EntryAt(m, e4.addr, p.j).addr, p.k);
  }
}
