/** The small bins of `osrt/c/dlmalloc.c`: one circular list per size below 256, with its header
    in the allocator's own state, and a map of the non-empty ones. */
module SmallBins {
  import opened Words
  import opened BitMaps
  import opened Rings

  const NSMALLBINS: nat := 32
  const MIN_CHUNK_SIZE: nat := 32
  const SMALL_LIMIT: nat := 256

  /** `smallbin_at(M, i)`: headers are not in the heap, so here their addresses are negative. */
  function BinAt(i: int): int {
    -1 - i
  }

  /** `small_index(s)`. */
  function SmallIndex(s: nat): nat {
    s / 8
  }

  /** Header and members of every list, and the list that each member is on. */
  datatype Lists = Lists(ring: seq<seq<int>>, owner: map<int, int>)

  // ---- The map scan of `dlmalloc` (osrt/c/dlmalloc.c:4579-4601) ----------------------------------

  /** `x >> n`. */
  function Shr(x: nat, n: nat): nat {
    if n == 0 then x else Shr(x / 2, n - 1)
  }

  /** `x << n`, where no bit is lost. */
  function Raise(x: nat, n: nat): nat {
    if n == 0 then x else 2 * Raise(x, n - 1)
  }

  lemma {:induction false} ShrBit(x: nat, n: nat, j: nat)
    ensures BitAt(Shr(x, n), j) <==> BitAt(x, n + j)
  {
    if n != 0 { ShrBit(x / 2, n - 1, j); }
  }

  lemma {:induction false} RaiseBit(x: nat, n: nat, j: nat)
    ensures BitAt(Raise(x, n), j) <==> n <= j && BitAt(x, j - n)
  {
    if n != 0 && j != 0 { RaiseBit(x, n - 1, j - 1); }
  }

  lemma {:induction false} RaiseShr(x: nat, n: nat)
    ensures Raise(Shr(x, n), n) <= x
  {
    if n != 0 { RaiseShr(x / 2, n - 1); }
  }

  /** `smallbits & 0x3`: this bin or the next one is marked. */
  lemma {:induction false} RemainderlessBits(map_: nat, i: nat)
    ensures And(Shr(map_, i), 3) != 0 <==> BitAt(map_, i) || BitAt(map_, i + 1)
  {
    var x := Shr(map_, i);
    ShrBit(map_, i, 0);
    ShrBit(map_, i, 1);
    assert BitAt(x, 1) <==> (x / 2) % 2 == 1;
    assert And(x / 2, 1) == (x / 2) % 2 + 2 * And(x / 2 / 2, 0);
    assert And(x, 3) == if x == 0 then 0 else x % 2 + 2 * And(x / 2, 1);
  }

  /** `(smallbits << idx) & left_bits(idx2bit(idx))`. */
  function LeftSmallBits(map_: nat, i: nat): nat
    requires i < MAP_BITS
  {
    Idx2BitRange(i, MAP_BITS);
    And(Raise(Shr(map_, i), i), LeftBits(Idx2Bit(i), MAP_BITS))
  }

  lemma {:induction false} LeftSmallBit(map_: nat, i: nat, j: nat)
    requires i < MAP_BITS && map_ < MAP
    ensures BitAt(LeftSmallBits(map_, i), j) <==> i < j && BitAt(map_, j)
  {
    Idx2BitRange(i, MAP_BITS);
    Pow2Values();
    AndBit(Raise(Shr(map_, i), i), LeftBits(Idx2Bit(i), MAP_BITS), j);
    LeftBitsBit(i, MAP_BITS, j);
    RaiseBit(Shr(map_, i), i, j);
    if i <= j { ShrBit(map_, i, j - i); }
    if j >= MAP_BITS { HighBits(map_, MAP_BITS, j); }
  }

  lemma {:induction false} SomeBit(x: nat) returns (j: nat)
    requires x != 0
    ensures BitAt(x, j)
  {
    if x % 2 == 1 {
      j := 0;
    } else {
      var k := SomeBit(x / 2);
      j := k + 1;
    }
  }

  /** If some bin at or above `i` is marked, but neither `i` nor the next, the scan finds the first. */
  lemma {:induction false} NextSmallBin(map_: nat, i: nat)
    requires i < MAP_BITS && map_ < MAP
    requires Shr(map_, i) != 0 && !BitAt(map_, i)
    ensures 0 < LeftSmallBits(map_, i) < MAP == Pow2(MAP_BITS)
    ensures var least := LeastBit(LeftSmallBits(map_, i), MAP_BITS);
            && least != 0
            && i < Bit2Idx(least) < MAP_BITS && BitAt(map_, Bit2Idx(least))
            && forall j :: i < j < Bit2Idx(least) ==> !BitAt(map_, j)
  {
    Pow2Values();
    var x := LeftSmallBits(map_, i);
    AndRange(Raise(Shr(map_, i), i), LeftBits(Idx2Bit(i), MAP_BITS));
    RaiseShr(map_, i);
    var b := SomeBit(Shr(map_, i));
    ShrBit(map_, i, b);
    LeftSmallBit(map_, i, i + b);
    ZeroBit(i + b);
    FirstSetBit(x);
    var k := Bit2Idx(LeastBit(x, MAP_BITS));
    LeftSmallBit(map_, i, k);
    forall j | i < j < k ensures !BitAt(map_, j) {
      LeftSmallBit(map_, i, j);
    }
  }

  // ---- The lists -----------------------------------------------------------------------------------

  /** List `i` starts at its header; it is circular, and its map bit set, unless it is empty. */
  ghost predicate BinOk(m: Links, smallmap: nat, g: Lists, i: int)
    requires 0 <= i < |g.ring|
  {
    var r := g.ring[i];
    && |r| > 0 && r[0] == BinAt(i) && r[0] in m
    && (forall j :: 1 <= j < |r| ==> MemberOk(g, i, j))
    && (BitAt(smallmap, i) <==> |r| > 1)
    && (|r| > 1 ==> Ring(m, r))
  }

  ghost predicate MemberOk(g: Lists, i: int, j: int)
    requires 0 <= i < |g.ring| && 0 <= j < |g.ring[i]|
  {
    g.ring[i][j] > 0 && g.ring[i][j] in g.owner && g.owner[g.ring[i][j]] == i
  }

  ghost predicate OwnerOk(g: Lists, a: int)
    requires a in g.owner
  {
    a > 0 && 0 <= g.owner[a] < |g.ring| && a in g.ring[g.owner[a]]
  }

  ghost predicate Inv(m: Links, smallmap: nat, g: Lists) {
    && |g.ring| == NSMALLBINS && smallmap < MAP
    && (forall i :: 0 <= i < NSMALLBINS ==> BinOk(m, smallmap, g, i))
    && (forall a :: a in g.owner ==> OwnerOk(g, a))
  }

  /** The binned chunks with their sizes: all chunks of list `i` have size `small_index2size(i)`. */
  ghost function SizesOf(g: Lists): map<int, int> {
    map a | a in g.owner :: 8 * g.owner[a]
  }

  lemma {:induction false} MapInRange(m: Links, smallmap: nat, g: Lists)
    requires Inv(m, smallmap, g)
    ensures smallmap < MAP
  {}

  /** Where a binned chunk stands in its list. */
  lemma {:induction false} RankOf(m: Links, smallmap: nat, g: Lists, a: int) returns (i: nat, k: nat)
    requires Inv(m, smallmap, g) && a in g.owner
    ensures i < NSMALLBINS && i == g.owner[a] && 1 <= k < |g.ring[i]| && g.ring[i][k] == a
    ensures BinOk(m, smallmap, g, i) && Ring(m, g.ring[i])
  {
    assert OwnerOk(g, a);
    i := g.owner[a];
    assert BinOk(m, smallmap, g, i);
    k :| 0 <= k < |g.ring[i]| && g.ring[i][k] == a;
  }

  /** A bin is marked just when it holds a chunk. */
  lemma {:induction false} MarkedIff(m: Links, smallmap: nat, g: Lists, i: nat)
    requires Inv(m, smallmap, g) && i < NSMALLBINS
    ensures BitAt(smallmap, i) <==> exists a :: a in g.owner && g.owner[a] == i
  {
    hide BitAt;
    assert BinOk(m, smallmap, g, i);
    if BitAt(smallmap, i) { assert MemberOk(g, i, 1); }
    if a :| a in g.owner && g.owner[a] == i { var _, _ := RankOf(m, smallmap, g, a); }
  }

  /** The bits from `i` on are clear just when all chunks are smaller than those of bin `i`. */
  lemma {:induction false} NoneFrom(m: Links, smallmap: nat, g: Lists, i: nat)
    requires Inv(m, smallmap, g) && i < NSMALLBINS
    ensures Shr(smallmap, i) == 0 <==> forall a :: a in SizesOf(g) ==> SizesOf(g)[a] < 8 * i
  {
    hide BitAt, Inv;
    if Shr(smallmap, i) == 0 {
      forall a | a in SizesOf(g) ensures SizesOf(g)[a] < 8 * i {
        var j, _ := RankOf(m, smallmap, g, a);
        if i <= j {
          ShrBit(smallmap, i, j - i);
          ZeroBit(j - i);
        }
      }
    } else {
      var b := SomeBit(Shr(smallmap, i));
      ShrBit(smallmap, i, b);
      MapInRange(m, smallmap, g);
      Pow2Values();
      if i + b >= MAP_BITS { HighBits(smallmap, MAP_BITS, i + b); }
      MarkedIff(m, smallmap, g, i + b);
      var a :| a in g.owner && g.owner[a] == i + b;
      assert SizesOf(g)[a] >= 8 * i;
    }
  }

  /** If the bins from `i` to `j` are not marked, a chunk that fits bin `i` fits bin `j`. */
  lemma {:induction false} LeastFrom(m: Links, smallmap: nat, g: Lists, i: nat, j: nat)
    requires Inv(m, smallmap, g) && forall k :: i <= k < j ==> !BitAt(smallmap, k)
    ensures forall a :: a in SizesOf(g) && SizesOf(g)[a] >= 8 * i ==> SizesOf(g)[a] >= 8 * j
  {
    hide BitAt, Inv;
    forall a | a in SizesOf(g) && SizesOf(g)[a] >= 8 * i ensures SizesOf(g)[a] >= 8 * j {
      var _, _ := RankOf(m, smallmap, g, a);
    }
  }

  lemma {:induction false} ListsApart(m: Links, smallmap: nat, g: Lists, i: int, j: int)
    requires Inv(m, smallmap, g) && 0 <= i < NSMALLBINS && 0 <= j < NSMALLBINS && i != j
    ensures Apart(g.ring[i], g.ring[j])
  {
    assert BinOk(m, smallmap, g, i) && BinOk(m, smallmap, g, j);
    forall k, l | 0 <= k < |g.ring[i]| && 0 <= l < |g.ring[j]| ensures g.ring[i][k] != g.ring[j][l] {
      if k > 0 { assert MemberOk(g, i, k); }
      if l > 0 { assert MemberOk(g, j, l); }
    }
  }

  // ---- insert_small_chunk -----------------------------------------------------------------------

  ghost function Filed(g: Lists, i: int, p: int): Lists
    requires 0 <= i < |g.ring| && |g.ring[i]| > 0
  {
    Lists(g.ring[i := Inserted(g.ring[i], 0, p)], g.owner[p := i])
  }

  /** The header as the insertion sees it: a list without a map bit counts as empty. */
  function Opened(m: Links, i: int, marked: bool): Links {
    if marked then m else m[BinAt(i) := Link(BinAt(i), BinAt(i))]
  }

  ghost predicate Marked(smallmap: nat, smallmap': nat, i: int) {
    smallmap' < MAP && forall j :: 0 <= j < NSMALLBINS ==> (BitAt(smallmap', j) <==> i == j || BitAt(smallmap, j))
  }

  lemma {:induction false} OpenedRing(m: Links, smallmap: nat, g: Lists, i: int)
    requires 0 <= i < |g.ring| && BinOk(m, smallmap, g, i)
    ensures Ring(Opened(m, i, BitAt(smallmap, i)), g.ring[i])
  {
    if !BitAt(smallmap, i) {
      var m', r := Opened(m, i, false), g.ring[i];
      assert r == [BinAt(i)];
      assert LinkedAt(m', r, 0);
    }
  }

  lemma {:induction false} InsertOwn(m: Links, smallmap: nat, smallmap': nat, g: Lists, i: int, p: int)
    requires Inv(m, smallmap, g) && 0 <= i < NSMALLBINS && p > 0 && p !in g.owner
    requires Marked(smallmap, smallmap', i)
    ensures var m0 := Opened(m, i, BitAt(smallmap, i));
            && BinAt(i) in m0 && m0[BinAt(i)].next in m0
            && |g.ring[i]| > 0
            && BinOk(InsertMem(m0, p, BinAt(i)), smallmap', Filed(g, i, p), i)
  {
    assert BinOk(m, smallmap, g, i);
    var m0, r, g' := Opened(m, i, BitAt(smallmap, i)), g.ring[i], Filed(g, i, p);
    OpenedRing(m, smallmap, g, i);
    forall j | 0 <= j < |r| ensures r[j] != p { if j > 0 { assert MemberOk(g, i, j); } }
    InsertRing(m0, r, 0, p);
    InsertedAt(r, 0, p, 0);
    assert LinkedAt(InsertMem(m0, p, r[0]), g'.ring[i], 0);
    forall j | 1 <= j < |g'.ring[i]| ensures MemberOk(g', i, j) {
      InsertedAt(r, 0, p, j);
      if j > 1 { assert MemberOk(g, i, j - 1); }
    }
  }

  lemma {:induction false} InsertOther(m: Links, smallmap: nat, smallmap': nat, g: Lists, i: int, p: int, j: int)
    requires Inv(m, smallmap, g) && 0 <= i < NSMALLBINS && p > 0 && p !in g.owner
    requires Marked(smallmap, smallmap', i) && 0 <= j < NSMALLBINS && i != j
    requires var m0 := Opened(m, i, BitAt(smallmap, i)); BinAt(i) in m0 && m0[BinAt(i)].next in m0
    requires |g.ring[i]| > 0
    ensures BinOk(InsertMem(Opened(m, i, BitAt(smallmap, i)), p, BinAt(i)), smallmap', Filed(g, i, p), j)
  {
    assert BinOk(m, smallmap, g, i) && BinOk(m, smallmap, g, j);
    var m0, r, s := Opened(m, i, BitAt(smallmap, i)), g.ring[i], g.ring[j];
    OpenedRing(m, smallmap, g, i);
    ListsApart(m, smallmap, g, i, j);
    forall l | 0 <= l < |s| ensures s[l] != p && s[l] != BinAt(i) { if l > 0 { assert MemberOk(g, j, l); } }
    forall l | 1 <= l < |s| ensures MemberOk(Filed(g, i, p), j, l) { assert MemberOk(g, j, l); }
    if |s| > 1 {
      forall l | 0 <= l < |s| ensures LinkedAt(m0, s, l) { assert LinkedAt(m, s, l); }
      InsertApart(m0, r, 0, p, s);
    }
  }

  lemma {:induction false} InsertKeeps(m: Links, smallmap: nat, smallmap': nat, g: Lists, i: int, p: int)
    requires Inv(m, smallmap, g) && 0 <= i < NSMALLBINS && p > 0 && p !in g.owner
    requires Marked(smallmap, smallmap', i)
    ensures var m0 := Opened(m, i, BitAt(smallmap, i));
            && BinAt(i) in m0 && m0[BinAt(i)].next in m0 && |g.ring[i]| > 0
            && Inv(InsertMem(m0, p, BinAt(i)), smallmap', Filed(g, i, p))
            && SizesOf(Filed(g, i, p)) == SizesOf(g)[p := 8 * i]
  {
    hide BinOk, Ring, InsertMem, Opened;
    InsertOwn(m, smallmap, smallmap', g, i, p);
    forall j | 0 <= j < NSMALLBINS && j != i
      ensures BinOk(InsertMem(Opened(m, i, BitAt(smallmap, i)), p, BinAt(i)), smallmap', Filed(g, i, p), j)
    {
      InsertOther(m, smallmap, smallmap', g, i, p, j);
    }
    forall a | a in Filed(g, i, p).owner ensures OwnerOk(Filed(g, i, p), a) {
      FiledOwner(g, i, p, a);
    }
  }

  lemma {:induction false} FiledOwner(g: Lists, i: int, p: int, a: int)
    requires 0 <= i < |g.ring| && |g.ring[i]| > 0 && p > 0
    requires a in g.owner || a == p
    requires a in g.owner ==> OwnerOk(g, a)
    ensures OwnerOk(Filed(g, i, p), a)
  {
    var r := g.ring[i];
    if a == p {
      InsertedAt(r, 0, p, 1);
    } else if g.owner[a] == i {
      var k :| 0 <= k < |r| && r[k] == a;
      InsertedAt(r, 0, p, if k == 0 then 0 else k + 1);
    }
  }

  // ---- unlink_small_chunk -----------------------------------------------------------------------

  ghost function Taken(g: Lists, i: int, k: int): Lists
    requires 0 <= i < |g.ring| && 0 <= k < |g.ring[i]|
  {
    Lists(g.ring[i := Removed(g.ring[i], k)], g.owner - {g.ring[i][k]})
  }

  ghost predicate Cleared(smallmap: nat, smallmap': nat, i: int, last: bool) {
    && smallmap' < MAP
    && forall j :: 0 <= j < NSMALLBINS ==> (BitAt(smallmap', j) <==> (i != j || !last) && BitAt(smallmap, j))
  }

  /** The links after the removal: those of the last member's neighbours are left as they are. */
  function UnlinkMem(m: Links, p: int): Links
    requires p in m && m[p].prev in m && m[p].next in m
  {
    if m[p].prev == m[p].next then m else RemoveMem(m, p)
  }

  /** Both neighbours of a member are the same node only in a list of one member. */
  lemma {:induction false} LastMember(m: Links, r: seq<int>, k: nat)
    requires Ring(m, r) && 1 <= k < |r|
    ensures r[k] in m && m[r[k]].prev in m && m[r[k]].next in m
    ensures m[r[k]].prev == m[r[k]].next <==> |r| == 2
  {
    NeighboursIn(m, r, k);
    SameNode(m, r, Before(k, |r|), After(k, |r|));
  }

  lemma {:induction false} UnlinkOwn(m: Links, smallmap: nat, smallmap': nat, g: Lists, i: int, k: nat)
    requires 0 <= i < |g.ring| <= NSMALLBINS && BinOk(m, smallmap, g, i) && 1 <= k < |g.ring[i]|
    requires Cleared(smallmap, smallmap', i, |g.ring[i]| == 2)
    ensures var p := g.ring[i][k];
            && p in m && m[p].prev in m && m[p].next in m
            && BinOk(UnlinkMem(m, p), smallmap', Taken(g, i, k), i)
  {
    var r := g.ring[i];
    LastMember(m, r, k);
    RemoveRing(m, r, k);
    RemovedAt(r, k, 0);
    var g' := Taken(g, i, k);
    forall j | 1 <= j < |g'.ring[i]| ensures MemberOk(g', i, j) {
      RemovedAt(r, k, j);
      var j' := if j < k then j else j + 1;
      assert MemberOk(g, i, j');
      SameNode(m, r, j', k);
    }
    if |r| > 2 { assert LinkedAt(RemoveMem(m, r[k]), g'.ring[i], 0); }
  }

  lemma {:induction false} UnlinkOther(m: Links, smallmap: nat, smallmap': nat, g: Lists, i: int, k: nat, j: int)
    requires Inv(m, smallmap, g) && 0 <= i < NSMALLBINS && 1 <= k < |g.ring[i]|
    requires Cleared(smallmap, smallmap', i, |g.ring[i]| == 2) && 0 <= j < NSMALLBINS && i != j
    requires var p := g.ring[i][k]; p in m && m[p].prev in m && m[p].next in m
    ensures BinOk(UnlinkMem(m, g.ring[i][k]), smallmap', Taken(g, i, k), j)
  {
    assert BinOk(m, smallmap, g, i) && BinOk(m, smallmap, g, j);
    var r, s := g.ring[i], g.ring[j];
    ListsApart(m, smallmap, g, i, j);
    forall l | 1 <= l < |s| ensures MemberOk(Taken(g, i, k), j, l) {
      assert MemberOk(g, j, l) && MemberOk(g, i, k);
    }
    if |s| > 1 { RemoveApart(m, r, k, s); }
  }

  lemma {:induction false} UnlinkKeeps(m: Links, smallmap: nat, smallmap': nat, g: Lists, i: int, k: nat)
    requires Inv(m, smallmap, g) && 0 <= i < NSMALLBINS && 1 <= k < |g.ring[i]|
    requires Cleared(smallmap, smallmap', i, |g.ring[i]| == 2)
    ensures var p := g.ring[i][k];
            && p in m && m[p].prev in m && m[p].next in m
            && Inv(UnlinkMem(m, p), smallmap', Taken(g, i, k))
            && SizesOf(Taken(g, i, k)) == SizesOf(g) - {p}
  {
    hide BinOk, Ring, UnlinkMem;
    assert BinOk(m, smallmap, g, i);
    UnlinkOwn(m, smallmap, smallmap', g, i, k);
    forall j | 0 <= j < NSMALLBINS && j != i
      ensures BinOk(UnlinkMem(m, g.ring[i][k]), smallmap', Taken(g, i, k), j)
    {
      UnlinkOther(m, smallmap, smallmap', g, i, k, j);
    }
    forall a | a in Taken(g, i, k).owner ensures OwnerOk(Taken(g, i, k), a) {
      TakenOwner(g, i, k, a);
    }
  }

  lemma {:induction false} TakenOwner(g: Lists, i: int, k: nat, a: int)
    requires 0 <= i < |g.ring| && k < |g.ring[i]| && a in g.owner && a != g.ring[i][k] && OwnerOk(g, a)
    ensures OwnerOk(Taken(g, i, k), a)
  {
    var r := g.ring[i];
    if g.owner[a] == i {
      var j :| 0 <= j < |r| && r[j] == a;
      RemovedAt(r, k, if j < k then j else j - 1);
    }
  }

  lemma {:induction false} MarksMap(smallmap: nat, i: nat)
    requires smallmap < MAP && i < NSMALLBINS
    ensures Marked(smallmap, Or(smallmap, Idx2Bit(i)), i)
    ensures BitAt(smallmap, i) ==> Marked(smallmap, smallmap, i)
  {
    Pow2Values();
    Idx2BitRange(i, MAP_BITS);
    OrRange(smallmap, Idx2Bit(i), MAP_BITS);
    forall j | 0 <= j < NSMALLBINS ensures BitAt(Or(smallmap, Idx2Bit(i)), j) <==> i == j || BitAt(smallmap, j) {
      MarkBit(smallmap, i, j);
    }
  }

  lemma {:induction false} ClearsMap(smallmap: nat, i: nat)
    requires smallmap < MAP && i < NSMALLBINS
    ensures Idx2Bit(i) < Pow2(MAP_BITS)
    ensures Cleared(smallmap, And(smallmap, Not(Idx2Bit(i), MAP_BITS)), i, true)
    ensures Cleared(smallmap, smallmap, i, false)
  {
    Pow2Values();
    Idx2BitRange(i, MAP_BITS);
    AndRange(smallmap, Not(Idx2Bit(i), MAP_BITS));
    forall j | 0 <= j < NSMALLBINS
      ensures BitAt(And(smallmap, Not(Idx2Bit(i), MAP_BITS)), j) <==> i != j && BitAt(smallmap, j)
    {
      ClearBit(smallmap, MAP_BITS, i, j);
    }
  }

  /** The order of the four stores of `insert_small_chunk` does not matter. */
  lemma {:induction false} InsertStores(m: Links, b: int, f: int, p: int)
    requires b in m && f in m && f == m[b].next && p !in {b, f}
    ensures var m1 := m[b := m[b].(next := p)];
            var m2 := m1[f := m1[f].(prev := p)];
            m2[p := Link(b, f)] == InsertMem(m, p, b)
  {
    var m1 := m[b := m[b].(next := p)];
    var m2 := m1[f := m1[f].(prev := p)];
    var m3 := m2[p := Link(b, f)];
    assert m3.Keys == InsertMem(m, p, b).Keys;
    assert forall a :: a in m3 ==> m3[a] == InsertMem(m, p, b)[a];
  }

  /** What the code may read of a list: its first member, and the neighbours of a member. */
  lemma {:induction false} HeaderReads(m: Links, smallmap: nat, g: Lists, i: nat)
    requires Inv(m, smallmap, g) && i < NSMALLBINS
    ensures BinAt(i) in m && BinOk(m, smallmap, g, i)
    ensures BitAt(smallmap, i) ==>
              |g.ring[i]| > 1 && m[BinAt(i)].next == g.ring[i][1] && g.ring[i][1] in m
              && m[g.ring[i][1]].prev == BinAt(i)
              && g.ring[i][1] in g.owner && g.owner[g.ring[i][1]] == i && g.ring[i][1] > 0
  {
    assert BinOk(m, smallmap, g, i);
    if BitAt(smallmap, i) {
      NeighboursIn(m, g.ring[i], 0);
      NeighboursIn(m, g.ring[i], 1);
      assert MemberOk(g, i, 1);
    }
  }

  /** The integrity tests of the unlinking code never fail. */
  lemma {:induction false} RingChecks(m: Links, r: seq<int>, k: nat)
    requires Ring(m, r) && 1 <= k < |r|
    ensures r[k] in m && m[r[k]].prev in m && m[r[k]].next in m
    ensures m[m[r[k]].next].prev == r[k] && m[m[r[k]].prev].next == r[k]
  {
    NeighboursIn(m, r, k);
    NeighboursIn(m, r, Before(k, |r|));
    NeighboursIn(m, r, After(k, |r|));
  }

  lemma {:induction false} MemberChecks(m: Links, smallmap: nat, g: Lists, i: int, k: nat)
    requires Inv(m, smallmap, g) && 0 <= i < NSMALLBINS && 1 <= k < |g.ring[i]|
    ensures var p := g.ring[i][k];
      && p in m && m[p].prev in m && m[p].next in m && m[m[p].next].prev == p && m[m[p].prev].next == p
      && (m[p].prev == m[p].next <==> |g.ring[i]| == 2)
  {
    hide Ring, MemberOk, BitAt;
    assert BinOk(m, smallmap, g, i);
    LastMember(m, g.ring[i], k);
    RingChecks(m, g.ring[i], k);
  }

  class Bins {
    var links: Links
    var smallmap: nat
    ghost var lists: Lists

    ghost predicate Valid()
      reads this
    {
      Inv(links, smallmap, lists)
    }

    /** The binned chunks and their sizes. */
    ghost function Contents(): map<int, int>
      reads this
    {
      SizesOf(lists)
    }

    /** `init_bins`. */
    constructor ()
      ensures Valid() && Contents() == map[]
    {
      var m: Links := map[];
      for i := 0 to NSMALLBINS
        invariant m.Keys == set j | 0 <= j < i :: BinAt(j)
      {
        m := m[BinAt(i) := Link(BinAt(i), BinAt(i))];
      }
      links, smallmap := m, 0;
      lists := Lists(seq(NSMALLBINS, i => [BinAt(i)]), map[]);
      new;
      forall i | 0 <= i < NSMALLBINS ensures BinOk(links, smallmap, lists, i) { ZeroBit(i); }
    }

    /** `insert_small_chunk(M, P, S)`. */
    method Insert(p: int, s: nat)
      requires Valid() && p > 0 && p !in Contents() && MIN_CHUNK_SIZE <= s < SMALL_LIMIT && s % 8 == 0
      modifies this
      ensures Valid() && Contents() == old(Contents())[p := s]
    {
      var i := SmallIndex(s);
      var b := BinAt(i);
      var f := b;
      ghost var m0 := Opened(links, i, BitAt(smallmap, i));
      HeaderReads(links, smallmap, lists, i);
      MarksMap(smallmap, i);
      ghost var smallmap0 := smallmap;
      if !BitAt(smallmap, i) {
        smallmap := Or(smallmap, Idx2Bit(i));
      } else {
        f := links[b].next;
      }
      InsertKeeps(links, smallmap0, smallmap, lists, i, p);
      InsertStores(m0, b, f, p);
      links := links[b := links[b].(next := p)];
      links := links[f := links[f].(prev := p)];
      links := links[p := Link(b, f)];
      lists := Filed(lists, i, p);
      assert links == InsertMem(m0, p, b);
    }

    /** `unlink_small_chunk(M, P, S)`. */
    method Unlink(p: int, s: nat)
      requires Valid() && p in Contents() && s == Contents()[p]
      modifies this
      ensures Valid() && Contents() == old(Contents()) - {p}
    {
      ghost var i, k := RankOf(links, smallmap, lists, p);
      NeighboursIn(links, lists.ring[i], k);
      TakeOut(p, SmallIndex(s), links[p].next, links[p].prev, k);
    }

    /** `unlink_first_small_chunk(M, B, P, I)`. */
    method UnlinkFirst(i: nat, p: int)
      requires Valid() && i < NSMALLBINS && BitAt(smallmap, i) && p == FirstOf(i)
      modifies this
      ensures Valid() && Contents() == old(Contents()) - {p}
    {
      HeaderReads(links, smallmap, lists, i);
      NeighboursIn(links, lists.ring[i], 1);
      TakeOut(p, i, links[p].next, BinAt(i), 1);
    }

    /** The common part of both: the neighbours `f` and `b` of `p` in list `i` are joined, unless
        they are one node, in which case only the map bit is cleared. */
    method TakeOut(p: int, i: nat, f: int, b: int, ghost k: nat)
      requires Valid() && i < NSMALLBINS && 1 <= k < |lists.ring[i]| && p == lists.ring[i][k]
      requires p in links && f == links[p].next && b == links[p].prev
      modifies this
      ensures Valid() && Contents() == old(Contents()) - {p}
    {
      hide Ring, Not, And, Idx2Bit, Pow2, BinOk, Cleared, Taken, SizesOf, BitAt;
      ghost var m, smallmap0 := links, smallmap;
      MemberChecks(links, smallmap, lists, i, k);
      ClearsMap(smallmap, i);
      assert links[f].prev == p && links[b].next == p;
      if b == f {
        smallmap := And(smallmap, Not(Idx2Bit(i), MAP_BITS));
      } else {
        links := links[f := links[f].(prev := b)];
        links := links[b := links[b].(next := f)];
      }
      UnlinkKeeps(m, smallmap0, smallmap, lists, i, k);
      assert links == UnlinkMem(m, p);
      lists := Taken(lists, i, k);
    }

    /** `smallbin_at(M, i)->fd` of a marked list. */
    ghost function FirstOf(i: nat): int
      requires Valid() && i < NSMALLBINS && BitAt(smallmap, i)
      reads this
    {
      HeaderReads(links, smallmap, lists, i);
      lists.ring[i][1]
    }

    method First(i: nat) returns (p: int)
      requires Valid() && i < NSMALLBINS && BitAt(smallmap, i)
      ensures p == FirstOf(i) && p in Contents() && Contents()[p] == 8 * i
    {
      HeaderReads(links, smallmap, lists, i);
      p := links[BinAt(i)].next;
    }
  }
}
