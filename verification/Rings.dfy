/** Circular doubly linked lists in a memory of links: the shape shared by the kernel's
    intrusive lists (`kernel/k_list.h`) and by the small bins of `osrt/c/dlmalloc.c`. */
module Rings {
  datatype Link = Link(prev: int, next: int)
  type Links = map<int, Link>

  function After(j: int, n: int): int {
    if j + 1 == n then 0 else j + 1
  }

  function Before(j: int, n: int): int {
    if j == 0 then n - 1 else j - 1
  }

  ghost predicate Distinct(r: seq<int>) {
    forall i, j {:trigger r[i], r[j]} :: 0 <= i < |r| && 0 <= j < |r| && r[i] == r[j] ==> i == j
  }

  /** The node of rank `j` points at its two neighbours. */
  ghost predicate LinkedAt(m: Links, r: seq<int>, j: int)
    requires 0 <= j < |r|
  {
    r[j] in m && m[r[j]].next == r[After(j, |r|)] && m[r[j]].prev == r[Before(j, |r|)]
  }

  /** The nodes of `r`, in this order, are a circular list. */
  ghost predicate Ring(m: Links, r: seq<int>) {
    |r| > 0 && Distinct(r) && forall j :: 0 <= j < |r| ==> LinkedAt(m, r, j)
  }

  lemma {:induction false} NeighboursIn(m: Links, r: seq<int>, k: nat)
    requires Ring(m, r) && k < |r|
    ensures r[k] in m && m[r[k]].prev in m && m[r[k]].next in m
    ensures m[r[k]].prev == r[Before(k, |r|)] && m[r[k]].next == r[After(k, |r|)]
  {
    assert LinkedAt(m, r, k) && LinkedAt(m, r, Before(k, |r|)) && LinkedAt(m, r, After(k, |r|));
  }

  /** The two rings share no node. */
  ghost predicate Apart(r: seq<int>, s: seq<int>) {
    forall i, j {:trigger r[i], s[j]} :: 0 <= i < |r| && 0 <= j < |s| ==> r[i] != s[j]
  }

  // ---- Insertion ------------------------------------------------------------------------

  /** `list_insert(x, a)`: the four stores of an insertion of `x` behind `a`. */
  function InsertMem(m: Links, x: int, a: int): Links
    requires a in m && m[a].next in m
  {
    var n := m[a].next;
    var m1 := m[x := Link(a, n)];
    var m2 := m1[a := m1[a].(next := x)];
    m2[n := m2[n].(prev := x)]
  }

  function Inserted(r: seq<int>, k: int, x: int): seq<int>
    requires 0 <= k < |r|
  {
    r[..k + 1] + [x] + r[k + 1..]
  }

  lemma {:induction false} InsertedAt(r: seq<int>, k: int, x: int, j: int)
    requires 0 <= k < |r| && 0 <= j <= |r|
    ensures |Inserted(r, k, x)| == |r| + 1
    ensures Inserted(r, k, x)[j] == if j <= k then r[j] else if j == k + 1 then x else r[j - 1]
  {}

  lemma {:induction false} InsertMemAt(m: Links, x: int, a: int, y: int)
    requires a in m && m[a].next in m && x !in {a, m[a].next} && (y in m || y == x)
    ensures var m' := InsertMem(m, x, a);
            && y in m'
            && m'[y].next == (if y == x then m[a].next else if y == a then x else m[y].next)
            && m'[y].prev == (if y == x then a else if y == m[a].next then x else m[y].prev)
  {}

  lemma {:induction false} InsertRing(m: Links, r: seq<int>, k: nat, x: int)
    requires Ring(m, r) && k < |r| && x !in r
    ensures r[k] in m && m[r[k]].next in m && Ring(InsertMem(m, x, r[k]), Inserted(r, k, x))
  {
    hide InsertMem, Inserted, Distinct;
    NeighboursIn(m, r, k);
    var m', r' := InsertMem(m, x, r[k]), Inserted(r, k, x);
    InsertedAt(r, k, x, 0);
    InsertDistinct(r, k, x);
    forall j | 0 <= j < |r'|
      ensures LinkedAt(m', r', j)
    {
      InsertLink(m, r, k, x, j);
    }
  }

  lemma {:induction false} InsertDistinct(r: seq<int>, k: nat, x: int)
    requires Distinct(r) && k < |r| && x !in r
    ensures Distinct(Inserted(r, k, x))
  {
    hide Inserted;
    var r' := Inserted(r, k, x);
    InsertedAt(r, k, x, 0);
    forall i, j | 0 <= i < |r'| && 0 <= j < |r'| && r'[i] == r'[j] ensures i == j {
      InsertedAt(r, k, x, i);
      InsertedAt(r, k, x, j);
    }
  }

  lemma {:induction false} InsertLink(m: Links, r: seq<int>, k: nat, x: int, j: nat)
    requires Ring(m, r) && k < |r| && x !in r && j <= |r| && r[k] in m && m[r[k]].next in m
    ensures var m', r' := InsertMem(m, x, r[k]), Inserted(r, k, x);
            |r'| == |r| + 1 && LinkedAt(m', r', j)
  {
    hide Inserted, InsertMem, Ring;
    NeighboursIn(m, r, k);
    var i := if j <= k then j else j - 1;
    NeighboursIn(m, r, i);
    InsertedAt(r, k, x, j);
    InsertedAt(r, k, x, After(j, |r| + 1));
    InsertedAt(r, k, x, Before(j, |r| + 1));
    InsertMemAt(m, x, r[k], if j == k + 1 then x else r[i]);
    SameNode(m, r, i, k);
    SameNode(m, r, i, After(k, |r|));
  }

  lemma {:induction false} SameNode(m: Links, r: seq<int>, i: nat, j: nat)
    requires Ring(m, r) && i < |r| && j < |r|
    ensures r[i] == r[j] <==> i == j
  {}

  /** No other list notices. */
  lemma {:induction false} InsertApart(m: Links, r: seq<int>, k: nat, x: int, s: seq<int>)
    requires Ring(m, r) && k < |r| && Ring(m, s) && Apart(r, s) && x !in s
    ensures r[k] in m && m[r[k]].next in m && Ring(InsertMem(m, x, r[k]), s)
  {
    NeighboursIn(m, r, k);
    forall j | 0 <= j < |s| ensures LinkedAt(InsertMem(m, x, r[k]), s, j) {
      assert LinkedAt(m, s, j);
      assert s[j] != r[k] && s[j] != r[After(k, |r|)];
    }
  }

  // ---- Removal ----------------------------------------------------------------------------

  /** The neighbours of `x` point at each other. */
  function RemoveMem(m: Links, x: int): Links
    requires x in m && m[x].prev in m && m[x].next in m
  {
    var p, n := m[x].prev, m[x].next;
    var m1 := m[p := m[p].(next := n)];
    m1[n := m1[n].(prev := p)]
  }

  function Removed(r: seq<int>, k: int): seq<int>
    requires 0 <= k < |r|
  {
    r[..k] + r[k + 1..]
  }

  lemma {:induction false} RemovedAt(r: seq<int>, k: int, j: int)
    requires 0 <= k < |r| && 0 <= j < |r| - 1
    ensures |Removed(r, k)| == |r| - 1
    ensures Removed(r, k)[j] == if j < k then r[j] else r[j + 1]
  {}

  lemma {:induction false} RemoveMemAt(m: Links, x: int, y: int)
    requires x in m && m[x].prev in m && m[x].next in m && y in m
    ensures var m' := RemoveMem(m, x);
            && y in m'
            && m'[y].next == (if y == m[x].prev then m[x].next else m[y].next)
            && m'[y].prev == (if y == m[x].next then m[x].prev else m[y].prev)
  {}

  lemma {:induction false} RemoveRing(m: Links, r: seq<int>, k: nat)
    requires Ring(m, r) && k < |r| && |r| > 1
    ensures r[k] in m && m[r[k]].prev in m && m[r[k]].next in m
    ensures Ring(RemoveMem(m, r[k]), Removed(r, k))
  {
    hide RemoveMem, Removed, Distinct;
    NeighboursIn(m, r, k);
    var m', r' := RemoveMem(m, r[k]), Removed(r, k);
    RemovedAt(r, k, 0);
    RemoveDistinct(r, k);
    forall j | 0 <= j < |r'|
      ensures LinkedAt(m', r', j)
    {
      RemoveLink(m, r, k, j);
    }
  }

  lemma {:induction false} RemoveDistinct(r: seq<int>, k: nat)
    requires Distinct(r) && k < |r| && |r| > 1
    ensures Distinct(Removed(r, k))
  {
    hide Removed;
    var r' := Removed(r, k);
    RemovedAt(r, k, 0);
    forall i, j | 0 <= i < |r'| && 0 <= j < |r'| && r'[i] == r'[j] ensures i == j {
      RemovedAt(r, k, i);
      RemovedAt(r, k, j);
    }
  }

  lemma {:induction false} RemoveLink(m: Links, r: seq<int>, k: nat, j: nat)
    requires Ring(m, r) && k < |r| && j < |r| - 1
    requires r[k] in m && m[r[k]].prev in m && m[r[k]].next in m
    ensures var m', r' := RemoveMem(m, r[k]), Removed(r, k);
            |r'| == |r| - 1 && LinkedAt(m', r', j)
  {
    hide Removed, RemoveMem, Ring;
    var i := if j < k then j else j + 1;
    NeighboursIn(m, r, k);
    NeighboursIn(m, r, i);
    RemovedAt(r, k, j);
    RemovedAt(r, k, After(j, |r| - 1));
    RemovedAt(r, k, Before(j, |r| - 1));
    RemoveMemAt(m, r[k], r[i]);
    SameNode(m, r, i, Before(k, |r|));
    SameNode(m, r, i, After(k, |r|));
  }

  lemma {:induction false} RemoveApart(m: Links, r: seq<int>, k: nat, s: seq<int>)
    requires Ring(m, r) && k < |r| && Ring(m, s) && Apart(r, s)
    ensures r[k] in m && m[r[k]].prev in m && m[r[k]].next in m
    ensures Ring(RemoveMem(m, r[k]), s)
  {
    NeighboursIn(m, r, k);
    forall j | 0 <= j < |s| ensures LinkedAt(RemoveMem(m, r[k]), s, j) {
      assert LinkedAt(m, s, j);
      assert s[j] != r[Before(k, |r|)] && s[j] != r[After(k, |r|)];
    }
  }

  /** Taking `x` out of the place where it was put gives the list back. */
  lemma {:induction false} RemoveUndoesInsert(r: seq<int>, k: nat, x: int)
    requires k < |r|
    ensures Removed(Inserted(r, k, x), k + 1) == r
  {
    assert r == r[..k + 1] + r[k + 1..];
  }
}
