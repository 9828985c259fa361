/** The intrusive lists of `kernel/k_list.h`, and the two loops of the kernel that take nodes off a list while
    they walk it: waking the waiters of a futex and handing the children of a process to its parent. */
module KernelLists {
  import opened Rings

  /** `list_remove`: the neighbours of `x` are joined, and `x` is left pointing at itself. */
  function UnlinkMem(m: Links, x: int): Links
    requires x in m && m[x].prev in m && m[x].next in m
  {
    RemoveMem(m, x)[x := Link(x, x)]
  }

  lemma {:induction false} UnlinkMemAt(m: Links, r: seq<int>, k: nat, y: int)
    requires Ring(m, r) && k < |r| && y in m && r[k] in m && m[r[k]].prev in m && m[r[k]].next in m
    ensures y in UnlinkMem(m, r[k])
    ensures y != r[k] ==> UnlinkMem(m, r[k])[y] == RemoveMem(m, r[k])[y]
    ensures y !in r ==> UnlinkMem(m, r[k])[y] == m[y]
    ensures UnlinkMem(m, r[k])[r[k]] == Link(r[k], r[k])
  {
    NeighboursIn(m, r, k);
    assert r[Before(k, |r|)] in r && r[After(k, |r|)] in r;
  }

  /** The list closes behind the node, and the node is a list of its own. */
  lemma {:induction false} UnlinkRing(m: Links, r: seq<int>, k: nat)
    requires Ring(m, r) && k < |r|
    ensures r[k] in m && m[r[k]].prev in m && m[r[k]].next in m
    ensures Ring(UnlinkMem(m, r[k]), [r[k]])
    ensures |r| > 1 ==> Ring(UnlinkMem(m, r[k]), Removed(r, k))
  {
    hide RemoveMem;
    NeighboursIn(m, r, k);
    var m' := UnlinkMem(m, r[k]);
    assert LinkedAt(m', [r[k]], 0);
    if |r| > 1 {
      RemoveRing(m, r, k);
      RemovedAt(r, k, 0);
      forall j | 0 <= j < |r| - 1 ensures LinkedAt(m', Removed(r, k), j) {
        RemovedAt(r, k, j);
        SameNode(m, r, if j < k then j else j + 1, k);
        assert LinkedAt(RemoveMem(m, r[k]), Removed(r, k), j);
      }
    }
  }

  /** Node `y`, if it is one, is as it was. */
  ghost predicate Same(m: Links, m': Links, y: int) {
    y in m ==> y in m' && m'[y] == m[y]
  }

  /** Only nodes of `r` have changed. */
  ghost predicate Only(m: Links, m': Links, r: seq<int>) {
    forall y {:trigger Same(m, m', y)} :: y !in r ==> Same(m, m', y)
  }

  lemma {:induction false} OnlyThen(m0: Links, m: Links, m': Links, r: seq<int>, t: seq<int>)
    requires Only(m0, m, r) && Only(m, m', t) && forall y :: y in t ==> y in r
    ensures Only(m0, m', r)
  {
    forall y | y !in r ensures Same(m0, m', y) { assert Same(m0, m, y) && Same(m, m', y); }
  }

  /** A list that shares no node with `r` is left alone by whatever changes only nodes of `r`. */
  lemma {:induction false} OtherRing(m: Links, m': Links, r: seq<int>, s: seq<int>)
    requires Ring(m, s) && Apart(r, s) && Only(m, m', r)
    ensures Ring(m', s)
  {
    Disjoint(r, s);
    forall j | 0 <= j < |s| ensures LinkedAt(m', s, j) {
      assert LinkedAt(m, s, j);
      assert Same(m, m', s[j]);
    }
  }

  lemma {:induction false} Disjoint(r: seq<int>, s: seq<int>)
    ensures Apart(r, s) <==> forall x :: x in r ==> x !in s
  {
    if Apart(r, s) {
      forall x | x in r ensures x !in s {
        var i :| 0 <= i < |r| && r[i] == x;
        assert forall j :: 0 <= j < |s| ==> r[i] != s[j];
      }
    }
    if forall x :: x in r ==> x !in s {
      forall i, j | 0 <= i < |r| && 0 <= j < |s| ensures r[i] != s[j] { assert r[i] in r && s[j] in s; }
    }
  }

  // ---- Walking a list and taking nodes off it --------------------------------------------------------------

  /** What stays of `q` when the first `n` nodes in `match` are taken off. */
  function Kept(q: seq<int>, match_: set<int>, n: nat): seq<int> {
    if q == [] || n == 0 then q
    else if q[0] in match_ then Kept(q[1..], match_, n - 1)
    else [q[0]] + Kept(q[1..], match_, n)
  }

  function Taken(q: seq<int>, match_: set<int>, n: nat): seq<int> {
    if q == [] || n == 0 then []
    else if q[0] in match_ then [q[0]] + Taken(q[1..], match_, n - 1)
    else Taken(q[1..], match_, n)
  }

  /** Nothing is lost, nothing is taken that should not be, and nothing is left that could be taken. */
  lemma {:induction false} TakenExactly(q: seq<int>, match_: set<int>, n: nat)
    ensures multiset(Kept(q, match_, n)) + multiset(Taken(q, match_, n)) == multiset(q)
    ensures |Taken(q, match_, n)| <= n && (forall x :: x in Taken(q, match_, n) ==> x in match_)
    ensures |Taken(q, match_, n)| < n ==> forall x :: x in Kept(q, match_, n) ==> x !in match_
  {
    if q != [] && n > 0 {
      assert q == [q[0]] + q[1..];
      TakenExactly(q[1..], match_, if q[0] in match_ then n - 1 else n);
    }
  }

  /** A list in the middle of a walk: `front` is behind the walker, `q[i..]` is ahead. */
  function Walked(head: int, front: seq<int>, q: seq<int>, i: int): seq<int>
    requires 0 <= i <= |q|
  {
    [head] + front + q[i..]
  }

  /** The node the walker is at: the head when the list is done. */
  function Node(head: int, q: seq<int>, i: int): int
    requires 0 <= i <= |q|
  {
    if i < |q| then q[i] else head
  }

  lemma {:induction false} WalkNext(m: Links, head: int, front: seq<int>, q: seq<int>, i: nat)
    requires i <= |q| && Ring(m, Walked(head, front, q, i))
    ensures Node(head, q, i) in m && m[Node(head, q, i)].next in m
    ensures i < |q| ==> m[q[i]].next == Node(head, q, i + 1)
  {
    var r := Walked(head, front, q, i);
    var k := if i < |q| then 1 + |front| else 0;
    assert r[k] == Node(head, q, i);
    NeighboursIn(m, r, k);
    assert i + 1 < |q| ==> r[k + 1] == q[i + 1];
  }

  lemma {:induction false} WalkKeep(head: int, front: seq<int>, q: seq<int>, i: nat)
    requires i < |q|
    ensures Walked(head, front + [q[i]], q, i + 1) == Walked(head, front, q, i)
  {}

  lemma {:induction false} WalkTake(m: Links, head: int, front: seq<int>, q: seq<int>, i: nat)
    requires i < |q| && Ring(m, Walked(head, front, q, i))
    ensures q[i] in m && m[q[i]].prev in m && m[q[i]].next in m
    ensures Ring(UnlinkMem(m, q[i]), Walked(head, front, q, i + 1)) && Ring(UnlinkMem(m, q[i]), [q[i]])
    ensures Only(m, UnlinkMem(m, q[i]), Walked(head, front, q, i))
  {
    hide Ring, UnlinkMem;
    var r, k := Walked(head, front, q, i), 1 + |front|;
    assert r[k] == q[i];
    UnlinkRing(m, r, k);
    assert Removed(r, k) == Walked(head, front, q, i + 1);
    forall y | y !in r ensures Same(m, UnlinkMem(m, q[i]), y) {
      if y in m { UnlinkMemAt(m, r, k, y); }
    }
  }

  // ---- Waking --------------------------------------------------------------------------------------------------

  /** The nodes in `woken` were taken off, `n` more may be; `m0` is the memory before the loop. */
  ghost predicate Waking(m0: Links, m: Links, head: int, q: seq<int>, match_: set<int>, n0: nat, i: int,
      front: seq<int>, woken: seq<int>, n: nat)
  {
    && 0 <= i <= |q| && Ring(m, Walked(head, front, q, i)) && |woken| <= i
    && front + Kept(q[i..], match_, n) == Kept(q, match_, n0)
    && woken + Taken(q[i..], match_, n) == Taken(q, match_, n0)
    && (forall x :: x in front ==> x in q) && Only(m0, m, [head] + q)
    && (forall x :: x in woken ==> x !in Walked(head, front, q, i) && Alone(m, x))
  }

  ghost predicate Alone(m: Links, x: int) {
    x in m && m[x] == Link(x, x)
  }

  lemma {:induction false} WakingStart(m: Links, head: int, q: seq<int>, match_: set<int>, n: nat)
    requires Ring(m, [head] + q)
    ensures Waking(m, m, head, q, match_, n, 0, [], [], n)
    ensures head in m && m[head].next == Node(head, q, 0) && m[head].next in m
  {
    hide Ring, Kept, Taken;
    assert Walked(head, [], q, 0) == [head] + q && q[0..] == q;
    NeighboursIn(m, [head] + q, 0);
  }

  lemma {:induction false} WakingKeep(m0: Links, m: Links, head: int, q: seq<int>, match_: set<int>, n0: nat, i: int,
      front: seq<int>, woken: seq<int>, n: nat)
    requires Waking(m0, m, head, q, match_, n0, i, front, woken, n) && i < |q| && n > 0 && q[i] !in match_
    ensures Waking(m0, m, head, q, match_, n0, i + 1, front + [q[i]], woken, n)
  {
    hide Ring, Only, Walked, Alone;
    WalkKeep(head, front, q, i);
    assert q[i..][1..] == q[i + 1..];
    assert front + ([q[i]] + Kept(q[i + 1..], match_, n)) == front + [q[i]] + Kept(q[i + 1..], match_, n);
  }

  lemma {:induction false} WakingTake(m0: Links, m: Links, head: int, q: seq<int>, match_: set<int>, n0: nat, i: int,
      front: seq<int>, woken: seq<int>, n: nat)
    requires Waking(m0, m, head, q, match_, n0, i, front, woken, n) && i < |q| && n > 0 && q[i] in match_
    ensures q[i] in m && m[q[i]].prev in m && m[q[i]].next in m
    ensures Waking(m0, UnlinkMem(m, q[i]), head, q, match_, n0, i + 1, front, woken + [q[i]], n - 1)
  {
    hide Ring, UnlinkMem, Only;
    WalkTake(m, head, front, q, i);
    var m', r := UnlinkMem(m, q[i]), Walked(head, front, q, i);
    assert q[i..][1..] == q[i + 1..];
    assert woken + ([q[i]] + Taken(q[i + 1..], match_, n - 1)) == woken + [q[i]] + Taken(q[i + 1..], match_, n - 1);
    forall x | x in woken + [q[i]] ensures x !in Walked(head, front, q, i + 1) && Alone(m', x) {
      TakenOff(m, head, front, q, i, x);
    }
    OnlyThen(m0, m, m', [head] + q, r);
  }

  /** Neither the node just taken off nor those before it are on the list any more. */
  lemma {:induction false} TakenOff(m: Links, head: int, front: seq<int>, q: seq<int>, i: nat, x: int)
    requires i < |q| && Ring(m, Walked(head, front, q, i))
    requires x == q[i] || (x !in Walked(head, front, q, i) && Alone(m, x))
    requires q[i] in m && m[q[i]].prev in m && m[q[i]].next in m
    ensures x !in Walked(head, front, q, i + 1) && Alone(UnlinkMem(m, q[i]), x)
  {
    hide Ring, UnlinkMem;
    var r, k := Walked(head, front, q, i), 1 + |front|;
    assert r[k] == q[i];
    WalkTake(m, head, front, q, i);
    assert Removed(r, k) == Walked(head, front, q, i + 1);
    UnlinkMemAt(m, r, k, x);
    forall j | 0 <= j < |r| - 1 ensures Removed(r, k)[j] != q[i] {
      RemovedAt(r, k, j);
      SameNode(m, r, if j < k then j else j + 1, k);
    }
  }

  lemma {:induction false} WakingDone(m0: Links, m: Links, head: int, q: seq<int>, match_: set<int>, n0: nat, i: int,
      front: seq<int>, woken: seq<int>, n: nat)
    requires Waking(m0, m, head, q, match_, n0, i, front, woken, n) && (n == 0 || i == |q|)
    ensures Ring(m, [head] + Kept(q, match_, n0)) && woken == Taken(q, match_, n0) && Only(m0, m, [head] + q)
    ensures forall x :: x in woken ==> Alone(m, x)
  {
    hide Ring, Only, Alone;
    assert Walked(head, front, q, i) == [head] + (front + q[i..]);
  }

  lemma {:induction false} TakeStep(head: int, front: seq<int>, q: seq<int>, i: nat)
    requires i < |q|
    ensures Walked(head, front, q, i)[1 + |front|] == q[i]
  {}

  /** The walk is not back at the head before its end. */
  lemma {:induction false} NotYetHead(m: Links, head: int, front: seq<int>, q: seq<int>, i: nat)
    requires i <= |q| && Ring(m, Walked(head, front, q, i))
    ensures Node(head, q, i) == head <==> i == |q|
  {
    var r := Walked(head, front, q, i);
    if i < |q| {
      assert r[0] == head && r[1 + |front|] == q[i];
      SameNode(m, r, 0, 1 + |front|);
    }
  }

  // ---- Adopting -----------------------------------------------------------------------------------------------

  function Reversed(q: seq<int>): seq<int> {
    if q == [] then [] else Reversed(q[1..]) + [q[0]]
  }

  lemma {:induction false} ReversedLast(q: seq<int>, x: int)
    ensures Reversed(q + [x]) == [x] + Reversed(q)
  {
    if q != [] {
      assert (q + [x])[1..] == q[1..] + [x];
      ReversedLast(q[1..], x);
    }
  }

  /** The first `i` children are on the other list now, last come first. */
  ghost predicate Adopting(m0: Links, m: Links, head: int, q: seq<int>, to: int, p: seq<int>, i: int) {
    && 0 <= i <= |q| && Ring(m, Walked(head, [], q, i)) && Ring(m, [to] + (Reversed(q[..i]) + p))
    && Apart(Walked(head, [], q, i), [to] + (Reversed(q[..i]) + p))
    && (forall x :: x in Reversed(q[..i]) ==> x in q)
    && Only(m0, m, [head] + q + [to] + p)
  }

  lemma {:induction false} AdoptingStart(m: Links, head: int, q: seq<int>, to: int, p: seq<int>)
    requires Ring(m, [head] + q) && Ring(m, [to] + p) && Apart([head] + q, [to] + p)
    ensures Adopting(m, m, head, q, to, p, 0)
    ensures head in m && m[head].next == Node(head, q, 0) && m[head].next in m
  {
    hide Ring, Apart;
    assert Walked(head, [], q, 0) == [head] + q && q[..0] == [] && Reversed(q[..0]) + p == p;
    NeighboursIn(m, [head] + q, 0);
  }

  /** What the children's list loses the other list gains. */
  lemma {:induction false} Moved(m: Links, head: int, q: seq<int>, i: nat, s: seq<int>)
    requires i < |q| && Ring(m, Walked(head, [], q, i)) && Apart(Walked(head, [], q, i), s)
    ensures q[i] !in s && Apart(Walked(head, [], q, i + 1), s)
    ensures q[i] !in Walked(head, [], q, i + 1)
  {
    hide Ring;
    var r := Walked(head, [], q, i);
    Disjoint(r, s);
    assert r[1] == q[i] && r[0] == head;
    var t := Walked(head, [], q, i + 1);
    forall j | 0 <= j < |t| ensures t[j] == r[if j == 0 then 0 else j + 1] && t[j] != q[i] {
      SameNode(m, r, if j == 0 then 0 else j + 1, 1);
    }
    Disjoint(t, s);
  }

  lemma {:induction false} AdoptingTake(m0: Links, m: Links, head: int, q: seq<int>, to: int, p: seq<int>, i: nat)
    requires Adopting(m0, m, head, q, to, p, i) && i < |q|
    ensures q[i] in m && m[q[i]].prev in m && m[q[i]].next in m
    ensures var m', s := UnlinkMem(m, q[i]), [to] + (Reversed(q[..i]) + p);
      && Ring(m', Walked(head, [], q, i + 1)) && Ring(m', s) && Only(m0, m', [head] + q + [to] + p)
      && q[i] !in s && Apart(Walked(head, [], q, i + 1), s) && q[i] !in Walked(head, [], q, i + 1)
  {
    hide Ring, Apart, UnlinkMem, Reversed, Only;
    var s := [to] + (Reversed(q[..i]) + p);
    WalkTake(m, head, [], q, i);
    OtherRing(m, UnlinkMem(m, q[i]), Walked(head, [], q, i), s);
    Moved(m, head, q, i, s);
    OnlyThen(m0, m, UnlinkMem(m, q[i]), [head] + q + [to] + p, Walked(head, [], q, i));
  }

  lemma {:induction false} AdoptingPut(m0: Links, m: Links, head: int, q: seq<int>, to: int, p: seq<int>, i: nat)
    requires i < |q| && Ring(m, Walked(head, [], q, i + 1)) && Only(m0, m, [head] + q + [to] + p)
    requires var s := [to] + (Reversed(q[..i]) + p);
      && Ring(m, s) && q[i] !in s && Apart(Walked(head, [], q, i + 1), s) && q[i] !in Walked(head, [], q, i + 1)
      && (forall x :: x in Reversed(q[..i]) ==> x in q)
    ensures to in m && m[to].next in m && Adopting(m0, InsertMem(m, q[i], to), head, q, to, p, i + 1)
  {
    hide Ring, Apart, InsertMem, Reversed, Only;
    var s, r := [to] + (Reversed(q[..i]) + p), Walked(head, [], q, i + 1);
    InsertRing(m, s, 0, q[i]);
    var m' := InsertMem(m, q[i], to);
    Disjoint(r, s);
    Disjoint(s, r);
    InsertApart(m, s, 0, q[i], r);
    assert q[..i + 1] == q[..i] + [q[i]];
    ReversedLast(q[..i], q[i]);
    assert Inserted(s, 0, q[i]) == [to] + (Reversed(q[..i + 1]) + p);
    Disjoint(r, [to] + (Reversed(q[..i + 1]) + p));
    OnlyInsert(m, s, q[i]);
    OnlyThen(m0, m, m', [head] + q + [to] + p, s + [q[i]]);
  }

  lemma {:induction false} OnlyInsert(m: Links, s: seq<int>, x: int)
    requires Ring(m, s) && s[0] in m && m[s[0]].next in m
    ensures Only(m, InsertMem(m, x, s[0]), s + [x])
  {
    NeighboursIn(m, s, 0);
    assert s[After(0, |s|)] in s;
    assert forall y :: y !in s + [x] ==> Same(m, InsertMem(m, x, s[0]), y);
  }

  class Lists {
    var links: Links

    constructor () {
      links := map[];
    }

    /** `list_head_init`. */
    method HeadInit(x: int)
      modifies this
      ensures links == old(links)[x := Link(x, x)] && Ring(links, [x])
    {
      links := links[x := Link(x, x)];
      assert LinkedAt(links, [x], 0);
    }

    /** `list_insert`: behind any node of a list, the head included. */
    method Insert(x: int, prev: int, ghost r: seq<int>, ghost k: nat)
      requires Ring(links, r) && k < |r| && r[k] == prev && x !in r
      modifies this
      ensures prev in old(links) && old(links)[prev].next in old(links) && links == InsertMem(old(links), x, prev)
      ensures Ring(links, Inserted(r, k, x))
    {
      InsertRing(links, r, k, x);
      NeighboursIn(links, r, k);
      var next := links[prev].next;
      ghost var m := links;
      links := links[x := Link(prev, next)];
      links := links[prev := links[prev].(next := x)];
      links := links[next := links[next].(prev := x)];
      assert links == InsertMem(m, x, prev);
    }

    /** `list_remove`. */
    method Remove(x: int, ghost r: seq<int>, ghost k: nat)
      requires Ring(links, r) && k < |r| && r[k] == x
      modifies this
      ensures x in old(links) && old(links)[x].prev in old(links) && old(links)[x].next in old(links)
      ensures links == UnlinkMem(old(links), x)
      ensures Ring(links, [x]) && (|r| > 1 ==> Ring(links, Removed(r, k)))
    {
      UnlinkRing(links, r, k);
      NeighboursIn(links, r, k);
      var prev, next := links[x].prev, links[x].next;
      links := links[prev := links[prev].(next := next)];
      links := links[next := links[next].(prev := prev)];
      links := links[x := Link(x, x)];
    }

    /** `list_is_empty`. */
    method IsEmpty(head: int, ghost q: seq<int>) returns (empty: bool)
      requires Ring(links, [head] + q)
      ensures empty <==> q == []
    {
      NeighboursIn(links, [head] + q, 0);
      SameNode(links, [head] + q, 0, After(0, 1 + |q|));
      empty := links[head].next == head;
    }

    /** The loop of `__do_futex_wake`: the nodes in `match_` are the entries for the address. The first `count` of
        them leave the list, in list order, and no node off the list changes. */
    method Wake(head: int, match_: set<int>, count0: nat, waiters0: nat, ghost q: seq<int>)
        returns (woken: seq<int>, waiters: nat)
      requires Ring(links, [head] + q) && count0 > 0 && waiters0 >= |q|
      modifies this
      ensures Ring(links, [head] + Kept(q, match_, count0)) && woken == Taken(q, match_, count0)
      ensures waiters == waiters0 - |woken| && Only(old(links), links, [head] + q)
      ensures forall x :: x in woken ==> Alone(links, x)
    {
      hide Ring, UnlinkMem, Kept, Taken, Only, Alone;
      ghost var i, front := 0, [];
      var count: nat := count0;
      woken, waiters := [], waiters0;
      WakingStart(links, head, q, match_, count0);
      WalkNext(links, head, front, q, 0);
      var ptr := links[head].next;
      var next := links[ptr].next;
      while ptr != head
        invariant Waking(old(links), links, head, q, match_, count0, i, front, woken, count) && count > 0
        invariant ptr == Node(head, q, i) && ptr in links && next == links[ptr].next && next in links
        invariant waiters == waiters0 - |woken|
        decreases |q| - i
      {
        NotYetHead(links, head, front, q, i);
        WalkNext(links, head, front, q, i);
        if ptr in match_ {
          WakingTake(old(links), links, head, q, match_, count0, i, front, woken, count);
          TakeStep(head, front, q, i);
          Remove(ptr, Walked(head, front, q, i), 1 + |front|);
          woken := woken + [ptr];
          count, waiters := count - 1, waiters - 1;
          if waiters == 0 || count == 0 {
            WakingDone(old(links), links, head, q, match_, count0, i + 1, front, woken, count);
            return;
          }
        } else {
          WakingKeep(old(links), links, head, q, match_, count0, i, front, woken, count);
          front := front + [ptr];
        }
        i := i + 1;
        WalkNext(links, head, front, q, i);
        ptr := next;
        next := links[next].next;
      }
      NotYetHead(links, head, front, q, i);
      WakingDone(old(links), links, head, q, match_, count0, i, front, woken, count);
    }

    /** The loop of `__process_on_terminate`: every child goes to the front of the other list, none is lost. */
    method Adopt(head: int, to: int, ghost q: seq<int>, ghost p: seq<int>)
      requires Ring(links, [head] + q) && Ring(links, [to] + p) && Apart([head] + q, [to] + p)
      modifies this
      ensures Ring(links, [head]) && Ring(links, [to] + (Reversed(q) + p))
      ensures Only(old(links), links, [head] + q + [to] + p)
    {
      hide Ring, UnlinkMem, InsertMem, Only, Apart, Reversed;
      ghost var i := 0;
      AdoptingStart(links, head, q, to, p);
      WalkNext(links, head, [], q, 0);
      var ptr := links[head].next;
      var next := links[ptr].next;
      while ptr != head
        invariant Adopting(old(links), links, head, q, to, p, i)
        invariant ptr == Node(head, q, i) && ptr in links && next == links[ptr].next && next in links
        decreases |q| - i
      {
        NotYetHead(links, head, [], q, i);
        WalkNext(links, head, [], q, i);
        AdoptingTake(old(links), links, head, q, to, p, i);
        TakeStep(head, [], q, i);
        Remove(ptr, Walked(head, [], q, i), 1);
        AdoptingPut(old(links), links, head, q, to, p, i);
        Insert(ptr, to, [to] + (Reversed(q[..i]) + p), 0);
        i := i + 1;
        WalkNext(links, head, [], q, i);
        ptr := next;
        next := links[next].next;
      }
      NotYetHead(links, head, [], q, i);
      assert q[..i] == q && Walked(head, [], q, i) == [head];
    }
  }
}
