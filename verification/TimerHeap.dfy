/** The per-CPU timer heap of `kernel/k_timer.c`: a binary heap in an array from index 1 on, with a
    sentinel of deadline 0 at index 0. */
module TimerHeap {
  /** An element: when it is due, and what to call. */
  datatype Timer = Timer(deadline: nat, callback: int)

  const SENTINEL: Timer := Timer(0, 0)
  const HEAP_INIT_SIZE: nat := 32

  type Items = seq<Timer>

  // ---- Heap order on the array's contents -------------------------------------------------------------

  /** Element `j` is not due before its parent. */
  ghost predicate After(s: Items, j: int)
    requires 2 <= j < |s|
  {
    s[j / 2].deadline <= s[j].deadline
  }

  /** The first `n` elements are a heap. */
  ghost predicate HeapOrder(s: Items, n: int) {
    n < |s| && forall j {:trigger After(s, j)} :: 2 <= j <= n ==> After(s, j)
  }

  ghost function Contents(s: Items, n: int): multiset<Timer>
    requires 0 <= n < |s|
  {
    multiset(s[1..n + 1])
  }

  function Swap(s: Items, i: int, j: int): Items
    requires 0 <= i < |s| && 0 <= j < |s|
  {
    s[i := s[j]][j := s[i]]
  }

  lemma {:induction false} SwapContents(s: Items, n: int, i: int, j: int)
    requires 0 <= n < |s| && 1 <= i <= n && 1 <= j <= n && i != j
    ensures Contents(Swap(s, i, j), n) == Contents(s, n)
  {
    var t := s[1..n + 1];
    assert Swap(s, i, j)[1..n + 1] == t[i - 1 := s[j]][j - 1 := s[i]];
  }

  /** The root of a heap is due first. */
  lemma {:induction false} RootIsLeast(s: Items, n: int, j: int)
    requires HeapOrder(s, n) && 1 <= j <= n
    ensures s[1].deadline <= s[j].deadline
  {
    if j > 1 {
      assert After(s, j);
      RootIsLeast(s, n, j / 2);
    }
  }

  // ---- Sifting up ---------------------------------------------------------------------------------------

  /** Only element `i` may be due before its parent, and its parent is not due after its children. */
  ghost predicate AllButUp(s: Items, n: int, i: int) {
    && n < |s| && 1 <= i <= n
    && (forall j {:trigger After(s, j)} :: 2 <= j <= n && j != i ==> After(s, j))
    && (forall j {:trigger Skips(s, j)} :: 2 <= j <= n && j / 2 == i && i > 1 ==> Skips(s, j))
  }

  /** Element `j` is not due before its grandparent. */
  ghost predicate Skips(s: Items, j: int)
    requires 2 <= j < |s|
  {
    s[j / 2 / 2].deadline <= s[j].deadline
  }

  lemma {:induction false} SiftUpStep(s: Items, n: int, i: int)
    requires AllButUp(s, n, i) && s[0].deadline == 0 && s[i / 2].deadline > s[i].deadline
    ensures i / 2 >= 1 && AllButUp(Swap(s, i, i / 2), n, i / 2)
  {
    var k := i / 2;
    var t := Swap(s, i, k);
    forall j | 2 <= j <= n && j != k ensures After(t, j) {
      assert j != i ==> After(s, j);
      assert j / 2 == i && i > 1 ==> Skips(s, j);
    }
    forall j | 2 <= j <= n && j / 2 == k && k > 1 ensures Skips(t, j) {
      assert After(s, k);
      assert j != i ==> After(s, j);
    }
  }

  // ---- Sifting down -------------------------------------------------------------------------------------

  /** Only the children of `i` may be due before their parent; they are not due before the parent of `i`. */
  ghost predicate AllButDown(s: Items, n: int, i: int) {
    && n < |s| && 1 <= i <= n
    && (forall j {:trigger After(s, j)} :: 2 <= j <= n && j / 2 != i ==> After(s, j))
    && (forall j {:trigger Skips(s, j)} :: 2 <= j <= n && j / 2 == i && i > 1 ==> Skips(s, j))
  }

  /** A child that is due no later than the other and no later than `i` takes its place. */
  lemma {:induction false} SiftDownStep(s: Items, n: int, i: int, c: int)
    requires AllButDown(s, n, i) && 2 <= c <= n && c / 2 == i && s[c].deadline <= s[i].deadline
    requires forall d :: d / 2 == i && 2 <= d <= n ==> s[c].deadline <= s[d].deadline
    ensures AllButDown(Swap(s, i, c), n, c)
  {
    var t := Swap(s, i, c);
    forall j | 2 <= j <= n && j / 2 != c ensures After(t, j) {
      assert j / 2 != i ==> After(s, j);
      if j == i { assert Skips(s, c); }
    }
    forall j | 2 <= j <= n && j / 2 == c && c > 1 ensures Skips(t, j) { assert After(s, j); }
  }

  lemma {:induction false} SiftDownDone(s: Items, n: int, i: int)
    requires AllButDown(s, n, i) && forall d :: d / 2 == i && 2 <= d <= n ==> s[i].deadline <= s[d].deadline
    ensures HeapOrder(s, n)
  {
    forall j | 2 <= j <= n ensures After(s, j) { assert j / 2 != i ==> After(s, j); }
  }

  // ---- Where the sift reads a child that is not there -----------------------------------------------------

  /** Element `j`, below the root, is the child that the sift would choose. */
  predicate Preferred(s: Items, j: int)
    requires 2 <= j && j + 1 < |s|
  {
    if j % 2 == 0 then s[j].deadline < s[j + 1].deadline else !(s[j - 1].deadline < s[j].deadline)
  }

  /** The sift, if it never stopped, would pass through node `m`. */
  predicate OnSiftPath(s: Items, m: int)
    requires 1 <= m < |s| - 1
  {
    m == 1 || (Preferred(s, m) && OnSiftPath(s, m / 2))
  }

  /** The array before an extraction from `n + 1` elements is such that the sift comes to a node with a
      left child only and must swap there: then the source reads through a null `right`. */
  predicate Faults(s: Items, n: int)
    requires 1 <= n < |s| - 1
  {
    n % 2 == 0 && s[n + 1].deadline >= s[n].deadline && OnSiftPath(s, n / 2)
  }

  ghost predicate Ancestor(j: nat, i: nat) {
    j == i || (i > j && Ancestor(j, i / 2))
  }

  lemma {:induction false} RootAncestor(i: nat)
    requires i >= 1
    ensures Ancestor(1, i)
  {
    if i > 1 { RootAncestor(i / 2); }
  }

  lemma {:induction false} AncestorLess(j: nat, i: nat)
    requires Ancestor(j, i)
    ensures j <= i
  {}

  /** Any two nodes on the sift path lie below one another. */
  lemma {:induction false} OnePath(s: Items, i: nat, m: nat)
    requires 1 <= i < |s| - 1 && 1 <= m < |s| - 1 && OnSiftPath(s, i) && OnSiftPath(s, m)
    ensures Ancestor(i, m) || Ancestor(m, i)
    decreases i + m
  {
    if i == 1 {
      RootAncestor(m);
    } else if m == 1 {
      RootAncestor(i);
    } else if i < m {
      OnePath(s, i, m / 2);
      if !Ancestor(i, m / 2) && i != m / 2 { Siblings(s, i, m); }
    } else if m < i {
      OnePath(s, i / 2, m);
      if !Ancestor(m, i / 2) && m != i / 2 { Siblings(s, m, i); }
    }
  }

  /** Of two siblings only one is preferred. */
  lemma {:induction false} Siblings(s: Items, i: nat, m: nat)
    requires 2 <= i < m < |s| - 1 && Preferred(s, i) && Ancestor(m / 2, i) && i != m / 2
    ensures !Preferred(s, m)
  {
    AncestorLess(m / 2, i / 2);
    assert m == i + 1;
  }

  /** A node above `n` has a child at or above `n`. */
  lemma {:induction false} ChildTowards(i: nat, n: nat) returns (c: nat)
    requires Ancestor(i, n) && 1 <= i < n
    ensures c / 2 == i && 2 <= c <= n && Ancestor(c, n)
  {
    if n / 2 == i {
      c := n;
    } else {
      AncestorLess(i, n / 2);
      c := ChildTowards(i, n / 2);
    }
  }

  lemma {:induction false} AncestorDue(s: Items, n: int, c: nat, k: nat)
    requires HeapOrder(s, n) && Ancestor(c, k) && 1 <= c && k <= n
    ensures s[c].deadline <= s[k].deadline
  {
    if c < k {
      AncestorLess(c, k / 2);
      assert After(s, k);
      AncestorDue(s, n, c, k / 2);
    }
  }

  /** Where the sift stops of itself, it is not on its way to a fault. */
  lemma {:induction false} StopsSafely(s: Items, n: nat, i: nat)
    requires 1 <= i <= n < |s| - 1 && HeapOrder(s, n + 1) && OnSiftPath(s, i)
    requires i > 1 ==> 2 * (i / 2) + 1 <= n
    requires forall d :: d / 2 == i && 2 <= d <= n ==> s[n + 1].deadline < s[d].deadline
    ensures !Faults(s, n)
  {
    if Faults(s, n) {
      var m := n / 2;
      OnePath(s, i, m);
      if !Ancestor(i, m) { AboveMissed(i, m, n); }
      var c := ChildTowards(i, n);
      AncestorDue(s, n + 1, c, n);
    }
  }

  lemma {:induction false} AboveMissed(i: nat, m: nat, n: nat)
    requires Ancestor(m, i) && 1 <= m && n == 2 * m && (i > 1 ==> 2 * (i / 2) + 1 <= n)
    ensures i == m
  {
    if i != m { AncestorLess(m, i / 2); }
  }

  /** What the sift keeps: `s` is the heap now, `s0` the heap before the call, and `x` is at `i`. */
  ghost predicate Sifting(s0: Items, s: Items, n: nat, i: nat) {
    && 1 <= i <= n < |s0| - 1 && |s| == |s0| && s[0] == s0[0]
    && AllButDown(s, n, i)
    && Contents(s, n) == Contents(s0[1 := s0[n + 1]], n)
    && s[i] == s0[n + 1] && (forall j {:trigger s[j]} :: i < j <= n ==> s[j] == s0[j])
    && OnSiftPath(s0, i) && (i > 1 ==> 2 * (i / 2) + 1 <= n)
  }

  lemma {:induction false} SiftingStep(s0: Items, s: Items, n: nat, i: nat, c: nat)
    requires Sifting(s0, s, n, i) && 2 * i + 1 <= n
    requires c == (if s[2 * i].deadline < s[2 * i + 1].deadline then 2 * i else 2 * i + 1)
    requires s[c].deadline <= s[i].deadline
    ensures Sifting(s0, Swap(s, i, c), n, c)
  {
    hide Contents;
    SiftDownStep(s, n, i, c);
    SwapContents(s, n, i, c);
    assert Preferred(s0, c);
  }

  lemma {:induction false} SiftingDone(s0: Items, s: Items, n: nat, i: nat)
    requires HeapOrder(s0, n + 1) && Sifting(s0, s, n, i)
    requires forall d :: d / 2 == i && 2 <= d <= n ==> s[i].deadline < s[d].deadline
    ensures HeapOrder(s, n) && !Faults(s0, n)
  {
    hide Contents;
    SiftDownDone(s, n, i);
    forall d | d / 2 == i && 2 <= d <= n ensures s0[n + 1].deadline < s0[d].deadline { assert s[d] == s0[d]; }
    StopsSafely(s0, n, i);
  }

  /** Three timers set in the order they fall due: taking out the first faults. */
  lemma {:induction false} ThreeTimersFault(s: Items)
    requires |s| >= 4
    ensures Faults(s, 2) <==> s[2].deadline <= s[3].deadline
  {
    assert OnSiftPath(s, 1);
  }

  // ---- Running the timers that are due ---------------------------------------------------------------------

  /** What callbacks do to the heap: `sets(i, t)` are the timers set by the callback of `t`, called in round `i`. */
  type Callbacks = (nat, Timer) -> seq<Timer>

  ghost function SetBy(called: seq<Timer>, sets: Callbacks): multiset<Timer> {
    if called == [] then multiset{}
    else SetBy(called[..|called| - 1], sets) + multiset(sets(|called| - 1, called[|called| - 1]))
  }

  /** The timers that wait in round `i`: those of `before` and those set since, without those called. */
  ghost function Pending(before: multiset<Timer>, called: seq<Timer>, sets: Callbacks, i: nat): multiset<Timer>
    requires i <= |called|
  {
    before + SetBy(called[..i], sets) - multiset(called[..i])
  }

  ghost predicate Least(t: Timer, now: multiset<Timer>) {
    t in now && forall u :: u in now ==> t.deadline <= u.deadline
  }

  /** Every timer called was due, and was the earliest of those that waited. */
  ghost predicate EarliestFirst(before: multiset<Timer>, called: seq<Timer>, sets: Callbacks, clock: nat -> nat) {
    forall i {:trigger Pending(before, called, sets, i)} :: 0 <= i < |called| ==>
      called[i].deadline <= clock(i) && Least(called[i], Pending(before, called, sets, i))
  }

  ghost predicate Silent(sets: Callbacks) {
    forall i, t :: sets(i, t) == []
  }

  predicate InOrder(called: seq<Timer>) {
    forall i, j :: 0 <= i < j < |called| ==> called[i].deadline <= called[j].deadline
  }

  ghost predicate Calling(before: multiset<Timer>, now: multiset<Timer>, called: seq<Timer>, sets: Callbacks,
                          clock: nat -> nat) {
    EarliestFirst(before, called, sets, clock) && now + multiset(called) == before + SetBy(called, sets)
  }

  /** The next timer of heap `at` of size `n` is due, and its extraction faults. */
  ghost predicate FaultsAt(before: multiset<Timer>, at: Items, n: nat, called: seq<Timer>, sets: Callbacks,
                           clock: nat -> nat) {
    && 1 < n < |at| && HeapOrder(at, n) && at[1].deadline <= clock(|called|) && Faults(at, n - 1)
    && Contents(at, n) + multiset(called) == before + SetBy(called, sets)
  }

  lemma {:induction false} FaultHere(before: multiset<Timer>, at: Items, n: nat, called: seq<Timer>, sets: Callbacks,
                                     clock: nat -> nat)
    requires 1 < n < |at| && HeapOrder(at, n) && at[1].deadline <= clock(|called|) && Faults(at, n - 1)
    requires Calling(before, Contents(at, n), called, sets, clock)
    ensures FaultsAt(before, at, n, called, sets, clock)
  {
    hide EarliestFirst;
  }

  lemma {:induction false} NoneCalled(before: multiset<Timer>, sets: Callbacks, clock: nat -> nat)
    ensures Calling(before, before, [], sets, clock)
  {}

  lemma {:induction false} PendingNow(before: multiset<Timer>, now: multiset<Timer>, called: seq<Timer>,
                                      sets: Callbacks)
    requires now + multiset(called) == before + SetBy(called, sets)
    ensures Pending(before, called, sets, |called|) == now
  {
    assert called[..|called|] == called;
    forall t ensures Pending(before, called, sets, |called|)[t] == now[t] {
      assert (now + multiset(called))[t] == (before + SetBy(called, sets))[t];
    }
  }

  lemma {:induction false} CallNext(before: multiset<Timer>, now: multiset<Timer>, called: seq<Timer>, sets: Callbacks,
                                    clock: nat -> nat, t: Timer)
    requires Calling(before, now, called, sets, clock) && Least(t, now) && t in now && t.deadline <= clock(|called|)
    ensures Calling(before, now - multiset{t} + multiset(sets(|called|, t)), called + [t], sets, clock)
  {
    hide Least, SetBy, Pending;
    var called' := called + [t];
    PendingNow(before, now, called, sets);
    forall i | 0 <= i < |called'|
      ensures called'[i].deadline <= clock(i) && Least(called'[i], Pending(before, called', sets, i))
    {
      SamePending(before, called, sets, t, i);
      assert i < |called| ==> called'[i] == called[i];
    }
    NextSet(called, sets, t);
    assert multiset(called') == multiset(called) + multiset{t};
    Rearranged(before, now, multiset(called), SetBy(called, sets), t, multiset(sets(|called|, t)));
  }

  lemma {:induction false} SamePending(before: multiset<Timer>, called: seq<Timer>, sets: Callbacks, t: Timer, i: nat)
    requires i <= |called|
    ensures Pending(before, called + [t], sets, i) == Pending(before, called, sets, i)
  {
    assert (called + [t])[..i] == called[..i];
  }

  lemma {:induction false} NextSet(called: seq<Timer>, sets: Callbacks, t: Timer)
    ensures SetBy(called + [t], sets) == SetBy(called, sets) + multiset(sets(|called|, t))
  {
    assert (called + [t])[..|called|] == called;
  }

  lemma {:induction false} Rearranged(before: multiset<Timer>, now: multiset<Timer>, called: multiset<Timer>,
                                      set_: multiset<Timer>, t: Timer, more: multiset<Timer>)
    requires now + called == before + set_ && t in now
    ensures now - multiset{t} + more + (called + multiset{t}) == before + (set_ + more)
  {
    forall u ensures (now - multiset{t} + more + (called + multiset{t}))[u] == (before + (set_ + more))[u] {
      assert (now + called)[u] == (before + set_)[u];
    }
  }

  /** If no callback sets a timer, none is set. */
  lemma {:induction false} SilentSets(called: seq<Timer>, sets: Callbacks)
    requires Silent(sets)
    ensures SetBy(called, sets) == multiset{}
  {
    if called != [] { SilentSets(called[..|called| - 1], sets); }
  }

  /** If no callback sets a timer, timers are called in the order of their deadlines, and no more of them than there
      were. */
  lemma {:induction false} SilentInOrder(before: multiset<Timer>, now: multiset<Timer>, called: seq<Timer>,
                                         sets: Callbacks, clock: nat -> nat)
    requires Calling(before, now, called, sets, clock) && Silent(sets)
    ensures InOrder(called) && now + multiset(called) == before
  {
    forall i, j | 0 <= i < j < |called| ensures called[i].deadline <= called[j].deadline {
      SilentSets(called[..i], sets);
      SilentSets(called[..j], sets);
      assert called[..i] <= called[..j] && called[..j] == called[..i] + called[i..j];
      assert Least(called[j], Pending(before, called, sets, j));
      assert Least(called[i], Pending(before, called, sets, i));
    }
    SilentSets(called, sets);
  }

  // ---- The heap ---------------------------------------------------------------------------------------------

  class Heap {
    var heap: array<Timer>
    /** `timer_heap_end - timer_heap`: one past the last element. */
    var end: nat

    ghost predicate Valid()
      reads this, heap
    {
      1 <= end <= heap.Length && heap[0].deadline == 0 && heap.Length > 0 && HeapOrder(heap[..], end - 1)
    }

    ghost function Elements(): multiset<Timer>
      requires 1 <= end <= heap.Length
      reads this, heap
    {
      Contents(heap[..], end - 1)
    }

    /** `timer_heap_init`. */
    constructor ()
      ensures Valid() && Elements() == multiset{} && fresh(heap)
    {
      heap := new Timer[HEAP_INIT_SIZE](_ => SENTINEL);
      end := 1;
    }

    /** `timer_heap_expand`: twice the size, the same contents. */
    method Expand()
      requires Valid()
      modifies this
      ensures Valid() && fresh(heap) && heap.Length == 2 * old(heap.Length) && end == old(end)
      ensures heap[..end] == old(heap[..end])
    {
      var size := heap.Length * 2;
      var old_ := heap;
      var new_ := new Timer[size](_ => SENTINEL);
      var i := 0;
      while i < old_.Length
        invariant 0 <= i <= old_.Length && new_[..i] == old_[..i]
        modifies new_
      {
        new_[i] := old_[i];
        i := i + 1;
      }
      SamePrefix(old_[..], new_[..], end);
      heap := new_;
    }

    /** `timer_heap_empty` and `timer_heap_top`. */
    method Top() returns (t: Timer)
      requires Valid() && end > 1
      ensures t == heap[1] && t in Elements() && forall u :: u in Elements() ==> t.deadline <= u.deadline
    {
      t := heap[1];
      ghost var s := heap[..];
      assert s[1..end][0] == t;
      forall u | u in Elements() ensures t.deadline <= u.deadline {
        var k :| 0 <= k < |s[1..end]| && s[1..end][k] == u;
        RootIsLeast(s, end - 1, k + 1);
      }
    }

    /** `timer_heap_insert`. */
    method Insert(t: Timer)
      requires Valid()
      modifies this, heap
      ensures Valid() && Elements() == old(Elements()) + multiset{t} && end == old(end) + 1
      ensures if old(end) < old(heap.Length) then heap == old(heap)
              else fresh(heap) && heap.Length == 2 * old(heap.Length)
    {
      if end >= heap.Length {
        Expand();
      }
      ghost var s := heap[..];
      var i := end;
      end := end + 1;
      heap[i] := t;
      AddLast(s, old(heap[..]), i, t);
      SiftUp(i, s[i := t]);
      assert Contents(s[i := t], i) == old(Elements()) + multiset{t};
    }

    method SiftUp(i0: nat, ghost s0: Items)
      requires 1 <= i0 == end - 1 && end <= heap.Length && heap[..] == s0 && AllButUp(s0, i0, i0) && s0[0].deadline == 0
      modifies heap
      ensures Valid() && Contents(heap[..], i0) == Contents(s0, i0)
    {
      var i := i0;
      ghost var s := s0;
      while heap[i / 2].deadline > heap[i].deadline
        invariant 1 <= i <= i0 && heap[..] == s && |s| == |s0| && AllButUp(s, i0, i) && s[0].deadline == 0
        invariant Contents(s, i0) == Contents(s0, i0)
        decreases i
      {
        SiftUpStep(s, i0, i);
        SwapContents(s, i0, i, i / 2);
        heap[i], heap[i / 2] := heap[i / 2], heap[i];
        s := Swap(s, i, i / 2);
        i := i / 2;
      }
      SiftUpDone(s, i0, i);
    }

    /** `timer_heap_extract`; the result is false if the source would read through a null pointer. */
    method Extract() returns (ok: bool)
      requires Valid() && end > 1
      modifies this, heap
      ensures end == old(end) - 1 && heap == old(heap)
      ensures ok <==> end == 1 || !Faults(old(heap[..]), end - 1)
      ensures ok ==> Valid() && Elements() == old(Elements()) - multiset{old(heap[1])}
    {
      hide Sifting, HeapOrder, Faults, Contents;
      ghost var s0 := heap[..];
      end := end - 1;
      if end == 1 {
        LastOne(s0);
        return true;
      }
      heap[1] := heap[end];
      StartSifting(s0, end - 1);
      ok := SiftDown(s0);
    }

    /** A callback sets timers. */
    method SetAll(ts: seq<Timer>)
      requires Valid()
      modifies this, heap
      ensures Valid() && Elements() == old(Elements()) + multiset(ts)
      ensures heap == old(heap) || fresh(heap)
    {
      hide HeapOrder, Contents;
      var k := 0;
      while k < |ts|
        invariant 0 <= k <= |ts| && Valid() && Elements() == old(Elements()) + multiset(ts[..k])
        invariant heap == old(heap) || fresh(heap)
      {
        Insert(ts[k]);
        assert ts[..k + 1] == ts[..k] + [ts[k]];
        k := k + 1;
      }
      assert ts[..|ts|] == ts;
    }

    /** The first `rounds` rounds of `timer_exec_callbacks`, where `clock(i)` is the time read in round `i`. Every timer
        called was due and the earliest, none is lost, and none that is due stays. If it stops with a fault, this is
        at the extraction of a due timer from heap `at`, which holds all timers not called. */
    method ExecCallbacks(clock: nat -> nat, sets: Callbacks, rounds: nat)
      returns (ok: bool, called: seq<Timer>, ghost at: Items)
      requires Valid()
      modifies this, heap
      ensures |called| <= rounds && EarliestFirst(old(Elements()), called, sets, clock)
      ensures ok ==> Valid() && Elements() + multiset(called) == old(Elements()) + SetBy(called, sets)
      ensures !ok ==> |called| < rounds && FaultsAt(old(Elements()), at, end, called, sets, clock)
      ensures ok && |called| < rounds ==> forall t :: t in Elements() ==> t.deadline > clock(|called|)
      ensures Silent(sets) ==> InOrder(called)
      ensures ok && Silent(sets) ==> |called| <= |old(Elements())|
    {
      hide HeapOrder, Contents, Faults, FaultsAt, EarliestFirst, SetBy, InOrder, Silent;
      ok, called, at := true, [], [];
      ghost var before := Elements();
      NoneCalled(before, sets, clock);
      while end > 1 && |called| < rounds
        invariant Valid() && (heap == old(heap) || fresh(heap)) && |called| <= rounds
        invariant Calling(before, Elements(), called, sets, clock)
        decreases rounds - |called|
      {
        var t := Top();
        ghost var now := Elements();
        if t.deadline > clock(|called|) {
          if Silent(sets) { SilentInOrder(before, now, called, sets, clock); }
          return;
        }
        at := heap[..];
        ok := Extract();
        if !ok {
          FaultHere(before, at, end, called, sets, clock);
          if Silent(sets) { SilentInOrder(before, now, called, sets, clock); }
          return;
        }
        SetAll(sets(|called|, t));
        CallNext(before, now, called, sets, clock, t);
        called := called + [t];
      }
      NoneLeft(heap[..]);
      if Silent(sets) { SilentInOrder(before, Elements(), called, sets, clock); }
    }

    method SiftDown(ghost s0: Items) returns (ok: bool)
      requires 2 <= end < heap.Length == |s0| && heap[..] == s0[1 := s0[end]]
      requires HeapOrder(s0, end) && Sifting(s0, s0[1 := s0[end]], end - 1, 1) && s0[0].deadline == 0
      modifies heap
      ensures ok <==> !Faults(s0, end - 1)
      ensures ok ==> Valid() && Contents(heap[..], end - 1) == Contents(s0[1 := s0[end]], end - 1)
    {
      hide AllButDown, Contents, HeapOrder, OnSiftPath;
      var n := end - 1;
      var i := 1;
      ghost var s := heap[..];
      while true
        invariant heap[..] == s && Sifting(s0, s, n, i)
        decreases n - i
      {
        var left, right := 2 * i <= n, 2 * i + 1 <= n;
        if (!left || heap[i].deadline < heap[2 * i].deadline)
           && (!right || heap[i].deadline < heap[2 * i + 1].deadline)
        {
          SiftingDone(s0, s, n, i);
          return true;
        }
        if !right {
          return false;
        }
        var c := if heap[2 * i].deadline < heap[2 * i + 1].deadline then 2 * i else 2 * i + 1;
        SiftingStep(s0, s, n, i, c);
        heap[i], heap[c] := heap[c], heap[i];
        s := Swap(s, i, c);
        i := c;
      }
    }
  }

  lemma {:induction false} SamePrefix(s: Items, t: Items, end: nat)
    requires 1 <= end <= |s| <= |t| && t[..|s|] == s && HeapOrder(s, end - 1)
    ensures HeapOrder(t, end - 1) && t[..end] == s[..end] && t[0] == s[0]
  {
    assert forall j :: 0 <= j < |s| ==> t[j] == t[..|s|][j] == s[j];
    forall j | 2 <= j <= end - 1 ensures After(t, j) { assert After(s, j); }
  }

  lemma {:induction false} SiftUpDone(s: Items, n: int, i: int)
    requires AllButUp(s, n, i) && s[i / 2].deadline <= s[i].deadline
    ensures HeapOrder(s, n)
  {
    forall j | 2 <= j <= n ensures After(s, j) { assert j != i ==> After(s, j); }
  }

  /** A new last element, and the array it was put into, which may be a longer copy of `old_`. */
  lemma {:induction false} AddLast(s: Items, old_: Items, i: nat, t: Timer)
    requires 1 <= i < |s| && i <= |old_| && s[..i] == old_[..i] && HeapOrder(old_, i - 1) && old_[0].deadline == 0
    ensures AllButUp(s[i := t], i, i) && s[i := t][0].deadline == 0
    ensures Contents(s[i := t], i) == Contents(old_, i - 1) + multiset{t}
  {
    var u := s[i := t];
    assert forall j :: 0 <= j < i ==> u[j] == s[..i][j] == old_[j];
    forall j | 2 <= j <= i && j != i ensures After(u, j) { assert After(old_, j); }
    assert u[1..i + 1] == old_[1..i] + [t];
  }

  lemma {:induction false} NoneLeft(s: Items)
    requires |s| >= 1
    ensures Contents(s, 0) == multiset{}
  {}

  lemma {:induction false} LastOne(s: Items)
    requires |s| >= 2
    ensures HeapOrder(s, 0) && Contents(s, 1) - multiset{s[1]} == Contents(s, 0)
  {
    assert s[1..2] == [s[1]];
  }

  /** The last element in the place of the root. */
  lemma {:induction false} StartSifting(s: Items, n: nat)
    requires 1 <= n < |s| - 1 && HeapOrder(s, n + 1)
    ensures Sifting(s, s[1 := s[n + 1]], n, 1)
    ensures Contents(s[1 := s[n + 1]], n) == Contents(s, n + 1) - multiset{s[1]}
  {
    var t := s[1 := s[n + 1]];
    forall j | 2 <= j <= n && j / 2 != 1 ensures After(t, j) { assert After(s, j); }
    assert s[1..n + 2] == [s[1]] + s[2..n + 1] + [s[n + 1]];
    assert t[1..n + 1] == [s[n + 1]] + s[2..n + 1];
  }
}
