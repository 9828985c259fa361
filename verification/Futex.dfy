/** The kernel futex of `kernel/k_futex.c` as a state machine: any number of threads in `futex_kwait`
    and `futex_kwake` on one bucket, interleaved step by step in a sequentially consistent memory.
    The waker looks at the waiter count without the bucket lock. */
module Futex {
  import opened Sets

  datatype Entry = Entry(addr: int, thread: int)

  /** Where a thread stands. The states from `WaitInc` to `WaitLeave`, but not `Blocked`, and those from
      `WakeScan` to `WakeUnlock` hold the bucket lock. */
  datatype Pc =
    | Idle
    | WaitLock(a: int, v: int)
    | WaitInc(a: int, v: int)
    | WaitLoad(a: int, v: int)
    | WaitInsert(a: int, v: int)
    | WaitUnlock(a: int, v: int)
    | Blocked(a: int, v: int)
    | WaitDec
    | WaitLeave
    | WakeLoad(a: int, count: int)
    | WakeLock(a: int, count: int)
    | WakeScan(a: int, count: int, rest: seq<Entry>)
    | WakeDec(a: int, count: int, rest: seq<Entry>)
    | WakeUnlock

  /** `lock` is the holder, or -1. `mem` holds the futex words; `queue` is the list from its head on. */
  datatype State = State(mem: map<int, int>, lock: int, waiters: int, queue: seq<Entry>, pc: map<int, Pc>)

  const FREE: int := -1

  function Value(s: State, a: int): int {
    if a in s.mem then s.mem[a] else 0
  }

  function At(s: State, t: int): Pc {
    if t in s.pc then s.pc[t] else Idle
  }

  function Goto(s: State, t: int, p: Pc): State {
    s.(pc := s.pc[t := p])
  }

  predicate Locked(p: Pc) {
    p.WaitInc? || p.WaitLoad? || p.WaitInsert? || p.WaitUnlock? || p.WaitDec? || p.WaitLeave?
    || p.WakeScan? || p.WakeDec? || p.WakeUnlock?
  }

  /** The queue without the first entry equal to `e`. */
  function Without(q: seq<Entry>, e: Entry): seq<Entry> {
    if q == [] then [] else if q[0] == e then q[1..] else [q[0]] + Without(q[1..], e)
  }

  // ---- Steps ---------------------------------------------------------------------------------------------

  /** A thread outside calls `futex_kwait`, `futex_kwake`, or stores a value. */
  ghost predicate Begin(s: State, s': State, t: int) {
    || (exists a, v {:trigger WaitLock(a, v)} :: s' == Goto(s, t, WaitLock(a, v)))
    || (exists a, count {:trigger WakeLoad(a, count)} :: count > 0 && s' == Goto(s, t, WakeLoad(a, count)))
    || (exists a, x {:trigger s.mem[a := x]} :: s' == s.(mem := s.mem[a := x]))
  }

  /** One step of thread `t`. */
  ghost predicate Step(s: State, s': State, t: int) {
    t in s.pc && t >= 0 &&
    match s.pc[t]
    case Idle => Begin(s, s', t)
    case WaitLock(a, v) => s.lock == FREE && s' == Goto(s.(lock := t), t, WaitInc(a, v))
    case WaitInc(a, v) => s' == Goto(s.(waiters := s.waiters + 1), t, WaitLoad(a, v))
    case WaitLoad(a, v) => s' == Goto(s, t, if Value(s, a) == v then WaitInsert(a, v) else WaitDec)
    case WaitInsert(a, v) => s' == Goto(s.(queue := [Entry(a, t)] + s.queue), t, WaitUnlock(a, v))
    case WaitUnlock(a, v) => s' == Goto(s.(lock := FREE), t, Blocked(a, v))
    case Blocked(a, v) => false
    case WaitDec => s' == Goto(s.(waiters := s.waiters - 1), t, WaitLeave)
    case WaitLeave => s' == Goto(s.(lock := FREE), t, Idle)
    case WakeLoad(a, count) => s' == Goto(s, t, if s.waiters == 0 then Idle else WakeLock(a, count))
    case WakeLock(a, count) => s.lock == FREE && s' == Goto(s.(lock := t), t, WakeScan(a, count, s.queue))
    case WakeScan(a, count, rest) =>
      if rest == [] then s' == Goto(s, t, WakeUnlock)
      else if rest[0].addr != a then s' == Goto(s, t, WakeScan(a, count, rest[1..]))
      else s' == Goto(Goto(s.(queue := Without(s.queue, rest[0])), rest[0].thread, Idle), t,
        WakeDec(a, count, rest[1..]))
    case WakeDec(a, count, rest) =>
      var w := s.waiters - 1;
      s' == Goto(s.(waiters := w), t, if w == 0 || count - 1 == 0 then WakeUnlock else WakeScan(a, count - 1, rest))
    case WakeUnlock => s' == Goto(s.(lock := FREE), t, Idle)
  }

  ghost predicate Init(s: State) {
    s.lock == FREE && s.waiters == 0 && s.queue == [] && forall t {:trigger At(s, t)} :: At(s, t) == Idle
  }

  // ---- The invariant -----------------------------------------------------------------------------------------

  /** The lock holder counted itself in, or took an entry out that is still counted. */
  function Pending(s: State): int {
    var p := At(s, s.lock);
    if p.WaitLoad? || p.WaitInsert? || p.WaitDec? || p.WakeDec? then 1 else 0
  }

  /** Thread `t` is on the list. */
  predicate Queued(p: Pc) {
    p.WaitUnlock? || p.Blocked?
  }

  ghost predicate EntryOk(s: State, i: int)
    requires 0 <= i < |s.queue|
  {
    var e := s.queue[i];
    e.thread in s.pc && Queued(s.pc[e.thread]) && s.pc[e.thread].a == e.addr
  }

  ghost predicate Distinct(q: seq<Entry>) {
    forall i, j {:trigger q[i], q[j]} :: 0 <= i < |q| && 0 <= j < |q| && q[i].thread == q[j].thread ==> i == j
  }

  /** The part of the list that a waker has not looked at yet is still on the list. */
  ghost predicate RestOk(q: seq<Entry>, rest: seq<Entry>) {
    Distinct(rest) && forall i {:trigger rest[i]} :: 0 <= i < |rest| ==> rest[i] in q
  }

  ghost predicate ThreadOk(s: State, t: int)
    requires t in s.pc
  {
    && t >= 0
    && (Locked(s.pc[t]) <==> s.lock == t)
    && (Queued(s.pc[t]) ==> Entry(s.pc[t].a, t) in s.queue)
    && (s.pc[t].WakeScan? ==> RestOk(s.queue, s.pc[t].rest))
    && (s.pc[t].WakeDec? ==> RestOk(s.queue, s.pc[t].rest))
    && ((s.pc[t].WakeScan? || s.pc[t].WakeDec? || s.pc[t].WakeLoad? || s.pc[t].WakeLock?) ==> s.pc[t].count > 0)
  }

  ghost predicate Inv(s: State) {
    && s.waiters == |s.queue| + Pending(s)
    && (s.lock != FREE ==> s.lock in s.pc) && FREE !in s.pc
    && Distinct(s.queue)
    && (forall i {:trigger EntryOk(s, i)} :: 0 <= i < |s.queue| ==> EntryOk(s, i))
    && (forall t {:trigger ThreadOk(s, t)} :: t in s.pc ==> ThreadOk(s, t))
  }

  lemma {:induction false} WithoutAt(q: seq<Entry>, e: Entry, x: Entry)
    requires Distinct(q) && e in q
    ensures |Without(q, e)| == |q| - 1 && Distinct(Without(q, e))
    ensures x in Without(q, e) <==> x in q && x != e
  {
    if q[0] == e {
      assert q == [q[0]] + q[1..];
    } else {
      var r := q[1..];
      assert q == [q[0]] + r;
      WithoutAt(r, e, x);
      var w := Without(r, e);
      forall i | 0 <= i < |w| ensures w[i].thread != q[0].thread {
        WithoutAt(r, e, w[i]);
        assert w[i] in r;
      }
    }
  }

  /** A step that leaves the list alone. */
  lemma {:induction false} QuietKeeps(s: State, s': State, t: int, l: int, w: int, p: Pc)
    requires Inv(s) && t in s.pc && s' == State(s'.mem, l, w, s.queue, s.pc[t := p])
    requires l == s.lock || (s.lock == FREE && l == t) || (s.lock == t && l == FREE)
    requires Locked(p) <==> l == t
    requires Queued(s.pc[t]) <==> Queued(p)
    requires Queued(p) ==> p.a == s.pc[t].a
    requires (p.WakeScan? || p.WakeDec?) ==> RestOk(s.queue, p.rest)
    requires (p.WakeScan? || p.WakeDec? || p.WakeLoad? || p.WakeLock?) ==> p.count > 0
    requires w == |s.queue| + Pending(s')
    ensures Inv(s')
  {
    assert ThreadOk(s, t);
    forall i | 0 <= i < |s'.queue| ensures EntryOk(s', i) { assert EntryOk(s, i); }
    forall u | u in s'.pc ensures ThreadOk(s', u) { assert ThreadOk(s, u); }
  }

  lemma {:induction false} InsertKeeps(s: State, t: int, a: int, v: int)
    requires Inv(s) && t in s.pc && s.pc[t] == WaitInsert(a, v)
    ensures Inv(Goto(s.(queue := [Entry(a, t)] + s.queue), t, WaitUnlock(a, v)))
  {
    var s' := Goto(s.(queue := [Entry(a, t)] + s.queue), t, WaitUnlock(a, v));
    assert ThreadOk(s, t);
    forall i | 0 <= i < |s'.queue| ensures EntryOk(s', i) && (i > 0 ==> s'.queue[i].thread != t) {
      if i > 0 { assert EntryOk(s, i - 1); assert s'.queue[i] == s.queue[i - 1]; }
    }
    forall u | u in s'.pc ensures ThreadOk(s', u) {
      assert ThreadOk(s, u);
      assert u != t && Queued(s.pc[u]) ==> Entry(s.pc[u].a, u) in s'.queue;
      assert u != t ==> !Locked(s.pc[u]);
    }
  }

  lemma {:induction false} RemoveKeeps(s: State, t: int, a: int, count: int, rest: seq<Entry>)
    requires Inv(s) && t in s.pc && s.pc[t] == WakeScan(a, count, rest) && rest != [] && rest[0].addr == a
    ensures Inv(Goto(Goto(s.(queue := Without(s.queue, rest[0])), rest[0].thread, Idle), t,
            WakeDec(a, count, rest[1..])))
  {
    hide Without;
    var e := rest[0];
    var q' := Without(s.queue, e);
    var s' := Goto(Goto(s.(queue := q'), e.thread, Idle), t, WakeDec(a, count, rest[1..]));
    assert ThreadOk(s, t);
    assert e in s.queue;
    WithoutAt(s.queue, e, e);
    OnList(s, e);
    forall i | 0 <= i < |q'| ensures EntryOk(s', i) {
      WithoutAt(s.queue, e, q'[i]);
      OnList(s, q'[i]);
      SameThread(s, e, q'[i]);
    }
    forall i | 0 <= i < |rest[1..]| ensures rest[1..][i] in q' {
      WithoutAt(s.queue, e, rest[i + 1]);
      assert rest[1..][i] == rest[i + 1];
    }
    forall u | u in s'.pc ensures ThreadOk(s', u) {
      if u in s.pc { assert ThreadOk(s, u); }
      if u in s.pc && Queued(s.pc[u]) { WithoutAt(s.queue, e, Entry(s.pc[u].a, u)); }
    }
  }

  /** An entry of the list belongs to a blocked thread. */
  lemma {:induction false} OnList(s: State, e: Entry)
    requires Inv(s) && e in s.queue
    ensures e.thread in s.pc && Queued(s.pc[e.thread]) && s.pc[e.thread].a == e.addr && e.thread >= 0
  {
    var i :| 0 <= i < |s.queue| && s.queue[i] == e;
    assert EntryOk(s, i) && ThreadOk(s, e.thread);
  }

  lemma {:induction false} SameThread(s: State, e: Entry, x: Entry)
    requires Inv(s) && e in s.queue && x in s.queue
    ensures e.thread == x.thread ==> e == x
  {
    var i :| 0 <= i < |s.queue| && s.queue[i] == e;
    var j :| 0 <= j < |s.queue| && s.queue[j] == x;
  }

  /** Every step keeps the invariant. */
  lemma {:induction false} StepKeeps(s: State, s': State, t: int)
    requires Inv(s) && Step(s, s', t)
    ensures Inv(s')
  {
    assert ThreadOk(s, t);
    var p := s.pc[t];
    if p.WaitInsert? {
      InsertKeeps(s, t, p.a, p.v);
    } else if p.WakeScan? && p.rest != [] && p.rest[0].addr == p.a {
      RemoveKeeps(s, t, p.a, p.count, p.rest);
    } else {
      QuietStep(s, s', t);
    }
  }

  lemma {:induction false} QuietStep(s: State, s': State, t: int)
    requires Inv(s) && Step(s, s', t) && !s.pc[t].WaitInsert?
    requires !(s.pc[t].WakeScan? && s.pc[t].rest != [] && s.pc[t].rest[0].addr == s.pc[t].a)
    ensures Inv(s')
  {
    assert ThreadOk(s, t);
    if s.pc[t].WakeScan? && s.pc[t].rest != [] { RestShrinks(s.queue, s.pc[t].rest); }
    if s.lock != FREE { assert ThreadOk(s, s.lock); }
    assert s'.pc == s.pc[t := At(s', t)];
    QuietKeeps(s, s', t, s'.lock, s'.waiters, At(s', t));
  }

  lemma {:induction false} RestShrinks(q: seq<Entry>, rest: seq<Entry>)
    requires RestOk(q, rest) && rest != []
    ensures RestOk(q, rest[1..])
  {
    var r := rest[1..];
    forall i | 0 <= i < |r| ensures r[i] in q { assert r[i] == rest[i + 1]; }
    forall i, j | 0 <= i < |r| && 0 <= j < |r| && r[i].thread == r[j].thread ensures i == j {
      assert r[i] == rest[i + 1] && r[j] == rest[j + 1];
    }
  }

  /** Whenever the bucket lock is free, the count is the length of the list. */
  lemma {:induction false} CountIsLength(s: State)
    requires Inv(s) && s.lock == FREE
    ensures s.waiters == |s.queue|
  {}

  lemma {:induction false} InitInv(s: State)
    requires Init(s) && forall t :: t in s.pc ==> t >= 0
    ensures Inv(s)
  {
    forall t | t in s.pc ensures ThreadOk(s, t) { assert At(s, t) == Idle; }
  }

  // ---- No lost wake-up -----------------------------------------------------------------------------------------

  /** Thread `t` read `v` at `a`, and is queued there or about to be. */
  predicate Reader(p: Pc, a: int, v: int) {
    (p.WaitInsert? || p.WaitUnlock? || p.Blocked?) && p.a == a && p.v == v
  }

  ghost predicate NoReaders(s: State, a: int, v: int) {
    forall t {:trigger At(s, t)} :: !Reader(At(s, t), a, v)
  }

  /** Readers left are those that the waker has not come to yet. */
  ghost predicate ReadersIn(s: State, a: int, v: int, rest: seq<Entry>) {
    forall t {:trigger At(s, t)} :: Reader(At(s, t), a, v) ==> At(s, t) == Blocked(a, v) && Entry(a, t) in rest
  }

  /** How far waker `w` got with its job: before its scan nothing is known, during the scan readers are
      only in the rest of the list, and afterwards there are none. */
  ghost predicate Phase(s: State, w: int, a: int, v: int) {
    match At(s, w)
    case WakeLoad(b, count) => b == a && count > |s.pc|
    case WakeLock(b, count) => b == a && count > |s.pc|
    case WakeScan(b, count, rest) => b == a && count > |rest| && ReadersIn(s, a, v, rest)
    case WakeDec(b, count, rest) => b == a && count > |rest| + 1 && ReadersIn(s, a, v, rest)
    case WakeUnlock => NoReaders(s, a, v)
    case _ => NoReaders(s, a, v)
  }

  /** The Dekker argument: a waker that sees no waiters after its store may leave, because a waiter
      counts itself before it reads. */
  lemma {:induction false} NobodyCounted(s: State, a: int, v: int)
    requires Inv(s) && s.waiters == 0
    ensures NoReaders(s, a, v)
  {
    forall t ensures !Reader(At(s, t), a, v) {
      if Reader(At(s, t), a, v) { ReaderCounted(s, a, v, t); }
    }
  }

  lemma {:induction false} ReaderCounted(s: State, a: int, v: int, t: int)
    requires Inv(s) && Reader(At(s, t), a, v)
    ensures s.waiters > 0
  {
    assert ThreadOk(s, t);
  }

  /** With the lock in hand, all readers are on the list. */
  lemma {:induction false} AllOnList(s: State, a: int, v: int)
    requires Inv(s) && s.lock == FREE
    ensures ReadersIn(s, a, v, s.queue)
  {
    forall t | Reader(At(s, t), a, v) ensures At(s, t) == Blocked(a, v) && Entry(a, t) in s.queue {
      assert ThreadOk(s, t);
    }
  }

  lemma {:induction false} FewerThanThreads(s: State)
    requires Inv(s)
    ensures |s.queue| <= |s.pc|
  {
    var threads := ThreadsOf(s.queue);
    forall t | t in threads ensures t in s.pc {
      InThreads(s.queue, t);
      var i :| 0 <= i < |s.queue| && s.queue[i].thread == t;
      assert EntryOk(s, i);
    }
    ThreadCount(s.queue);
    SubsetSize(threads, s.pc.Keys);
  }

  ghost function ThreadsOf(q: seq<Entry>): set<int> {
    if q == [] then {} else ThreadsOf(q[..|q| - 1]) + {q[|q| - 1].thread}
  }

  lemma {:induction false} InThreads(q: seq<Entry>, t: int)
    ensures t in ThreadsOf(q) <==> exists i :: 0 <= i < |q| && q[i].thread == t
  {
    if q != [] {
      var r := q[..|q| - 1];
      InThreads(r, t);
      if exists i :: 0 <= i < |q| && q[i].thread == t {
        var i :| 0 <= i < |q| && q[i].thread == t;
        assert i < |r| ==> r[i].thread == t;
      }
      if t in ThreadsOf(r) {
        var i :| 0 <= i < |r| && r[i].thread == t;
        assert q[i].thread == t;
      }
    }
  }

  lemma {:induction false} ThreadCount(q: seq<Entry>)
    requires Distinct(q)
    ensures |ThreadsOf(q)| == |q|
  {
    if q != [] {
      var r := q[..|q| - 1];
      ThreadCount(r);
      InThreads(r, q[|q| - 1].thread);
    }
  }

  /** A thread becomes a reader only by reading `v`. */
  lemma {:induction false} NoNewReaders(s: State, s': State, t: int, a: int, v: int, u: int)
    requires Inv(s) && Step(s, s', t) && Value(s, a) != v && Reader(At(s', u), a, v)
    ensures Reader(At(s, u), a, v)
    ensures At(s, u).Blocked? ==> At(s', u) == At(s, u)
    ensures !At(s, u).Blocked? ==> u == t || At(s', u) == At(s, u)
  {
    assert ThreadOk(s, t);
    if s.pc[t].WakeScan? && s.pc[t].rest != [] { assert s.pc[t].rest[0] in s.queue; OnList(s, s.pc[t].rest[0]); }
  }

  lemma {:induction false} ReadersStay(s: State, s': State, t: int, a: int, v: int, rest: seq<Entry>)
    requires Inv(s) && Step(s, s', t) && Value(s, a) != v && ReadersIn(s, a, v, rest)
    ensures ReadersIn(s', a, v, rest)
  {
    forall u | Reader(At(s', u), a, v) ensures At(s', u) == Blocked(a, v) && Entry(a, u) in rest {
      NoNewReaders(s, s', t, a, v, u);
    }
  }

  lemma {:induction false} NoReadersStay(s: State, s': State, t: int, a: int, v: int)
    requires Inv(s) && Step(s, s', t) && Value(s, a) != v && NoReaders(s, a, v)
    ensures NoReaders(s', a, v)
  {
    forall u ensures !Reader(At(s', u), a, v) {
      if Reader(At(s', u), a, v) { NoNewReaders(s, s', t, a, v, u); }
    }
  }

  /** The waker's own steps, and those of all others, respect the phases. */
  lemma {:induction false} PhaseKeeps(s: State, s': State, t: int, w: int, a: int, v: int)
    requires Inv(s) && Step(s, s', t) && Value(s, a) != v && Phase(s, w, a, v)
    requires At(s, w).WakeLoad? || At(s, w).WakeLock? || At(s, w).WakeScan? || At(s, w).WakeDec? || At(s, w).WakeUnlock?
    ensures Phase(s', w, a, v)
  {
    if t == w { OwnStep(s, s', w, a, v); } else { OtherStep(s, s', t, w, a, v); }
  }

  lemma {:induction false} OtherStep(s: State, s': State, t: int, w: int, a: int, v: int)
    requires Inv(s) && Step(s, s', t) && Value(s, a) != v && Phase(s, w, a, v) && t != w
    requires At(s, w).WakeLoad? || At(s, w).WakeLock? || At(s, w).WakeScan? || At(s, w).WakeDec? || At(s, w).WakeUnlock?
    ensures Phase(s', w, a, v)
  {
    hide Inv, Step;
    OthersStay(s, s', t, w);
    var p := At(s, w);
    if p.WakeScan? || p.WakeDec? { ReadersStay(s, s', t, a, v, p.rest); }
    if p.WakeUnlock? { NoReadersStay(s, s', t, a, v); }
  }

  /** A step moves nobody else but a blocked thread that it wakes. */
  lemma {:induction false} OthersStay(s: State, s': State, t: int, w: int)
    requires Inv(s) && Step(s, s', t) && t != w && w in s.pc && !Queued(s.pc[w])
    ensures At(s', w) == At(s, w) && |s'.pc| == |s.pc|
  {
    assert ThreadOk(s, t);
    if s.pc[t].WakeScan? && s.pc[t].rest != [] { assert s.pc[t].rest[0] in s.queue; OnList(s, s.pc[t].rest[0]); }
    assert s'.pc.Keys == s.pc.Keys;
  }

  lemma {:induction false} OwnStep(s: State, s': State, w: int, a: int, v: int)
    requires Inv(s) && Step(s, s', w) && Value(s, a) != v && Phase(s, w, a, v)
    requires At(s, w).WakeLoad? || At(s, w).WakeLock? || At(s, w).WakeScan? || At(s, w).WakeDec? || At(s, w).WakeUnlock?
    ensures Phase(s', w, a, v)
  {
    var p := At(s, w);
    assert ThreadOk(s, w);
    if p.WakeLoad? {
      if s.waiters == 0 { NobodyCounted(s, a, v); NoReadersStay(s, s', w, a, v); }
      assert s'.pc.Keys == s.pc.Keys;
    } else if p.WakeLock? {
      FewerThanThreads(s);
      AllOnList(s, a, v);
      ReadersStay(s, s', w, a, v, s.queue);
    } else if p.WakeScan? {
      ScanStep(s, s', w, a, v);
    } else if p.WakeDec? {
      DecStep(s, s', w, a, v);
    } else {
      NoReadersStay(s, s', w, a, v);
    }
  }

  lemma {:induction false} ScanStep(s: State, s': State, w: int, a: int, v: int)
    requires Inv(s) && Step(s, s', w) && Value(s, a) != v && Phase(s, w, a, v) && At(s, w).WakeScan?
    ensures Phase(s', w, a, v)
  {
    var p := At(s, w);
    ReadersStay(s, s', w, a, v, p.rest);
    if p.rest != [] {
      var e := p.rest[0];
      assert p.rest == [e] + p.rest[1..];
      forall t | Reader(At(s', t), a, v) ensures Entry(a, t) in p.rest[1..] {
        assert Entry(a, t) in p.rest;
        assert e.addr == a ==> !Queued(At(s', e.thread));
      }
    }
  }

  lemma {:induction false} DecStep(s: State, s': State, w: int, a: int, v: int)
    requires Inv(s) && Step(s, s', w) && Value(s, a) != v && Phase(s, w, a, v) && At(s, w).WakeDec?
    ensures Phase(s', w, a, v)
  {
    var p := At(s, w);
    ReadersStay(s, s', w, a, v, p.rest);
    StepKeeps(s, s', w);
    if s'.waiters == 0 { NobodyCounted(s', a, v); }
  }

  // ---- Runs ------------------------------------------------------------------------------------------------------

  /** `run[i + 1]` comes from `run[i]` by a step of thread `who[i]`. */
  ghost predicate Run(run: seq<State>, who: seq<int>) {
    && |run| == |who| + 1 && Init(run[0]) && (forall t :: t in run[0].pc ==> t >= 0)
    && forall i {:trigger who[i]} :: 0 <= i < |who| ==> Step(run[i], run[i + 1], who[i])
  }

  /** Every reachable state satisfies the invariant. */
  lemma {:induction false} RunInv(run: seq<State>, who: seq<int>, i: nat)
    requires Run(run, who) && i < |run|
    ensures Inv(run[i])
  {
    if i == 0 {
      InitInv(run[0]);
    } else {
      RunInv(run, who, i - 1);
      assert Step(run[i - 1], run[i], who[i - 1]);
      StepKeeps(run[i - 1], run[i], who[i - 1]);
    }
  }

  lemma {:induction false} PhaseAt(run: seq<State>, who: seq<int>, w: int, a: int, v: int, b: nat, i: nat)
    requires Run(run, who) && b <= i < |run| && Phase(run[b], w, a, v)
    requires forall k {:trigger run[k]} :: b <= k < |run| ==> Value(run[k], a) != v
    requires forall k {:trigger run[k]} :: b <= k < i ==> !At(run[k], w).Idle?
    requires At(run[b], w).WakeLoad?
    ensures Phase(run[i], w, a, v)
    ensures i > b ==> Waking(At(run[i], w)) || At(run[i], w).Idle?
    ensures i == b ==> Waking(At(run[i], w))
  {
    if i > b {
      PhaseAt(run, who, w, a, v, b, i - 1);
      RunInv(run, who, i - 1);
      assert !At(run[i - 1], w).Idle? && Value(run[i - 1], a) != v;
      assert Step(run[i - 1], run[i], who[i - 1]);
      PhaseKeeps(run[i - 1], run[i], who[i - 1], w, a, v);
      StaysWaking(run[i - 1], run[i], who[i - 1], w);
    }
  }

  predicate Waking(p: Pc) {
    p.WakeLoad? || p.WakeLock? || p.WakeScan? || p.WakeDec? || p.WakeUnlock?
  }

  lemma {:induction false} StaysWaking(s: State, s': State, t: int, w: int)
    requires Inv(s) && Step(s, s', t) && Waking(At(s, w))
    ensures Waking(At(s', w)) || At(s', w).Idle?
  {
    if t != w { OthersStay(s, s', t, w); }
  }

  lemma {:induction false} NoReadersAfter(run: seq<State>, who: seq<int>, a: int, v: int, m: nat, i: nat)
    requires Run(run, who) && m <= i < |run| && NoReaders(run[m], a, v)
    requires forall k {:trigger run[k]} :: m <= k < |run| ==> Value(run[k], a) != v
    ensures NoReaders(run[i], a, v)
  {
    if i > m {
      NoReadersAfter(run, who, a, v, m, i - 1);
      RunInv(run, who, i - 1);
      assert Value(run[i - 1], a) != v;
      assert Step(run[i - 1], run[i], who[i - 1]);
      NoReadersStay(run[i - 1], run[i], who[i - 1], a, v);
    }
  }

  /** No lost wake-up. At time `b` the word at `a` differs from `v` for good, and thread `w` starts
      `futex_kwake(a, ALL)`; at time `m` it is done. From then on, no thread that read `v` is queued on
      `a`, nor about to be. */
  lemma {:induction false} NoLostWakeup(run: seq<State>, who: seq<int>, w: int, a: int, v: int, b: nat, m: nat, i: nat)
    requires Run(run, who) && b < m <= i < |run|
    requires forall k {:trigger run[k]} :: b <= k < |run| ==> Value(run[k], a) != v
    requires At(run[b], w).WakeLoad? && At(run[b], w).a == a && At(run[b], w).count > |run[b].pc|
    requires (forall k {:trigger run[k]} :: b <= k < m ==> !At(run[k], w).Idle?) && At(run[m], w).Idle?
    ensures NoReaders(run[i], a, v)
  {
    PhaseAt(run, who, w, a, v, b, m);
    NoReadersAfter(run, who, a, v, m, i);
  }
}
