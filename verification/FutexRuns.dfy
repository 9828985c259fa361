/** What the runs of `kernel/k_futex.c` come to, from the point of view of one call: how `futex_kwait` can return,
    whom a `futex_kwake` takes off the list, and that neither gets stuck with the lock. */
module FutexRuns {
  import opened Futex
  import opened KernelLists

  // ---- A thread can go on --------------------------------------------------------------------------------

  /** A thread is stuck if and only if it is blocked, or wants a lock that is taken. */
  lemma {:induction false} StuckIff(s: State, t: int)
    requires Inv(s) && t in s.pc
    ensures (exists s' {:trigger Step(s, s', t)} :: Step(s, s', t)) <==>
            !s.pc[t].Blocked? && (s.pc[t].WaitLock? || s.pc[t].WakeLock? ==> s.lock == FREE)
  {
    hide Inv;
    assert t >= 0 by { ThreadPositive(s, t); }
    var p := s.pc[t];
    match p
    case Idle => assert Begin(s, Goto(s, t, WaitLock(0, 0)), t); assert Step(s, Goto(s, t, WaitLock(0, 0)), t);
    case WaitLock(a, v) => assert s.lock == FREE ==> Step(s, Goto(s.(lock := t), t, WaitInc(a, v)), t);
    case WaitInc(a, v) => assert Step(s, Goto(s.(waiters := s.waiters + 1), t, WaitLoad(a, v)), t);
    case WaitLoad(a, v) => assert Step(s, Goto(s, t, if Value(s, a) == v then WaitInsert(a, v) else WaitDec), t);
    case WaitInsert(a, v) => assert Step(s, Goto(s.(queue := [Entry(a, t)] + s.queue), t, WaitUnlock(a, v)), t);
    case WaitUnlock(a, v) => assert Step(s, Goto(s.(lock := FREE), t, Blocked(a, v)), t);
    case Blocked(a, v) =>
    case WaitDec => assert Step(s, Goto(s.(waiters := s.waiters - 1), t, WaitLeave), t);
    case WaitLeave => assert Step(s, Goto(s.(lock := FREE), t, Idle), t);
    case WakeLoad(a, n) => assert Step(s, Goto(s, t, if s.waiters == 0 then Idle else WakeLock(a, n)), t);
    case WakeLock(a, n) => assert s.lock == FREE ==> Step(s, Goto(s.(lock := t), t, WakeScan(a, n, s.queue)), t);
    case WakeScan(a, n, rest) => ScanGoes(s, t);
    case WakeDec(a, n, rest) => ScanGoes(s, t);
    case WakeUnlock => assert Step(s, Goto(s.(lock := FREE), t, Idle), t);
  }

  lemma {:induction false} ThreadPositive(s: State, t: int)
    requires Inv(s) && t in s.pc
    ensures t >= 0
  {
    assert ThreadOk(s, t);
  }

  lemma {:induction false} ScanGoes(s: State, t: int)
    requires t in s.pc && t >= 0 && (s.pc[t].WakeScan? || s.pc[t].WakeDec?)
    ensures exists s' {:trigger Step(s, s', t)} :: Step(s, s', t)
  {
    var p := s.pc[t];
    if p.WakeDec? {
      var w := s.waiters - 1;
      assert Step(s, Goto(s.(waiters := w), t,
                          if w == 0 || p.count - 1 == 0 then WakeUnlock else WakeScan(p.a, p.count - 1, p.rest)), t);
    } else if p.rest == [] {
      assert Step(s, Goto(s, t, WakeUnlock), t);
    } else if p.rest[0].addr != p.a {
      assert Step(s, Goto(s, t, WakeScan(p.a, p.count, p.rest[1..])), t);
    } else {
      assert Step(s, Goto(Goto(s.(queue := Without(s.queue, p.rest[0])), p.rest[0].thread, Idle), t,
                          WakeDec(p.a, p.count, p.rest[1..])), t);
    }
  }

  /** A thread outside may wait for any value, wake any number, and store any value. */
  lemma {:induction false} OutsideIsFree(s: State, t: int, a: int, x: int)
    requires t in s.pc && t >= 0 && s.pc[t].Idle?
    ensures Step(s, Goto(s, t, WaitLock(a, x)), t) && (x > 0 ==> Step(s, Goto(s, t, WakeLoad(a, x)), t))
    ensures Step(s, s.(mem := s.mem[a := x]), t)
  {
    var p, q := WaitLock(a, x), WakeLoad(a, x);
    var m := s.mem[a := x];
  }

  /** The most steps that a thread at `p` takes before it lets go of the lock. */
  function Work(p: Pc): nat {
    match p
    case WaitInc(_, _) => 4
    case WaitLoad(_, _) => 3
    case WaitInsert(_, _) => 2
    case WaitUnlock(_, _) => 1
    case WaitDec => 2
    case WaitLeave => 1
    case WakeScan(_, _, rest) => 2 * |rest| + 2
    case WakeDec(_, _, rest) => 2 * |rest| + 3
    case WakeUnlock => 1
    case _ => 0
  }

  /** The holder of the lock lets go of it, or has less work left. */
  lemma {:induction false} HolderWorks(s: State, s': State, t: int)
    requires Inv(s) && Step(s, s', t) && s.lock == t
    ensures s'.lock == FREE || (s'.lock == t && Work(At(s', t)) < Work(At(s, t)))
    ensures s'.lock == FREE ==> Work(At(s, t)) == 1
  {
    assert ThreadOk(s, t);
  }

  /** Nobody else touches the lock meanwhile. */
  lemma {:induction false} OthersWait(s: State, s': State, t: int, w: int)
    requires Inv(s) && Step(s, s', t) && s.lock == w != FREE && t != w
    ensures s'.lock == w && At(s', w) == At(s, w) && s'.queue == s.queue && s'.waiters == s.waiters
  {
    assert ThreadOk(s, t) && ThreadOk(s, w);
  }

  /** How many of the steps from `i` to `j` thread `t` made. */
  ghost function StepsOf(who: seq<int>, t: int, i: nat, j: nat): nat
    requires i <= j <= |who|
  {
    if i == j then 0 else StepsOf(who, t, i, j - 1) + if who[j - 1] == t then 1 else 0
  }

  /** Whoever has the lock lets go of it after a number of own steps that is known when it is taken. */
  lemma {:induction false} LockIsReleased(run: seq<State>, who: seq<int>, t: int, i: nat, j: nat)
    requires Run(run, who) && i <= j < |run| && t != FREE
    requires forall k {:trigger run[k]} :: i <= k <= j ==> run[k].lock == t
    ensures StepsOf(who, t, i, j) + Work(At(run[j], t)) <= Work(At(run[i], t)) && Work(At(run[j], t)) > 0
  {
    if i < j {
      LockIsReleased(run, who, t, i, j - 1);
      RunInv(run, who, j - 1);
      assert Step(run[j - 1], run[j], who[j - 1]);
      assert run[j - 1].lock == t && run[j].lock == t;
      if who[j - 1] == t { HolderWorks(run[j - 1], run[j], t); } else { OthersWait(run[j - 1], run[j], who[j - 1], t); }
    } else {
      RunInv(run, who, i);
      assert run[i].lock == t;
      assert ThreadOk(run[i], t);
    }
  }

  // ---- How a wait ends -----------------------------------------------------------------------------------

  /** At step `k` thread `t` found another value than the one it wanted to wait for. */
  ghost predicate ReadOther(run: seq<State>, who: seq<int>, k: nat, t: int, a: int, v: int)
    requires k < |who| && |run| == |who| + 1
  {
    who[k] == t && At(run[k], t) == WaitLoad(a, v) && Value(run[k], a) != v
  }

  /** At step `k` another thread, in a wake on address `a`, took the entry of blocked thread `t` off the list. */
  ghost predicate Woken(run: seq<State>, who: seq<int>, k: nat, t: int, a: int, v: int)
    requires k < |who| && |run| == |who| + 1
  {
    && who[k] != t && At(run[k], t) == Blocked(a, v) && Entry(a, t) in run[k].queue && Entry(a, t) !in run[k + 1].queue
    && var p := At(run[k], who[k]);
       p.WakeScan? && p.a == a && p.count > 0 && p.rest != [] && p.rest[0] == Entry(a, t)
  }

  /** Thread `t` is in a call of `futex_kwait(a, v)` that has not found another value. */
  predicate InWait(p: Pc, a: int, v: int) {
    p == WaitLock(a, v) || p == WaitInc(a, v) || p == WaitLoad(a, v) || p == WaitInsert(a, v) || p == WaitUnlock(a, v)
    || p == Blocked(a, v)
  }

  /** A step of another thread moves a waiting one only if it wakes it. */
  lemma {:induction false} OnlyWoken(s: State, s': State, w: int, t: int, a: int, v: int)
    requires Inv(s) && Step(s, s', w) && w != t && At(s', t) != At(s, t) && InWait(At(s, t), a, v)
    ensures At(s, t) == Blocked(a, v) && Entry(a, t) in s.queue && Entry(a, t) !in s'.queue
    ensures At(s, w).WakeScan? && At(s, w).a == a && At(s, w).count > 0
    ensures At(s, w).rest != [] && At(s, w).rest[0] == Entry(a, t) && At(s', t) == Idle
  {
    assert t in s.pc && ThreadOk(s, w) && ThreadOk(s, t);
    var p := s.pc[w];
    assert p.WakeScan? && p.rest != [] && p.rest[0].addr == p.a && p.rest[0].thread == t;
    assert p.rest[0] in s.queue;
    OnList(s, p.rest[0]);
    WithoutAt(s.queue, p.rest[0], p.rest[0]);
  }

  lemma {:induction false} OwnWaitStep(s: State, s': State, t: int, a: int, v: int)
    requires Step(s, s', t) && InWait(At(s, t), a, v)
    ensures if At(s, t).WaitLoad? && Value(s, a) != v then At(s', t).WaitDec? else InWait(At(s', t), a, v)
  {}

  /** A thread on its way out stays so until it is outside. */
  lemma {:induction false} LeavingStep(s: State, s': State, w: int, t: int)
    requires Inv(s) && Step(s, s', w) && (At(s, t).WaitDec? || At(s, t).WaitLeave?)
    ensures At(s', t).WaitDec? || At(s', t).WaitLeave? || (w == t && At(s', t).Idle?)
  {
    if w != t { OthersStay(s, s', w, t); }
  }

  /** Where thread `t` is at time `m` of a call that began at time `i`. */
  lemma {:induction false} WaitGoes(run: seq<State>, who: seq<int>, t: int, a: int, v: int, i: nat, m: nat)
    returns (k: nat)
    requires Run(run, who) && i <= m < |run| && At(run[i], t) == WaitLock(a, v)
    requires forall x {:trigger run[x]} :: i <= x < m ==> !At(run[x], t).Idle?
    ensures if InWait(At(run[m], t), a, v) then true
            else i <= k < m && (ReadOther(run, who, k, t, a, v) || (k == m - 1 && Woken(run, who, k, t, a, v)))
    ensures !InWait(At(run[m], t), a, v) && !At(run[m], t).Idle? ==>
              (At(run[m], t).WaitDec? || At(run[m], t).WaitLeave?) && ReadOther(run, who, k, t, a, v)
  {
    k := 0;
    if i < m {
      k := WaitGoes(run, who, t, a, v, i, m - 1);
      RunInv(run, who, m - 1);
      var s, s', w := run[m - 1], run[m], who[m - 1];
      assert Step(s, s', w) && !At(s, t).Idle?;
      if InWait(At(s, t), a, v) {
        if w == t {
          OwnWaitStep(s, s', t, a, v);
          if At(s, t).WaitLoad? && Value(s, a) != v { k := m - 1; }
        } else if At(s', t) != At(s, t) {
          OnlyWoken(s, s', w, t, a, v);
          k := m - 1;
        }
      } else {
        LeavingStep(s, s', w, t);
      }
    }
  }

  /** A call of `futex_kwait(a, v)` returns only for one of two reasons: its load found another value, or a wake on the
      same address took it off the list. */
  lemma {:induction false} WaitReturns(run: seq<State>, who: seq<int>, t: int, a: int, v: int, i: nat, j: nat)
    returns (k: nat)
    requires Run(run, who) && i < j < |run| && At(run[i], t) == WaitLock(a, v) && At(run[j], t).Idle?
    requires forall x {:trigger run[x]} :: i <= x < j ==> !At(run[x], t).Idle?
    ensures i <= k < j && (ReadOther(run, who, k, t, a, v) || (k == j - 1 && Woken(run, who, k, t, a, v)))
  {
    k := WaitGoes(run, who, t, a, v, i, j);
  }

  /** A thread that read the value it waits for is at the head of the list, and blocked, when the lock is next free. */
  lemma {:induction false} ReaderIsQueued(run: seq<State>, who: seq<int>, t: int, a: int, v: int, k: nat, m: nat)
    requires Run(run, who) && k < m < |run| && who[k] == t
    requires At(run[k], t) == WaitLoad(a, v) && Value(run[k], a) == v
    requires forall x {:trigger run[x]} :: k < x < m ==> run[x].lock != FREE
    ensures if run[m].lock == FREE then At(run[m], t) == Blocked(a, v)
            else run[m].lock == t && (At(run[m], t) == WaitInsert(a, v) || At(run[m], t) == WaitUnlock(a, v))
    ensures !At(run[m], t).WaitInsert? ==> run[m].queue != [] && run[m].queue[0] == Entry(a, t)
  {
    RunInv(run, who, m - 1);
    var s, s', w := run[m - 1], run[m], who[m - 1];
    assert Step(s, s', w);
    if m - 1 == k {
      assert ThreadOk(s, t);
    } else {
      ReaderIsQueued(run, who, t, a, v, k, m - 1);
      assert s.lock != FREE;
      if w != t { OthersWait(s, s', w, t); }
    }
  }

  // ---- Whom a wake takes ---------------------------------------------------------------------------------

  /** The threads of the entries, in list order. A thread has one entry, so this names the nodes. */
  function Threads(q: seq<Entry>): seq<int> {
    if q == [] then [] else [q[0].thread] + Threads(q[1..])
  }

  /** The threads that wait on address `a`. */
  ghost function Waiting(q: seq<Entry>, a: int): set<int> {
    set e | e in q && e.addr == a :: e.thread
  }

  lemma {:induction false} ThreadsOfSum(p: seq<Entry>, q: seq<Entry>)
    ensures Threads(p + q) == Threads(p) + Threads(q)
  {
    if p == [] {
      assert p + q == q;
    } else {
      assert (p + q)[1..] == p[1..] + q;
      ThreadsOfSum(p[1..], q);
    }
  }

  lemma {:induction false} WithoutInside(front: seq<Entry>, rest: seq<Entry>)
    requires rest != [] && Futex.Distinct(front + rest)
    ensures Without(front + rest, rest[0]) == front + rest[1..]
  {
    if front == [] {
      assert front + rest == rest && front + rest[1..] == rest[1..];
    } else {
      var q := front + rest;
      assert q[0] == front[0] && q[1..] == front[1..] + rest && q[|front|] == rest[0];
      assert Futex.Distinct(q[1..]) by {
        forall i, j | 0 <= i < |q[1..]| && 0 <= j < |q[1..]| && q[1..][i].thread == q[1..][j].thread ensures i == j {
          assert q[1..][i] == q[i + 1] && q[1..][j] == q[j + 1];
        }
      }
      WithoutInside(front[1..], rest);
      assert front + rest[1..] == [front[0]] + (front[1..] + rest[1..]);
    }
  }

  /** How far the waker at `p` got with list `q0`: `front` was left on the list, `n` more may be taken of `rest`. */
  ghost predicate Scanned(q0: seq<Entry>, q: seq<Entry>, a: int, n0: nat, front: seq<Entry>, rest: seq<Entry>, n: nat) {
    && q == front + rest
    && Threads(front) + Kept(Threads(rest), Waiting(q0, a), n) == Kept(Threads(q0), Waiting(q0, a), n0)
    && (forall e {:trigger e in rest} :: e in rest ==> e in q0)
  }

  ghost predicate Scanning(q0: seq<Entry>, q: seq<Entry>, a: int, n0: nat, rest: seq<Entry>, n: nat) {
    exists front :: Scanned(q0, q, a, n0, front, rest, n)
  }

  /** Where the wake of `w` stands, for a list that was `q0` when it took the lock. */
  ghost predicate WakeAt(s: State, w: int, a: int, n0: nat, q0: seq<Entry>) {
    match At(s, w)
    case WakeScan(b, n, rest) => b == a && n > 0 && Scanning(q0, s.queue, a, n0, rest, n)
    case WakeDec(b, n, rest) => b == a && n > 0 && Scanning(q0, s.queue, a, n0, rest, n - 1)
    case WakeUnlock => Threads(s.queue) == Kept(Threads(q0), Waiting(q0, a), n0)
    case _ => false
  }

  lemma {:induction false} InWaiting(q: seq<Entry>, a: int, e: Entry)
    requires Futex.Distinct(q) && e in q
    ensures e.thread in Waiting(q, a) <==> e.addr == a
  {
    if e.thread in Waiting(q, a) {
      var x :| x in q && x.addr == a && x.thread == e.thread;
      var i :| 0 <= i < |q| && q[i] == x;
      var j :| 0 <= j < |q| && q[j] == e;
    }
  }

  lemma {:induction false} ScanSkips(q0: seq<Entry>, q: seq<Entry>, a: int, n0: nat, front: seq<Entry>,
                                     rest: seq<Entry>, n: nat)
    requires Futex.Distinct(q0) && Scanned(q0, q, a, n0, front, rest, n) && rest != [] && n > 0
    requires rest[0].addr != a
    ensures Scanned(q0, q, a, n0, front + [rest[0]], rest[1..], n)
  {
    hide Kept, Waiting, Threads;
    var e, m := rest[0], Waiting(q0, a);
    assert e in rest;
    InWaiting(q0, a, e);
    ThreadsOfSum(front, [e]);
    ThreadsNext(rest);
    KeptNext(Threads(rest), m, n);
    assert front + rest == front + [e] + rest[1..];
    Reassociate(Threads(front), e.thread, Kept(Threads(rest[1..]), m, n));
    forall x | x in rest[1..] ensures x in q0 { assert x in rest; }
  }

  lemma {:induction false} ThreadsNext(q: seq<Entry>)
    requires q != []
    ensures Threads(q) != [] && Threads(q)[0] == q[0].thread && Threads(q)[1..] == Threads(q[1..])
    ensures Threads([q[0]]) == [q[0].thread]
  {}

  lemma {:induction false} Reassociate(p: seq<int>, x: int, q: seq<int>)
    ensures p + ([x] + q) == p + [x] + q
  {}

  lemma {:induction false} KeptNext(q: seq<int>, m: set<int>, n: nat)
    requires q != [] && n > 0
    ensures Kept(q, m, n) == if q[0] in m then Kept(q[1..], m, n - 1) else [q[0]] + Kept(q[1..], m, n)
  {}

  lemma {:induction false} ScanTakes(q0: seq<Entry>, q: seq<Entry>, a: int, n0: nat, front: seq<Entry>,
                                     rest: seq<Entry>, n: nat)
    requires Futex.Distinct(q0) && Futex.Distinct(q) && Scanned(q0, q, a, n0, front, rest, n) && rest != [] && n > 0
    requires rest[0].addr == a
    ensures Scanned(q0, Without(q, rest[0]), a, n0, front, rest[1..], n - 1)
  {
    hide Kept, Waiting, Threads;
    assert rest[0] in rest;
    InWaiting(q0, a, rest[0]);
    WithoutInside(front, rest);
    ThreadsNext(rest);
    KeptNext(Threads(rest), Waiting(q0, a), n);
    forall e | e in rest[1..] ensures e in q0 { assert e in rest; }
  }

  lemma {:induction false} ScanEnds(q0: seq<Entry>, q: seq<Entry>, a: int, n0: nat, front: seq<Entry>, rest: seq<Entry>,
                                    n: nat)
    requires Scanned(q0, q, a, n0, front, rest, n) && (rest == [] || n == 0)
    ensures Threads(q) == Kept(Threads(q0), Waiting(q0, a), n0)
  {
    ThreadsOfSum(front, rest);
    assert Kept(Threads(rest), Waiting(q0, a), n) == Threads(rest);
  }

  /** One step of the waker. */
  lemma {:induction false} WakeGoes(s: State, s': State, w: int, a: int, n0: nat, q0: seq<Entry>)
    requires Inv(s) && Step(s, s', w) && s.lock == w && WakeAt(s, w, a, n0, q0) && Futex.Distinct(q0)
    ensures At(s', w).Idle? || WakeAt(s', w, a, n0, q0)
    ensures At(s', w).Idle? ==> Threads(s'.queue) == Kept(Threads(q0), Waiting(q0, a), n0)
  {
    hide Inv, Scanned;
    var p := At(s, w);
    QueueDistinct(s);
    if p.WakeScan? {
      var front :| Scanned(q0, s.queue, a, n0, front, p.rest, p.count);
      ScanGoesOn(s, s', w, a, n0, q0, front);
    } else if p.WakeDec? {
      var front :| Scanned(q0, s.queue, a, n0, front, p.rest, p.count - 1);
      DecGoesOn(s, s', w, a, n0, q0, front);
    }
  }

  lemma {:induction false} QueueDistinct(s: State)
    requires Inv(s)
    ensures Futex.Distinct(s.queue)
  {}

  lemma {:induction false} ScanGoesOn(s: State, s': State, w: int, a: int, n0: nat, q0: seq<Entry>, front: seq<Entry>)
    requires Inv(s) && Step(s, s', w) && At(s, w).WakeScan? && At(s, w).a == a && At(s, w).count > 0
    requires Futex.Distinct(q0) && Scanned(q0, s.queue, a, n0, front, At(s, w).rest, At(s, w).count)
    ensures WakeAt(s', w, a, n0, q0)
  {
    hide Inv, Scanned;
    var p := At(s, w);
    QueueDistinct(s);
    if p.rest == [] {
      ScanEnds(q0, s.queue, a, n0, front, p.rest, p.count);
    } else if p.rest[0].addr != a {
      ScanSkips(q0, s.queue, a, n0, front, p.rest, p.count);
      assert Scanned(q0, s'.queue, a, n0, front + [p.rest[0]], At(s', w).rest, p.count);
    } else {
      ScanTakes(q0, s.queue, a, n0, front, p.rest, p.count);
    }
  }

  lemma {:induction false} DecGoesOn(s: State, s': State, w: int, a: int, n0: nat, q0: seq<Entry>, front: seq<Entry>)
    requires Inv(s) && Step(s, s', w) && At(s, w).WakeDec? && At(s, w).a == a && At(s, w).count > 0 && s.lock == w
    requires Futex.Distinct(q0) && Scanned(q0, s.queue, a, n0, front, At(s, w).rest, At(s, w).count - 1)
    ensures WakeAt(s', w, a, n0, q0)
  {
    hide Scanned;
    var p := At(s, w);
    if p.count - 1 == 0 {
      ScanEnds(q0, s.queue, a, n0, front, p.rest, 0);
    } else if s.waiters - 1 == 0 {
      assert s.queue == [];
      EmptyScan(q0, s.queue, a, n0, front, p.rest, p.count - 1);
      ScanEnds(q0, s.queue, a, n0, front, p.rest, p.count - 1);
    }
  }

  lemma {:induction false} EmptyScan(q0: seq<Entry>, q: seq<Entry>, a: int, n0: nat, front: seq<Entry>,
                                     rest: seq<Entry>, n: nat)
    requires Scanned(q0, q, a, n0, front, rest, n) && q == []
    ensures rest == []
  {
    assert |q| == |front| + |rest|;
  }

  lemma {:induction false} WakeStarts(s: State, s': State, w: int, a: int, n: nat)
    requires Inv(s) && Step(s, s', w) && At(s, w) == WakeLock(a, n) && n > 0
    ensures s'.lock == w && WakeAt(s', w, a, n, s.queue) && Futex.Distinct(s.queue)
  {
    var front: seq<Entry> := [];
    assert front + s.queue == s.queue && Threads(front) == [];
    assert Scanned(s.queue, s'.queue, a, n, front, s.queue, n);
  }

  lemma {:induction false} WakeHolds(run: seq<State>, who: seq<int>, w: int, a: int, n: nat, b: nat, m: nat)
    requires Run(run, who) && b < m < |run| && who[b] == w && At(run[b], w) == WakeLock(a, n)
    requires forall x {:trigger run[x]} :: b <= x < m ==> !At(run[x], w).Idle?
    ensures n > 0
    ensures if At(run[m], w).Idle? then
              Threads(run[m].queue) == Kept(Threads(run[b].queue), Waiting(run[b].queue, a), n)
            else run[m].lock == w && WakeAt(run[m], w, a, n, run[b].queue)
  {
    hide WakeAt;
    RunInv(run, who, m - 1);
    RunInv(run, who, b);
    assert ThreadOk(run[b], w);
    var s, s', t := run[m - 1], run[m], who[m - 1];
    assert Step(s, s', t) && !At(s, w).Idle?;
    if m - 1 == b {
      WakeStarts(s, s', w, a, n);
      NotIdle(s', w, a, n, s.queue);
    } else {
      WakeHolds(run, who, w, a, n, b, m - 1);
      if t == w {
        QueueDistinct(run[b]);
        WakeGoes(s, s', w, a, n, run[b].queue);
        if !At(s', w).Idle? { HolderKeeps(s, s', w, a, n, run[b].queue); }
      } else {
        OthersWait(s, s', t, w);
        SameWake(s, s', w, a, n, run[b].queue);
      }
    }
  }

  lemma {:induction false} NotIdle(s: State, w: int, a: int, n: nat, q0: seq<Entry>)
    requires WakeAt(s, w, a, n, q0)
    ensures !At(s, w).Idle?
  {}

  lemma {:induction false} HolderKeeps(s: State, s': State, w: int, a: int, n: nat, q0: seq<Entry>)
    requires Inv(s) && Step(s, s', w) && s.lock == w && WakeAt(s', w, a, n, q0)
    ensures s'.lock == w
  {
    assert ThreadOk(s, w);
  }

  lemma {:induction false} SameWake(s: State, s': State, w: int, a: int, n: nat, q0: seq<Entry>)
    requires WakeAt(s, w, a, n, q0) && At(s', w) == At(s, w) && s'.queue == s.queue
    ensures WakeAt(s', w, a, n, q0)
  {}

  /** A wake of `n` on address `a`, from the moment it takes the lock to its end, leaves on the list exactly what the
      list loop of `__do_futex_wake` leaves: the first `n` entries for `a` are gone and nothing else is. */
  lemma {:induction false} WakeTakes(run: seq<State>, who: seq<int>, w: int, a: int, n: nat, b: nat, m: nat)
    requires Run(run, who) && b < m < |run| && who[b] == w && At(run[b], w) == WakeLock(a, n) && At(run[m], w).Idle?
    requires forall x {:trigger run[x]} :: b <= x < m ==> !At(run[x], w).Idle?
    ensures Threads(run[m].queue) == Kept(Threads(run[b].queue), Waiting(run[b].queue, a), n)
    ensures run[m].waiters == |run[m].queue|
    ensures |run[m].queue| == |run[b].queue| - |Taken(Threads(run[b].queue), Waiting(run[b].queue, a), n)|
  {
    WakeHolds(run, who, w, a, n, b, m);
    FreeAtEnd(run, who, w, a, n, b, m);
    RunInv(run, who, m);
    CountIsLength(run[m]);
    var q := run[b].queue;
    TakenExactly(Threads(q), Waiting(q, a), n);
    assert |multiset(Kept(Threads(q), Waiting(q, a), n)) + multiset(Taken(Threads(q), Waiting(q, a), n))|
        == |multiset(Threads(q))|;
    ThreadsLength(q);
    ThreadsLength(run[m].queue);
  }

  lemma {:induction false} ThreadsLength(q: seq<Entry>)
    ensures |Threads(q)| == |q|
  {
    if q != [] { ThreadsLength(q[1..]); }
  }

  lemma {:induction false} FreeAtEnd(run: seq<State>, who: seq<int>, w: int, a: int, n: nat, b: nat, m: nat)
    requires Run(run, who) && b < m < |run| && who[b] == w && At(run[b], w) == WakeLock(a, n) && At(run[m], w).Idle?
    requires forall x {:trigger run[x]} :: b <= x < m ==> !At(run[x], w).Idle?
    ensures run[m].lock == FREE
  {
    hide WakeAt;
    RunInv(run, who, m - 1);
    var s, s', t := run[m - 1], run[m], who[m - 1];
    assert Step(s, s', t) && !At(s, w).Idle?;
    RunInv(run, who, m);
    assert ThreadOk(s', w);
    if m - 1 == b {
      WakeStarts(s, s', w, a, n);
      NotIdle(s', w, a, n, s.queue);
    } else {
      WakeHolds(run, who, w, a, n, b, m - 1);
      if t == w { HolderWorks(s, s', w); } else { OthersWait(s, s', t, w); }
    }
  }
}
