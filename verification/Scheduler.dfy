/** The multi-level feedback scheduler of `kernel/k_sched.c`: per-CPU ready lists for 64 levels. The
    running process stays on its ready list; blocking (or leaving) and rescheduling are one step. */
module Scheduler {
  import opened Words

  const TOTAL_LEVELS: nat := 64
  const UNIT_QUANTUM: nat := 20
  const TICK: nat := 10

  datatype Class = IDLE | NORMAL | DRIVER | RT | RT_DRIVER

  datatype Proc = Proc(cls: Class, cpu: int, priority: int, quantum: int, ready: bool)

  /** A ready list. */
  datatype Slot = Slot(cpu: int, level: int)
  type Lists = map<Slot, seq<int>>
  type Procs = map<int, Proc>

  // ---- Priorities and quanta ----------------------------------------------------------------------------

  function LevelMin(c: Class): int {
    match c case IDLE => 0 case NORMAL => 1 case DRIVER => 16 case RT => 32 case RT_DRIVER => 48
  }

  /** `get_priority(class)`: the top of the band. */
  function LevelMax(c: Class): int {
    match c case IDLE => 0 case NORMAL => 15 case DRIVER => 31 case RT => 47 case RT_DRIVER => 63
  }

  predicate InBand(c: Class, priority: int) {
    LevelMin(c) <= priority <= LevelMax(c)
  }

  /** `get_quantum(proc)`. */
  function Quantum(p: Proc): int {
    if p.cls == IDLE then WORD - 1 else (LevelMax(p.cls) - p.priority + 1) * UNIT_QUANTUM
  }

  function ClampTo(p: int, c: Class): int {
    if p > LevelMax(c) then LevelMax(c) else if p < LevelMin(c) then LevelMin(c) else p
  }

  /** `clampped_priority_change(proc, delta)`, on words. The case of an idle process sets `p` to 0
      and then falls into the next case. */
  function Clamped(c: Class, priority: nat, delta: int): int {
    var p := (priority + delta) % WORD;
    if c == IDLE then ClampTo(0, NORMAL) else ClampTo(p, c)
  }

  /** A change by one stays in the band for every class but idle, which is thrown out of its band. */
  lemma {:induction false} ClampedInBand(c: Class, priority: nat, delta: int)
    requires InBand(c, priority) && (delta == 1 || delta == -1)
    ensures InBand(c, Clamped(c, priority, delta)) <==> c != IDLE
    ensures c != IDLE ==> Clamped(c, priority, delta) == ClampTo(priority + delta, c)
    ensures c == IDLE ==> Clamped(c, priority, delta) == 1
  {}

  /** A fresh quantum is a positive multiple of the tick for every class but idle, whose quantum is odd
      and so never runs down to zero. */
  lemma {:induction false} FreshQuantum(p: Proc)
    requires InBand(p.cls, p.priority)
    ensures if p.cls == IDLE then Quantum(p) % 2 == 1 else Quantum(p) % TICK == 0 && TICK <= Quantum(p) <= 320
  {}

  /** How urgent a class is. */
  function Rank(c: Class): nat {
    match c case IDLE => 0 case NORMAL => 1 case DRIVER => 2 case RT => 3 case RT_DRIVER => 4
  }

  /** The bands of the classes divide up the 64 levels: every level is in one band, the more urgent class has the higher
      levels, and the four bands above idle take 15, 16, 16 and 16 of them. */
  lemma {:induction false} BandsPartition(c: Class, d: Class, level: int)
    ensures InBand(c, level) ==> 0 <= level < TOTAL_LEVELS
    ensures 0 <= level < TOTAL_LEVELS ==> exists e {:trigger InBand(e, level)} :: InBand(e, level)
    ensures InBand(c, level) && InBand(d, level) ==> c == d
    ensures LevelMax(c) < LevelMin(d) <==> Rank(c) < Rank(d)
    ensures LevelMax(c) - LevelMin(c) == match c case IDLE => 0 case NORMAL => 14 case _ => 15
  {
    assert 0 <= level < TOTAL_LEVELS ==>
        InBand(IDLE, level) || InBand(NORMAL, level) || InBand(DRIVER, level) || InBand(RT, level)
        || InBand(RT_DRIVER, level);
  }

  /** The quantum is two ticks at the top of the band, and two ticks longer on each level below. */
  lemma {:induction false} QuantumSteps(p: Proc)
    requires InBand(p.cls, p.priority) && p.cls != IDLE
    ensures p.priority == LevelMax(p.cls) ==> Ticked(Ticked(Quantum(p))) == 0
    ensures p.priority > LevelMin(p.cls) ==>
              Ticked(Ticked(Quantum(p.(priority := p.priority - 1)))) == Quantum(p)
  {}

  function Ticked(quantum: int): int {
    (quantum - TICK) % WORD
  }

  lemma {:induction false} OddStaysOdd(quantum: int)
    requires quantum % 2 == 1
    ensures Ticked(quantum) % 2 == 1 && Ticked(quantum) != 0
  {}

  ghost function WithFreshQuantum(procs: Procs, p: int): Proc {
    if p in procs then procs[p].(quantum := Quantum(procs[p])) else Proc(IDLE, 0, 0, 0, false)
  }

  /** `cur` is one level down within its band, `next` runs with a fresh quantum unless it is `cur`, and nothing else
      changed. */
  ghost predicate Demoted(procs: Procs, procs': Procs, cur: int, next: int) {
    && cur in procs && next in procs
    && var demoted := procs[cur].(priority := ClampTo(procs[cur].priority - 1, procs[cur].cls), quantum := 0);
       procs' == if next == cur then procs[cur := demoted]
                 else procs[cur := demoted][next := WithFreshQuantum(procs, next)]
  }

  /** Process `p` is the first of the ready list of its level. */
  ghost predicate HeadOfLevel(lists: Lists, procs: Procs, c: int, p: int) {
    && p in procs && Slot(c, procs[p].priority) in lists
    && lists[Slot(c, procs[p].priority)] != [] && lists[Slot(c, procs[p].priority)][0] == p
  }

  // ---- Lists ------------------------------------------------------------------------------------------------

  ghost predicate Distinct(q: seq<int>) {
    forall i, j {:trigger q[i], q[j]} :: 0 <= i < |q| && 0 <= j < |q| && q[i] == q[j] ==> i == j
  }

  /** `list_remove`. */
  function Without(q: seq<int>, p: int): seq<int> {
    if q == [] then [] else if q[0] == p then q[1..] else [q[0]] + Without(q[1..], p)
  }

  lemma {:induction false} WithoutAt(q: seq<int>, p: int, x: int)
    requires Distinct(q)
    ensures Distinct(Without(q, p))
    ensures x in Without(q, p) <==> x in q && x != p
  {
    if q != [] && q[0] != p {
      var r := q[1..];
      assert q == [q[0]] + r;
      WithoutAt(r, p, x);
      WithoutAt(r, p, q[0]);
    } else if q != [] {
      assert q == [q[0]] + q[1..];
    }
  }

  /** Exactly the member goes, and the others keep their order. */
  lemma {:induction false} WithoutSplit(q: seq<int>, i: nat)
    requires i < |q| && q[i] !in q[..i]
    ensures Without(q, q[i]) == q[..i] + q[i + 1..]
  {
    if i > 0 {
      assert q[1..][..i - 1] == q[1..i] && q[..i] == [q[0]] + q[1..i];
      WithoutSplit(q[1..], i - 1);
    }
  }

  lemma {:induction false} AppendDistinct(q: seq<int>, p: int)
    requires Distinct(q) && p !in q
    ensures Distinct(q + [p])
  {}

  // ---- The invariant -------------------------------------------------------------------------------------------

  datatype State = State(
    cpus: int, lists: Lists, counts: map<int, int>, procs: Procs, current: map<int, int>, idle: map<int, int>)

  /** The CPU whose lists a process is on: idle processes have a fixed one. */
  function Home(s: State, p: int): int
    requires p in s.procs
  {
    if p in s.idle then s.idle[p] else s.procs[p].cpu
  }

  function SlotOf(s: State, p: int): Slot
    requires p in s.procs
  {
    Slot(Home(s, p), s.procs[p].priority)
  }

  predicate IsSlot(s: State, k: Slot) {
    0 <= k.cpu < s.cpus && 0 <= k.level < TOTAL_LEVELS
  }

  /** The processes on a list belong there. */
  ghost predicate ListOk(s: State, k: Slot) {
    && k in s.lists && Distinct(s.lists[k])
    && forall p {:trigger p in s.lists[k]} :: p in s.lists[k] ==> p in s.procs && s.procs[p].ready && SlotOf(s, p) == k
  }

  /** A ready process is on the list of its level, and its level is in the band of its class. */
  ghost predicate ProcOk(s: State, p: int)
    requires p in s.procs
  {
    && InBand(s.procs[p].cls, s.procs[p].priority)
    && (s.procs[p].cls == IDLE <==> p in s.idle)
    && (s.procs[p].ready ==> IsSlot(s, SlotOf(s, p)) && SlotOf(s, p) in s.lists && p in s.lists[SlotOf(s, p)])
    && (p in s.idle ==> s.procs[p].ready && s.procs[p].quantum % 2 == 1)
  }

  /** The processes that a CPU counts. */
  ghost function OnCpu(s: State, c: int): set<int> {
    set p | p in s.procs && p !in s.idle && s.procs[p].ready && s.procs[p].cpu == c
  }

  /** CPU `c` runs a ready process of its own, has an idle process, and counts right. */
  ghost predicate CpuOk(s: State, c: int) {
    && c in s.current && s.current[c] in s.procs && s.procs[s.current[c]].ready && Home(s, s.current[c]) == c
    && (exists p {:trigger p in s.idle} :: p in s.idle && s.idle[p] == c)
    && c in s.counts && s.counts[c] == |OnCpu(s, c)|
  }

  ghost predicate Inv(s: State) {
    && s.cpus > 0
    && (forall k {:trigger ListOk(s, k)} :: IsSlot(s, k) ==> ListOk(s, k))
    && (forall p {:trigger ProcOk(s, p)} :: p in s.procs ==> ProcOk(s, p))
    && (forall p {:trigger p in s.idle} :: p in s.idle ==> p in s.procs && 0 <= s.idle[p] < s.cpus)
    && (forall c {:trigger CpuOk(s, c)} :: 0 <= c < s.cpus ==> CpuOk(s, c))
  }

  // ---- What a step may change ------------------------------------------------------------------------------------

  /** `list_insert(node, list.prev)` after `list_remove(node)`: `p` moves from list `k` to the end of `k'`. */
  function Moved(lists: Lists, p: int, k: Slot, k': Slot): Lists
    requires k in lists && k' in lists
  {
    var l := lists[k := Without(lists[k], p)];
    l[k' := l[k'] + [p]]
  }

  /** List `k` has `p` as its new last member, and no other list changed. */
  ghost predicate Appended(lists: Lists, lists': Lists, k: Slot, p: int) {
    k in lists && lists' == lists[k := lists[k] + [p]]
  }

  /** `p` went from list `k` to the end of list `k'`, and no other list changed. */
  ghost predicate SentBack(lists: Lists, lists': Lists, p: int, k: Slot, k': Slot) {
    k in lists && k' in lists && lists' == Moved(lists, p, k, k')
  }

  /** `p` goes to the end of the list of its new priority. */
  ghost function Repositioned(s: State, p: int, priority: int): State
    requires p in s.procs && SlotOf(s, p) in s.lists && Slot(Home(s, p), priority) in s.lists
  {
    s.(lists := Moved(s.lists, p, SlotOf(s, p), Slot(Home(s, p), priority)),
       procs := s.procs[p := s.procs[p].(priority := priority)])
  }

  lemma {:induction false} RepositionKeeps(s: State, p: int, priority: int)
    requires Inv(s) && p in s.procs && s.procs[p].ready && InBand(s.procs[p].cls, priority)
    ensures SlotOf(s, p) in s.lists && Slot(Home(s, p), priority) in s.lists && Inv(Repositioned(s, p, priority))
  {
    assert ProcOk(s, p);
    var k, k' := SlotOf(s, p), Slot(Home(s, p), priority);
    assert ListOk(s, k) && ListOk(s, k');
    var s' := Repositioned(s, p, priority);
    forall j | IsSlot(s', j) ensures ListOk(s', j) {
      assert ListOk(s, j);
      RepositionList(s, p, priority, j);
    }
    forall q | q in s'.procs ensures ProcOk(s', q) {
      assert ProcOk(s, q);
      WithoutAt(s.lists[k], p, q);
      assert SlotOf(s', q) == if q == p then k' else SlotOf(s, q);
    }
    forall c | 0 <= c < s'.cpus ensures CpuOk(s', c) {
      assert CpuOk(s, c);
      assert OnCpu(s', c) == OnCpu(s, c);
    }
  }

  lemma {:induction false} RepositionList(s: State, p: int, priority: int, j: Slot)
    requires p in s.procs && s.procs[p].ready && SlotOf(s, p) in s.lists && Slot(Home(s, p), priority) in s.lists
    requires ListOk(s, j) && ListOk(s, SlotOf(s, p)) && ListOk(s, Slot(Home(s, p), priority))
    ensures ListOk(Repositioned(s, p, priority), j)
  {
    var k, k' := SlotOf(s, p), Slot(Home(s, p), priority);
    var s' := Repositioned(s, p, priority);
    var rest := Without(s.lists[j], p);
    WithoutAt(s.lists[j], p, p);
    AppendDistinct(rest, p);
    if j != k && j == k' { AppendDistinct(s.lists[j], p); }
    forall q | q in s'.lists[j] ensures q in s'.procs && s'.procs[q].ready && SlotOf(s', q) == j {
      WithoutAt(s.lists[j], p, q);
    }
  }

  /** `p` becomes ready on CPU `c`. */
  ghost function MadeReady(s: State, p: int, c: int): State
    requires p in s.procs && c in s.counts && Slot(c, s.procs[p].priority) in s.lists
  {
    var k := Slot(c, s.procs[p].priority);
    s.(lists := s.lists[k := s.lists[k] + [p]], counts := s.counts[c := s.counts[c] + 1],
       procs := s.procs[p := s.procs[p].(cpu := c, ready := true)])
  }

  lemma {:induction false} ReadyKeeps(s: State, p: int, c: int)
    requires Inv(s) && p in s.procs && !s.procs[p].ready && 0 <= c < s.cpus
    ensures c in s.counts && Slot(c, s.procs[p].priority) in s.lists && Inv(MadeReady(s, p, c))
  {
    assert ProcOk(s, p) && CpuOk(s, c);
    var k := Slot(c, s.procs[p].priority);
    assert ListOk(s, k);
    assert p !in s.lists[k];
    AppendDistinct(s.lists[k], p);
    var s' := MadeReady(s, p, c);
    forall j | IsSlot(s', j) ensures ListOk(s', j) { assert ListOk(s, j); }
    forall q | q in s'.procs ensures ProcOk(s', q) { assert ProcOk(s, q); }
    forall d | 0 <= d < s'.cpus ensures CpuOk(s', d) {
      assert CpuOk(s, d);
      assert OnCpu(s', d) == if d == c then OnCpu(s, d) + {p} else OnCpu(s, d);
      assert p !in OnCpu(s, d);
    }
  }

  /** CPU `c` runs `next` with a fresh quantum. */
  ghost function Switched(s: State, c: int, next: int): State
    requires next in s.procs
  {
    s.(current := s.current[c := next], procs := s.procs[next := s.procs[next].(quantum := Quantum(s.procs[next]))])
  }

  lemma {:induction false} SwitchKeeps(s: State, c: int, next: int)
    requires Inv(s) && 0 <= c < s.cpus && next in s.procs && s.procs[next].ready && Home(s, next) == c
    ensures Inv(Switched(s, c, next))
  {
    var s' := Switched(s, c, next);
    assert ProcOk(s, next);
    FreshQuantum(s.procs[next]);
    SameButQuantum(s, s', next);
    forall d | 0 <= d < s'.cpus ensures CpuOk(s', d) {
      assert CpuOk(s, d);
      assert OnCpu(s', d) == OnCpu(s, d);
    }
  }

  /** Lists and processes do not notice a new quantum of the right parity. */
  lemma {:induction false} SameButQuantum(s: State, s': State, p: int)
    requires Inv(s) && p in s.procs && s'.cpus == s.cpus && s'.lists == s.lists && s'.idle == s.idle
    requires p in s'.procs && s'.procs == s.procs[p := s.procs[p].(quantum := s'.procs[p].quantum)]
    requires p in s.idle ==> s'.procs[p].quantum % 2 == 1
    ensures forall k {:trigger ListOk(s', k)} :: IsSlot(s', k) ==> ListOk(s', k)
    ensures forall q {:trigger ProcOk(s', q)} :: q in s'.procs ==> ProcOk(s', q)
  {
    assert ProcOk(s, p);
    forall k | IsSlot(s', k) ensures ListOk(s', k) { assert ListOk(s, k); }
    forall q | q in s'.procs ensures ProcOk(s', q) { assert ProcOk(s, q); }
  }

  lemma {:induction false} TickKeeps(s: State, p: int, quantum: int)
    requires Inv(s) && p in s.procs && (p in s.idle ==> quantum % 2 == 1)
    ensures Inv(s.(procs := s.procs[p := s.procs[p].(quantum := quantum)]))
  {
    var s' := s.(procs := s.procs[p := s.procs[p].(quantum := quantum)]);
    SameButQuantum(s, s', p);
    forall d | 0 <= d < s'.cpus ensures CpuOk(s', d) {
      assert CpuOk(s, d);
      assert OnCpu(s', d) == OnCpu(s, d);
    }
  }

  /** `p` is taken off its list and no longer ready; if it was running, its CPU runs `next`. */
  ghost function TakenOff(s: State, p: int, priority: int, c: int, next: int): State
    requires p in s.procs && SlotOf(s, p) in s.lists && Home(s, p) in s.counts
  {
    s.(lists := s.lists[SlotOf(s, p) := Without(s.lists[SlotOf(s, p)], p)],
       counts := s.counts[Home(s, p) := s.counts[Home(s, p)] - 1],
       procs := s.procs[p := s.procs[p].(priority := priority, ready := false)],
       current := s.current[c := next])
  }

  lemma {:induction false} TakeOffKeeps(s: State, c: int, p: int, priority: int, next: int)
    requires Inv(s) && 0 <= c < s.cpus && p in s.procs && p !in s.idle && s.procs[p].ready && Home(s, p) == c
    requires InBand(s.procs[p].cls, priority)
    requires next in s.procs && s.procs[next].ready && Home(s, next) == c && next != p
    ensures SlotOf(s, p) in s.lists && Home(s, p) in s.counts && Inv(TakenOff(s, p, priority, c, next))
  {
    assert ProcOk(s, p) && CpuOk(s, c);
    var k := SlotOf(s, p);
    assert ListOk(s, k);
    var s' := TakenOff(s, p, priority, c, next);
    forall j | IsSlot(s', j) ensures ListOk(s', j) {
      assert ListOk(s, j);
      if j == k { TakeOffList(s, c, p, priority, next); }
    }
    forall q | q in s'.procs ensures ProcOk(s', q) {
      assert ProcOk(s, q);
      WithoutAt(s.lists[k], p, q);
      assert q != p ==> SlotOf(s', q) == SlotOf(s, q);
    }
    forall d | 0 <= d < s'.cpus ensures CpuOk(s', d) {
      assert CpuOk(s, d);
      assert OnCpu(s', d) == if d == c then OnCpu(s, d) - {p} else OnCpu(s, d);
      assert d == c ==> p in OnCpu(s, d);
      assert exists q {:trigger q in s'.idle} :: q in s'.idle && s'.idle[q] == d;
    }
  }

  lemma {:induction false} TakeOffList(s: State, c: int, p: int, priority: int, next: int)
    requires p in s.procs && SlotOf(s, p) in s.lists && Home(s, p) in s.counts && ListOk(s, SlotOf(s, p))
    ensures ListOk(TakenOff(s, p, priority, c, next), SlotOf(s, p))
  {
    var k := SlotOf(s, p);
    var s' := TakenOff(s, p, priority, c, next);
    WithoutAt(s.lists[k], p, p);
    forall q | q in s'.lists[k] ensures q in s'.procs && s'.procs[q].ready && SlotOf(s', q) == k {
      WithoutAt(s.lists[k], p, q);
    }
  }

  // ---- The scheduler -----------------------------------------------------------------------------------------------

  /** No ready process on CPU `c` has a higher priority than the running one. */
  ghost predicate TopRuns(s: State, c: int) {
    c in s.current && s.current[c] in s.procs
    && forall p {:trigger p in s.procs} :: p in s.procs && s.procs[p].ready && Home(s, p) == c ==>
         s.procs[p].priority <= s.procs[s.current[c]].priority
  }

  /** The head of the highest non-empty list of CPU `c`. */
  ghost predicate Highest(s: State, c: int, p: int) {
    && p in s.procs && s.procs[p].ready && Home(s, p) == c && IsSlot(s, SlotOf(s, p)) && SlotOf(s, p) in s.lists
    && s.lists[SlotOf(s, p)] != [] && s.lists[SlotOf(s, p)][0] == p
    && forall q {:trigger q in s.procs} :: q in s.procs && s.procs[q].ready && Home(s, q) == c ==>
      s.procs[q].priority <= s.procs[p].priority
  }

  /** The state without process `p`: `next` is the head of the highest list of CPU `c` that is not empty then. */
  ghost predicate NextWithout(s: State, c: int, p: int, next: int) {
    && next in s.procs && next != p && s.procs[next].ready && Home(s, next) == c && SlotOf(s, next) in s.lists
    && Without(s.lists[SlotOf(s, next)], p) != [] && Without(s.lists[SlotOf(s, next)], p)[0] == next
    && forall q {:trigger q in s.procs} :: q in s.procs && q != p && s.procs[q].ready && Home(s, q) == c ==>
         s.procs[q].priority <= s.procs[next].priority
  }

  lemma {:induction false} HighestWithout(s: State, c: int, p: int, priority: int, next: int, idler: int)
    requires Inv(s) && p in s.procs && p !in s.idle && SlotOf(s, p) in s.lists && Home(s, p) in s.counts
    requires Highest(TakenOff(s, p, priority, c, idler), c, next)
    ensures NextWithout(s, c, p, next)
  {
    hide Without;
    var s' := TakenOff(s, p, priority, c, idler);
    assert next in s.procs && next != p;
    if SlotOf(s, next) != SlotOf(s, p) { NotOnOther(s, p, SlotOf(s, next)); }
    forall q | q in s.procs && q != p && s.procs[q].ready && Home(s, q) == c
      ensures s.procs[q].priority <= s.procs[next].priority
    {
      assert q in s'.procs;
    }
  }

  lemma {:induction false} NotOnOther(s: State, p: int, k: Slot)
    requires Inv(s) && p in s.procs && IsSlot(s, k) && k != SlotOf(s, p)
    ensures k in s.lists && Without(s.lists[k], p) == s.lists[k]
  {
    assert ListOk(s, k);
    WithoutNone(s.lists[k], p);
  }

  lemma {:induction false} WithoutNone(q: seq<int>, p: int)
    requires p !in q
    ensures Without(q, p) == q
  {
    if q != [] { WithoutNone(q[1..], p); }
  }

  lemma {:induction false} HeadIsHighest(s: State, c: int, i: nat)
    requires Inv(s) && 0 <= c < s.cpus && i < TOTAL_LEVELS && Slot(c, i) in s.lists && s.lists[Slot(c, i)] != []
    requires forall j :: i < j < TOTAL_LEVELS ==> Slot(c, j) in s.lists && s.lists[Slot(c, j)] == []
    ensures Highest(s, c, s.lists[Slot(c, i)][0])
  {
    var p := s.lists[Slot(c, i)][0];
    assert ListOk(s, Slot(c, i));
    assert p in s.lists[Slot(c, i)];
    forall q | q in s.procs && s.procs[q].ready && Home(s, q) == c ensures s.procs[q].priority <= i {
      assert ProcOk(s, q);
    }
  }

  /** The lists of a CPU are never all empty: its idle process stays at level 0. */
  lemma {:induction false} IdleIsReady(s: State, c: int)
    requires Inv(s) && 0 <= c < s.cpus
    ensures Slot(c, 0) in s.lists && s.lists[Slot(c, 0)] != []
  {
    assert CpuOk(s, c);
    var p :| p in s.idle && s.idle[p] == c;
    assert ProcOk(s, p);
  }

  predicate IsCpu(cpus: int, c: int) {
    0 <= c < cpus
  }

  function Cpus(cpus: int): set<int> {
    set c: int | 0 <= c < cpus && IsCpu(cpus, c)
  }

  function AllSlots(cpus: int): set<Slot> {
    set c, l | 0 <= c < cpus && 0 <= l < TOTAL_LEVELS :: Slot(c, l)
  }

  /** Every CPU runs its own idle process and nothing else. */
  ghost function Started(cpus: int): State {
    State(cpus, map k | k in AllSlots(cpus) :: if k.level == 0 then [k.cpu] else [],
          map c | c in Cpus(cpus) :: 0, map c | c in Cpus(cpus) :: Proc(IDLE, 0, 0, WORD - 1, true),
          map c | c in Cpus(cpus) :: c, map c | c in Cpus(cpus) :: c)
  }

  lemma {:induction false} StartInv(cpus: nat)
    requires cpus > 0
    ensures Inv(Started(cpus))
  {
    var s := Started(cpus);
    forall k | IsSlot(s, k) ensures ListOk(s, k) { assert Slot(k.cpu, k.level) in AllSlots(cpus); }
    forall p | p in s.procs ensures ProcOk(s, p) { assert Slot(p, 0) in AllSlots(cpus); }
    forall c | 0 <= c < cpus ensures CpuOk(s, c) {
      assert c in Cpus(cpus);
      assert c in s.idle;
      assert OnCpu(s, c) == {};
    }
  }

  class Queues {
    const cpus: int
    const idle: map<int, int>
    var lists: Lists
    var counts: map<int, int>
    var procs: Procs
    var current: map<int, int>

    ghost function St(): State
      reads this
    {
      State(cpus, lists, counts, procs, current, idle)
    }

    ghost predicate Valid()
      reads this
    {
      Inv(St())
    }

    /** `sched_init`, and `sched_start` on every CPU: each runs its own idle process and nothing else. */
    constructor (cpus: nat)
      requires cpus > 0
      ensures Valid() && this.cpus == cpus
      ensures St() == Started(cpus)
    {
      this.cpus := cpus;
      idle := map c | c in Cpus(cpus) :: c;
      lists := map k | k in AllSlots(cpus) :: if k.level == 0 then [k.cpu] else [];
      counts := map c | c in Cpus(cpus) :: 0;
      procs := map c | c in Cpus(cpus) :: Proc(IDLE, 0, 0, WORD - 1, true);
      current := map c | c in Cpus(cpus) :: c;
      new;
      StartInv(cpus);
    }

    /** Process counts fit the 64-bit counter. */
    ghost predicate Countable()
      reads this
    {
      forall d {:trigger d in counts} :: 0 <= d < cpus ==> d in counts && counts[d] < WORD
    }

    /** `sched_pick_cpu`: the first CPU with the fewest processes. */
    method PickCpu() returns (c: int)
      requires Valid() && Countable()
      ensures 0 <= c < cpus && forall d :: 0 <= d < cpus ==> counts[c] <= counts[d]
      ensures forall d :: 0 <= d < c ==> counts[c] < counts[d]
    {
      c := 0;
      var least := WORD - 1;
      var i := 0;
      while i < cpus
        invariant 0 <= i <= cpus && 0 <= c < cpus
        invariant (least == WORD - 1 && c == 0) || (c < i && least == counts[c])
        invariant forall d :: 0 <= d < i ==> least <= counts[d]
        invariant forall d :: 0 <= d < c ==> least < counts[d]
      {
        if counts[i] < least {
          c, least := i, counts[i];
        }
        i := i + 1;
      }
      assert c in counts;
    }

    /** `sched_set_ready(proc)`: it goes to the end of its level on a CPU with the fewest processes. */
    method SetReady(p: int) returns (c: int)
      requires Valid() && p in procs && !procs[p].ready && Countable()
      modifies this
      ensures Valid() && current == old(current) && 0 <= c < cpus
      ensures procs == old(procs)[p := old(procs[p]).(cpu := c, ready := true)]
      ensures forall d :: 0 <= d < cpus ==> old(counts[c]) <= old(counts[d])
      ensures forall d :: 0 <= d < c ==> old(counts[c]) < old(counts[d])
      ensures Appended(old(lists), lists, Slot(c, procs[p].priority), p)
      ensures counts == old(counts)[c := old(counts[c]) + 1]
    {
      hide Inv;
      c := PickCpu();
      ReadyKeeps(St(), p, c);
      var k := Slot(c, procs[p].priority);
      lists := lists[k := lists[k] + [p]];
      counts := counts[c := counts[c] + 1];
      procs := procs[p := procs[p].(cpu := c, ready := true)];
    }

    /** `sched_enter(proc)` for a new process: it starts at the top of its band. */
    method Enter(p: int, cls: Class)
      requires Valid() && p !in procs && cls != IDLE && Countable()
      modifies this
      ensures Valid() && current == old(current) && p in procs
      ensures procs == old(procs)[p := Proc(cls, procs[p].cpu, LevelMax(cls), 0, true)] && 0 <= procs[p].cpu < cpus
      ensures var c := procs[p].cpu;
              && c in old(counts) && (forall d :: 0 <= d < cpus ==> old(counts)[c] <= old(counts[d]))
              && counts == old(counts)[c := old(counts)[c] + 1]
              && Appended(old(lists), lists, Slot(c, LevelMax(cls)), p)
    {
      hide Inv;
      NewProcess(St(), p, cls);
      procs := procs[p := Proc(cls, 0, LevelMax(cls), 0, false)];
      var _ := SetReady(p);
    }

    /** `sched_pick_next`. */
    method PickNext(c: int) returns (p: int)
      requires Valid() && 0 <= c < cpus
      ensures Highest(St(), c, p)
    {
      p := PickNextOf(c, St());
    }

    /** `sched_should_preempt`: a list above the running process's level is not empty. */
    method ShouldPreempt(c: int) returns (b: bool)
      requires Valid() && 0 <= c < cpus
      ensures c in current && current[c] in procs && (b <==> !TopRuns(St(), c))
    {
      assert CpuOk(St(), c);
      forall j | 0 <= j < TOTAL_LEVELS ensures Slot(c, j) in lists { assert ListOk(St(), Slot(c, j)); }
      var i := TOTAL_LEVELS - 1;
      while i > 0 && lists[Slot(c, i)] == []
        invariant 0 <= i < TOTAL_LEVELS
        invariant forall j :: i < j < TOTAL_LEVELS ==> lists[Slot(c, j)] == []
      {
        i := i - 1;
      }
      PreemptIffHigher(St(), c, i);
      b := i > procs[current[c]].priority;
    }

    /** `__do_sched_update_position(proc)` on CPU `c`: the process is on the list of `level`, and goes to
        the end of the list of its priority. */
    method UpdatePosition(c: int, p: int, level: int, ghost s: State)
      requires Inv(s) && p in s.procs && s.procs[p].ready && SlotOf(s, p) == Slot(c, level)
      requires p in procs && InBand(s.procs[p].cls, procs[p].priority)
      requires St() == s.(procs := s.procs[p := s.procs[p].(priority := procs[p].priority)])
      modifies `lists
      ensures Slot(c, level) in s.lists && Slot(c, procs[p].priority) in s.lists
      ensures St() == Repositioned(s, p, procs[p].priority) && Inv(St())
    {
      hide Inv;
      RepositionKeeps(s, p, procs[p].priority);
      lists := Moved(lists, p, Slot(c, level), Slot(c, procs[p].priority));
    }

    /** The running process of CPU `c` gives way to `next`, which gets a fresh quantum. */
    method SwitchTo(c: int, next: int)
      requires Valid() && 0 <= c < cpus && next in procs && procs[next].ready && Home(St(), next) == c
      modifies `procs, `current
      ensures Valid() && St() == Switched(old(St()), c, next)
    {
      hide Inv;
      SwitchKeeps(St(), c, next);
      procs := procs[next := procs[next].(quantum := Quantum(procs[next]))];
      current := current[c := next];
    }

    /** `sched_tick` on CPU `c`: afterwards nothing ready there has a higher priority than what runs. */
    method Tick(c: int)
      requires Valid() && 0 <= c < cpus
      modifies this
      ensures Valid() && TopRuns(St(), c) && counts == old(counts)
      ensures forall d :: d != c && d in old(current) ==> d in current && current[d] == old(current)[d]
      ensures procs.Keys == old(procs).Keys
      ensures c in old(current) && old(current[c]) in old(procs) && c in current
      ensures !TopRuns(old(St()), c) ==> current[c] != old(current[c]) && Highest(old(St()), c, current[c])
      ensures !TopRuns(old(St()), c) ==>
                && procs == old(procs)[current[c] := WithFreshQuantum(old(procs), current[c])]
                && var k := Slot(c, old(procs[current[c]].priority));
                   SentBack(old(lists), lists, old(current[c]), k, k)
      ensures TopRuns(old(St()), c) && Ticked(old(procs[current[c]].quantum)) != 0 ==>
                && current == old(current) && lists == old(lists)
                && var p := old(procs[current[c]]);
                   procs == old(procs)[current[c] := p.(quantum := Ticked(p.quantum))]
      ensures TopRuns(old(St()), c) && Ticked(old(procs[current[c]].quantum)) == 0 ==>
                && Demoted(old(procs), procs, old(current[c]), current[c])
                && SentBack(old(lists), lists, old(current[c]), Slot(c, old(procs[current[c]].priority)),
                            Slot(c, procs[old(current[c])].priority))
                && HeadOfLevel(lists, procs, c, current[c])
      ensures current[c] in procs && current == old(current)[c := current[c]]
      ensures procs[current[c]].quantum == 0 <==> RunsOut(old(St()), c)
    {
      hide Inv, Highest;
      var preempt := ShouldPreempt(c);
      CurrentFacts(St(), c);
      var cur := current[c];
      if preempt {
        var next := PickNext(c);
        HigherIsOther(St(), c, next);
        assert next != cur;
        UpdatePosition(c, cur, procs[cur].priority, St());
        HighestStays(old(St()), c, cur, next);
        SwitchTo(c, next);
        SwitchedTop(old(St()), c, cur, next);
        FreshNotZero(old(St()), c, cur, next);
        return;
      }
      var quantum := Ticked(procs[cur].quantum);
      QuantumParity(St(), cur);
      TickKeeps(St(), cur, quantum);
      procs := procs[cur := procs[cur].(quantum := quantum)];
      TickTop(old(St()), c, quantum);
      if quantum == 0 {
        Demote(c, cur);
      }
    }

    /** The quantum of the running process is used up. */
    method Demote(c: int, cur: int)
      requires Valid() && 0 <= c < cpus && c in current && current[c] == cur && cur in procs && cur !in idle
      requires procs[cur].quantum == 0
      modifies this
      ensures Valid() && TopRuns(St(), c) && counts == old(counts) && procs.Keys == old(procs).Keys
      ensures forall d :: d != c && d in old(current) ==> d in current && current[d] == old(current)[d]
      ensures c in current && current[c] in procs && Demoted(old(procs), procs, cur, current[c])
      ensures SentBack(old(lists), lists, cur, Slot(c, old(procs[cur].priority)), Slot(c, procs[cur].priority))
      ensures HeadOfLevel(lists, procs, c, current[c]) && current == old(current)[c := current[c]]
      ensures procs[current[c]].quantum == 0 <==> Alone(old(St()), c)
    {
      hide Inv, Highest;
      ghost var s := St();
      CurrentFacts(s, c);
      var level := procs[cur].priority;
      ClampedInBand(procs[cur].cls, level, -1);
      procs := procs[cur := procs[cur].(priority := Clamped(procs[cur].cls, level, -1))];
      UpdatePosition(c, cur, level, s);
      var next := PickNext(c);
      HighestFacts(St(), c, next);
      HighestHead(St(), c, next);
      StaysIffAlone(s, c, next);
      if next != cur {
        ghost var s1 := St();
        FreshQuantumAt(s1, next);
        SwitchTo(c, next);
        TopAfterSwitch(s1, c, next);
      } else {
        TopAlready(St(), c);
      }
    }

    /** Process `p` is off its list, no longer ready and at level `priority`; the first of the highest ready processes
        of CPU `c` without it runs, with a fresh quantum. No other process, list or CPU changed. */
    twostate predicate Dispatched(c: int, p: int, priority: int)
      reads this
    {
      && p in old(procs) && c in current && current == old(current)[c := current[c]]
      && NextWithout(old(St()), c, p, current[c])
      && procs == old(procs)[p := old(procs[p]).(priority := priority, ready := false)]
                            [current[c] := WithFreshQuantum(old(procs), current[c])]
      && c in old(counts) && counts == old(counts)[c := old(counts)[c] - 1]
      && var k := Slot(c, old(procs[p].priority));
         k in old(lists) && lists == old(lists)[k := Without(old(lists)[k], p)]
    }

    /** `sched_set_blocking(CURRENT_PROCESS)` with the rescheduling that follows: the running process of
        CPU `c` is off all lists and a bit higher in its band, and the highest ready process runs. */
    method Block(c: int)
      requires Valid() && 0 <= c < cpus && c in current && current[c] in procs && current[c] !in idle
      modifies this
      ensures Valid() && TopRuns(St(), c) && c in current && current[c] != old(current[c])
      ensures var p := old(procs[current[c]]);
              Dispatched(c, old(current[c]), ClampTo(p.priority + 1, p.cls))
    {
      hide Inv;
      var p := current[c];
      CurrentFacts(St(), c);
      ClampedInBand(procs[p].cls, procs[p].priority, 1);
      TakeOff(c, p, Clamped(procs[p].cls, procs[p].priority, 1));
    }

    /** `sched_leave` of the running process with the rescheduling that follows. */
    method Leave(c: int)
      requires Valid() && 0 <= c < cpus && c in current && current[c] in procs && current[c] !in idle
      modifies this
      ensures Valid() && TopRuns(St(), c) && c in current && current[c] != old(current[c])
      ensures Dispatched(c, old(current[c]), old(procs[current[c]].priority))
    {
      hide Inv;
      CurrentFacts(St(), c);
      TakeOff(c, current[c], procs[current[c]].priority);
    }

    /** The running process `p` of CPU `c` leaves its list with a new priority; then `sched_resched`. */
    method TakeOff(c: int, p: int, priority: int)
      requires Valid() && 0 <= c < cpus && c in current && current[c] == p && p in procs && p !in idle
      requires InBand(procs[p].cls, priority)
      modifies this
      ensures Valid() && TopRuns(St(), c) && c in current && current[c] != p && Dispatched(c, p, priority)
    {
      hide Inv, Highest;
      ghost var s := St();
      CurrentFacts(s, c);
      ghost var idler := IdleOf(s, c);
      TakeOffKeeps(s, c, p, priority, idler);
      var k := Slot(procs[p].cpu, procs[p].priority);
      lists := lists[k := Without(lists[k], p)];
      counts := counts[procs[p].cpu := counts[procs[p].cpu] - 1];
      procs := procs[p := procs[p].(priority := priority, ready := false)];
      ghost var s1 := TakenOff(s, p, priority, c, idler);
      var next := PickNextOf(c, s1);
      HighestFacts(s1, c, next);
      HighestWithout(s, c, p, priority, next, idler);
      SwitchKeeps(s1, c, next);
      TopAfterSwitch(s1, c, next);
      procs := procs[next := procs[next].(quantum := Quantum(procs[next]))];
      current := current[c := next];
      assert St() == Switched(s1, c, next);
    }

    /** `sched_pick_next` in the moment when the running process is no longer ready. */
    method PickNextOf(c: int, ghost s: State) returns (p: int)
      requires Inv(s) && 0 <= c < s.cpus && lists == s.lists
      ensures Highest(s, c, p)
    {
      IdleIsReady(s, c);
      forall j | 0 <= j < TOTAL_LEVELS ensures Slot(c, j) in lists { assert ListOk(s, Slot(c, j)); }
      var i := TOTAL_LEVELS - 1;
      while i > 0 && lists[Slot(c, i)] == []
        invariant 0 <= i < TOTAL_LEVELS
        invariant forall j :: i < j < TOTAL_LEVELS ==> lists[Slot(c, j)] == []
      {
        i := i - 1;
      }
      HeadIsHighest(s, c, i);
      p := lists[Slot(c, i)][0];
    }
  }

  lemma {:induction false} PreemptIffHigher(s: State, c: int, i: nat)
    requires Inv(s) && 0 <= c < s.cpus && i < TOTAL_LEVELS
    requires forall j :: 0 <= j < TOTAL_LEVELS ==> Slot(c, j) in s.lists
    requires forall j :: i < j < TOTAL_LEVELS ==> s.lists[Slot(c, j)] == []
    requires i > 0 ==> s.lists[Slot(c, i)] != []
    ensures c in s.current && s.current[c] in s.procs
    ensures i > s.procs[s.current[c]].priority <==> !TopRuns(s, c)
  {
    assert CpuOk(s, c);
    assert ProcOk(s, s.current[c]);
    IdleIsReady(s, c);
    HeadIsHighest(s, c, i);
    var p := s.lists[Slot(c, i)][0];
    assert ListOk(s, Slot(c, i));
    assert p in s.lists[Slot(c, i)];
    assert s.procs[p].priority == i;
  }

  lemma {:induction false} CurrentFacts(s: State, c: int)
    requires Inv(s) && 0 <= c < s.cpus
    ensures c in s.current && s.current[c] in s.procs
    ensures var p := s.current[c];
            s.procs[p].ready && SlotOf(s, p) == Slot(c, s.procs[p].priority) && SlotOf(s, p) in s.lists
            && InBand(s.procs[p].cls, s.procs[p].priority) && (s.procs[p].cls == IDLE <==> p in s.idle)
  {
    assert CpuOk(s, c);
    assert ProcOk(s, s.current[c]);
  }

  lemma {:induction false} HighestFacts(s: State, c: int, p: int)
    requires Highest(s, c, p)
    ensures p in s.procs && s.procs[p].ready && Home(s, p) == c
  {}

  lemma {:induction false} HighestHead(s: State, c: int, p: int)
    requires Highest(s, c, p)
    ensures HeadOfLevel(s.lists, s.procs, c, p)
  {}

  lemma {:induction false} HigherIsOther(s: State, c: int, next: int)
    requires Highest(s, c, next) && c in s.current && s.current[c] in s.procs && !TopRuns(s, c)
    ensures next != s.current[c] && next in s.procs && s.procs[next].ready && Home(s, next) == c
  {}

  /** Moving the running process to the end of its list does not change who is highest. */
  lemma {:induction false} HighestStays(s: State, c: int, cur: int, next: int)
    requires cur in s.procs && SlotOf(s, cur) in s.lists && Highest(s, c, next)
    ensures var s' := Repositioned(s, cur, s.procs[cur].priority);
            next in s'.procs && s'.procs[next].ready && Home(s', next) == c
  {}

  lemma {:induction false} SwitchedTop(s: State, c: int, cur: int, next: int)
    requires cur in s.procs && SlotOf(s, cur) in s.lists && Highest(s, c, next)
    ensures TopRuns(Switched(Repositioned(s, cur, s.procs[cur].priority), c, next), c)
  {}

  /** Every other ready process on CPU `c` is below the level that the running one is demoted to. */
  ghost predicate Alone(s: State, c: int) {
    c in s.current && s.current[c] in s.procs &&
    forall p {:trigger p in s.procs} :: p in s.procs && s.procs[p].ready && Home(s, p) == c && p != s.current[c] ==>
      s.procs[p].priority < ClampTo(s.procs[s.current[c]].priority - 1, s.procs[s.current[c]].cls)
  }

  /** The tick at which the running process uses up its quantum, and nobody takes over: its quantum is
      not renewed but stays 0, so the next tick turns it into a huge one. */
  ghost predicate RunsOut(s: State, c: int) {
    && TopRuns(s, c) && Ticked(s.procs[s.current[c]].quantum) == 0 && Alone(s, c)
  }

  /** A run in which it happens: one process beside idle, three ticks. */
  method UsesUp() returns (q: Queues)
    ensures fresh(q) && q.Valid() && 0 in q.current && q.current[0] == 1 && 1 in q.procs
    ensures q.procs[1] == Proc(NORMAL, 0, 14, 0, true)
  {
    hide Inv, Started, TopRuns, Highest, Alone;
    q := new Queues(1);
    StartFacts();
    q.Enter(1, NORMAL);
    assert TwoProcs(q.St(), 0, Proc(NORMAL, 0, 15, 0, true));
    TwoProcsFacts(q.St(), 0, q.procs[1]);
    q.Tick(0);
    q.Tick(0);
    assert TwoProcs(q.St(), 1, Proc(NORMAL, 0, 15, 10, true));
    TwoProcsFacts(q.St(), 1, q.procs[1]);
    q.Tick(0);
  }

  /** One CPU, which runs `cur`: the idle process 0, and process 1. */
  ghost predicate TwoProcs(s: State, cur: int, p: Proc) {
    && s.cpus == 1 && 0 in s.current && s.current[0] == cur && (forall x :: x in s.idle <==> x == 0) && s.idle[0] == 0
    && (forall x :: x in s.procs <==> x == 0 || x == 1) && s.procs[1] == p
    && s.procs[0] == Proc(IDLE, 0, 0, s.procs[0].quantum, true)
  }

  lemma {:induction false} TwoProcsFacts(s: State, cur: int, p: Proc)
    requires TwoProcs(s, cur, p) && p.cls == NORMAL && p.cpu == 0 && p.priority == 15 && p.ready
    requires (cur == 0 || cur == 1)
    ensures TopRuns(s, 0) <==> cur == 1
    ensures cur == 1 ==> Alone(s, 0)
    ensures forall next :: Highest(s, 0, next) ==> next == 1
  {}

  lemma {:induction false} StartFacts()
    ensures var s := Started(1);
            && (forall p :: p in s.procs <==> p == 0) && s.procs[0] == Proc(IDLE, 0, 0, WORD - 1, true)
            && 0 in s.counts && s.counts[0] == 0 && 0 in s.current && s.current[0] == 0
            && (forall p :: p in s.idle <==> p == 0) && s.idle[0] == 0
  {
    assert forall c :: c in Cpus(1) <==> c == 0;
  }

  lemma {:induction false} AfterZero()
    ensures Ticked(0) == WORD - TICK
  {}

  lemma {:induction false} StaysIffAlone(s: State, c: int, next: int)
    requires Inv(s) && 0 <= c < s.cpus && c in s.current && s.current[c] in s.procs && s.current[c] !in s.idle
    requires var cur := s.current[c];
             var priority := ClampTo(s.procs[cur].priority - 1, s.procs[cur].cls);
             && SlotOf(s, cur) in s.lists && Slot(Home(s, cur), priority) in s.lists
             && Inv(Repositioned(s, cur, priority)) && Highest(Repositioned(s, cur, priority), c, next)
    ensures next == s.current[c] <==> Alone(s, c)
  {
    hide Inv, Moved;
    var cur := s.current[c];
    var priority := ClampTo(s.procs[cur].priority - 1, s.procs[cur].cls);
    var s' := Repositioned(s, cur, priority);
    CurrentFacts(s, c);
    ClampedInBand(s.procs[cur].cls, s.procs[cur].priority, -1);
    LastInList(s, cur, priority);
    if next == cur {
      forall p | p in s.procs && s.procs[p].ready && Home(s, p) == c && p != cur
        ensures s.procs[p].priority < priority
      {
        assert p in s'.procs;
        OnItsList(s', p);
      }
    }
    assert next in s.procs && cur in s'.procs;
  }

  lemma {:induction false} OnItsList(s: State, p: int)
    requires Inv(s) && p in s.procs && s.procs[p].ready
    ensures SlotOf(s, p) in s.lists && p in s.lists[SlotOf(s, p)]
  {
    assert ProcOk(s, p);
  }

  /** After its move the process is the last of its list. */
  lemma {:induction false} LastInList(s: State, p: int, priority: int)
    requires p in s.procs && SlotOf(s, p) in s.lists && Slot(Home(s, p), priority) in s.lists
    requires Inv(Repositioned(s, p, priority)) && IsSlot(s, Slot(Home(s, p), priority))
    ensures var l := Repositioned(s, p, priority).lists[Slot(Home(s, p), priority)];
            |l| > 0 && l[|l| - 1] == p && (l[0] == p ==> l == [p])
  {
    var s' := Repositioned(s, p, priority);
    assert ListOk(s', Slot(Home(s, p), priority));
    var l := s'.lists[Slot(Home(s, p), priority)];
    assert l[0] == l[|l| - 1] ==> 0 == |l| - 1;
  }

  lemma {:induction false} FreshQuantumAt(s: State, p: int)
    requires Inv(s) && p in s.procs
    ensures Quantum(s.procs[p]) != 0
  {
    assert ProcOk(s, p);
    FreshQuantum(s.procs[p]);
  }

  lemma {:induction false} FreshNotZero(s: State, c: int, cur: int, next: int)
    requires Inv(s) && cur in s.procs && next in s.procs && next != cur && SlotOf(s, cur) in s.lists
    ensures Switched(Repositioned(s, cur, s.procs[cur].priority), c, next).procs[next].quantum != 0
  {
    FreshQuantumAt(s, next);
  }

  lemma {:induction false} TopAfterSwitch(s: State, c: int, next: int)
    requires Highest(s, c, next)
    ensures TopRuns(Switched(s, c, next), c)
  {}

  lemma {:induction false} TopAlready(s: State, c: int)
    requires c in s.current && Highest(s, c, s.current[c])
    ensures TopRuns(s, c)
  {}

  /** The quantum of an idle process is odd after every tick. */
  lemma {:induction false} QuantumParity(s: State, p: int)
    requires Inv(s) && p in s.procs
    ensures p in s.idle ==> Ticked(s.procs[p].quantum) % 2 == 1 && Ticked(s.procs[p].quantum) != 0
  {
    assert ProcOk(s, p);
    if p in s.idle { OddStaysOdd(s.procs[p].quantum); }
  }

  lemma {:induction false} TickTop(s: State, c: int, quantum: int)
    requires TopRuns(s, c)
    ensures TopRuns(s.(procs := s.procs[s.current[c] := s.procs[s.current[c]].(quantum := quantum)]), c)
  {}

  lemma {:induction false} IdleOf(s: State, c: int) returns (p: int)
    requires Inv(s) && 0 <= c < s.cpus
    ensures p in s.idle && s.idle[p] == c && p in s.procs && s.procs[p].ready && Home(s, p) == c
  {
    assert CpuOk(s, c);
    p :| p in s.idle && s.idle[p] == c;
    assert ProcOk(s, p);
  }

  /** A process that is on no list yet. */
  lemma {:induction false} NewProcess(s: State, p: int, cls: Class)
    requires Inv(s) && p !in s.procs && cls != IDLE
    ensures Inv(s.(procs := s.procs[p := Proc(cls, 0, LevelMax(cls), 0, false)]))
  {
    var s' := s.(procs := s.procs[p := Proc(cls, 0, LevelMax(cls), 0, false)]);
    forall k | IsSlot(s', k) ensures ListOk(s', k) { assert ListOk(s, k); }
    forall q | q in s'.procs ensures ProcOk(s', q) { assert q != p ==> ProcOk(s, q); }
    forall d | 0 <= d < s'.cpus ensures CpuOk(s', d) {
      assert CpuOk(s, d);
      assert OnCpu(s', d) == OnCpu(s, d);
    }
  }
}