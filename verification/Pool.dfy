/** The persistent thread pool: every atomic operation of the main thread and
    of the workers is one step, and the steps of all threads interleave freely.
    Cancellation and shutdown are not taken. */
module Pool {

  const TASK_GRAIN: nat := 8192
  const MAX_RING_CAP: nat := 65536

  /** One ring slot: the elements `[lo, hi)` of a job. */
  datatype Entry = Entry(job: nat, lo: int, hi: int)

  /** A call of the job's function, and the ticket it was made for. */
  datatype Call = Call(ticket: nat, e: Entry)

  /** Where a thread stands.  The states from `LoadCur` on are the claim loop,
      which the main thread runs as thread 0. */
  datatype Pc =
    | Parked
    | Woken
    | Admitting(seen: int)
    | Rejected
    | LoadCur
    | LoadLim(cur: nat)
    | Cas(cur: nat)
    | Claimed(t: nat)
    | Working(t: nat, e: Entry)
    | Ran(t: nat)
    | Leaving

  datatype MainPc =
    | Idle
    | Filling(i: nat)
    | StorePending
    | StoreLimit
    | Waking(k: nat)
    | Claiming
    | Spinning

  /** Whose ticket it is. */
  datatype Owner = Free | By(i: nat) | Retired

  /** A dispatch: its tickets are `[base, base + n)` and its elements `[0, total)`. */
  datatype Job = Job(base: nat, n: nat, total: nat)

  /** `plan`, `own`, `jobs` and `calls` are history: what each ticket was meant
      to run, who has it, what was dispatched and what has been called. */
  datatype State = State(
    ring: seq<Entry>, claim: nat, limit: nat, pending: int, running: int, active: nat, tokens: nat,
    main: MainPc, pcs: seq<Pc>,
    plan: seq<Entry>, own: seq<Owner>, jobs: seq<Job>, calls: seq<Call>)

  // ----- how a dispatch is cut into tasks -----

  function CeilDiv(a: nat, b: nat): nat
    requires b > 0
  {
    (a + b - 1) / b
  }

  /** The ring doubles until it holds `n` tasks or reaches its ceiling. */
  function GrownCap(cap: nat, n: nat): (r: nat)
    requires cap > 0
    ensures r >= cap
    ensures cap >= n || cap >= MAX_RING_CAP ==> r == cap
    decreases MAX_RING_CAP - cap
  {
    if cap < n && cap < MAX_RING_CAP then GrownCap(cap * 2, n) else cap
  }

  function Min(a: int, b: int): int {
    if a < b then a else b
  }

  /** The tasks of `ray_pool_dispatch`: `n` pieces of `grain` elements, the
      last ones cut off at `total` or, after clamping, empty. */
  function Pieces(job: nat, total: nat, n: nat, grain: nat): (r: seq<Entry>)
    ensures |r| == n
  {
    seq(n, i requires 0 <= i < n => Entry(job, i * grain, Min(i * grain + grain, total)))
  }

  /** The tasks of `ray_pool_dispatch` on a ring of `cap` slots. */
  function Tasks(job: nat, total: nat, cap: nat): (r: seq<Entry>)
    requires cap > 0
    ensures |r| <= cap
  {
    var n := CeilDiv(total, TASK_GRAIN);
    if n <= cap then Pieces(job, total, n, TASK_GRAIN)
    else Pieces(job, total, cap, CeilDiv(total, cap))
  }

  /** The tasks of `ray_pool_dispatch_n`: one element each. */
  function Singles(job: nat, n: nat, cap: nat): (r: seq<Entry>)
    ensures |r| <= cap
  {
    seq(Min(n, cap) as nat, i requires 0 <= i < Min(n, cap) => Entry(job, i, i + 1))
  }

  predicate Covers(e: Entry, x: int) {
    e.lo <= x < e.hi
  }

  /** How many tasks contain the element `x`. */
  function Hits(es: seq<Entry>, x: int): nat {
    if es == [] then 0 else Hits(es[..|es| - 1], x) + if Covers(es[|es| - 1], x) then 1 else 0
  }

  function Once(x: int, total: int): nat {
    if 0 <= x < total then 1 else 0
  }

  /** Every element of `[0, total)` is in exactly one task, and no other is in any. */
  ghost predicate Partitions(es: seq<Entry>, total: int) {
    forall x :: Hits(es, x) == Once(x, total)
  }

  lemma {:induction false} PiecesHit(job: nat, total: nat, n: nat, grain: nat, x: int)
    ensures Hits(Pieces(job, total, n, grain), x) == Once(x, Min(n * grain, total))
    decreases n
  {
    if n > 0 {
      PiecesHit(job, total, n - 1, grain, x);
      assert Pieces(job, total, n, grain)[..n - 1] == Pieces(job, total, n - 1, grain);
      assert n * grain == (n - 1) * grain + grain;
    }
  }

  lemma CeilDivFits(a: nat, b: nat)
    requires b > 0
    ensures a <= CeilDiv(a, b) * b && a <= b * CeilDiv(a, b)
  {
    var q := a + b - 1;
    assert q == b * (q / b) + q % b;
  }

  /** However many elements and however small the ring, also after the clamp. */
  lemma TasksPartition(job: nat, total: nat, cap: nat)
    requires cap > 0
    ensures Partitions(Tasks(job, total, cap), total)
  {
    var n := CeilDiv(total, TASK_GRAIN);
    var tasks, grain := if n <= cap then n else cap, if n <= cap then TASK_GRAIN else CeilDiv(total, cap);
    CeilDivFits(total, TASK_GRAIN);
    CeilDivFits(total, cap);
    forall x
      ensures Hits(Tasks(job, total, cap), x) == Once(x, total)
    {
      PiecesHit(job, total, tasks, grain, x);
    }
  }

  lemma {:induction false} SinglesHit(job: nat, n: nat, cap: nat, x: int)
    ensures Hits(Singles(job, n, cap), x) == Once(x, Min(n, cap))
    decreases n
  {
    var m := Min(n, cap);
    if m > 0 {
      SinglesHit(job, m - 1, cap, x);
      assert Singles(job, n, cap)[..m - 1] == Singles(job, m - 1, cap);
    }
  }

  /** `ray_pool_dispatch_n` runs all its tasks exactly when they fit the ring;
      the tasks beyond it are dropped. */
  lemma SinglesPartition(job: nat, n: nat, cap: nat)
    ensures Partitions(Singles(job, n, cap), Min(n, cap))
    ensures Partitions(Singles(job, n, cap), n) <==> n <= cap
  {
    forall x
      ensures Hits(Singles(job, n, cap), x) == Once(x, Min(n, cap))
    {
      SinglesHit(job, n, cap, x);
    }
    if n > cap {
      assert Hits(Singles(job, n, cap), cap) != Once(cap, n);
    }
  }

  // ----- the steps -----

  datatype Action =
    | Dispatch(total: nat, grown: bool)   // `grown`: the ring could be reallocated
    | DispatchN(n: nat, grown: bool)
    | Main
    | Thread(i: nat, weak: bool)          // `weak`: the compare-and-swap failed spuriously

  predicate Enabled(s: State, a: Action) {
    match a
    case Dispatch(total, _) => s.main.Idle? && total > 0
    case DispatchN(n, _) => s.main.Idle? && n > 0
    case Main => !s.main.Idle? && !s.main.Claiming?
    case Thread(i, _) => i < |s.pcs| && (s.pcs[i].Parked? ==> i > 0 && s.tokens > 0)
  }

  function Resized(ring: seq<Entry>, n: nat, grown: bool): (r: seq<Entry>)
    ensures |r| >= |ring|
  {
    if grown && ring != [] then ring + seq(GrownCap(|ring|, n) - |ring|, _ => Entry(0, 0, 0)) else ring
  }

  /** The window of a new dispatch starts at the high-water mark. */
  function Open(s: State, ring: seq<Entry>, tasks: seq<Entry>, total: nat): State {
    s.(ring := ring, main := Filling(0), plan := s.plan + tasks,
       own := s.own + seq(|tasks|, _ => Free), jobs := s.jobs + [Job(s.limit, |tasks|, total)])
  }

  function LastJob(jobs: seq<Job>): Job {
    if jobs == [] then Job(0, 0, 0) else jobs[|jobs| - 1]
  }

  /** Ring access: the slot of a ticket is its remainder. */
  function Slot(ring: seq<Entry>, t: nat): Entry {
    if ring == [] then Entry(0, 0, 0) else ring[t % |ring|]
  }

  function Fill(ring: seq<Entry>, t: nat, plan: seq<Entry>): (r: seq<Entry>)
    ensures |r| == |ring|
  {
    if ring == [] || t >= |plan| then ring else ring[t % |ring| := plan[t]]
  }

  function Mark(own: seq<Owner>, t: nat, o: Owner): (r: seq<Owner>)
    ensures |r| == |own|
  {
    if t < |own| then own[t := o] else own
  }

  function StepMain(s: State): State {
    var j := LastJob(s.jobs);
    match s.main
    case Filling(i) =>
      if i < j.n then s.(ring := Fill(s.ring, j.base + i, s.plan), main := Filling(i + 1))
      else s.(main := StorePending)
    case StorePending => s.(pending := j.n, main := StoreLimit)
    case StoreLimit => s.(limit := j.base + j.n, main := Waking(s.active))
    case Waking(k) =>
      if k > 0 then s.(tokens := s.tokens + 1, main := Waking(k - 1))
      else s.(main := Claiming, pcs := if s.pcs == [] then [] else s.pcs[0 := LoadCur])
    case Spinning => if s.pending <= 0 then s.(main := Idle) else s
    case _ => s
  }

  function StepThread(s: State, i: nat, weak: bool): State
    requires Enabled(s, Thread(i, weak))
  {
    match s.pcs[i]
    case Parked => s.(tokens := s.tokens - 1, pcs := s.pcs[i := Woken])
    case Woken => s.(running := s.running + 1, pcs := s.pcs[i := Admitting(s.running)])
    case Admitting(seen) => s.(pcs := s.pcs[i := if seen >= s.active then Rejected else LoadCur])
    case Rejected => s.(running := s.running - 1, pcs := s.pcs[i := Parked])
    case LoadCur => s.(pcs := s.pcs[i := LoadLim(s.claim)])
    case LoadLim(cur) => s.(pcs := s.pcs[i := if cur >= s.limit then Leaving else Cas(cur)])
    case Cas(cur) =>
      if s.claim == cur && !weak then
        s.(claim := cur + 1, own := Mark(s.own, cur, By(i)), pcs := s.pcs[i := Claimed(cur)])
      else s.(pcs := s.pcs[i := LoadLim(s.claim)])
    case Claimed(t) => s.(pcs := s.pcs[i := Working(t, Slot(s.ring, t))])
    case Working(t, e) => s.(calls := s.calls + [Call(t, e)], pcs := s.pcs[i := Ran(t)])
    case Ran(t) => s.(pending := s.pending - 1, own := Mark(s.own, t, Retired), pcs := s.pcs[i := LoadCur])
    case Leaving =>
      if i == 0 then s.(main := Spinning, pcs := s.pcs[0 := Parked])
      else s.(running := s.running - 1, pcs := s.pcs[i := Parked])
  }

  function Step(s: State, a: Action): State
    requires Enabled(s, a)
  {
    match a
    case Dispatch(total, grown) =>
      var ring := Resized(s.ring, CeilDiv(total, TASK_GRAIN), grown);
      Open(s, ring, if ring == [] then [] else Tasks(|s.jobs|, total, |ring|), total)
    case DispatchN(n, grown) =>
      var ring := Resized(s.ring, n, grown);
      Open(s, ring, Singles(|s.jobs|, n, |ring|), Min(n, |ring|))
    case Main => StepMain(s)
    case Thread(i, weak) => StepThread(s, i, weak)
  }

  /** A fresh pool of `workers` threads beside the main one. */
  function Init(workers: nat, active: nat): State {
    State(seq(1024, _ => Entry(0, 0, 0)), 0, 0, 0, 0, active, 0, Idle,
          seq(workers + 1, _ => Parked), [], [], [], [])
  }

  // ----- the invariant -----

  predicate Holding(pc: Pc) {
    pc.Claimed? || pc.Working? || pc.Ran?
  }

  /** The tickets below `m` that are not finished. */
  function Live(own: seq<Owner>, m: nat): nat
    requires m <= |own|
  {
    if m == 0 then 0 else Live(own, m - 1) + if own[m - 1].Retired? then 0 else 1
  }

  /** Tickets: `claim` splits the claimed ones from the free ones, and each
      claimed ticket is finished or in the hands of exactly its owner. */
  ghost predicate TicketInv(s: State) {
    && |s.own| == |s.plan| && s.claim <= s.limit <= |s.plan|
    && (forall t :: 0 <= t < |s.own| ==> (s.own[t].Free? <==> s.claim <= t))
    && (forall t :: 0 <= t < |s.own| && s.own[t].By? ==>
          s.own[t].i < |s.pcs| && Holding(s.pcs[s.own[t].i]) && s.pcs[s.own[t].i].t == t)
    && (forall i :: 0 <= i < |s.pcs| && Holding(s.pcs[i]) ==> s.pcs[i].t < |s.own| && s.own[s.pcs[i].t] == By(i))
    && (forall i :: 0 <= i < |s.pcs| && s.pcs[i].LoadLim? ==> s.pcs[i].cur <= s.claim)
    && (forall i :: 0 <= i < |s.pcs| && s.pcs[i].Cas? ==> s.pcs[i].cur < s.limit && s.pcs[i].cur <= s.claim)
  }

  ghost predicate Published(s: State) {
    s.main.Waking? || s.main.Claiming? || s.main.Spinning?
  }

  /** The barrier: `pending` counts the unfinished tickets of the open window,
      and before a window is open there are none. */
  ghost predicate BarrierInv(s: State)
    requires s.limit <= |s.own|
  {
    && s.pending == (if s.main.StoreLimit? then LastJob(s.jobs).n else Live(s.own, s.limit))
    && (!Published(s) ==> AllRetired(s.own, s.limit))
    && (s.main.Spinning? || (s.pcs != [] && s.pcs[0].Leaving?) ==> s.claim == s.limit)
  }

  ghost predicate AllRetired(own: seq<Owner>, m: nat)
    requires m <= |own|
  {
    forall t :: 0 <= t < m ==> own[t].Retired?
  }

  /** Dispatches: the last one is the open window, and everything before it is finished. */
  ghost predicate JobInv(s: State)
    requires |s.own| == |s.plan|
  {
    var j := LastJob(s.jobs);
    && (s.jobs == [] ==> s.main.Idle?)
    && j.base + j.n == |s.plan| && j.n <= |s.ring|
    && s.limit == (if s.main.Idle? || Published(s) then |s.plan| else j.base)
    && AllRetired(s.own, j.base)
    && (s.main.Filling? ==> s.main.i <= j.n)
    && (forall k :: 0 <= k < |s.jobs| ==> JobPlanned(s.jobs, s.plan, k))
    && (forall t :: 0 <= t < |s.plan| ==> TicketPlanned(s.jobs, s.plan, t))
  }

  ghost predicate TicketPlanned(jobs: seq<Job>, plan: seq<Entry>, t: nat)
    requires t < |plan|
  {
    plan[t].job < |jobs| && jobs[plan[t].job].base <= t < jobs[plan[t].job].base + jobs[plan[t].job].n
  }

  ghost predicate JobPlanned(jobs: seq<Job>, plan: seq<Entry>, k: nat)
    requires k < |jobs|
  {
    var j := jobs[k];
    && j.base + j.n <= |plan|
    && Partitions(plan[j.base..j.base + j.n], j.total)
    && (forall t :: j.base <= t < j.base + j.n ==> plan[t].job == k)
  }

  /** The ring holds the entry of every unfinished ticket of the open window,
      and a thread that has read an entry has read that of its ticket. */
  ghost predicate RingInv(s: State)
    requires |s.own| == |s.plan|
  {
    var j := LastJob(s.jobs);
    var filled := if s.main.Filling? then s.main.i else j.n;
    && |s.ring| > 0
    && (forall t :: j.base <= t < j.base + filled && t < |s.plan| && !s.own[t].Retired? ==> Slot(s.ring, t) == s.plan[t])
    && (forall i :: 0 <= i < |s.pcs| && s.pcs[i].Working? ==> s.pcs[i].t < |s.plan| && s.pcs[i].e == s.plan[s.pcs[i].t])
  }

  ghost predicate HasRun(s: State, t: nat)
    requires t < |s.own|
  {
    s.own[t].Retired? || (s.own[t].By? && s.own[t].i < |s.pcs| && s.pcs[s.own[t].i].Ran?)
  }

  function CallsOf(calls: seq<Call>, t: nat): nat {
    if calls == [] then 0
    else CallsOf(calls[..|calls| - 1], t) + if calls[|calls| - 1].ticket == t then 1 else 0
  }

  /** The calls: one for each ticket that has been run, none for the others. */
  ghost predicate CallInv(s: State)
    requires |s.own| == |s.plan|
  {
    && (forall c :: 0 <= c < |s.calls| ==> s.calls[c].ticket < |s.plan| && s.calls[c].e == s.plan[s.calls[c].ticket])
    && (forall t :: 0 <= t < |s.own| ==> CallsOf(s.calls, t) == if HasRun(s, t) then 1 else 0)
  }

  /** Workers between their increment and their decrement of `n_running`. */
  predicate Counted(pc: Pc) {
    !pc.Parked? && !pc.Woken?
  }

  /** Those of them that are, or are about to be, let into the claim loop. */
  predicate Admitted(pc: Pc, active: nat) {
    Counted(pc) && !pc.Rejected? && (pc.Admitting? ==> pc.seen < active)
  }

  /** Over the workers, that is the threads from 1 on. */
  function CountCounted(pcs: seq<Pc>): nat {
    if |pcs| <= 1 then 0 else CountCounted(pcs[..|pcs| - 1]) + if Counted(pcs[|pcs| - 1]) then 1 else 0
  }

  function CountAdmitted(pcs: seq<Pc>, active: nat): nat {
    if |pcs| <= 1 then 0
    else CountAdmitted(pcs[..|pcs| - 1], active) + if Admitted(pcs[|pcs| - 1], active) then 1 else 0
  }

  /** The admission counter: no more workers are let in than may be active. */
  ghost predicate AdmitInv(s: State) {
    && |s.pcs| > 0
    && s.running == CountCounted(s.pcs)
    && CountAdmitted(s.pcs, s.active) <= s.active
    && (s.main.Claiming? <==> !s.pcs[0].Parked?)
    && !s.pcs[0].Woken? && !s.pcs[0].Admitting? && !s.pcs[0].Rejected?
  }

  ghost predicate Inv(s: State) {
    TicketInv(s) && BarrierInv(s) && JobInv(s) && RingInv(s) && CallInv(s) && AdmitInv(s)
  }

  // ----- counting lemmas -----

  lemma {:induction false} LiveRetired(own: seq<Owner>, m: nat)
    requires m <= |own|
    ensures Live(own, m) == 0 <==> AllRetired(own, m)
    decreases m
  {
    if m > 0 {
      LiveRetired(own, m - 1);
    }
  }

  /** Tickets that are all free count one each. */
  lemma {:induction false} LiveFree(own: seq<Owner>, a: nat, b: nat)
    requires a <= b <= |own| && AllRetired(own, a) && forall t :: a <= t < b ==> own[t].Free?
    ensures Live(own, b) == b - a
    decreases b
  {
    if b > a {
      LiveFree(own, a, b - 1);
    } else {
      LiveRetired(own, a);
    }
  }

  lemma {:induction false} LiveMark(own: seq<Owner>, t: nat, o: Owner, m: nat)
    requires t < m <= |own| && !own[t].Retired?
    ensures Live(own[t := o], m) == Live(own, m) - if o.Retired? then 1 else 0
    decreases m
  {
    if t == m - 1 {
      LiveSame(own, own[t := o], m - 1);
    } else {
      LiveMark(own, t, o, m - 1);
    }
  }

  lemma {:induction false} LiveSame(a: seq<Owner>, b: seq<Owner>, m: nat)
    requires m <= |a| && m <= |b| && forall t :: 0 <= t < m ==> a[t] == b[t]
    ensures Live(a, m) == Live(b, m)
    decreases m
  {
    if m > 0 {
      LiveSame(a, b, m - 1);
    }
  }

  lemma {:induction false} CountSet(pcs: seq<Pc>, i: nat, pc: Pc, active: nat)
    requires i < |pcs|
    ensures CountCounted(pcs[i := pc]) ==
            CountCounted(pcs) + if i == 0 then 0 else (if Counted(pc) then 1 else 0) - (if Counted(pcs[i]) then 1 else 0)
    ensures CountAdmitted(pcs[i := pc], active) ==
            CountAdmitted(pcs, active) +
            if i == 0 then 0 else (if Admitted(pc, active) then 1 else 0) - (if Admitted(pcs[i], active) then 1 else 0)
    decreases |pcs|
  {
    if |pcs| > 1 {
      var n := |pcs| - 1;
      if i == n {
        assert pcs[i := pc][..n] == pcs[..n];
      } else {
        CountSet(pcs[..n], i, pc, active);
        assert pcs[i := pc][..n] == pcs[..n][i := pc];
      }
    }
  }

  lemma {:induction false} AdmittedCounted(pcs: seq<Pc>, active: nat)
    ensures CountAdmitted(pcs, active) <= CountCounted(pcs)
    decreases |pcs|
  {
    if |pcs| > 1 {
      AdmittedCounted(pcs[..|pcs| - 1], active);
    }
  }

  /** Different multiples are at least `c` apart. */
  lemma MulApart(c: nat, x: int, y: int)
    requires c * y - c * x > 0
    ensures c * y - c * x >= c
  {
    assert c * y - c * x == c * (y - x);
    if y - x >= 1 {
      MulMonotone(c, 1, y - x);
    } else {
      MulMonotone(c, y - x, 0);
    }
  }

  lemma MulMonotone(c: nat, x: int, y: int)
    requires x <= y
    ensures c * x <= c * y
  {
  }

  /** Two tickets of one window share no slot. */
  lemma SlotsApart(a: nat, b: nat, cap: nat)
    requires a < b < a + cap
    ensures a % cap != b % cap
  {
    var x, y := a / cap, b / cap;
    assert a == cap * x + a % cap;
    assert b == cap * y + b % cap;
    if a % cap == b % cap {
      MulApart(cap, x, y);
    }
  }
}
