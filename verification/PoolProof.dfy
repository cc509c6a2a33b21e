/** The invariant of the pool holds in every interleaving, and what follows from it. */
module PoolProof {
  import opened Pool

  lemma InitInv(workers: nat, active: nat)
    ensures Inv(Init(workers, active))
  {
    InitCounts(workers, active);
  }

  lemma {:induction false} InitCounts(workers: nat, active: nat)
    ensures var pcs: seq<Pc> := seq(workers + 1, _ => Parked);
            CountCounted(pcs) == 0 && CountAdmitted(pcs, active) == 0
    decreases workers
  {
    var pcs: seq<Pc> := seq(workers + 1, _ => Parked);
    if workers > 0 {
      InitCounts(workers - 1, active);
      assert pcs[..workers] == seq(workers, _ => Parked);
    }
  }

  /** A thread that holds no ticket goes to a state in which it holds none. */
  ghost predicate Moved(s: State, s1: State, i: nat, pc: Pc) {
    && i < |s.pcs| && !Holding(s.pcs[i]) && !Holding(pc)
    && s1 == s.(pcs := s.pcs[i := pc], running := s1.running, tokens := s1.tokens, main := s1.main)
    && (pc.LoadLim? ==> pc.cur <= s.claim)
    && (pc.Cas? ==> pc.cur < s.limit && pc.cur <= s.claim)
  }

  lemma MovedTickets(s: State, s1: State, i: nat, pc: Pc)
    requires TicketInv(s) && Moved(s, s1, i, pc)
    ensures TicketInv(s1)
  {
  }

  lemma MovedWork(s: State, s1: State, i: nat, pc: Pc)
    requires TicketInv(s) && BarrierInv(s) && JobInv(s) && RingInv(s) && CallInv(s) && Moved(s, s1, i, pc)
    requires s1.main == s.main || (s.main.Claiming? && s1.main.Spinning?) || (s.main.Waking? && s1.main.Claiming?)
    ensures |s1.own| == |s1.plan| && JobInv(s1) && RingInv(s1) && CallInv(s1)
  {
    forall u | 0 <= u < |s.own|
      ensures HasRun(s1, u) == HasRun(s, u)
    {
    }
  }

  lemma MovedInv(s: State, s1: State, i: nat, pc: Pc)
    requires Inv(s) && Moved(s, s1, i, pc)
    requires s1.main == s.main || (s.main.Claiming? && s1.main.Spinning?) || (s.main.Waking? && s1.main.Claiming?)
    requires (s1.main.Spinning? && !s.main.Spinning?) || (i == 0 && pc.Leaving?) ==> s.claim == s.limit
    requires AdmitInv(s1)
    ensures Inv(s1)
  {
    MovedTickets(s, s1, i, pc);
    MovedWork(s, s1, i, pc);
    hide TicketInv, JobInv, RingInv, CallInv, AdmitInv;
  }

  lemma MovedAdmits(s: State, i: nat, weak: bool)
    requires AdmitInv(s) && Enabled(s, Thread(i, weak)) && !Holding(s.pcs[i]) && (s.pcs[i].Cas? ==> weak || s.claim != s.pcs[i].cur)
    requires i == 0 ==> s.main.Claiming?
    ensures AdmitInv(StepThread(s, i, weak))
  {
    var s1 := StepThread(s, i, weak);
    CountSet(s.pcs, i, s1.pcs[i], s.active);
    AdmittedCounted(s.pcs, s.active);
  }

  /** A thread moves without touching tickets, tasks or calls. */
  lemma ThreadMoves(s: State, i: nat, weak: bool)
    requires Inv(s) && Enabled(s, Thread(i, weak))
    requires !Holding(s.pcs[i]) && (s.pcs[i].Cas? ==> weak || s.claim != s.pcs[i].cur)
    ensures Inv(StepThread(s, i, weak))
  {
    var s1 := StepThread(s, i, weak);
    MovedAdmits(s, i, weak);
    assert Moved(s, s1, i, s1.pcs[i]);
    hide CallInv, RingInv, JobInv, Inv;
    MovedInv(s, s1, i, s1.pcs[i]);
  }

  /** The claim: the ticket at the cursor becomes the thread's. */
  lemma ClaimTickets(s: State, i: nat)
    requires TicketInv(s) && i < |s.pcs| && s.pcs[i].Cas? && s.claim == s.pcs[i].cur
    ensures TicketInv(StepThread(s, i, false)) && StepThread(s, i, false).own == s.own[s.claim := By(i)]
  {
  }

  lemma ThreadClaims(s: State, i: nat)
    requires Inv(s) && i < |s.pcs| && s.pcs[i].Cas? && s.claim == s.pcs[i].cur
    ensures Inv(StepThread(s, i, false))
  {
    var s1 := StepThread(s, i, false);
    ClaimTickets(s, i);
    CountSet(s.pcs, i, s1.pcs[i], s.active);
    LiveMark(s.own, s.claim, By(i), s.limit);
    SameRuns(s, s1);
  }

  /** No ticket starts or stops counting as run. */
  lemma SameRuns(s: State, s1: State)
    requires TicketInv(s) && CallInv(s) && |s1.own| == |s1.plan| && s1.plan == s.plan && s1.calls == s.calls
    requires |s1.own| == |s.own| && forall u :: 0 <= u < |s.own| ==> HasRun(s1, u) == HasRun(s, u)
    ensures CallInv(s1)
  {
  }

  /** A thread keeps its ticket. */
  ghost predicate Keeps(s: State, s1: State, i: nat, pc: Pc) {
    && i < |s.pcs| && Holding(s.pcs[i]) && Holding(pc) && pc.t == s.pcs[i].t
    && s1 == s.(pcs := s.pcs[i := pc], calls := s1.calls)
  }

  lemma KeepsTickets(s: State, s1: State, i: nat, pc: Pc)
    requires TicketInv(s) && Keeps(s, s1, i, pc)
    ensures TicketInv(s1)
  {
  }

  lemma KeepsInv(s: State, s1: State, i: nat, pc: Pc)
    requires Inv(s) && Keeps(s, s1, i, pc) && CallInv(s1)
    requires pc.Working? ==> pc.e == s.plan[pc.t]
    ensures Inv(s1)
  {
    KeepsTickets(s, s1, i, pc);
    CountSet(s.pcs, i, pc, s.active);
    hide TicketInv, CallInv;
  }

  /** A ticket in a thread's hands belongs to the open window, which is published. */
  lemma HeldInWindow(s: State, i: nat)
    requires Inv(s) && i < |s.pcs| && Holding(s.pcs[i])
    ensures var t := s.pcs[i].t;
            && LastJob(s.jobs).base <= t < s.limit && t < |s.own| && s.own[t] == By(i)
            && Published(s) && Slot(s.ring, t) == s.plan[t]
  {
    hide CallInv, AdmitInv;
    assert s.own[s.pcs[i].t] == By(i);
  }

  /** The entry read is the one written for the ticket. */
  lemma ThreadReads(s: State, i: nat, weak: bool)
    requires Inv(s) && i < |s.pcs| && s.pcs[i].Claimed?
    ensures Inv(StepThread(s, i, weak))
  {
    var s1 := StepThread(s, i, weak);
    HeldInWindow(s, i);
    KeepsTickets(s, s1, i, s1.pcs[i]);
    SameRuns(s, s1);
    KeepsInv(s, s1, i, s1.pcs[i]);
  }

  /** The call. */
  lemma RunCalls(s: State, i: nat, weak: bool)
    requires TicketInv(s) && CallInv(s) && RingInv(s) && i < |s.pcs| && s.pcs[i].Working?
    ensures CallInv(StepThread(s, i, weak))
  {
    var t := s.pcs[i].t;
    var s1 := StepThread(s, i, weak);
    assert s.own[t] == By(i);
    forall u | 0 <= u < |s.own|
      ensures HasRun(s1, u) == (HasRun(s, u) || u == t)
      ensures CallsOf(s1.calls, u) == CallsOf(s.calls, u) + if u == t then 1 else 0
    {
      assert s1.calls[..|s1.calls| - 1] == s.calls;
    }
  }

  lemma ThreadRuns(s: State, i: nat, weak: bool)
    requires Inv(s) && i < |s.pcs| && s.pcs[i].Working?
    ensures Inv(StepThread(s, i, weak))
  {
    var s1 := StepThread(s, i, weak);
    RunCalls(s, i, weak);
    KeepsInv(s, s1, i, s1.pcs[i]);
  }

  /** The ticket is finished. */
  lemma RetireTickets(s: State, i: nat, weak: bool)
    requires TicketInv(s) && CallInv(s) && i < |s.pcs| && s.pcs[i].Ran?
    ensures TicketInv(StepThread(s, i, weak)) && CallInv(StepThread(s, i, weak))
  {
    var t := s.pcs[i].t;
    var s1 := StepThread(s, i, weak);
    assert s.own[t] == By(i) && s1.own == s.own[t := Retired];
    assert forall u :: 0 <= u < |s.own| ==> HasRun(s1, u) == HasRun(s, u);
  }

  lemma ThreadRetires(s: State, i: nat, weak: bool)
    requires Inv(s) && i < |s.pcs| && s.pcs[i].Ran?
    ensures Inv(StepThread(s, i, weak))
  {
    hide TicketInv, CallInv, JobInv;
    var s1 := StepThread(s, i, weak);
    RetireTickets(s, i, weak);
    CountSet(s.pcs, i, s1.pcs[i], s.active);
    HeldInWindow(s, i);
    LiveMark(s.own, s.pcs[i].t, Retired, s.limit);
    RetiredBefore(s);
    SameJobs(s, s1);
  }

  lemma RetiredBefore(s: State)
    requires |s.own| == |s.plan| && JobInv(s)
    ensures AllRetired(s.own, LastJob(s.jobs).base)
  {
  }

  lemma SameJobs(s: State, s1: State)
    requires |s.own| == |s.plan| && JobInv(s) && s1.jobs == s.jobs && s1.plan == s.plan
    requires |s1.own| == |s1.plan| && s1.ring == s.ring && s1.limit == s.limit && s1.main == s.main
    requires AllRetired(s1.own, LastJob(s1.jobs).base)
    ensures JobInv(s1)
  {
  }

  lemma ThreadInv(s: State, i: nat, weak: bool)
    requires Inv(s) && Enabled(s, Thread(i, weak))
    ensures Inv(StepThread(s, i, weak))
  {
    hide Inv;
    match s.pcs[i]
    case Claimed(_) => ThreadReads(s, i, weak);
    case Working(_, _) => ThreadRuns(s, i, weak);
    case Ran(_) => ThreadRetires(s, i, weak);
    case Cas(cur) =>
      if s.claim == cur && !weak {
        ThreadClaims(s, i);
      } else {
        ThreadMoves(s, i, weak);
      }
    case _ => ThreadMoves(s, i, weak);
  }

  /** Filling a slot: the entries of the window written before stay. */
  lemma MainFills(s: State)
    requires Inv(s) && s.main.Filling? && s.main.i < LastJob(s.jobs).n
    ensures Inv(StepMain(s))
  {
    var s1 := StepMain(s);
    var j, i := LastJob(s.jobs), s.main.i;
    var u := j.base + i;
    assert s1.ring == s.ring[u % |s.ring| := s.plan[u]];
    forall t | j.base <= t < j.base + i + 1 && t < |s.plan| && !s.own[t].Retired?
      ensures Slot(s1.ring, t) == s.plan[t]
    {
      if t < u {
        SlotsApart(t, u, |s.ring|);
      }
    }
  }

  /** Publishing: the window opens with every ticket free and `pending` already set. */
  lemma MainPublishes(s: State)
    requires Inv(s) && s.main.StoreLimit?
    ensures Inv(StepMain(s))
  {
    var s1 := StepMain(s);
    LiveFree(s.own, s.limit, |s.plan|);
    assert TicketInv(s1);
  }

  /** Bookkeeping before the window is published. */
  lemma MainPrepares(s: State)
    requires Inv(s) && (s.main.StorePending? || (s.main.Filling? && s.main.i >= LastJob(s.jobs).n))
    ensures Inv(StepMain(s))
  {
  }

  lemma MainWakes(s: State)
    requires Inv(s) && s.main.Waking?
    ensures Inv(StepMain(s))
  {
    if s.main.k == 0 {
      CountSet(s.pcs, 0, LoadCur, s.active);
      MovedInv(s, StepMain(s), 0, LoadCur);
    }
  }

  lemma MainSpins(s: State)
    requires Inv(s) && s.main.Spinning?
    ensures Inv(StepMain(s))
  {
    LiveRetired(s.own, s.limit);
  }

  lemma MainInv(s: State)
    requires Inv(s) && Enabled(s, Main)
    ensures Inv(StepMain(s))
  {
    hide Inv, StepMain;
    match s.main
    case Filling(i) =>
      if i < LastJob(s.jobs).n {
        MainFills(s);
      } else {
        MainPrepares(s);
      }
    case StorePending => MainPrepares(s);
    case StoreLimit => MainPublishes(s);
    case Waking(_) => MainWakes(s);
    case Spinning => MainSpins(s);
  }

  /** A new dispatch appends its plan and leaves everything else alone. */
  ghost predicate Opens(s: State, ring: seq<Entry>, tasks: seq<Entry>, total: nat) {
    && s.main.Idle? && |tasks| <= |ring| && |ring| > 0 && Partitions(tasks, total)
    && (forall i :: 0 <= i < |tasks| ==> tasks[i].job == |s.jobs|)
  }

  lemma OpenJobs(s: State, ring: seq<Entry>, tasks: seq<Entry>, total: nat)
    requires TicketInv(s) && BarrierInv(s) && JobInv(s) && Opens(s, ring, tasks, total)
    ensures var s1 := Open(s, ring, tasks, total); |s1.own| == |s1.plan| && JobInv(s1)
  {
    hide Partitions;
    var s1 := Open(s, ring, tasks, total);
    forall k | 0 <= k < |s1.jobs|
      ensures JobPlanned(s1.jobs, s1.plan, k)
    {
      var j := s1.jobs[k];
      if k < |s.jobs| {
        assert JobPlanned(s.jobs, s.plan, k);
        assert s1.plan[j.base..j.base + j.n] == s.plan[j.base..j.base + j.n];
      } else {
        assert s1.plan[j.base..j.base + j.n] == tasks;
      }
    }
    forall t | 0 <= t < |s1.plan|
      ensures TicketPlanned(s1.jobs, s1.plan, t)
    {
      if t < |s.plan| {
        assert TicketPlanned(s.jobs, s.plan, t);
      }
    }
  }

  lemma OpenCalls(s: State, ring: seq<Entry>, tasks: seq<Entry>, total: nat)
    requires TicketInv(s) && CallInv(s)
    ensures var s1 := Open(s, ring, tasks, total); |s1.own| == |s1.plan| && CallInv(s1)
  {
    var s1 := Open(s, ring, tasks, total);
    forall t | 0 <= t < |s1.own|
      ensures CallsOf(s1.calls, t) == if HasRun(s1, t) then 1 else 0
    {
      if t >= |s.own| {
        NoCalls(s.calls, t, |s.plan|);
      } else {
        assert HasRun(s1, t) == HasRun(s, t);
      }
    }
  }

  lemma OpenInv(s: State, ring: seq<Entry>, tasks: seq<Entry>, total: nat)
    requires Inv(s) && Opens(s, ring, tasks, total)
    ensures Inv(Open(s, ring, tasks, total))
  {
    var s1 := Open(s, ring, tasks, total);
    OpenJobs(s, ring, tasks, total);
    OpenCalls(s, ring, tasks, total);
    LiveSame(s.own, s1.own, s.limit);
    assert TicketInv(s1);
    hide JobInv, CallInv, Partitions;
  }

  lemma {:induction false} NoCalls(calls: seq<Call>, t: nat, m: nat)
    requires t >= m && forall c :: 0 <= c < |calls| ==> calls[c].ticket < m
    ensures CallsOf(calls, t) == 0
    decreases |calls|
  {
    if calls != [] {
      NoCalls(calls[..|calls| - 1], t, m);
    }
  }

  lemma StepInv(s: State, a: Action)
    requires Inv(s) && Enabled(s, a)
    ensures Inv(Step(s, a))
  {
    match a
    case Dispatch(total, grown) =>
      var ring := Resized(s.ring, CeilDiv(total, TASK_GRAIN), grown);
      TasksPartition(|s.jobs|, total, |ring|);
      OpenInv(s, ring, Tasks(|s.jobs|, total, |ring|), total);
    case DispatchN(n, grown) =>
      var ring := Resized(s.ring, n, grown);
      SinglesPartition(|s.jobs|, n, |ring|);
      OpenInv(s, ring, Singles(|s.jobs|, n, |ring|), Min(n, |ring|));
    case Main => MainInv(s);
    case Thread(i, weak) => ThreadInv(s, i, weak);
  }

  // ----- all interleavings -----

  /** A run: each action is enabled where it is taken. */
  predicate Possible(s: State, acts: seq<Action>)
    decreases |acts|
  {
    acts == [] || (Enabled(s, acts[0]) && Possible(Step(s, acts[0]), acts[1..]))
  }

  function Run(s: State, acts: seq<Action>): State
    requires Possible(s, acts)
    decreases |acts|
  {
    if acts == [] then s else Run(Step(s, acts[0]), acts[1..])
  }

  lemma {:induction false} RunInv(s: State, acts: seq<Action>)
    requires Inv(s) && Possible(s, acts)
    ensures Inv(Run(s, acts))
    decreases |acts|
  {
    hide Inv, Step;
    if acts != [] {
      StepInv(s, acts[0]);
      RunInv(Step(s, acts[0]), acts[1..]);
    }
  }

  /** How often element `x` of job `k` has been passed to the job's function. */
  function Passed(calls: seq<Call>, k: nat, x: int): nat {
    if calls == [] then 0
    else
      var c := calls[|calls| - 1];
      Passed(calls[..|calls| - 1], k, x) + if c.e.job == k && Covers(c.e, x) then 1 else 0
  }

  /** The same number, ticket by ticket over the window `[base, base + m)`. */
  function PassedBy(calls: seq<Call>, plan: seq<Entry>, base: nat, m: nat, x: int): nat
    requires base + m <= |plan|
  {
    if m == 0 then 0
    else
      var t := base + m - 1;
      PassedBy(calls, plan, base, m - 1, x) + if Covers(plan[t], x) then CallsOf(calls, t) else 0
  }

  lemma {:induction false} PassedByPush(calls: seq<Call>, c: Call, plan: seq<Entry>, base: nat, m: nat, x: int)
    requires base + m <= |plan| && c.ticket < |plan|
    ensures PassedBy(calls + [c], plan, base, m, x) ==
            PassedBy(calls, plan, base, m, x) +
            if base <= c.ticket < base + m && Covers(plan[c.ticket], x) then 1 else 0
    decreases m
  {
    if m > 0 {
      PassedByPush(calls, c, plan, base, m - 1, x);
      assert (calls + [c])[..|calls|] == calls;
    }
  }

  lemma {:induction false} PassedByNone(plan: seq<Entry>, base: nat, m: nat, x: int)
    requires base + m <= |plan|
    ensures PassedBy([], plan, base, m, x) == 0
    decreases m
  {
    if m > 0 {
      PassedByNone(plan, base, m - 1, x);
    }
  }

  lemma {:induction false} PassedSplits(calls: seq<Call>, s: State, k: nat, x: int)
    requires Inv(s) && k < |s.jobs|
    requires forall c :: 0 <= c < |calls| ==> calls[c].ticket < |s.plan| && calls[c].e == s.plan[calls[c].ticket]
    ensures JobPlanned(s.jobs, s.plan, k)
    ensures Passed(calls, k, x) == PassedBy(calls, s.plan, s.jobs[k].base, s.jobs[k].n, x)
    decreases |calls|
  {
    var j := s.jobs[k];
    assert JobPlanned(s.jobs, s.plan, k);
    if calls == [] {
      PassedByNone(s.plan, j.base, j.n, x);
    } else {
      var n := |calls| - 1;
      PassedSplits(calls[..n], s, k, x);
      PassedByPush(calls[..n], calls[n], s.plan, j.base, j.n, x);
      assert calls[..n] + [calls[n]] == calls;
      assert TicketPlanned(s.jobs, s.plan, calls[n].ticket);
    }
  }

  /** Tickets that have been called once each count as the tasks do. */
  lemma {:induction false} PassedByOnce(calls: seq<Call>, plan: seq<Entry>, base: nat, m: nat, x: int)
    requires base + m <= |plan| && forall t :: base <= t < base + m ==> CallsOf(calls, t) == 1
    ensures PassedBy(calls, plan, base, m, x) == Hits(plan[base..base + m], x)
    decreases m
  {
    if m > 0 {
      PassedByOnce(calls, plan, base, m - 1, x);
      assert plan[base..base + m][..m - 1] == plan[base..base + m - 1];
    }
  }

  /** Exactly once: in every interleaving of any number of dispatches, whenever
      the main thread is between dispatches, each element of each job
      dispatched so far has been passed to its function exactly once, and no
      element outside any job has been passed at all. */
  lemma {:induction false} ExactlyOnce(workers: nat, active: nat, acts: seq<Action>, k: nat, x: int)
    requires Possible(Init(workers, active), acts)
    requires var s := Run(Init(workers, active), acts); s.main.Idle? && k < |s.jobs|
    ensures var s := Run(Init(workers, active), acts);
            Passed(s.calls, k, x) == Once(x, s.jobs[k].total)
  {
    hide Run, Possible, Inv, Passed;
    InitInv(workers, active);
    RunInv(Init(workers, active), acts);
    OnceWhenIdle(Run(Init(workers, active), acts), k, x);
  }

  lemma OnceWhenIdle(s: State, k: nat, x: int)
    requires Inv(s) && s.main.Idle? && k < |s.jobs|
    ensures Passed(s.calls, k, x) == Once(x, s.jobs[k].total)
  {
    hide RingInv, AdmitInv;
    var j := s.jobs[k];
    PassedSplits(s.calls, s, k, x);
    assert forall t :: j.base <= t < j.base + j.n ==> HasRun(s, t);
    PassedByOnce(s.calls, s.plan, j.base, j.n, x);
  }

  /** At no time has any element been passed twice, or one that was not dispatched. */
  lemma {:induction false} NeverTwice(workers: nat, active: nat, acts: seq<Action>, k: nat, x: int)
    requires Possible(Init(workers, active), acts)
    requires k < |Run(Init(workers, active), acts).jobs|
    ensures var s := Run(Init(workers, active), acts);
            Passed(s.calls, k, x) <= Once(x, s.jobs[k].total)
  {
    hide Run, Possible, Inv, Passed;
    InitInv(workers, active);
    RunInv(Init(workers, active), acts);
    NeverTwiceNow(Run(Init(workers, active), acts), k, x);
  }

  lemma NeverTwiceNow(s: State, k: nat, x: int)
    requires Inv(s) && k < |s.jobs|
    ensures Passed(s.calls, k, x) <= Once(x, s.jobs[k].total)
  {
    hide RingInv, BarrierInv, AdmitInv;
    var j := s.jobs[k];
    PassedSplits(s.calls, s, k, x);
    PassedByAtMost(s.calls, s.plan, j.base, j.n, x);
  }

  lemma {:induction false} PassedByAtMost(calls: seq<Call>, plan: seq<Entry>, base: nat, m: nat, x: int)
    requires base + m <= |plan| && forall t :: base <= t < base + m ==> CallsOf(calls, t) <= 1
    ensures PassedBy(calls, plan, base, m, x) <= Hits(plan[base..base + m], x)
    decreases m
  {
    if m > 0 {
      PassedByAtMost(calls, plan, base, m - 1, x);
      assert plan[base..base + m][..m - 1] == plan[base..base + m - 1];
    }
  }

  /** A dispatch returns only when no task is unclaimed or running, and a thread
      about to read its task finds the entry written for its own ticket. */
  lemma {:induction false} BarrierHolds(workers: nat, active: nat, acts: seq<Action>)
    requires Possible(Init(workers, active), acts)
    ensures var s := Run(Init(workers, active), acts);
            && (s.main.Idle? ==> s.claim == s.limit && forall i :: 0 <= i < |s.pcs| ==> !Holding(s.pcs[i]))
            && (forall i :: 0 <= i < |s.pcs| && s.pcs[i].Claimed? ==>
                  s.pcs[i].t < |s.plan| && Slot(s.ring, s.pcs[i].t) == s.plan[s.pcs[i].t])
            && (forall i, j :: 0 <= i < j < |s.pcs| && Holding(s.pcs[i]) && Holding(s.pcs[j]) ==> s.pcs[i].t != s.pcs[j].t)
  {
    var s := Run(Init(workers, active), acts);
    InitInv(workers, active);
    RunInv(Init(workers, active), acts);
    forall i | 0 <= i < |s.pcs| && Holding(s.pcs[i])
      ensures Published(s) && Slot(s.ring, s.pcs[i].t) == s.plan[s.pcs[i].t]
    {
      HeldInWindow(s, i);
    }
    assert s.main.Idle? ==> forall t :: 0 <= t < s.limit ==> !s.own[t].Free?;
  }

  /** No more than `active` workers are ever in the claim loop, and `pending`
      never goes below zero. */
  lemma {:induction false} AdmissionHolds(workers: nat, active: nat, acts: seq<Action>)
    requires Possible(Init(workers, active), acts)
    ensures var s := Run(Init(workers, active), acts);
            CountAdmitted(s.pcs, active) <= active && s.pending >= 0
  {
    InitInv(workers, active);
    RunInv(Init(workers, active), acts);
    RunActive(Init(workers, active), acts);
  }

  lemma {:induction false} RunActive(s: State, acts: seq<Action>)
    requires Possible(s, acts)
    ensures Run(s, acts).active == s.active
    decreases |acts|
  {
    if acts != [] {
      RunActive(Step(s, acts[0]), acts[1..]);
    }
  }

  /** While the main thread spins on a positive `pending`, some thread holds a
      ticket and can move on: the wait is for work that is under way. */
  lemma {:induction false} SpinIsServed(workers: nat, active: nat, acts: seq<Action>) returns (i: nat)
    requires Possible(Init(workers, active), acts)
    requires var s := Run(Init(workers, active), acts); s.main.Spinning? && s.pending > 0
    ensures var s := Run(Init(workers, active), acts);
            i < |s.pcs| && Holding(s.pcs[i]) && Enabled(s, Thread(i, false))
  {
    var s := Run(Init(workers, active), acts);
    InitInv(workers, active);
    RunInv(Init(workers, active), acts);
    LiveRetired(s.own, s.limit);
    var t :| 0 <= t < s.limit && !s.own[t].Retired?;
    i := s.own[t].i;
  }

  /** The dispatches among the actions of a run, in order. */
  function Dispatches(acts: seq<Action>): seq<Action> {
    if acts == [] then []
    else (if acts[0].Dispatch? || acts[0].DispatchN? then [acts[0]] else []) + Dispatches(acts[1..])
  }

  /** The capacity of the ring once it has been resized for a dispatch. */
  function CapFor(cap: nat, d: Action): nat {
    match d
    case Dispatch(total, grown) => if grown && cap > 0 then GrownCap(cap, CeilDiv(total, TASK_GRAIN)) else cap
    case DispatchN(n, grown) => if grown && cap > 0 then GrownCap(cap, n) else cap
    case _ => cap
  }

  /** For each of a row of dispatches, the capacity it finds. */
  function Capacities(cap: nat, ds: seq<Action>): (r: seq<nat>)
    ensures |r| == |ds|
    decreases |ds|
  {
    if ds == [] then [] else [CapFor(cap, ds[0])] + Capacities(CapFor(cap, ds[0]), ds[1..])
  }

  /** How many elements a dispatch passes to its function, on a ring of that capacity. */
  function Elements(d: Action, cap: nat): int {
    match d
    case Dispatch(total, _) => total
    case DispatchN(n, _) => Min(n, cap)
    case _ => 0
  }

  lemma RingAfter(s: State, a: Action)
    requires Enabled(s, a)
    ensures |Step(s, a).ring| == CapFor(|s.ring|, a)
    ensures a.Dispatch? || a.DispatchN? ==>
      |Step(s, a).jobs| == |s.jobs| + 1 && s.jobs <= Step(s, a).jobs
      && Step(s, a).jobs[|s.jobs|].total == Elements(a, CapFor(|s.ring|, a))
    ensures !a.Dispatch? && !a.DispatchN? ==> Step(s, a).jobs == s.jobs
  {
    hide Tasks, Singles, GrownCap;
  }

  /** The jobs of a run are its dispatches, in order, with exactly the elements
      each of them passes on. */
  lemma {:induction false} JobsAreDispatches(s: State, acts: seq<Action>)
    requires Possible(s, acts)
    ensures var d, jobs := Dispatches(acts), Run(s, acts).jobs;
            && |jobs| == |s.jobs| + |d| && s.jobs <= jobs
            && forall i :: 0 <= i < |d| ==> jobs[|s.jobs| + i].total == Elements(d[i], Capacities(|s.ring|, d)[i])
    decreases |acts|
  {
    hide Step, Elements, CapFor, Enabled;
    if acts != [] {
      var s1 := Step(s, acts[0]);
      RingAfter(s, acts[0]);
      JobsAreDispatches(s1, acts[1..]);
      var d, rest := Dispatches(acts), Dispatches(acts[1..]);
      if acts[0].Dispatch? || acts[0].DispatchN? {
        assert d[1..] == rest;
        forall i | 0 <= i < |d|
          ensures Run(s, acts).jobs[|s.jobs| + i].total == Elements(d[i], Capacities(|s.ring|, d)[i])
        {
          if i > 0 {
            assert d[i] == rest[i - 1];
          }
        }
      } else {
        SameCap(acts[0], |s.ring|);
        assert d == rest;
      }
    }
  }

  lemma SameCap(a: Action, cap: nat)
    requires !a.Dispatch? && !a.DispatchN?
    ensures CapFor(cap, a) == cap
  {
  }

  /** Over any run from a fresh pool: between dispatches, each element of each
      dispatch so far has been passed exactly once.  A dispatch of `n` single tasks
      has all `n` of them passed if and only if they fit the ring it finds. */
  lemma {:induction false} DispatchedOnce(workers: nat, active: nat, acts: seq<Action>, k: nat, x: int)
    requires Possible(Init(workers, active), acts) && Run(Init(workers, active), acts).main.Idle?
    requires k < |Dispatches(acts)|
    ensures var d, cap := Dispatches(acts)[k], Capacities(1024, Dispatches(acts))[k];
            var calls := Run(Init(workers, active), acts).calls;
            && Passed(calls, k, x) == Once(x, Elements(d, cap))
            && (d.DispatchN? ==> (Elements(d, cap) == d.n <==> d.n <= cap))
  {
    hide Run, Possible, Passed;
    JobsAreDispatches(Init(workers, active), acts);
    ExactlyOnce(workers, active, acts, k, x);
  }
}
