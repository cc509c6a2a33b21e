/** What a caller of the pool sees of its ring and of its workers, with the
    numbers written out. */
module PoolRuns {
  import opened Pool
  import opened PoolProof

  /** `cap` doubled `k` times. */
  function Doubled(cap: nat, k: nat): nat {
    if k == 0 then cap else 2 * Doubled(cap, k - 1)
  }

  lemma {:induction false} DoubledFirst(cap: nat, k: nat)
    ensures Doubled(cap * 2, k) == Doubled(cap, k + 1)
  {
    if k > 0 {
      DoubledFirst(cap, k - 1);
    }
  }

  /** The ring doubles as often as it must to hold `n` tasks, unless it reaches
      65536 slots first, and no more often. */
  lemma {:induction false} GrowsAsNeeded(cap: nat, n: nat) returns (k: nat)
    requires cap > 0
    ensures GrownCap(cap, n) == Doubled(cap, k) && (Doubled(cap, k) >= n || Doubled(cap, k) >= 65536)
    ensures forall j :: 0 <= j < k ==> Doubled(cap, j) < n && Doubled(cap, j) < 65536
    decreases MAX_RING_CAP - cap
  {
    k := 0;
    if cap < n && cap < 65536 {
      k := GrowsAsNeeded(cap * 2, n);
      forall j | 0 <= j < k + 1 ensures Doubled(cap, j) < n && Doubled(cap, j) < 65536 {
        if j > 0 {
          DoubledFirst(cap, j - 1);
        }
      }
      DoubledFirst(cap, k);
      k := k + 1;
    }
  }

  /** The sizes a ring can have. */
  predicate RingSize(cap: nat) {
    cap == 1024 || cap == 2048 || cap == 4096 || cap == 8192 || cap == 16384 || cap == 32768 || cap == 65536
  }

  lemma {:induction false} GrowsToRingSize(cap: nat, n: nat)
    requires RingSize(cap)
    ensures RingSize(GrownCap(cap, n)) && GrownCap(cap, n) >= Min(n, 65536)
    decreases MAX_RING_CAP - cap
  {
    if cap < n && cap < 65536 {
      GrowsToRingSize(cap * 2, n);
    }
  }

  lemma {:induction false} RingSizes(cap: nat, ds: seq<Action>, k: nat)
    requires RingSize(cap) && k < |ds|
    ensures RingSize(Capacities(cap, ds)[k])
    ensures ds[k].DispatchN? && ds[k].grown ==> Capacities(cap, ds)[k] >= Min(ds[k].n, 65536)
    ensures ds[k].Dispatch? && ds[k].grown ==> Capacities(cap, ds)[k] >= Min(CeilDiv(ds[k].total, 8192), 65536)
    decreases |ds|
  {
    hide GrownCap, CeilDiv;
    match ds[0] {
      case Dispatch(total, _) => GrowsToRingSize(cap, CeilDiv(total, TASK_GRAIN));
      case DispatchN(n, _) => GrowsToRingSize(cap, n);
      case _ =>
    }
    if k > 0 {
      RingSizes(CapFor(cap, ds[0]), ds[1..], k - 1);
    }
  }

  /** Over any run from a fresh pool, between dispatches: of a dispatch of `n` single
      tasks each of the first 65536 has been passed exactly once, and nothing else,
      if the ring could be reallocated; of one of `total` elements, all of them
      in any case. */
  lemma {:induction false} NothingDropped(workers: nat, active: nat, acts: seq<Action>, k: nat, x: int)
    requires Possible(Init(workers, active), acts) && Run(Init(workers, active), acts).main.Idle?
    requires k < |Dispatches(acts)|
    ensures var d, calls := Dispatches(acts)[k], Run(Init(workers, active), acts).calls;
            && (d.DispatchN? && d.grown ==> Passed(calls, k, x) == Once(x, Min(d.n, 65536)))
            && (d.DispatchN? && d.n <= 1024 ==> Passed(calls, k, x) == Once(x, d.n))
            && (d.Dispatch? ==> Passed(calls, k, x) == Once(x, d.total))
  {
    hide Run, Possible, Passed, Capacities;
    RingSizes(1024, Dispatches(acts), k);
    DispatchedOnce(workers, active, acts, k, x);
  }

  /** On a ring with room, a dispatch is cut into tasks of 8192 elements, the last
      one of what is left; on a smaller one into as many tasks as the ring has
      slots, none larger than it must be. */
  lemma TaskSizes(job: nat, total: nat, cap: nat)
    requires cap > 0
    ensures var ts := Tasks(job, total, cap);
            if total <= 8192 * cap then
              && 8192 * |ts| < total + 8192 <= 8192 * |ts| + 8192
              && forall i :: 0 <= i < |ts| ==> ts[i].lo == 8192 * i && ts[i].hi == Min(8192 * (i + 1), total)
            else
              |ts| == cap && forall i :: 0 <= i < |ts| ==> (ts[i].hi - ts[i].lo - 1) * cap < total
  {
    var n, q := CeilDiv(total, TASK_GRAIN), total + cap - 1;
    assert total <= 8192 * cap <==> n <= cap;
    if total > 8192 * cap {
      var grain := CeilDiv(total, cap);
      assert q == cap * grain + q % cap;
      forall i | 0 <= i < cap
        ensures (Min(i * grain + grain, total) - i * grain - 1) * cap < total
      {
        AtMost(Min(i * grain + grain, total) - i * grain - 1, grain - 1, cap);
      }
    }
  }

  lemma AtMost(a: int, b: int, c: nat)
    requires a <= b
    ensures a * c <= b * c
  {
  }

  /** How often a worker is woken in a run. */
  function Wakes(s: State, acts: seq<Action>): nat
    requires Possible(s, acts)
    decreases |acts|
  {
    if acts == [] then 0
    else
      Wakes(Step(s, acts[0]), acts[1..]) +
      if acts[0].Thread? && s.pcs[acts[0].i].Parked? then 1 else 0
  }

  /** The wake-ups the dispatch under way has still to post. */
  function ToPost(main: MainPc, active: nat): nat {
    match main
    case Filling(_) => active
    case StorePending => active
    case StoreLimit => active
    case Waking(k) => k
    case _ => 0
  }

  /** Wake-ups are neither lost nor doubled by a step. */
  lemma StepWakes(s: State, a: Action)
    requires Enabled(s, a) && AdmitInv(s)
    ensures var t := Step(s, a);
            && t.active == s.active
            && t.tokens + (if a.Thread? && s.pcs[a.i].Parked? then 1 else 0) + ToPost(t.main, s.active) ==
               s.tokens + ToPost(s.main, s.active) + if a.Dispatch? || a.DispatchN? then s.active else 0
  {
    hide Tasks, Singles, GrownCap;
  }

  lemma {:induction false} RunWakes(s: State, acts: seq<Action>)
    requires Possible(s, acts) && Inv(s)
    ensures var t := Run(s, acts);
            t.tokens + Wakes(s, acts) + ToPost(t.main, s.active) ==
            s.tokens + ToPost(s.main, s.active) + s.active * |Dispatches(acts)|
    decreases |acts|
  {
    hide Step, Enabled, ToPost, TicketInv, BarrierInv, JobInv, RingInv, CallInv, AdmitInv;
    if acts != [] {
      StepWakes(s, acts[0]);
      StepInv(s, acts[0]);
      RunWakes(Step(s, acts[0]), acts[1..]);
      var n := |Dispatches(acts[1..])|;
      assert s.active * (n + 1) == s.active * n + s.active;
    }
  }

  /** Each dispatch posts one wake-up for each active worker: between dispatches
      as many have been taken by workers or are waiting to be. */
  lemma {:induction false} EachDispatchWakesAll(workers: nat, active: nat, acts: seq<Action>)
    requires Possible(Init(workers, active), acts) && Run(Init(workers, active), acts).main.Idle?
    ensures Run(Init(workers, active), acts).tokens + Wakes(Init(workers, active), acts) == active * |Dispatches(acts)|
  {
    hide Possible, Run, Dispatches, Wakes, Inv;
    InitInv(workers, active);
    RunWakes(Init(workers, active), acts);
  }

  /** A woken worker is let into the claim loop if and only if it has counted fewer
      than `active` others there or on their way. */
  lemma {:induction false} AdmittedIffRoom(s: State, i: nat, weak: bool)
    requires Inv(s) && 0 < i < |s.pcs| && s.pcs[i].Woken?
    ensures var t := StepThread(StepThread(s, i, weak), i, weak);
            t.pcs[i] == if CountCounted(s.pcs) < s.active then LoadCur else Rejected
  {
  }

  // A dispatch can always be brought to its end.

  lemma {:induction false} RunOn(s: State, a: seq<Action>, b: seq<Action>)
    requires Possible(s, a) && Possible(Run(s, a), b)
    ensures Possible(s, a + b) && Run(s, a + b) == Run(Run(s, a), b)
    decreases |a|
  {
    if a == [] {
      assert a + b == b;
    } else {
      assert (a + b)[1..] == a[1..] + b;
      RunOn(Step(s, a[0]), a[1..], b);
    }
  }

  /** How far the main thread is from the end of its dispatch. */
  function Ahead(main: MainPc): nat {
    match main
    case Filling(_) => 6
    case StorePending => 5
    case StoreLimit => 4
    case Waking(_) => 3
    case Claiming => 2
    case Spinning => 1
    case Idle => 0
  }

  /** And within one part of it. */
  function Within(s: State): int
    requires s.pcs != []
  {
    match s.main
    case Filling(i) => LastJob(s.jobs).n - i
    case Waking(k) => k
    case Claiming => 16 * (s.limit - s.claim) + Distance(s.pcs[0], s.claim)
    case Spinning => s.pending
    case _ => 0
  }

  /** Of a thread in the claim loop, from its next claim or from leaving. */
  function Distance(pc: Pc, claim: nat): nat {
    match pc
    case Claimed(_) => 9
    case Working(_, _) => 8
    case Ran(_) => 7
    case LoadCur => 6
    case LoadLim(cur) => if cur == claim then 3 else 5
    case Cas(cur) => if cur == claim then 2 else 4
    case Leaving => 1
    case _ => 0
  }

  /** A thread with a ticket is through with it in at most three steps of its own. */
  lemma {:induction false} TicketFinishes(s: State, i: nat) returns (acts: seq<Action>)
    requires Inv(s) && s.main.Spinning? && i < |s.pcs| && Holding(s.pcs[i])
    ensures Possible(s, acts) && Inv(Run(s, acts))
    ensures Run(s, acts).main.Spinning? && Run(s, acts).pending == s.pending - 1
    decreases Distance(s.pcs[i], s.claim)
  {
    var a := Thread(i, false);
    var t := Step(s, a);
    StepInv(s, a);
    hide Inv;
    if s.pcs[i].Ran? {
      acts := [a];
      assert acts[1..] == [];
      assert Possible(t, []) && Run(t, []) == t;
    } else {
      var more := TicketFinishes(t, i);
      acts := [a] + more;
      assert acts[1..] == more;
    }
  }

  lemma HolderOf(s: State) returns (i: nat)
    requires Inv(s) && s.main.Spinning? && s.pending > 0
    ensures i < |s.pcs| && Holding(s.pcs[i])
  {
    LiveRetired(s.own, s.limit);
    var t :| 0 <= t < s.limit && !s.own[t].Retired?;
    i := s.own[t].i;
  }

  /** One step of the main thread, as thread 0 in the claim loop, brings the end nearer. */
  lemma MainNearer(s: State)
    requires Inv(s) && !s.main.Idle? && !(s.main.Spinning? && s.pending > 0)
    ensures var a := if s.main.Claiming? then Thread(0, false) else Main;
            && Enabled(s, a) && Step(s, a).pcs != []
            && (Ahead(Step(s, a).main) < Ahead(s.main) ||
                (Ahead(Step(s, a).main) == Ahead(s.main) && 0 <= Within(Step(s, a)) < Within(s)))
  {
    hide Fill, Slot, Mark, CallInv, RingInv, CountCounted, CountAdmitted;
  }

  /** Whatever the threads have been doing: the dispatch under way can be brought to
      its end, by steps of threads that are free to move. */
  lemma {:induction false} CanFinish(s: State) returns (acts: seq<Action>)
    requires Inv(s)
    ensures Possible(s, acts) && Run(s, acts).main.Idle?
    decreases Ahead(s.main), if s.pcs == [] then 0 else Within(s)
  {
    if s.main.Idle? {
      acts := [];
    } else if s.main.Spinning? && s.pending > 0 {
      var i := HolderOf(s);
      var some := TicketFinishes(s, i);
      hide Inv;
      var rest := CanFinish(Run(s, some));
      RunOn(s, some, rest);
      acts := some + rest;
    } else {
      var a := if s.main.Claiming? then Thread(0, false) else Main;
      MainNearer(s);
      StepInv(s, a);
      hide Inv, Step;
      var rest := CanFinish(Step(s, a));
      acts := [a] + rest;
      assert acts[1..] == rest;
    }
  }

  /** From every state of every run of a fresh pool. */
  lemma {:induction false} DispatchesCanFinish(workers: nat, active: nat, acts: seq<Action>) returns (rest: seq<Action>)
    requires Possible(Init(workers, active), acts)
    ensures Possible(Run(Init(workers, active), acts), rest)
    ensures Run(Run(Init(workers, active), acts), rest).main.Idle?
  {
    hide Possible, Run, Inv;
    InitInv(workers, active);
    RunInv(Init(workers, active), acts);
    rest := CanFinish(Run(Init(workers, active), acts));
  }
}
