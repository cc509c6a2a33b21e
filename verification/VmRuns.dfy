/** The executor over whole runs: it does what the step function does, never
    relies on anything that is not there, and gives back every reference. */
module VmRuns {
  import opened Lang
  import opened Bytecode
  import opened CodeGen
  import opened Reference
  import opened Machine
  import opened Nesting
  import opened Effects
  import opened Ledger
  import opened Correctness
  import opened Simulation
  import opened StackTypes
  import opened StackSafety
  import opened Discipline
  import opened Vm

  /** In a disciplined state the next instruction finds what it takes for granted. */
  lemma AllowedGrants(img: Image, ty: StackSafety.Tables, x: Exec, s: St, i: Instr, next: nat)
    requires Tabled(img, ty) && Fits(img, ty, x, s) && x.fn in img && x.fn in ty && Rooted(s)
    requires Allows(img[x.fn], ty[x.fn], s, i, next)
    ensures Granted(img, x.(ip := next), i)
  {
    hide Tabled, Fits, Rooted, Operands;
    FitsParts(img, ty, x, s);
    var n := match i
      case IJmpF(_) => 1
      case IStoreEnv(_) => 1
      case ICall1 => 2
      case ICall2 => 3
      case ICallN(k) => k + 1
      case ICallF(k) => k + 1
      case ICallS(k) => k
      case IDup => 1
      case IStoreGlobal(_) => 1
      case ITryH => 2
      case IForce => 1
      case _ => 0;
    if Pops(s, n) {
      HasOperands(img, ty, x, s, n);
      OperandsAt(x, n, next);
    }
  }

  lemma OperandsAt(x: Exec, n: nat, at: nat)
    requires Operands(x, n)
    ensures Operands(x.(ip := at), n)
  {
  }

  lemma FitsParts(img: Image, ty: StackSafety.Tables, x: Exec, s: St)
    requires Tabled(img, ty) && Fits(img, ty, x, s)
    ensures x.fn in img && x.nLocals == img[x.fn].nLocals && |x.ps| == Height(x) + s.h
    ensures |x.ps| > Height(x) ==> x.ps[|x.ps| - 1].Holds?
    ensures s.marks == [] && x.rs == [] ==> x.ts == []
    ensures s.marks == [] && x.rs != [] && x.rs[|x.rs| - 1].FnFrame? ==> x.rs[|x.rs| - 1].fn in img
  {
    hide Tabled, Sound, Waits;
    assert x.ts[..|x.ts|] == x.ts;
  }

  lemma SaneWhenDisciplined(e: Executor, ty: StackSafety.Tables)
    requires e.Valid() && Tabled(e.img, ty) && Live(e.img, ty, e.View())
    ensures e.Sane()
  {
    hide Tabled, Fits, Granted, Allows, Fetch, Sound;
    SameLambdas(e.img, ty);
    var x := e.View();
    var s := ty[x.fn][x.ip];
    TableSound(e.img, ty, x.fn, x.ip);
    SoundRooted(ty[x.fn], s);
    FitsParts(e.img, ty, x, s);
    match Fetch(e.img[x.fn].code, x.ip)
    case Fetched(i, next) =>
      AllowedGrants(e.img, ty, x, s, i, next);
      RetMarks(e.img[x.fn], ty[x.fn], s, i, next);
  }

  lemma RetMarks(c: Compiled, t: Typing, s: St, i: Instr, next: nat)
    requires Allows(c, t, s, i, next)
    ensures i.IRet? ==> s.marks == []
  {
  }

  ghost predicate ArityFits(img: Image) {
    forall id :: id in img ==> img[id].arity <= img[id].nLocals
  }

  lemma TabledArity(img: Image, ty: StackSafety.Tables)
    requires Tabled(img, ty)
    ensures ArityFits(img)
  {
    hide WellTyped;
  }

  /** The last of `n` steps was taken, not skipped because the machine had stopped. */
  ghost predicate Taken(img: Image, h: Host, m: Machine, n: nat) {
    n > 0 ==> Run(img, h, Limits, m, n - 1).st.Running?
  }

  /** At most `limit` instructions, until the invocation is over or a handler has to run. */
  method Execute(e: Executor, limit: nat, ghost ty: StackSafety.Tables) returns (sig: Signal, n: nat)
    requires e.Valid() && e.Balanced(multiset{}) && Tabled(e.img, ty) && Disciplined(e.img, ty, e.M())
    modifies e, e.ps, e.rs, e.ts
    ensures e.Valid() && e.Settled(sig) && n <= limit && (sig.Continue? ==> n == limit) && (sig.Handler? ==> n > 0)
    ensures Reports(e.img, Run(e.img, e.host, Limits, old(e.M()), n), e.View(), e.w, e.tally, sig)
    ensures Taken(e.img, e.host, old(e.M()), n)
  {
    hide HeldBy, Tabled, Disciplined, Step, Live, Apply;
    ghost var m := e.M();
    n := 0;
    sig := Continue;
    while sig.Continue? && n < limit
      invariant e.Valid() && e.Settled(sig) && n <= limit && (sig.Handler? ==> n > 0)
      invariant Reports(e.img, Run(e.img, e.host, Limits, m, n), e.View(), e.w, e.tally, sig)
      invariant Taken(e.img, e.host, m, n)
      invariant sig.Continue? ==> Disciplined(e.img, ty, e.M())
      decreases limit - n
    {
      LiveNow(e, ty);
      SaneWhenDisciplined(e, ty);
      TabledArity(e.img, ty);
      StepDisciplined(e.img, ty, e.host, Limits, e.M());
      RunAdd(e.img, e.host, Limits, m, n, 1);
      OneStep(e.img, e.host, e.M());
      sig := e.StepOnce();
      n := n + 1;
    }
  }

  lemma LiveNow(e: Executor, ty: StackSafety.Tables)
    requires e.Valid() && Tabled(e.img, ty) && Disciplined(e.img, ty, e.M())
    ensures Live(e.img, ty, e.View())
  {
    hide Tabled, Live;
  }

  lemma OneStep(img: Image, h: Host, m: Machine)
    ensures Run(img, h, Limits, m, 1) == Step(img, h, Limits, m)
  {
    hide Step;
    assert Run(img, h, Limits, m, 1) == Run(img, h, Limits, Step(img, h, Limits, m), 0);
  }

  lemma LocalsBounded(prog: Program, id: LamId)
    requires id in Link(prog)
    ensures Link(prog)[id].nLocals <= MAX_LOCALS && |prog[id].params| == Link(prog)[id].arity <= Link(prog)[id].nLocals
  {
    hide Gen, GenBody;
    ParamsFit(prog[id]);
  }

  /** The machine with the handler entered above the executor that waits for it. */
  ghost function Called(e: Executor, f: LamId, err: Value): Machine
    requires e.Valid() && f in e.img
    reads e, e.ps, e.rs, e.ts
  {
    Machine(Entry(f, e.img[f], [Holds(err)]), [e.View()], e.w, Running, e.tally)
  }

  ghost predicate LocalsFit(img: Image) {
    forall id :: id in img ==> img[id].nLocals <= VM_STACK_SIZE
  }

  lemma EnteredUnder(y: Exec, c: Compiled, f: LamId, err: Value, w: World, tally: Tally)
    ensures AsSlots([err]) == [Holds(err)]
    ensures Under(Limits, Machine(Entry(f, c, AsSlots([err])), [], w, Running, tally), y)
            == Machine(Entry(f, c, [Holds(err)]), [y], w, Running, tally)
  {
  }

  lemma AboveDisciplined(img: Image, ty: StackSafety.Tables, m: Machine, outer: seq<Exec>)
    requires Tabled(img, ty) && Disciplined(img, ty, m.(outer := outer))
    ensures Disciplined(img, ty, m.(outer := []))
  {
    hide Tabled, Live, Suspended;
  }

  /** `vm_exec` for a handler. What has been lost so far stays on the account of
      whichever executor is running. */
  method Start(img: Image, h: Host, f: LamId, err: Value, w: World, ghost tally: Tally) returns (e: Executor)
    requires f in img && 1 <= img[f].nLocals <= VM_STACK_SIZE
    requires !tally.fired ==> tally.lost == multiset{}
    ensures fresh(e) && fresh(e.ps) && fresh(e.rs) && fresh(e.ts) && e.img == img && e.host == h
    ensures e.Valid() && e.Balanced(multiset{})
    ensures e.M() == Machine(Entry(f, img[f], AsSlots([err])), [], w, Running, tally)
  {
    hide HeldBy;
    e := new Executor(img, h, f, [err], w);
    e.tally := tally;
    e.owned := e.owned + tally.lost;
  }

  /** The handler in an executor of its own, and its result taken over, unless
      `limit` instructions were not enough. */
  method RunHandler(e: Executor, f: LamId, err: Value, limit: nat, ghost ty: StackSafety.Tables)
    returns (over: bool, sig: Signal, n: nat)
    requires e.Valid() && e.Settled(Handler(f, err)) && f in e.img && e.img[f].arity == 1
    requires Tabled(e.img, ty) && LocalsFit(e.img) && Disciplined(e.img, ty, Called(e, f, err))
    modifies e, e.ps
    ensures e.Valid() && n <= limit && Taken(e.img, e.host, old(Called(e, f, err)), n) && !sig.Handler?
    ensures !over ==> n == limit && Run(e.img, e.host, Limits, old(Called(e, f, err)), n).st.Running?
    ensures over ==> e.Settled(sig)
    ensures over ==> Reports(e.img, Run(e.img, e.host, Limits, old(Called(e, f, err)), n), e.View(), e.w, e.tally, sig)
    decreases limit, 1
  {
    hide HeldBy, Tabled, Disciplined, Run, Deliver, Under, Reports, Executor.Balanced;
    TabledArity(e.img, ty);
    ghost var y := e.View();
    var nested := Start(e.img, e.host, f, err, e.w, e.tally);
    ghost var m := nested.M();
    EnteredUnder(y, e.img[f], f, err, e.w, e.tally);
    AboveDisciplined(e.img, ty, m, [y]);
    sig, n := RunThrough(nested, limit, ty);
    RunUnder(e.img, e.host, Limits, m, y, n);
    over := sig.Finish?;
    if over {
      RunLoses(e.img, e.host, m, n);
      ReportsEnd(e.img, Run(e.img, e.host, Limits, m, n), nested.View(), nested.w, nested.tally, sig);
      sig := TakeOver(e, f, err, nested.w, nested.tally, sig.v);
      EndUnder(Run(e.img, e.host, Limits, m, n), y);
    } else {
      StillUnder(Run(e.img, e.host, Limits, m, n), y);
    }
  }

  lemma EndUnder(m: Machine, y: Exec)
    requires m.st.Done? && m.outer == []
    ensures Under(Limits, m, y) == Deliver(Limits, Machine(y, [], m.w, Running, m.tally), m.st.v)
  {
  }

  lemma StillUnder(m: Machine, y: Exec)
    requires m.st.Running?
    ensures Under(Limits, m, y).st.Running?
  {
  }

  lemma MoreLost(e: Executor, hand: Refs, lost: Refs)
    requires e.Valid() && e.Balanced(hand) && e.tally.lost <= lost
    ensures e.owned + (lost - e.tally.lost) == HeldBy(e.View()) + hand + lost
  {
    hide HeldBy;
    assert lost == e.tally.lost + (lost - e.tally.lost);
  }

  /** The executor goes on with what the nested one has left behind. */
  method TakeOver(e: Executor, f: LamId, err: Value, w: World, ghost tally: Tally, r: Value) returns (sig: Signal)
    requires e.Valid() && e.Settled(Handler(f, err))
    requires e.tally.lost <= tally.lost && (!tally.fired ==> tally.lost == multiset{})
    modifies e, e.ps
    ensures e.Valid() && e.Settled(sig) && !sig.Handler?
    ensures Reports(e.img, Deliver(Limits, Machine(old(e.View()), [], w, Running, tally), r), e.View(), e.w, e.tally, sig)
  {
    hide HeldBy, Deliver, Reports;
    MoreLost(e, Passed(Handler(f, err)), tally.lost);
    e.owned := e.owned + (tally.lost - e.tally.lost);
    e.w := w;
    e.tally := tally;
    sig := e.Answer(f, err, r);
  }

  lemma Onward(img: Image, h: Host, m: Machine, a: nat, b: nat)
    requires Taken(img, h, m, a) && Taken(img, h, Run(img, h, Limits, m, a), b)
    ensures Taken(img, h, m, a + b)
    ensures Run(img, h, Limits, m, a + b) == Run(img, h, Limits, Run(img, h, Limits, m, a), b)
  {
    hide Run;
    RunAdd(img, h, Limits, m, a, b);
    if b > 0 {
      RunAdd(img, h, Limits, m, a, b - 1);
    }
  }

  /** An invocation to its end, handlers included, or for `limit` instructions. */
  method RunThrough(e: Executor, limit: nat, ghost ty: StackSafety.Tables) returns (sig: Signal, n: nat)
    requires e.Valid() && e.Balanced(multiset{})
    requires Tabled(e.img, ty) && LocalsFit(e.img) && Disciplined(e.img, ty, e.M())
    modifies e, e.ps, e.rs, e.ts
    ensures e.Valid() && n <= limit && Taken(e.img, e.host, old(e.M()), n) && !sig.Handler?
    ensures sig.Continue? ==> n == limit && Run(e.img, e.host, Limits, old(e.M()), n).st.Running?
    ensures sig.Finish? ==> e.Settled(sig)
    ensures sig.Finish? ==> Reports(e.img, Run(e.img, e.host, Limits, old(e.M()), n), e.View(), e.w, e.tally, sig)
    decreases limit, 0
  {
    hide HeldBy, Tabled, Disciplined, Run, LocalsFit, Called, Reports, Executor.Settled, Executor.Balanced, Taken;
    ghost var m := e.M();
    sig, n := Execute(e, limit, ty);
    ReportsWhat(e, Run(e.img, e.host, Limits, m, n), sig);
    if sig.Handler? {
      RunDisciplined(e.img, ty, e.host, Limits, m, n);
      var over, k;
      over, sig, k := RunHandler(e, sig.f, sig.err, limit - n, ty);
      Onward(e.img, e.host, m, n, k);
      n := n + k;
      if !over {
        sig := Continue;
      } else if sig.Continue? {
        ReportsWhat(e, Run(e.img, e.host, Limits, m, n), sig);
        RunDisciplined(e.img, ty, e.host, Limits, m, n);
        sig, k := RunThrough(e, limit - n, ty);
        Onward(e.img, e.host, m, n, k);
        n := n + k;
      }
    }
  }

  lemma ReportsWhat(e: Executor, m: Machine, sig: Signal)
    requires e.Valid() && e.Settled(sig) && Reports(e.img, m, e.View(), e.w, e.tally, sig)
    ensures sig.Continue? ==> m == e.M() && m.st.Running? && e.Balanced(multiset{})
    ensures sig.Handler? ==> sig.f in e.img && e.img[sig.f].arity == 1 && m == Called(e, sig.f, sig.err)
  {
    hide HeldBy, Executor.Balanced;
  }

  /** A call of a compiled lambda from outside, for at most `limit` instructions.
      It ends exactly if the step function does. Then, of all the references it
      has taken, it owns the one to its result and those whose pushes have
      overflowed: just its result if and only if no push has. When no capacity
      check has fired, it has ended as the reference evaluator says. */
  method CallLambda(prog: Program, h: Host, id: LamId, args: seq<Value>, w: World, limit: nat)
    returns (sig: Signal, w1: World, ghost owned: Refs, ghost tally: Tally)
    requires Acceptable(prog) && id in Link(prog)
    ensures |args| != |prog[id].params| ==> sig == Finish(ErrObj(Arity)) && w1 == w
    ensures |args| == |prog[id].params| ==>
      var boot := Boot(Link(prog), id, args, w);
      var end := Run(Link(prog), h, Limits, boot, limit);
      && (sig.Finish? <==> !end.st.Running?)
      && (sig.Finish? ==>
            && end.st == Done(sig.v) && w1 == end.w && tally == end.tally
            && owned == Passed(sig) + tally.lost
            && (owned == Passed(sig) <==> forall k :: 0 <= k < limit ==> !Overflows(Link(prog), h, Run(Link(prog), h, Limits, boot, k))))
    ensures |args| == |prog[id].params| && sig.Finish? && !tally.fired ==>
      owned == Passed(sig) && exists k: nat :: Answers(prog, h, id, args, w, k, sig.v, w1)
  {
    hide Tabled, Run, Invoke, Gen, GenBody, GenLambda, Disciplined, HeldBy, Reports, Overflows;
    var img := Link(prog);
    forall i | i in img ensures img[i].nLocals <= VM_STACK_SIZE {
      LocalsBounded(prog, i);
    }
    LocalsBounded(prog, id);
    if |args| != img[id].arity {
      return Finish(ErrObj(Arity)), w, multiset{}, CLEAN;
    }
    var e := new Executor(img, h, id, args, w);
    ghost var boot := Boot(img, id, args, w);
    ghost var ty := SafeRuns(prog, h, Limits, id, args, w, 0);
    RunNone(img, h, boot);
    var n;
    sig, n := RunThrough(e, limit, ty);
    w1, owned, tally := e.w, e.owned, e.tally;
    if sig.Finish? {
      ReportsEnd(img, Run(img, h, Limits, boot, n), e.View(), w1, tally, sig);
      RunAdd(img, h, Limits, boot, n, limit - n);
      RunHalted(img, h, Limits, Run(img, h, Limits, boot, n), limit - n);
      RunLoses(img, h, boot, limit);
      if !tally.fired {
        Ended(prog, h, id, args, w, n, sig, e.View(), w1, tally);
      }
    }
  }

  lemma ReportsEnd(img: Image, m: Machine, x: Exec, w: World, tally: Tally, sig: Signal)
    requires Reports(img, m, x, w, tally, sig) && sig.Finish?
    ensures m.st == Done(sig.v) && m.outer == [] && m.w == w && m.tally == tally
  {
  }

  lemma RunNone(img: Image, h: Host, m: Machine)
    ensures Run(img, h, Limits, m, 0) == m
  {
  }

  lemma Ended(prog: Program, h: Host, id: LamId, args: seq<Value>, w: World, n: nat, sig: Signal, x: Exec, w1: World, tally: Tally)
    requires Callable(prog, id, args) && sig.Finish?
    requires Reports(Link(prog), Run(Link(prog), h, Limits, Boot(Link(prog), id, args, w), n), x, w1, tally, sig) && !tally.fired
    ensures exists k: nat :: Answers(prog, h, id, args, w, k, sig.v, w1)
  {
    hide Run, Invoke, Gen, Answers;
    ExecutorCorrect(prog, h, id, args, w, n);
  }
}
