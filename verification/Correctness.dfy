/** The main results about the compiler and the executor. */
module Correctness {
  import opened Lang
  import opened Bytecode
  import opened CodeGen
  import opened Reference
  import opened Machine
  import opened Scope
  import opened SimExec
  import opened SimDefs
  import opened Simulation

  /** A program the theorems speak about: `self` calls have the right number of
      operands and no pool is larger than its indices. */
  ghost predicate Acceptable(prog: Program) {
    WellFormed(prog) && PoolsFit(prog)
  }

  ghost function EnvOf(prog: Program, h: Host, id: LamId): Env {
    Env(prog, Link(prog).Keys, h, id)
  }

  /** What the evaluator answers for a call of lambda `id`, given call depth `k`. */
  ghost function Answer(prog: Program, h: Host, id: LamId, args: seq<Value>, w: World, k: nat): CallRes
    requires id in Link(prog) && |args| == |prog[id].params|
  {
    Invoke(EnvOf(prog, h, id), args, w, k)
  }

  /** The machine has ended as the evaluator says. */
  ghost predicate EndsAs(m: Machine, c: CallRes) {
    match c.o
    case Val(v) => m.st == Done(v) && m.w == c.w
    case Fail(f) => m.st == Done(FinalError(f)) && m.w == c.w
    case _ => false
  }

  ghost predicate Callable(prog: Program, id: LamId, args: seq<Value>) {
    Acceptable(prog) && id in Link(prog) && |args| == |prog[id].params|
  }

  lemma BootEntered(prog: Program, h: Host, id: LamId, args: seq<Value>, w: World)
    requires Callable(prog, id, args)
    ensures var env := EnvOf(prog, h, id);
            env.Valid() && Setup(env, Link(prog)) && Entered(env, Link(prog), Boot(Link(prog), id, args, w), args)
  {
    hide Gen;
    ParamsFit(prog[id]);
  }

  /** Forward: if the evaluator answers, the executor stops with that answer;
      if the evaluator runs out of depth `k`, the executor is still running
      after at least `k - 1` steps. */
  lemma {:induction false} Forward(prog: Program, h: Host, id: LamId, args: seq<Value>, w: World, k: nat) returns (n: nat)
    requires Callable(prog, id, args)
    ensures var c := Answer(prog, h, id, args, w, k);
            var end := Run(Link(prog), h, Unlimited, Boot(Link(prog), id, args, w), n);
            if c.o.Timeout? then n + 1 >= k && end.st.Running? else EndsAs(end, c)
  {
    hide Run, Gen, Invoke, Setup;
    var img := Link(prog);
    BootEntered(prog, h, id, args, w);
    var mx;
    n, mx := SimInvoke(EnvOf(prog, h, id), img, args, Boot(img, id, args, w), k);
  }

  /** Compiler correctness: the bytecode stops with a result or an error, and
      with certain globals and a certain pending raise value, exactly when the
      evaluator answers that. */
  lemma {:induction false} CompilerCorrect(prog: Program, h: Host, id: LamId, args: seq<Value>, w: World, r: Value, w1: World)
    requires Callable(prog, id, args)
    ensures var boot := Boot(Link(prog), id, args, w);
            (exists n: nat :: Stops(prog, h, boot, n, r, w1)) <==> (exists k: nat :: Answers(prog, h, id, args, w, k, r, w1))
  {
    hide Run, Gen, Invoke;
    var img, boot := Link(prog), Boot(Link(prog), id, args, w);
    if k: nat :| Answers(prog, h, id, args, w, k, r, w1) {
      var n := Forward(prog, h, id, args, w, k);
      assert Stops(prog, h, boot, n, r, w1);
    }
    if n: nat :| Stops(prog, h, boot, n, r, w1) {
      var j := Forward(prog, h, id, args, w, n + 2);
      HaltsOnce(img, h, boot, n, j);
      assert Answers(prog, h, id, args, w, n + 2, r, w1);
    }
  }

  ghost predicate Stops(prog: Program, h: Host, boot: Machine, n: nat, r: Value, w1: World) {
    var end := Run(Link(prog), h, Unlimited, boot, n);
    end.st == Done(r) && end.w == w1
  }

  ghost predicate Answers(prog: Program, h: Host, id: LamId, args: seq<Value>, w: World, k: nat, r: Value, w1: World)
    requires id in Link(prog) && |args| == |prog[id].params|
  {
    var c := Answer(prog, h, id, args, w, k);
    c.w == w1 && (c.o == Val(r) || (c.o.Fail? && r == FinalError(c.o.f)))
  }

  /** Two runs of the same machine that have both ended ended in the same state. */
  lemma HaltsOnce(img: Image, h: Host, m: Machine, a: nat, b: nat)
    ensures var x, y := Run(img, h, Unlimited, m, a), Run(img, h, Unlimited, m, b);
            && (!x.st.Running? && b >= a ==> y == x)
            && (!y.st.Running? && a >= b ==> x == y)
  {
    hide Run;
    if b >= a {
      RunAdd(img, h, Unlimited, m, a, b - a);
      if !Run(img, h, Unlimited, m, a).st.Running? {
        RunHalted(img, h, Unlimited, Run(img, h, Unlimited, m, a), b - a);
      }
    }
    if a >= b {
      RunAdd(img, h, Unlimited, m, b, a - b);
      if !Run(img, h, Unlimited, m, b).st.Running? {
        RunHalted(img, h, Unlimited, Run(img, h, Unlimited, m, b), a - b);
      }
    }
  }

  /** Safety: no run, however long, ever leaves the code, pops into the locals of
      a frame, or uses a constant or a slot that is not there. */
  lemma {:induction false} NeverStuck(prog: Program, h: Host, id: LamId, args: seq<Value>, w: World, n: nat)
    requires Callable(prog, id, args)
    ensures !Run(Link(prog), h, Unlimited, Boot(Link(prog), id, args, w), n).st.Stuck?
  {
    hide Run, Gen, Invoke;
    var j := Forward(prog, h, id, args, w, n + 2);
    HaltsOnce(Link(prog), h, Boot(Link(prog), id, args, w), n, j);
  }

  /** A step that fires no capacity check is a step of the unlimited executor,
      and the record of a fired check is never erased. */
  lemma {:induction false} UnwindLimits(m: Machine, f: Failure)
    ensures m.tally.fired ==> Unwind(Limits, m, f).tally.fired
    ensures !Unwind(Limits, m, f).tally.fired ==> Unwind(Limits, m, f) == Unwind(Unlimited, m, f)
    decreases |m.outer|, |m.x.ts|
  {
    var x := m.x;
    if |x.ts| > 0 {
      var t := x.ts[|x.ts| - 1];
      var ps := Take(x.ps, t.sp);
      var x1 := Exec(t.fn, t.handler, t.fp, t.nLocals, ps, Take(x.rs, t.rp), x.ts[..|x.ts| - 1]);
      UnwindLimits(m.(x := x1, w := m.w.(pending := Unset), tally := Missed(m.tally, Payload(f, m.w))), LIMIT);
    } else if m.outer != [] {
      var last := |m.outer| - 1;
      UnwindLimits(m.(x := m.outer[last], outer := m.outer[..last]), Failure(true, f.code));
    }
  }

  lemma PushLimits(m: Machine, v: Value)
    ensures Agrees(m, Push(Limits, m, v), Push(Unlimited, m, v))
  {
    UnwindLimits(m.(tally := Missed(m.tally, v)), LIMIT);
  }

  lemma DeliverLimits(m: Machine, v: Value)
    ensures Agrees(m, Deliver(Limits, m, v), Deliver(Unlimited, m, v))
  {
    hide Unwind, Push;
    if v.ErrObj? {
      UnwindLimits(m, Failure(true, v.code));
    } else {
      PushLimits(m, v);
    }
  }

  ghost predicate Agrees(m: Machine, a: Machine, b: Machine) {
    (m.tally.fired ==> a.tally.fired) && (!a.tally.fired ==> a == b)
  }

  lemma HitLimits(m: Machine)
    ensures HitLimit(Limits, m).tally.fired
  {
    UnwindLimits(m.(tally := Fired(m.tally)), LIMIT);
  }

  lemma HostLimits(h: Host, m: Machine, op: CallOp, f: Value, vs: seq<Value>)
    ensures Agrees(m, CallHost(h, Limits, m, op, f, vs), CallHost(h, Unlimited, m, op, f, vs))
  {
    hide Deliver;
    var (v, w) := h.invoke(op, f, vs, m.w);
    DeliverLimits(m.(w := w), v);
  }

  lemma CallHostLimits(h: Host, m: Machine, op: CallOp, n: nat)
    ensures Agrees(m, StepCallHost(h, Limits, m, op, n), StepCallHost(h, Unlimited, m, op, n))
  {
    hide CallHost;
    if Operands(m.x, n + 1) {
      var vs := Popped(m.x.ps, n + 1);
      HostLimits(h, m.(x := Drop(m.x, n + 1)), op, vs[n], vs[..n]);
    }
  }

  lemma CallFLimits(img: Image, h: Host, m: Machine, n: nat)
    ensures Agrees(m, StepCallF(img, h, Limits, m, n), StepCallF(img, h, Unlimited, m, n))
  {
    hide CallHost, Unwind, HitLimit;
    if Operands(m.x, n + 1) {
      var vs := Popped(m.x.ps, n + 1);
      var m1 := m.(x := Drop(m.x, n + 1));
      HostLimits(h, m1, ByCallF, vs[n], vs[..n]);
      UnwindLimits(m1, ErrorOf(Arity));
      HitLimits(m1);
    }
  }

  lemma TryHLimits(img: Image, h: Host, m: Machine)
    ensures Agrees(m, StepTryH(img, h, Limits, m), StepTryH(img, h, Unlimited, m))
  {
    hide CallHost, Unwind, Deliver;
    if Operands(m.x, 2) {
      var err, f := m.x.ps[|m.x.ps| - 1].v, m.x.ps[|m.x.ps| - 2].v;
      var m1 := m.(x := Drop(m.x, 2));
      HostLimits(h, m1, ByHandler, f, [err]);
      UnwindLimits(m1, ErrorOf(Arity));
      DeliverLimits(m1, f);
    }
  }

  lemma PopFrameLimits(img: Image, m: Machine, v: Value)
    ensures Agrees(m, PopFrame(img, Limits, m, v), PopFrame(img, Unlimited, m, v))
  {
    hide Push, Deliver;
    var x := m.x;
    var ps := Take(x.ps, x.fp);
    if x.rs == [] {
      if m.outer != [] {
        DeliverLimits(m.(x := m.outer[|m.outer| - 1], outer := m.outer[..|m.outer| - 1]), v);
      }
    } else {
      var rs := x.rs[..|x.rs| - 1];
      match x.rs[|x.rs| - 1]
      case SelfFrame(fp, ip) =>
        PushLimits(m.(x := x.(ps := ps, rs := rs, fp := fp, ip := ip)), v);
      case FnFrame(fn, fp, ip) =>
        if fn in img {
          PushLimits(m.(x := Exec(fn, ip, fp, img[fn].nLocals, ps, rs, x.ts)), v);
        }
    }
  }

  lemma ApplyLimits(img: Image, h: Host, m: Machine, i: Instr)
    requires m.x.fn in img
    ensures Agrees(m, Apply(img, h, Limits, m, i), Apply(img, h, Unlimited, m, i))
  {
    hide Push, Deliver, Unwind, PopFrame, StepCallF, StepCallHost, StepTryH, HitLimit, SetGlobal;
    var x, consts := m.x, img[m.x.fn].consts;
    HitLimits(m);
    match i
    case IRet =>
      if |x.ps| <= Height(x) {
        PopFrameLimits(img, m, Null);
      } else if x.ps[|x.ps| - 1].Holds? {
        PopFrameLimits(img, m, x.ps[|x.ps| - 1].v);
      }
    case ILoadConst(k) =>
      if k < |consts| {
        PushLimits(m, consts[k]);
      }
    case ILoadEnv(s) =>
      PushLimits(m, Int(0));
      if s < x.nLocals && Height(x) <= |x.ps| && x.ps[x.fp + s].Holds? {
        PushLimits(m, x.ps[x.fp + s].v);
      }
    case IResolve(k) =>
      UnwindLimits(m, Failure(false, NameErr));
      if k < |consts| && consts[k].Symbol? && consts[k].s in m.w.globals {
        DeliverLimits(m, m.w.globals[consts[k].s]);
      }
    case ICall1 => CallHostLimits(h, m, ByCall1, 1);
    case ICall2 => CallHostLimits(h, m, ByCall2, 2);
    case ICallN(n) =>
      UnwindLimits(m, Failure(false, Domain));
      CallHostLimits(h, m, ByCallN, n);
    case ICallF(n) =>
      UnwindLimits(m, Failure(false, Domain));
      CallFLimits(img, h, m, n);
    case IDup =>
      if Operands(x, 1) {
        PushLimits(m, x.ps[|x.ps| - 1].v);
      }
    case IStoreGlobal(k) =>
      if k < |consts| && consts[k].Symbol? && Operands(x, 1) {
        match SetGlobal(m.w.globals, consts[k].s, x.ps[|x.ps| - 1].v)
        case NotBound(code) => UnwindLimits(m.(x := Drop(x, 1)), ErrorOf(code));
        case Rebound(_) =>
      }
    case ITryH => TryHLimits(img, h, m);
    case _ =>
  }

  lemma {:induction false} RunLimits(img: Image, h: Host, m: Machine, n: nat)
    ensures Agrees(m, Run(img, h, Limits, m, n), Run(img, h, Unlimited, m, n))
    decreases n
  {
    hide Apply;
    if n > 0 {
      if m.st.Running? && m.x.fn in img {
        match Fetch(img[m.x.fn].code, m.x.ip)
        case NoInstr =>
        case Fetched(i, next) => ApplyLimits(img, h, m.(x := m.x.(ip := next)), i);
      }
      RunLimits(img, h, Step(img, h, Limits, m), n - 1);
    }
  }

  /** The executor with its real stacks: however far it runs, it has fired a
      capacity check, or it is in no unsafe state and, if it has stopped, it has
      stopped with the answer of the evaluator. */
  lemma {:induction false} ExecutorCorrect(prog: Program, h: Host, id: LamId, args: seq<Value>, w: World, n: nat)
    requires Callable(prog, id, args)
    ensures var end := Run(Link(prog), h, Limits, Boot(Link(prog), id, args, w), n);
            || end.tally.fired
            || end.st.Running?
            || (end.st.Done? && exists k: nat :: Answers(prog, h, id, args, w, k, end.st.v, end.w))
  {
    hide Run, Gen, Invoke;
    var img, boot := Link(prog), Boot(Link(prog), id, args, w);
    RunLimits(img, h, boot, n);
    NeverStuck(prog, h, id, args, w, n);
    var end := Run(img, h, Limits, boot, n);
    if !end.tally.fired && end.st.Done? {
      assert Stops(prog, h, boot, n, end.st.v, end.w);
      CompilerCorrect(prog, h, id, args, w, end.st.v, end.w);
    }
  }

  /** And when the evaluator answers, the executor gets there, unless a capacity
      check fires on the way. */
  lemma {:induction false} ExecutorComplete(prog: Program, h: Host, id: LamId, args: seq<Value>, w: World, k: nat) returns (n: nat)
    requires Callable(prog, id, args) && !Answer(prog, h, id, args, w, k).o.Timeout?
    ensures var end := Run(Link(prog), h, Limits, Boot(Link(prog), id, args, w), n);
            end.tally.fired || EndsAs(end, Answer(prog, h, id, args, w, k))
  {
    hide Run, Gen, Invoke;
    n := Forward(prog, h, id, args, w, k);
    RunLimits(Link(prog), h, Boot(Link(prog), id, args, w), n);
  }
}
