/** The main results about stacks and traps: they hold in every state of every
    run, with the real capacities as well as without any. */
module Discipline {
  import opened Lang
  import opened Bytecode
  import opened CodeGen
  import opened Machine
  import opened Correctness
  import opened Simulation
  import opened StackTypes
  import opened StackCode
  import opened StackSafety
  import opened Effects

  ghost function TableOf(l: Lambda): Typing
    requires GenLambda(l).Emitted? && exists t: Typing :: WellTyped(CompiledOf(l), t)
  {
    var t: Typing :| WellTyped(CompiledOf(l), t); t
  }

  /** Every program has its tables. */
  lemma Tables(prog: Program) returns (ty: StackSafety.Tables)
    requires Acceptable(prog)
    ensures Tabled(Link(prog), ty)
  {
    hide GenLambda, WellTyped, SelfArityAll;
    forall id | id in prog && GenLambda(prog[id]).Emitted?
      ensures exists t: Typing :: WellTyped(CompiledOf(prog[id]), t)
    {
      var t := LambdaTyped(prog[id]);
    }
    ty := map id | id in prog && GenLambda(prog[id]).Emitted? :: TableOf(prog[id]);
    forall id | id in Link(prog) ensures Link(prog)[id].arity <= Link(prog)[id].nLocals {
      ParamsFit(prog[id]);
    }
  }

  /** Whatever the capacities and the host, and also after a capacity check has
      been caught: no run ever leaves the code, pops below the locals of its
      frame, or uses a constant or slot that is not there. */
  lemma SafeRuns(prog: Program, h: Host, caps: Caps, id: LamId, args: seq<Value>, w: World, n: nat)
    returns (ty: StackSafety.Tables)
    requires Callable(prog, id, args)
    ensures Tabled(Link(prog), ty)
    ensures Disciplined(Link(prog), ty, Run(Link(prog), h, caps, Boot(Link(prog), id, args, w), n))
  {
    ty := Tables(prog);
    ParamsFit(prog[id]);
    hide Tabled, Live, Entry, Run, GenLambda;
    BootLive(Link(prog), ty, id, AsSlots(args));
    RunDisciplined(Link(prog), ty, h, caps, Boot(Link(prog), id, args, w), n);
  }

  lemma NeverStuckEver(prog: Program, h: Host, caps: Caps, id: LamId, args: seq<Value>, w: World, n: nat)
    requires Callable(prog, id, args)
    ensures
      var m := Run(Link(prog), h, caps, Boot(Link(prog), id, args, w), n);
      !m.st.Stuck? && (m.st.Running? ==> m.x.fn in Link(prog) && Height(m.x) <= |m.x.ps|)
  {
    hide Run, Tabled, Live;
    var ty := SafeRuns(prog, h, caps, id, args, w, n);
    var m := Run(Link(prog), h, caps, Boot(Link(prog), id, args, w), n);
    if m.st.Running? {
      LiveShape(Link(prog), ty, m.x);
    }
  }

  lemma LiveShape(img: Image, ty: StackSafety.Tables, x: Exec)
    requires Tabled(img, ty) && Live(img, ty, x)
    ensures x.fn in img && Height(x) <= |x.ps|
  {
    hide Tabled, Below, Sound, Armed;
  }

  /** All traps belong to callers. */
  lemma {:induction false} TrapsBelow(img: Image, ty: StackSafety.Tables, fn: LamId, fp: nat, ps: seq<Slot>, rs: seq<Ctx>, ts: seq<Trap>)
    requires Tabled(img, ty) && fn in img && Below(img, ty, fn, fp, ps, rs, ts)
    ensures forall t :: t in ts ==> t.rp < |rs|
    decreases |rs|
  {
    hide Tabled, Caller, Solid;
    if rs != [] {
      CallerWaits(img, ty, fn, fp, ps, rs, ts);
      CallerParts(img, fn, fp, ps, rs, ts);
      var x := Caller(img, fn, fp, ps, rs, ts);
      var k := |ts| - |ty[x.fn][x.ip].marks|;
      TrapsBelow(img, ty, x.fn, x.fp, x.ps, x.rs, ts[..k]);
      assert ts == ts[..k] + ts[k..];
    }
  }

  ghost predicate AtReturn(img: Image, x: Exec) {
    x.fn in img && Fetch(img[x.fn].code, x.ip) == Fetched(IRet, x.ip + 1)
  }

  lemma DisarmedAtReturn(img: Image, ty: StackSafety.Tables, x: Exec)
    requires Tabled(img, ty) && Live(img, ty, x) && AtReturn(img, x)
    ensures forall t :: t in x.ts ==> t.rp < |x.rs|
  {
    SameLambdas(img, ty);
    TableSound(img, ty, x.fn, x.ip);
    hide Tabled, Sound, Fetch, Below;
    assert x.ts[..|x.ts|] == x.ts;
    TrapsBelow(img, ty, x.fn, x.fp, x.ps, x.rs, x.ts);
  }

  /** No executed return leaves behind a trap of the frame it pops; at the outermost
      frame none is left at all. */
  lemma ReturnsDisarmed(prog: Program, h: Host, caps: Caps, id: LamId, args: seq<Value>, w: World, n: nat)
    requires Callable(prog, id, args)
    ensures
      var m := Run(Link(prog), h, caps, Boot(Link(prog), id, args, w), n);
      m.st.Running? && AtReturn(Link(prog), m.x) ==> forall t :: t in m.x.ts ==> t.rp < |m.x.rs|
  {
    var ty := SafeRuns(prog, h, caps, id, args, w, n);
    hide Run, Tabled, Live, AtReturn, Suspended;
    var m := Run(Link(prog), h, caps, Boot(Link(prog), id, args, w), n);
    if m.st.Running? && AtReturn(Link(prog), m.x) {
      DisarmedAtReturn(Link(prog), ty, m.x);
    }
  }

  /** What an error does to a machine, `t` being the innermost armed trap: the
      handler runs in the frame of the `try`, with the return frames, the
      operands and the outer traps of that frame untouched, and the error on top. */
  ghost predicate ResumesAt(m: Machine, t: Trap, f: Failure, u: Machine) {
    && u.st.Running? && u.outer == m.outer && u.tally == m.tally
    && u.x.fn == t.fn && u.x.ip == t.handler && u.x.fp == t.fp && u.x.nLocals == t.nLocals
    && t.rp <= |m.x.rs| && u.x.rs == m.x.rs[..t.rp]
    && t.sp <= |m.x.ps| && u.x.ps == m.x.ps[..t.sp] + [Holds(Payload(f, m.w))]
    && u.x.ts + [t] == m.x.ts && u.w == m.w.(pending := Unset)
  }

  /** What the innermost trap goes back to, before the error is pushed. */
  function AtTrap(x: Exec): Exec
    requires x.ts != []
  {
    var t := x.ts[|x.ts| - 1];
    Exec(t.fn, t.handler, t.fp, t.nLocals, Take(x.ps, t.sp), Take(x.rs, t.rp), x.ts[..|x.ts| - 1])
  }

  /** There the error still fits. */
  predicate Roomy(caps: Caps, x: Exec)
    requires x.ts != []
  {
    caps.Unlimited? || |AtTrap(x).ps| < VM_STACK_SIZE
  }

  lemma UnwindAt(caps: Caps, m: Machine, f: Failure)
    requires m.st.Running? && m.x.ts != [] && Roomy(caps, m.x)
    requires m.x.ts[|m.x.ts| - 1].rp <= |m.x.rs| && m.x.ts[|m.x.ts| - 1].sp <= |m.x.ps|
    ensures ResumesAt(m, m.x.ts[|m.x.ts| - 1], f, Unwind(caps, m, f))
  {
  }

  /** The error as it arrives at the innermost trap that has room for it, and in
      which state; without one, at the end of the outermost invocation.  A trap
      on a full stack loses the error and raises another, of the limit, where it
      stands. */
  function Catching(caps: Caps, m: Machine, f: Failure): (Machine, Failure)
    decreases |m.outer|, |m.x.ts|
  {
    if m.x.ts != [] then
      if Roomy(caps, m.x) then (m, f)
      else Catching(caps, m.(x := AtTrap(m.x), w := m.w.(pending := Unset), tally := Missed(m.tally, Payload(f, m.w))), LIMIT)
    else if m.outer == [] then (m, f)
    else Catching(caps, m.(x := m.outer[|m.outer| - 1], outer := m.outer[..|m.outer| - 1]), Failure(true, f.code))
  }

  /** A full stack at the first trap makes it the limit error; otherwise the error
      is the one raised and nothing is lost. */
  lemma {:induction false} CaughtAs(caps: Caps, m: Machine, f: Failure)
    ensures var (m2, f2) := Catching(caps, m, f);
            if caps.Limits? && CaughtFull(m) then f2.code == Limit && m2.tally.fired
            else f2.code == f.code && m2.tally == m.tally
    decreases |m.outer|, |m.x.ts|
  {
    if m.x.ts != [] {
      if !Roomy(caps, m.x) {
        var m1 := m.(x := AtTrap(m.x), w := m.w.(pending := Unset), tally := Missed(m.tally, Payload(f, m.w)));
        CaughtAs(caps, m1, LIMIT);
      }
    } else if m.outer != [] {
      CaughtAs(caps, m.(x := m.outer[|m.outer| - 1], outer := m.outer[..|m.outer| - 1]), Failure(true, f.code));
    }
  }

  /** A trap resumes a frame that waits for an operand. */
  lemma {:induction false} TrapSuspended(img: Image, ty: StackSafety.Tables, x: Exec, marks: seq<Mark>)
    requires Tabled(img, ty) && Guarded(img, ty, x, marks) && x.ts != []
    ensures Suspended(img, ty, AtTrap(x))
    decreases |x.rs|
  {
    hide Tabled, Guarded, Suspended;
    if marks != [] {
      Resumed(img, ty, x, marks, AtTrap(x));
    } else {
      var y := ToCaller(img, ty, x);
      TrapSuspended(img, ty, y, ty[y.fn][y.ip].marks);
      assert AtTrap(y) == AtTrap(x);
    }
  }

  lemma {:induction false} Caught(img: Image, ty: StackSafety.Tables, caps: Caps, m: Machine, f: Failure, marks: seq<Mark>)
    returns (there: seq<Mark>)
    requires Tabled(img, ty) && Guarded(img, ty, m.x, marks) && OuterSuspended(img, ty, m) && m.st.Running?
    ensures var (m2, f2) := Catching(caps, m, f);
            && Unwind(caps, m, f) == Unwind(caps, m2, f2) && m2.st.Running? && Guarded(img, ty, m2.x, there)
            && (if m2.x.ts == [] then m2.outer == [] else Roomy(caps, m2.x))
    decreases |m.outer|, |m.x.ts|
  {
    hide Tabled, Guarded, Suspended;
    if m.x.ts != [] {
      if Roomy(caps, m.x) {
        there := marks;
      } else {
        var y := AtTrap(m.x);
        TrapSuspended(img, ty, m.x, marks);
        SuspendedGuarded(img, ty, y);
        var m1 := m.(x := y, w := m.w.(pending := Unset), tally := Missed(m.tally, Payload(f, m.w)));
        there := Caught(img, ty, caps, m1, LIMIT, ty[y.fn][y.ip].marks);
      }
    } else if m.outer == [] {
      there := marks;
    } else {
      var y := m.outer[|m.outer| - 1];
      SuspendedGuarded(img, ty, y);
      there := Caught(img, ty, caps, m.(x := y, outer := m.outer[..|m.outer| - 1]), Failure(true, f.code), ty[y.fn][y.ip].marks);
    }
  }

  /** Where an error raised in `m` leads to: the innermost live `try` that has room
      for it resumes, or the run is over with it. */
  ghost predicate EndsOrResumes(caps: Caps, m: Machine, f: Failure, u: Machine) {
    var (m2, f2) := Catching(caps, m, f);
    if m2.x.ts == [] then m2.outer == [] && u == m2.(st := Done(FinalError(f2)))
    else ResumesAt(m2, m2.x.ts[|m2.x.ts| - 1], f2, u)
  }

  lemma RaisedResumes(img: Image, ty: StackSafety.Tables, caps: Caps, m: Machine, f: Failure, marks: seq<Mark>)
    requires Tabled(img, ty) && Guarded(img, ty, m.x, marks) && OuterSuspended(img, ty, m) && m.st.Running?
    ensures EndsOrResumes(caps, m, f, Unwind(caps, m, f))
  {
    hide Tabled, Guarded, OuterSuspended, ResumesAt, Catching, Roomy;
    var there := Caught(img, ty, caps, m, f, marks);
    var (m2, f2) := Catching(caps, m, f);
    if m2.x.ts != [] {
      TopTrap(img, ty, m2.x, there);
      UnwindAt(caps, m2, f2);
    }
  }

  lemma LiveGuarded(img: Image, ty: StackSafety.Tables, m: Machine)
    requires Tabled(img, ty) && Disciplined(img, ty, m) && m.st.Running?
    ensures m.x.fn in ty && m.x.ip in ty[m.x.fn] && Guarded(img, ty, m.x, ty[m.x.fn][m.x.ip].marks) && OuterSuspended(img, ty, m)
  {
    hide Tabled, Guarded, Suspended;
    SameLambdas(img, ty);
  }

  /** Any error, raised in front of any instruction of any run. */
  lemma InnermostTryResumes(prog: Program, h: Host, caps: Caps, id: LamId, args: seq<Value>, w: World, n: nat, f: Failure)
    requires Callable(prog, id, args)
    ensures
      var m := Run(Link(prog), h, caps, Boot(Link(prog), id, args, w), n);
      m.st.Running? ==> EndsOrResumes(caps, m, f, Unwind(caps, m, f))
  {
    var ty := SafeRuns(prog, h, caps, id, args, w, n);
    hide Run, Tabled, Disciplined, Guarded, OuterSuspended, Unwind, EndsOrResumes;
    var m := Run(Link(prog), h, caps, Boot(Link(prog), id, args, w), n);
    if m.st.Running? {
      LiveGuarded(Link(prog), ty, m);
      RaisedResumes(Link(prog), ty, caps, m, f, ty[m.x.fn][m.x.ip].marks);
    }
  }

  // Which errors an instruction raises, and where they are caught.

  /** The error a machine raises in its next step, in the state it raises it in, if it does. */
  ghost predicate RaisesNow(img: Image, h: Host, caps: Caps, m: Machine, m1: Machine, f: Failure) {
    NextEffect(img, h, caps, m) == Raises(m1, f)
  }

  /** `m1` is `m` but for some operands taken off: frames, traps and waiting
      invocations are the same. */
  ghost predicate SameFrame(m: Machine, m1: Machine) {
    m1.st.Running? && m1.outer == m.outer && m1.x.ps <= m.x.ps
    && m1.x == m.x.(ip := m1.x.ip, ps := m1.x.ps)
  }

  /** `m1` is the invocation that has waited for the one running in `m`. */
  ghost predicate WaitingFrame(m: Machine, m1: Machine) {
    && m1.st.Running? && m.outer != []
    && m1.x == m.outer[|m.outer| - 1] && m1.outer == m.outer[..|m.outer| - 1]
  }

  lemma AskedRaises(h: Host, m: Machine, op: CallOp, f: Value, vs: seq<Value>)
    requires m.st.Running? && Asked(h, m, op, f, vs).Raises?
    ensures var m1 := Asked(h, m, op, f, vs).m; m1.st.Running? && m1.x == m.x && m1.outer == m.outer
  {
  }

  /** The operands an instruction has taken when it raises. */
  function OperandsOf(i: Instr): nat {
    match i
    case ICall1 => 2
    case ICall2 => 3
    case ICallN(n) => if n > MAX_ARGS then 0 else n + 1
    case ICallF(n) => if n > MAX_ARGS then 0 else n + 1
    case IStoreGlobal(_) => 1
    case ITryH => 2
    case _ => 0
  }

  /** An instruction raises in its own frame, its operands taken, except that a
      return may raise in the invocation that waits. */
  lemma RaisedIn(img: Image, h: Host, caps: Caps, m: Machine, i: Instr)
    requires m.st.Running? && m.x.fn in img && EffectOf(img, h, caps, m, i).Raises?
    ensures var m1 := EffectOf(img, h, caps, m, i).m;
            if i.IRet? then WaitingFrame(m, m1)
            else m1.st.Running? && m1.outer == m.outer && OperandsOf(i) <= |m.x.ps| && m1.x == Drop(m.x, OperandsOf(i))
  {
    hide Asked, SetGlobal;
    var n := OperandsOf(i);
    if i.ICall1? || i.ICall2? || (i.ICallN? && n > 0) || (i.ICallF? && n > 0) {
      var vs := Popped(m.x.ps, n);
      var op := if i.ICall1? then ByCall1 else if i.ICall2? then ByCall2 else if i.ICallN? then ByCallN else ByCallF;
      var m1 := m.(x := Drop(m.x, n));
      if Asked(h, m1, op, vs[n - 1], vs[..n - 1]).Raises? {
        AskedRaises(h, m1, op, vs[n - 1], vs[..n - 1]);
      }
    } else if i.ITryH? {
      var err, f := m.x.ps[|m.x.ps| - 1].v, m.x.ps[|m.x.ps| - 2].v;
      var m1 := m.(x := Drop(m.x, 2));
      if Asked(h, m1, ByHandler, f, [err]).Raises? {
        AskedRaises(h, m1, ByHandler, f, [err]);
      }
    }
  }

  lemma AllowsOperands(c: Compiled, t: Typing, s: St, i: Instr, next: nat)
    requires Allows(c, t, s, i, next) && Rooted(s)
    ensures Pops(s, OperandsOf(i))
  {
    hide Rooted, Has;
    RootedPops(s);
  }

  /** The invocation that waits, once it is the one that runs. */
  lemma WaitingGuarded(img: Image, ty: StackSafety.Tables, m: Machine, m1: Machine) returns (marks: seq<Mark>)
    requires Tabled(img, ty) && OuterSuspended(img, ty, m) && WaitingFrame(m, m1)
    ensures Guarded(img, ty, m1.x, marks) && OuterSuspended(img, ty, m1)
  {
    hide Tabled, Guarded, Suspended;
    SuspendedGuarded(img, ty, m1.x);
    marks := ty[m1.x.fn][m1.x.ip].marks;
  }

  /** The frame an error is raised in is guarded by its traps. */
  lemma RaisedGuarded(img: Image, ty: StackSafety.Tables, h: Host, caps: Caps, m: Machine, s: St, i: Instr) returns (marks: seq<Mark>)
    requires Tabled(img, ty) && Ready(img, ty, m, s) && m.x.fn in img && m.x.fn in ty && Rooted(s)
    requires Allows(img[m.x.fn], ty[m.x.fn], s, i, m.x.ip) && EffectOf(img, h, caps, m, i).Raises?
    ensures var m1 := EffectOf(img, h, caps, m, i).m;
            Guarded(img, ty, m1.x, marks) && OuterSuspended(img, ty, m1)
  {
    AllowsOperands(img[m.x.fn], ty[m.x.fn], s, i, m.x.ip);
    RaisedIn(img, h, caps, m, i);
    hide Tabled, Fits, Guarded, OuterSuspended, EffectOf, Allows, Rooted, WaitingFrame, OperandsOf, Pops;
    var m1 := EffectOf(img, h, caps, m, i).m;
    if i.IRet? {
      marks := WaitingGuarded(img, ty, m, m1);
    } else {
      DropGuarded(img, ty, m.x, s, OperandsOf(i));
      marks := s.marks;
    }
  }

  lemma NextRaises(img: Image, h: Host, caps: Caps, m: Machine, m1: Machine, f: Failure) returns (i: Instr, next: nat)
    requires RaisesNow(img, h, caps, m, m1, f)
    ensures m.st.Running? && m.x.fn in img && Fetch(img[m.x.fn].code, m.x.ip) == Fetched(i, next)
    ensures EffectOf(img, h, caps, m.(x := m.x.(ip := next)), i) == Raises(m1, f)
  {
    hide EffectOf, Fetch;
    match Fetch(img[m.x.fn].code, m.x.ip)
    case Fetched(j, at) => i, next := j, at;
  }

  lemma ReadyNow(img: Image, ty: StackSafety.Tables, m: Machine, i: Instr, next: nat) returns (s: St)
    requires Tabled(img, ty) && Disciplined(img, ty, m) && m.st.Running? && m.x.fn in img
    requires Fetch(img[m.x.fn].code, m.x.ip) == Fetched(i, next)
    ensures m.x.fn in ty && Ready(img, ty, m.(x := m.x.(ip := next)), s) && Rooted(s)
    ensures Allows(img[m.x.fn], ty[m.x.fn], s, i, next)
  {
    hide Tabled, Guarded, Suspended, Sound, Allows, Fetch;
    SameLambdas(img, ty);
    s := ty[m.x.fn][m.x.ip];
    TableSound(img, ty, m.x.fn, m.x.ip);
    SoundRooted(ty[m.x.fn], s);
    ReadyAt(img, ty, m, s, next);
  }

  lemma RaisedFrame(img: Image, h: Host, caps: Caps, m: Machine, i: Instr, next: nat)
    requires m.st.Running? && m.x.fn in img && EffectOf(img, h, caps, m.(x := m.x.(ip := next)), i).Raises?
    ensures var m1 := EffectOf(img, h, caps, m.(x := m.x.(ip := next)), i).m;
            m1.st.Running? && (SameFrame(m, m1) || WaitingFrame(m, m1))
  {
    hide EffectOf;
    RaisedIn(img, h, caps, m.(x := m.x.(ip := next)), i);
  }

  lemma StepResumes(img: Image, ty: StackSafety.Tables, h: Host, caps: Caps, m: Machine, m1: Machine, f: Failure)
    requires Tabled(img, ty) && Disciplined(img, ty, m) && RaisesNow(img, h, caps, m, m1, f)
    ensures SameFrame(m, m1) || WaitingFrame(m, m1)
    ensures EndsOrResumes(caps, m1, f, Step(img, h, caps, m))
  {
    var i, next := NextRaises(img, h, caps, m, m1, f);
    StepSettles(img, h, caps, m);
    hide Tabled, Disciplined, Ready, Guarded, OuterSuspended, EffectOf, NextEffect, Step, Unwind, EndsOrResumes, Allows, Rooted, SameFrame, WaitingFrame, Fetch;
    var s := ReadyNow(img, ty, m, i, next);
    RaisedFrame(img, h, caps, m, i, next);
    var marks := RaisedGuarded(img, ty, h, caps, m.(x := m.x.(ip := next)), s, i);
    RaisedResumes(img, ty, caps, m1, f, marks);
  }

  /** Whatever fails, and wherever: when the instruction at a reachable state raises
      an error, the next state has resumed the innermost live `try` that has room
      for it, with what the instruction has done to the rest of the process, or
      the run is over with that error. */
  lemma FailingStepResumes(prog: Program, h: Host, caps: Caps, id: LamId, args: seq<Value>, w: World, n: nat, m1: Machine, f: Failure)
    requires Callable(prog, id, args)
    requires RaisesNow(Link(prog), h, caps, Run(Link(prog), h, caps, Boot(Link(prog), id, args, w), n), m1, f)
    ensures var m := Run(Link(prog), h, caps, Boot(Link(prog), id, args, w), n);
            && (SameFrame(m, m1) || WaitingFrame(m, m1))
            && EndsOrResumes(caps, m1, f, Step(Link(prog), h, caps, m))
  {
    hide Run, Tabled, Disciplined, Step, RaisesNow, EndsOrResumes, SameFrame, WaitingFrame;
    var ty := SafeRuns(prog, h, caps, id, args, w, n);
    StepResumes(Link(prog), ty, h, caps, Run(Link(prog), h, caps, Boot(Link(prog), id, args, w), n), m1, f);
  }
}
