/** An invocation runs the same whether or not others are suspended below it:
    only its end is seen by the one that waits. */
module Nesting {
  import opened Lang
  import opened Bytecode
  import opened CodeGen
  import opened Machine

  /** Machine `m` above the waiting invocation `y`, which takes over its result. */
  function Under(caps: Caps, m: Machine, y: Exec): Machine {
    match m.st
    case Done(v) => Deliver(caps, Machine(y, m.outer, m.w, Running, m.tally), v)
    case _ => m.(outer := [y] + m.outer)
  }

  lemma {:induction false} UnwindUnder(caps: Caps, m: Machine, f: Failure, y: Exec)
    requires m.st.Running?
    ensures Unwind(caps, m.(outer := [y] + m.outer), f) == Under(caps, Unwind(caps, m, f), y)
    decreases |m.outer|, |m.x.ts|
  {
    var x := m.x;
    if |x.ts| > 0 {
      var t := x.ts[|x.ts| - 1];
      var x1 := Exec(t.fn, t.handler, t.fp, t.nLocals, Take(x.ps, t.sp), Take(x.rs, t.rp), x.ts[..|x.ts| - 1]);
      UnwindUnder(caps, m.(x := x1, w := m.w.(pending := Unset), tally := Missed(m.tally, Payload(f, m.w))), LIMIT, y);
    } else if m.outer == [] {
      assert ([y] + m.outer)[..0] == [];
    } else {
      var last := |m.outer| - 1;
      assert ([y] + m.outer)[..last + 1] == [y] + m.outer[..last];
      UnwindUnder(caps, m.(x := m.outer[last], outer := m.outer[..last]), Failure(true, f.code), y);
    }
  }

  lemma PushUnder(caps: Caps, m: Machine, v: Value, y: Exec)
    requires m.st.Running?
    ensures Push(caps, m.(outer := [y] + m.outer), v) == Under(caps, Push(caps, m, v), y)
  {
    hide Unwind;
    UnwindUnder(caps, m.(tally := Missed(m.tally, v)), LIMIT, y);
  }

  lemma DeliverUnder(caps: Caps, m: Machine, v: Value, y: Exec)
    requires m.st.Running?
    ensures Deliver(caps, m.(outer := [y] + m.outer), v) == Under(caps, Deliver(caps, m, v), y)
  {
    hide Unwind, Push, Under;
    if v.ErrObj? {
      UnwindUnder(caps, m, Failure(true, v.code), y);
    } else {
      PushUnder(caps, m, v, y);
    }
  }

  lemma HostUnder(h: Host, caps: Caps, m: Machine, op: CallOp, f: Value, vs: seq<Value>, y: Exec)
    requires m.st.Running?
    ensures CallHost(h, caps, m.(outer := [y] + m.outer), op, f, vs) == Under(caps, CallHost(h, caps, m, op, f, vs), y)
  {
    hide Deliver, Under;
    var (v, w) := h.invoke(op, f, vs, m.w);
    DeliverUnder(caps, m.(w := w), v, y);
  }

  lemma CallHostUnder(h: Host, caps: Caps, m: Machine, op: CallOp, n: nat, y: Exec)
    requires m.st.Running?
    ensures StepCallHost(h, caps, m.(outer := [y] + m.outer), op, n) == Under(caps, StepCallHost(h, caps, m, op, n), y)
  {
    hide CallHost;
    if Operands(m.x, n + 1) {
      var vs := Popped(m.x.ps, n + 1);
      HostUnder(h, caps, m.(x := Drop(m.x, n + 1)), op, vs[n], vs[..n], y);
    }
  }

  lemma CallFUnder(img: Image, h: Host, caps: Caps, m: Machine, n: nat, y: Exec)
    requires m.st.Running?
    ensures StepCallF(img, h, caps, m.(outer := [y] + m.outer), n) == Under(caps, StepCallF(img, h, caps, m, n), y)
  {
    hide CallHost, Unwind;
    if Operands(m.x, n + 1) {
      var vs := Popped(m.x.ps, n + 1);
      var m1 := m.(x := Drop(m.x, n + 1));
      HostUnder(h, caps, m1, ByCallF, vs[n], vs[..n], y);
      UnwindUnder(caps, m1, ErrorOf(Arity), y);
      UnwindUnder(caps, m1.(tally := Fired(m1.tally)), LIMIT, y);
    }
  }

  lemma TryHUnder(img: Image, h: Host, caps: Caps, m: Machine, y: Exec)
    requires m.st.Running?
    ensures StepTryH(img, h, caps, m.(outer := [y] + m.outer)) == Under(caps, StepTryH(img, h, caps, m), y)
  {
    hide CallHost, Unwind, Deliver;
    if Operands(m.x, 2) {
      var err, f := m.x.ps[|m.x.ps| - 1].v, m.x.ps[|m.x.ps| - 2].v;
      var m1 := m.(x := Drop(m.x, 2));
      HostUnder(h, caps, m1, ByHandler, f, [err], y);
      UnwindUnder(caps, m1, ErrorOf(Arity), y);
      DeliverUnder(caps, m1, f, y);
      assert [y] + m1.outer + [m1.x] == [y] + (m1.outer + [m1.x]);
    }
  }

  lemma PopFrameUnder(img: Image, caps: Caps, m: Machine, v: Value, y: Exec)
    requires m.st.Running?
    ensures PopFrame(img, caps, m.(outer := [y] + m.outer), v) == Under(caps, PopFrame(img, caps, m, v), y)
  {
    hide Push, Deliver;
    var x := m.x;
    var ps := Take(x.ps, x.fp);
    if x.rs == [] {
      if m.outer == [] {
        assert ([y] + m.outer)[..0] == [];
      } else {
        var last := |m.outer| - 1;
        assert ([y] + m.outer)[..last + 1] == [y] + m.outer[..last];
        DeliverUnder(caps, m.(x := m.outer[last], outer := m.outer[..last]), v, y);
      }
    } else {
      var rs := x.rs[..|x.rs| - 1];
      match x.rs[|x.rs| - 1]
      case SelfFrame(fp, ip) =>
        PushUnder(caps, m.(x := x.(ps := ps, rs := rs, fp := fp, ip := ip)), v, y);
      case FnFrame(fn, fp, ip) =>
        if fn in img {
          PushUnder(caps, m.(x := Exec(fn, ip, fp, img[fn].nLocals, ps, rs, x.ts)), v, y);
        }
    }
  }

  lemma RetUnder(img: Image, caps: Caps, m: Machine, y: Exec)
    requires m.st.Running?
    ensures StepRet(img, caps, m.(outer := [y] + m.outer)) == Under(caps, StepRet(img, caps, m), y)
  {
    hide PopFrame, Deliver;
    var x := m.x;
    if |x.ps| <= Height(x) {
      PopFrameUnder(img, caps, m, Null, y);
    } else if x.ps[|x.ps| - 1].Holds? {
      PopFrameUnder(img, caps, m, x.ps[|x.ps| - 1].v, y);
    }
  }

  lemma StoreGlobalUnder(caps: Caps, m: Machine, name: Value, y: Exec)
    requires m.st.Running?
    ensures StepStoreGlobal(caps, m.(outer := [y] + m.outer), name) == Under(caps, StepStoreGlobal(caps, m, name), y)
  {
    hide Unwind, Deliver, SetGlobal;
    if name.Symbol? && Operands(m.x, 1) {
      match SetGlobal(m.w.globals, name.s, m.x.ps[|m.x.ps| - 1].v)
      case NotBound(code) => UnwindUnder(caps, m.(x := Drop(m.x, 1)), ErrorOf(code), y);
      case Rebound(_) =>
    }
  }

  /** Instructions that push, call or return. */
  lemma CallUnder(img: Image, h: Host, caps: Caps, m: Machine, i: Instr, y: Exec)
    requires m.st.Running? && m.x.fn in img
    requires i.IRet? || i.ILoadConst? || i.ILoadEnv? || i.IResolve? || i.ICall1? || i.ICall2? || i.ICallN? || i.ICallF? || i.IDup?
    ensures Apply(img, h, caps, m.(outer := [y] + m.outer), i) == Under(caps, Apply(img, h, caps, m, i), y)
  {
    hide Push, Unwind, StepRet, StepCallF, StepCallHost, Deliver;
    var x, consts := m.x, img[m.x.fn].consts;
    match i
    case IRet => RetUnder(img, caps, m, y);
    case ILoadConst(k) =>
      if k < |consts| {
        PushUnder(caps, m, consts[k], y);
      }
    case ILoadEnv(s) =>
      PushUnder(caps, m, Int(0), y);
      if s < x.nLocals && Height(x) <= |x.ps| && x.ps[x.fp + s].Holds? {
        PushUnder(caps, m, x.ps[x.fp + s].v, y);
      }
    case IResolve(k) =>
      UnwindUnder(caps, m, Failure(false, NameErr), y);
      if k < |consts| && consts[k].Symbol? && consts[k].s in m.w.globals {
        DeliverUnder(caps, m, m.w.globals[consts[k].s], y);
      }
    case ICall1 => CallHostUnder(h, caps, m, ByCall1, 1, y);
    case ICall2 => CallHostUnder(h, caps, m, ByCall2, 2, y);
    case ICallN(n) =>
      UnwindUnder(caps, m, Failure(false, Domain), y);
      CallHostUnder(h, caps, m, ByCallN, n, y);
    case ICallF(n) =>
      UnwindUnder(caps, m, Failure(false, Domain), y);
      CallFUnder(img, h, caps, m, n, y);
    case IDup =>
      if Operands(x, 1) {
        PushUnder(caps, m, x.ps[|x.ps| - 1].v, y);
      }
  }

  lemma ApplyUnder(img: Image, h: Host, caps: Caps, m: Machine, i: Instr, y: Exec)
    requires m.st.Running? && m.x.fn in img
    ensures Apply(img, h, caps, m.(outer := [y] + m.outer), i) == Under(caps, Apply(img, h, caps, m, i), y)
  {
    hide Push, Unwind, PopFrame, StepTryH, StepStoreGlobal, Deliver;
    match i
    case IStoreGlobal(k) =>
      if k < |img[m.x.fn].consts| {
        StoreGlobalUnder(caps, m, img[m.x.fn].consts[k], y);
      }
    case ITryH => TryHUnder(img, h, caps, m, y);
    case ICallS(_) => UnwindUnder(caps, m.(tally := Fired(m.tally)), LIMIT, y);
    case ITrap(_) => UnwindUnder(caps, m.(tally := Fired(m.tally)), LIMIT, y);
    case IJmp(_) =>
    case IJmpF(_) =>
    case IStoreEnv(_) =>
    case IPop =>
    case ITrapEnd =>
    case IForce =>
    case _ => CallUnder(img, h, caps, m, i, y);
  }

  lemma StepUnder(img: Image, h: Host, caps: Caps, m: Machine, y: Exec)
    requires m.st.Running?
    ensures Step(img, h, caps, Under(caps, m, y)) == Under(caps, Step(img, h, caps, m), y)
  {
    hide Apply;
    if m.x.fn in img {
      match Fetch(img[m.x.fn].code, m.x.ip)
      case NoInstr =>
      case Fetched(i, next) =>
        var m1 := m.(x := m.x.(ip := next));
        ApplyUnder(img, h, caps, m1, i, y);
        assert Under(caps, m, y).(x := m.x.(ip := next)) == m1.(outer := [y] + m1.outer);
    }
  }

  /** A nested run, step by step: until its last step the waiting invocation is
      not touched, and at its last step it is given the result. */
  lemma {:induction false} RunUnder(img: Image, h: Host, caps: Caps, m: Machine, y: Exec, n: nat)
    requires n > 0 ==> Run(img, h, caps, m, n - 1).st.Running?
    ensures Run(img, h, caps, Under(caps, m, y), n) == Under(caps, Run(img, h, caps, m, n), y)
    ensures n > 0 ==> Run(img, h, caps, Under(caps, m, y), n - 1).st.Running?
    decreases n
  {
    hide Step, Deliver;
    if n > 0 {
      if !m.st.Running? {
        RunHalted(img, h, caps, m, n - 1);
      }
      StepUnder(img, h, caps, m, y);
      RunUnder(img, h, caps, Step(img, h, caps, m), y, n - 1);
    }
  }
}
