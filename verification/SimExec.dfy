/** One lemma for each instruction of straight-line code: what a run that has
    reached the instruction looks like one step later. */
module SimExec {
  import opened Lang
  import opened Bytes
  import opened Bytecode
  import opened CodeGen
  import opened Machine

  /** `m1` is running the code of its lambda. */
  ghost predicate Live(img: Image, m1: Machine) {
    m1.st.Running? && m1.x.fn in img
  }

  lemma RunZero(img: Image, h: Host, m: Machine)
    ensures Run(img, h, Unlimited, m, 0) == m
  {
  }

  /** One more instruction at the end of a run. */
  lemma StepAt(img: Image, h: Host, m: Machine, n: nat, m1: Machine, i: Instr, next: nat)
    requires Run(img, h, Unlimited, m, n) == m1 && Live(img, m1)
    requires Fetch(img[m1.x.fn].code, m1.x.ip) == Fetched(i, next)
    ensures Run(img, h, Unlimited, m, n + 1) == Apply(img, h, Unlimited, m1.(x := m1.x.(ip := next)), i)
  {
    hide Apply;
    hide Fetch;
    RunAdd(img, h, Unlimited, m, n, 1);
    assert Run(img, h, Unlimited, m1, 1) == Run(img, h, Unlimited, Step(img, h, Unlimited, m1), 0);
  }

  lemma ExecConst(img: Image, h: Host, m: Machine, n: nat, m1: Machine, idx: nat)
    requires Run(img, h, Unlimited, m, n) == m1 && Live(img, m1)
    requires idx < |img[m1.x.fn].consts| <= 65536
    requires At(img[m1.x.fn].code, m1.x.ip, Indexed(LOADCONST, LOADCONST_W, idx))
    ensures Run(img, h, Unlimited, m, n + 1) ==
            m1.(x := m1.x.(ip := m1.x.ip + |Indexed(LOADCONST, LOADCONST_W, idx)|,
                           ps := m1.x.ps + [Holds(img[m1.x.fn].consts[idx])]))
  {
    hide Run;
    var next := m1.x.ip + |Indexed(LOADCONST, LOADCONST_W, idx)|;
    FetchIndexed(img[m1.x.fn].code, m1.x.ip, LOADCONST, LOADCONST_W, idx);
    StepAt(img, h, m, n, m1, ILoadConst(idx), next);
  }

  lemma ExecResolve(img: Image, h: Host, m: Machine, n: nat, m1: Machine, idx: nat)
    requires Run(img, h, Unlimited, m, n) == m1 && Live(img, m1)
    requires idx < |img[m1.x.fn].consts| <= 65536 && img[m1.x.fn].consts[idx].Symbol?
    requires At(img[m1.x.fn].code, m1.x.ip, Indexed(RESOLVE, RESOLVE_W, idx))
    ensures var m2 := m1.(x := m1.x.(ip := m1.x.ip + |Indexed(RESOLVE, RESOLVE_W, idx)|));
            var s := img[m1.x.fn].consts[idx].s;
            Run(img, h, Unlimited, m, n + 1) ==
            if s in m1.w.globals then Deliver(Unlimited, m2, m1.w.globals[s])
            else Unwind(Unlimited, m2, Failure(false, NameErr))
  {
    hide Run;
    hide Unwind;
    var next := m1.x.ip + |Indexed(RESOLVE, RESOLVE_W, idx)|;
    FetchIndexed(img[m1.x.fn].code, m1.x.ip, RESOLVE, RESOLVE_W, idx);
    StepAt(img, h, m, n, m1, IResolve(idx), next);
  }

  lemma ExecStoreGlobal(img: Image, h: Host, m: Machine, n: nat, m1: Machine, idx: nat)
    requires Run(img, h, Unlimited, m, n) == m1 && Live(img, m1)
    requires idx < |img[m1.x.fn].consts| <= 65536 && img[m1.x.fn].consts[idx].Symbol?
    requires At(img[m1.x.fn].code, m1.x.ip, Indexed(STOREGLOBAL, STOREGLOBAL_W, idx))
    requires Operands(m1.x, 1)
    ensures var m2 := m1.(x := m1.x.(ip := m1.x.ip + |Indexed(STOREGLOBAL, STOREGLOBAL_W, idx)|));
            var s := img[m1.x.fn].consts[idx].s;
            match SetGlobal(m1.w.globals, s, m1.x.ps[|m1.x.ps| - 1].v)
            case NotBound(code) => Run(img, h, Unlimited, m, n + 1) == Unwind(Unlimited, m2.(x := Drop(m2.x, 1)), ErrorOf(code))
            case Rebound(globals) => Run(img, h, Unlimited, m, n + 1) == m2.(w := m1.w.(globals := globals))
  {
    hide Run;
    hide Unwind;
    var next := m1.x.ip + |Indexed(STOREGLOBAL, STOREGLOBAL_W, idx)|;
    FetchIndexed(img[m1.x.fn].code, m1.x.ip, STOREGLOBAL, STOREGLOBAL_W, idx);
    StepAt(img, h, m, n, m1, IStoreGlobal(idx), next);
    assert Operands(m1.x.(ip := next), 1);
  }

  lemma ExecLoadEnv(img: Image, h: Host, m: Machine, n: nat, m1: Machine, slot: byte)
    requires Run(img, h, Unlimited, m, n) == m1 && Live(img, m1)
    requires At(img[m1.x.fn].code, m1.x.ip, [LOADENV, slot])
    requires slot < m1.x.nLocals && Height(m1.x) <= |m1.x.ps|
    ensures var v := m1.x.ps[m1.x.fp + slot];
            Run(img, h, Unlimited, m, n + 1) ==
            m1.(x := m1.x.(ip := m1.x.ip + 2, ps := m1.x.ps + [Holds(if v.Holds? then v.v else Int(0))]))
  {
    hide Run;
    FetchOperand(img[m1.x.fn].code, m1.x.ip, LOADENV, slot);
    StepAt(img, h, m, n, m1, ILoadEnv(slot), m1.x.ip + 2);
  }

  lemma ExecStoreEnv(img: Image, h: Host, m: Machine, n: nat, m1: Machine, slot: byte, ps: seq<Slot>, v: Slot)
    requires Run(img, h, Unlimited, m, n) == m1 && Live(img, m1)
    requires At(img[m1.x.fn].code, m1.x.ip, [STOREENV, slot])
    requires m1.x.ps == ps + [v] && v.Holds? && slot < m1.x.nLocals && Height(m1.x) <= |ps|
    ensures Run(img, h, Unlimited, m, n + 1) ==
            m1.(x := m1.x.(ip := m1.x.ip + 2, ps := ps[m1.x.fp + slot := v]))
  {
    hide Run;
    FetchOperand(img[m1.x.fn].code, m1.x.ip, STOREENV, slot);
    StepAt(img, h, m, n, m1, IStoreEnv(slot), m1.x.ip + 2);
    assert Operands(m1.x.(ip := m1.x.ip + 2), 1);
    assert m1.x.ps[..|m1.x.ps| - 1] == ps;
  }

  /** `OP_FORCE` then `OP_DUP`. */
  lemma ExecForceDup(img: Image, h: Host, m: Machine, n: nat, m1: Machine, ps: seq<Slot>, v: Slot)
    requires Run(img, h, Unlimited, m, n) == m1 && Live(img, m1)
    requires At(img[m1.x.fn].code, m1.x.ip, [FORCE] + [DUP])
    requires m1.x.ps == ps + [v] && v.Holds? && Height(m1.x) <= |ps|
    ensures Run(img, h, Unlimited, m, n + 2) == m1.(x := m1.x.(ip := m1.x.ip + 2, ps := m1.x.ps + [v]))
  {
    hide Run;
    var code := img[m1.x.fn].code;
    AtSplit(code, m1.x.ip, [FORCE], [DUP]);
    FetchByte(code, m1.x.ip, FORCE);
    StepAt(img, h, m, n, m1, IForce, m1.x.ip + 1);
    var m2 := m1.(x := m1.x.(ip := m1.x.ip + 1));
    assert Operands(m2.x, 1);
    FetchByte(code, m2.x.ip, DUP);
    StepAt(img, h, m, n + 1, m2, IDup, m2.x.ip + 1);
    assert Operands(m2.x.(ip := m2.x.ip + 1), 1);
  }

  lemma ExecPop(img: Image, h: Host, m: Machine, n: nat, m1: Machine, ps: seq<Slot>, v: Slot)
    requires Run(img, h, Unlimited, m, n) == m1 && Live(img, m1)
    requires At(img[m1.x.fn].code, m1.x.ip, [POP])
    requires m1.x.ps == ps + [v] && Height(m1.x) <= |ps|
    ensures Run(img, h, Unlimited, m, n + 1) == m1.(x := m1.x.(ip := m1.x.ip + 1, ps := ps))
  {
    hide Run;
    FetchByte(img[m1.x.fn].code, m1.x.ip, POP);
    StepAt(img, h, m, n, m1, IPop, m1.x.ip + 1);
    assert m1.x.ps[..|m1.x.ps| - 1] == ps;
  }

  lemma ExecJump(img: Image, h: Host, m: Machine, n: nat, m1: Machine, off: nat)
    requires Run(img, h, Unlimited, m, n) == m1 && Live(img, m1) && off <= MAX_JUMP
    requires At(img[m1.x.fn].code, m1.x.ip, Jump(JMP, off))
    ensures Run(img, h, Unlimited, m, n + 1) == m1.(x := m1.x.(ip := m1.x.ip + 3 + off))
  {
    hide Run;
    FetchJump(img[m1.x.fn].code, m1.x.ip, JMP, off);
    StepAt(img, h, m, n, m1, IJmp(off), m1.x.ip + 3);
  }

  lemma ExecJumpIf(img: Image, h: Host, m: Machine, n: nat, m1: Machine, off: nat, ps: seq<Slot>, v: Value)
    requires Run(img, h, Unlimited, m, n) == m1 && Live(img, m1) && off <= MAX_JUMP
    requires At(img[m1.x.fn].code, m1.x.ip, Jump(JMPF, off))
    requires m1.x.ps == ps + [Holds(v)] && Height(m1.x) <= |ps|
    ensures Run(img, h, Unlimited, m, n + 1) ==
            m1.(x := m1.x.(ip := m1.x.ip + 3 + (if Truthy(v) then 0 else off), ps := ps))
  {
    hide Run;
    FetchJump(img[m1.x.fn].code, m1.x.ip, JMPF, off);
    StepAt(img, h, m, n, m1, IJmpF(off), m1.x.ip + 3);
    assert Operands(m1.x.(ip := m1.x.ip + 3), 1);
    assert m1.x.ps[..|m1.x.ps| - 1] == ps;
  }

  lemma ExecTrap(img: Image, h: Host, m: Machine, n: nat, m1: Machine, off: nat)
    requires Run(img, h, Unlimited, m, n) == m1 && Live(img, m1) && off <= MAX_JUMP
    requires At(img[m1.x.fn].code, m1.x.ip, Jump(TRAP, off))
    ensures var x := m1.x;
            var t := Trap(|x.rs|, |x.ps|, x.ip + 3 + off, x.fn, x.fp, x.nLocals);
            Run(img, h, Unlimited, m, n + 1) == m1.(x := x.(ip := x.ip + 3, ts := x.ts + [t]))
  {
    hide Run;
    FetchJump(img[m1.x.fn].code, m1.x.ip, TRAP, off);
    StepAt(img, h, m, n, m1, ITrap(off), m1.x.ip + 3);
  }

  lemma ExecTrapEnd(img: Image, h: Host, m: Machine, n: nat, m1: Machine)
    requires Run(img, h, Unlimited, m, n) == m1 && Live(img, m1) && |m1.x.ts| > 0
    requires At(img[m1.x.fn].code, m1.x.ip, [TRAP_END])
    ensures Run(img, h, Unlimited, m, n + 1) ==
            m1.(x := m1.x.(ip := m1.x.ip + 1, ts := m1.x.ts[..|m1.x.ts| - 1]))
  {
    hide Run;
    FetchByte(img[m1.x.fn].code, m1.x.ip, TRAP_END);
    StepAt(img, h, m, n, m1, ITrapEnd, m1.x.ip + 1);
  }

  /** Each `OP_TRAP_END` in front of a return drops one trap. */
  lemma {:induction false} ExecTrapEnds(img: Image, h: Host, m: Machine, n: nat, m1: Machine, j: nat)
    requires Run(img, h, Unlimited, m, n) == m1 && Live(img, m1) && j <= |m1.x.ts|
    requires At(img[m1.x.fn].code, m1.x.ip, TrapEnds(j))
    ensures Run(img, h, Unlimited, m, n + j) ==
            m1.(x := m1.x.(ip := m1.x.ip + j, ts := m1.x.ts[..|m1.x.ts| - j]))
    decreases j
  {
    hide Run;
    if j == 0 {
      assert m1.x.ts[..|m1.x.ts|] == m1.x.ts;
    } else {
      var code := img[m1.x.fn].code;
      assert TrapEnds(j) == [TRAP_END] + TrapEnds(j - 1);
      AtSplit(code, m1.x.ip, [TRAP_END], TrapEnds(j - 1));
      ExecTrapEnd(img, h, m, n, m1);
      var m2 := m1.(x := m1.x.(ip := m1.x.ip + 1, ts := m1.x.ts[..|m1.x.ts| - 1]));
      ExecTrapEnds(img, h, m, n + 1, m2, j - 1);
      assert m2.x.ts[..|m2.x.ts| - (j - 1)] == m1.x.ts[..|m1.x.ts| - j];
    }
  }

  lemma ExecRet(img: Image, h: Host, m: Machine, n: nat, m1: Machine)
    requires Run(img, h, Unlimited, m, n) == m1 && Live(img, m1)
    requires At(img[m1.x.fn].code, m1.x.ip, [RET])
    requires |m1.x.ps| > Height(m1.x) ==> m1.x.ps[|m1.x.ps| - 1].Holds?
    ensures Run(img, h, Unlimited, m, n + 1) ==
            PopFrame(img, Unlimited, m1.(x := m1.x.(ip := m1.x.ip + 1)),
                     if |m1.x.ps| > Height(m1.x) then m1.x.ps[|m1.x.ps| - 1].v else Null)
  {
    hide Run;
    hide PopFrame;
    FetchByte(img[m1.x.fn].code, m1.x.ip, RET);
    StepAt(img, h, m, n, m1, IRet, m1.x.ip + 1);
  }

  /** The operands `vs`, the leftmost on top, lie above the callee `f` and `ps`. */
  ghost predicate CallStack(x: Exec, ps: seq<Slot>, f: Value, vs: seq<Value>) {
    && Height(x) <= |ps| && |x.ps| == |ps| + 1 + |vs|
    && x.ps[..|ps|] == ps && x.ps[|ps|] == Holds(f)
    && forall i :: 0 <= i < |vs| ==> x.ps[|x.ps| - 1 - i] == Holds(vs[i])
  }

  lemma CallStackPops(x: Exec, ps: seq<Slot>, f: Value, vs: seq<Value>)
    requires CallStack(x, ps, f, vs)
    ensures Operands(x, |vs| + 1) && Drop(x, |vs| + 1) == x.(ps := ps)
    ensures var p := Popped(x.ps, |vs| + 1); p[|vs|] == f && p[..|vs|] == vs
  {
    forall i | |x.ps| - (|vs| + 1) <= i < |x.ps|
      ensures x.ps[i].Holds?
    {
      var j := |x.ps| - 1 - i;
      if j < |vs| {
        assert x.ps[|x.ps| - 1 - j] == Holds(vs[j]);
      }
    }
  }

  /** `OP_CALL1`, `OP_CALL2` and `OP_CALLN`: the host answers. */
  lemma ExecCallHost(img: Image, h: Host, m: Machine, n: nat, m1: Machine, op: CallOp,
                     ps: seq<Slot>, f: Value, vs: seq<Value>)
    requires Run(img, h, Unlimited, m, n) == m1 && Live(img, m1) && |vs| <= MAX_ARGS
    requires (op.ByCall1? && |vs| == 1) || (op.ByCall2? && |vs| == 2) || op.ByCallN?
    requires At(img[m1.x.fn].code, m1.x.ip, CallCode(op, |vs|)) && CallStack(m1.x, ps, f, vs)
    ensures var next := m1.x.ip + |CallCode(op, |vs|)|;
            Run(img, h, Unlimited, m, n + 1) ==
            CallHost(h, Unlimited, m1.(x := m1.x.(ip := next, ps := ps)), op, f, vs)
  {
    hide Run;
    hide CallHost;
    var code := img[m1.x.fn].code;
    var next := m1.x.ip + |CallCode(op, |vs|)|;
    var m2 := m1.(x := m1.x.(ip := next));
    CallStackPops(m2.x, ps, f, vs);
    if op.ByCall1? {
      FetchByte(code, m1.x.ip, CALL1);
      StepAt(img, h, m, n, m1, ICall1, next);
    } else if op.ByCall2? {
      FetchByte(code, m1.x.ip, CALL2);
      StepAt(img, h, m, n, m1, ICall2, next);
    } else {
      FetchOperand(code, m1.x.ip, CALLN, |vs|);
      StepAt(img, h, m, n, m1, ICallN(|vs|), next);
    }
  }

  /** `OP_CALLF`: what happens depends on the callee. */
  lemma ExecCallF(img: Image, h: Host, m: Machine, n: nat, m1: Machine,
                  ps: seq<Slot>, f: Value, vs: seq<Value>)
    requires Run(img, h, Unlimited, m, n) == m1 && Live(img, m1) && |vs| <= MAX_ARGS
    requires At(img[m1.x.fn].code, m1.x.ip, [CALLF, |vs|]) && CallStack(m1.x, ps, f, vs)
    ensures var m2 := m1.(x := m1.x.(ip := m1.x.ip + 2, ps := ps));
            Run(img, h, Unlimited, m, n + 1) ==
            if f.Lam? && f.id in img then
              if |vs| != img[f.id].arity then Unwind(Unlimited, m2, ErrorOf(Arity))
              else EnterLambda(img, m2, f.id, vs)
            else if f.Fn? && ((f.kind.Unary? && |vs| != 1) || (f.kind.Binary? && |vs| != 2)) then
              Unwind(Unlimited, m2, ErrorOf(Arity))
            else CallHost(h, Unlimited, m2, ByCallF, f, vs)
  {
    hide Run;
    hide CallHost;
    hide Unwind;
    var m2 := m1.(x := m1.x.(ip := m1.x.ip + 2));
    CallStackPops(m2.x, ps, f, vs);
    FetchOperand(img[m1.x.fn].code, m1.x.ip, CALLF, |vs|);
    StepAt(img, h, m, n, m1, ICallF(|vs|), m1.x.ip + 2);
  }

  /** The frame of a called lambda. */
  function EnterLambda(img: Image, m: Machine, id: LamId, vs: seq<Value>): Machine
    requires id in img
  {
    var x := m.x;
    var c := img[id];
    m.(x := Exec(id, 0, |x.ps|, c.nLocals, x.ps + AsSlots(vs) + Unsets(c.nLocals - |vs|),
                 x.rs + [FnFrame(x.fn, x.fp, x.ip)], x.ts))
  }

  /** The frame of a self call. */
  function EnterSelf(m: Machine, vs: seq<Value>): Machine {
    var x := m.x;
    m.(x := x.(ip := 0, fp := |x.ps|, ps := x.ps + AsSlots(vs) + Unsets(x.nLocals - |vs|),
               rs := x.rs + [SelfFrame(x.fp, x.ip)]))
  }

  /** `OP_CALLS`. */
  lemma ExecCallS(img: Image, h: Host, m: Machine, n: nat, m1: Machine, ps: seq<Slot>, vs: seq<Value>)
    requires Run(img, h, Unlimited, m, n) == m1 && Live(img, m1) && |vs| <= MAX_ARGS
    requires At(img[m1.x.fn].code, m1.x.ip, [CALLS, |vs|])
    requires Height(m1.x) <= |ps| && |m1.x.ps| == |ps| + |vs| && m1.x.ps[..|ps|] == ps
    requires forall i :: 0 <= i < |vs| ==> m1.x.ps[|m1.x.ps| - 1 - i] == Holds(vs[i])
    ensures Run(img, h, Unlimited, m, n + 1) == EnterSelf(m1.(x := m1.x.(ip := m1.x.ip + 2, ps := ps)), vs)
  {
    hide Run;
    var m2 := m1.(x := m1.x.(ip := m1.x.ip + 2));
    forall i | |m1.x.ps| - |vs| <= i < |m1.x.ps|
      ensures m1.x.ps[i].Holds?
    {
      var j := |m1.x.ps| - 1 - i;
      assert m1.x.ps[|m1.x.ps| - 1 - j] == Holds(vs[j]);
    }
    assert Operands(m2.x, |vs|) && Popped(m2.x.ps, |vs|) == vs;
    FetchOperand(img[m1.x.fn].code, m1.x.ip, CALLS, |vs|);
    StepAt(img, h, m, n, m1, ICallS(|vs|), m1.x.ip + 2);
  }

  /** `OP_TRYH`. */
  lemma ExecTryH(img: Image, h: Host, m: Machine, n: nat, m1: Machine, ps: seq<Slot>, f: Value, err: Value)
    requires Run(img, h, Unlimited, m, n) == m1 && Live(img, m1)
    requires At(img[m1.x.fn].code, m1.x.ip, [TRYH])
    requires Height(m1.x) <= |ps| && m1.x.ps == ps + [Holds(f)] + [Holds(err)]
    ensures var m2 := m1.(x := m1.x.(ip := m1.x.ip + 1, ps := ps));
            Run(img, h, Unlimited, m, n + 1) ==
            if f.Lam? && f.id in img then
              if img[f.id].arity != 1 then Unwind(Unlimited, m2, ErrorOf(Arity))
              else m2.(x := Entry(f.id, img[f.id], [Holds(err)]), outer := m1.outer + [m2.x])
            else if f.Lam? || (f.Fn? && f.kind.Unary?) then CallHost(h, Unlimited, m2, ByHandler, f, [err])
            else Deliver(Unlimited, m2, f)
  {
    hide Run;
    hide CallHost;
    hide Unwind;
    var m2 := m1.(x := m1.x.(ip := m1.x.ip + 1));
    assert m1.x.ps[..|m1.x.ps| - 2] == ps;
    assert Operands(m2.x, 2) && Drop(m2.x, 2) == m2.x.(ps := ps);
    FetchByte(img[m1.x.fn].code, m1.x.ip, TRYH);
    StepAt(img, h, m, n, m1, ITryH, m1.x.ip + 1);
  }
}
