/** The executor started on the code of an expression does what the reference
    evaluator says: case by case, for every expression, frame and call depth. */
module Simulation {
  import opened Lang
  import opened Bytes
  import opened Bytecode
  import opened CodeGen
  import opened Reference
  import opened Machine
  import opened Scope
  import opened SimExec
  import opened Unfold
  import opened SimDefs

  ghost predicate Framed(m: Machine, cs: CState, d: set<Sym>, vars: Vars, traps: nat) {
    && |cs.locals| <= MAX_LOCALS && Declares(cs.locals, d)
    && Implements(cs.locals, vars, m.x, m.x.ps) && traps <= |m.x.ts|
  }

  lemma SimConst(env: Env, img: Image, m: Machine, n: nat, m1: Machine, v: Value, cs: CState, vars: Vars)
    returns (mx: Machine)
    requires Run(img, env.host, Unlimited, m, n) == m1
    requires Loaded(env, img, m1, GenConst(v, cs).code, GenConst(v, cs).cs)
    requires Implements(cs.locals, vars, m1.x, m1.x.ps)
    ensures Run(img, env.host, Unlimited, m, n + 1) == mx
    ensures Yields(m1, mx, cs.locals, cs.locals, Res(Val(v), vars, m1.w), |GenConst(v, cs).code|)
  {
    hide Run;
    var i := ConstIndex(cs.consts, v);
    assert WithConst(cs, v).consts[i] == v;
    ExecConst(img, env.host, m, n, m1, i);
    mx := m1.(x := m1.x.(ip := m1.x.ip + |GenConst(v, cs).code|, ps := m1.x.ps + [Holds(v)]));
    PutValue(m1, mx, m1.x.ps, cs.locals, cs.locals, Res(Val(v), vars, m1.w), |GenConst(v, cs).code|);
  }

  /** A name with a slot. */
  lemma SimSlot(env: Env, img: Image, s: Sym, cs: CState, m: Machine, vars: Vars, w: World) returns (mx: Machine)
    requires env.Valid() && Implements(cs.locals, vars, m.x, m.x.ps) && Find(cs.locals, s) >= 0 && |cs.locals| <= MAX_LOCALS
    requires Loaded(env, img, m, [LOADENV, Find(cs.locals, s)], cs) && w == m.w
    ensures Run(img, env.host, Unlimited, m, 1) == mx
    ensures Yields(m, mx, cs.locals, cs.locals, Res(Val(if s in vars then vars[s] else Int(0)), vars, w), 2)
  {
    hide Run, Find;
    var r := Res(Val(if s in vars then vars[s] else Int(0)), vars, w);
    RunZero(img, env.host, m);
    ExecLoadEnv(img, env.host, m, 0, m, Find(cs.locals, s));
    mx := m.(x := m.x.(ip := m.x.ip + 2, ps := m.x.ps + [Holds(r.o.v)]));
    PutValue(m, mx, m.x.ps, cs.locals, cs.locals, r, 2);
  }

  /** What an operation that may fail has returned is pushed or raised, as the evaluator has it. */
  lemma SimDeliver(env: Env, img: Image, m: Machine, n: nat, m1: Machine, v: Value,
                   a: seq<Local>, b: seq<Local>, traps: nat, len: nat, k: nat, vars: Vars)
    returns (mx: Machine)
    requires Run(img, env.host, Unlimited, m, n) == Deliver(Unlimited, m1, v)
    requires m1.st.Running? && Advances(a, m, m1) && |m1.x.ps| == |m.x.ps| && m1.x.ip == m.x.ip + len
    requires Implements(b, vars, m.x, m1.x.ps)
    ensures Simulates(img, env.host, m, n, mx, a, b, traps, len, k, Res(Checked(v), vars, m1.w))
  {
    hide Run, Find, Frame, Unwind;
    if v.ErrObj? {
      mx := m1;
    } else {
      mx := m1.(x := m1.x.(ps := m1.x.ps + [Holds(v)]));
      PutValue(m, mx, m1.x.ps, a, b, Res(Val(v), vars, m1.w), len);
    }
  }

  lemma SimName(env: Env, img: Image, s: Sym, cs: CState, traps: nat, d: set<Sym>, m: Machine, vars: Vars, k: nat)
    returns (n: nat, mx: Machine)
    requires env.Valid() && Framed(m, cs, d, vars, traps)
    requires var o := Gen(Name(s), cs, traps, env.prog[env.self].view); Loaded(env, img, m, o.code, o.cs)
    ensures var o := Gen(Name(s), cs, traps, env.prog[env.self].view);
            Simulates(img, env.host, m, n, mx, cs.locals, o.cs.locals, traps, |o.code|, k,
                      Eval(env, Name(s), d, vars, m.w, k))
  {
    hide Run, Find, Unwind, Deliver;
    n := 1;
    RunZero(img, env.host, m);
    if Find(cs.locals, s) >= 0 {
      mx := SimSlot(env, img, s, cs, m, vars, m.w);
    } else {
      var name := Symbol(s, false);
      var i := ConstIndex(cs.consts, name);
      var len := |Indexed(RESOLVE, RESOLVE_W, i)|;
      assert WithConst(cs, name).consts[i] == name;
      ExecResolve(img, env.host, m, 0, m, i);
      if s in m.w.globals {
        mx := SimDeliver(env, img, m, n, m.(x := m.x.(ip := m.x.ip + len)), m.w.globals[s],
                         cs.locals, cs.locals, traps, len, k, vars);
      } else {
        mx := m.(x := m.x.(ip := m.x.ip + len));
      }
    }
  }

  /** `OP_STOREGLOBAL` behind a value. */
  lemma SimStoreGlobal(env: Env, img: Image, m: Machine, n1: nat, m1: Machine, s: Sym,
                       cs: CState, a: seq<Local>, traps: nat, len1: nat, len: nat, k: nat, r: Res)
    returns (n: nat, mx: Machine)
    requires Run(img, env.host, Unlimited, m, n1) == m1
    requires Yields(m, m1, a, cs.locals, r, len1)
    requires var name := Symbol(s, false);
             var c := Indexed(STOREGLOBAL, STOREGLOBAL_W, ConstIndex(cs.consts, name));
             Loaded(env, img, m1, c, WithConst(cs, name)) && len == len1 + |c|
    ensures Simulates(img, env.host, m, n, mx, a, cs.locals, traps, len, k, Store(r, s))
  {
    hide Run;
    hide Find;
    var name := Symbol(s, false);
    var i := ConstIndex(cs.consts, name);
    assert WithConst(cs, name).consts[i] == name;
    var base := BelowValue(m, m1, a, cs.locals, r, len1);
    ExecStoreGlobal(img, env.host, m, n1, m1, i);
    n := n1 + 1;
    var m2 := m1.(x := m1.x.(ip := m.x.ip + len));
    match SetGlobal(r.w.globals, s, r.o.v)
    case NotBound(_) =>
      mx := m2.(x := m2.x.(ps := base));
      assert Drop(m2.x, 1) == mx.x;
    case Rebound(globals) =>
      mx := m2.(w := r.w.(globals := globals));
  }

  /** `OP_FORCE`, `OP_DUP` and `OP_STOREENV` behind the value of a `let`. */
  lemma SimStoreLocal(env: Env, img: Image, m: Machine, n1: nat, m1: Machine, s: Sym, slot: byte,
                      cs: CState, cs1: CState, a: seq<Local>, traps: nat, len1: nat, k: nat, r: Res)
    returns (n: nat, mx: Machine)
    requires Run(img, env.host, Unlimited, m, n1) == m1
    requires a <= cs.locals
    requires Yields(m, m1, a, cs.locals, r, len1)
    requires Loaded(env, img, m1, [FORCE] + [DUP] + [STOREENV, slot], cs1)
    requires Fresh(cs.locals, cs1.locals) && Find(cs1.locals, s) == slot
    ensures Simulates(img, env.host, m, n, mx, a, cs1.locals, traps, len1 + 4, k, r.(vars := r.vars[s := r.o.v]))
  {
    hide Run, Frame;
    hide Find;
    var v := Holds(r.o.v);
    var base := BelowValue(m, m1, a, cs.locals, r, len1);
    AtSplit(img[env.self].code, m1.x.ip, [FORCE] + [DUP], [STOREENV, slot]);
    ExecForceDup(img, env.host, m, n1, m1, base, v);
    var m2 := m1.(x := m1.x.(ip := m1.x.ip + 2, ps := m1.x.ps + [v]));
    ExecStoreEnv(img, env.host, m, n1 + 2, m2, slot, m1.x.ps, v);
    n := n1 + 3;
    var at := m.x.fp + slot;
    var base1 := base[at := v];
    assert m1.x.ps[at := v] == base1 + [v];
    mx := m2.(x := m2.x.(ip := m2.x.ip + 2, ps := base1 + [v]));
    FrameGrows(cs.locals, cs1.locals, r.vars, base, m.x.fp, m.x.nLocals);
    FrameStore(cs1.locals, r.vars, base, m.x.fp, m.x.nLocals, s, r.o.v);
    assert base1 == base[m.x.fp + Find(cs1.locals, s) := v];
    assert cs1.locals[slot] == Named(s);
    KeepsStore(a, m.x, base, slot, v);
    PutValue(m, mx, base1, a, cs1.locals, r.(vars := r.vars[s := r.o.v]), len1 + 4);
  }

  /** The tail of `return`, with the value on top. */
  lemma SimLeave(env: Env, img: Image, m: Machine, n1: nat, m1: Machine,
                 cs: CState, a: seq<Local>, traps: nat, len1: nat, len: nat, k: nat, r: Res)
    returns (n: nat, mx: Machine)
    requires Run(img, env.host, Unlimited, m, n1) == m1
    requires Height(m.x) <= |m.x.ps| && traps <= |m.x.ts|
    requires Yields(m, m1, a, cs.locals, r, len1)
    requires Loaded(env, img, m1, TrapEnds(traps) + [RET], cs)
    ensures Simulates(img, env.host, m, n, mx, a, cs.locals, traps, len, k, r.(o := Ret(r.o.v)))
  {
    hide Run;
    AtSplit(img[env.self].code, m1.x.ip, TrapEnds(traps), [RET]);
    ExecTrapEnds(img, env.host, m, n1, m1, traps);
    var m2 := m1.(x := m1.x.(ip := m1.x.ip + traps, ts := m1.x.ts[..|m1.x.ts| - traps]));
    ExecRet(img, env.host, m, n1 + traps, m2);
    n := n1 + traps + 1;
    mx := m2.(x := m2.x.(ip := m2.x.ip + 1));
    assert mx.x.ps[..m.x.fp] == m.x.ps[..m.x.fp];
  }

  /** The answer of the host is the answer of the evaluator. */
  lemma SimHost(env: Env, img: Image, m: Machine, n: nat, m1: Machine, op: CallOp, f: Value, vs: seq<Value>,
                a: seq<Local>, b: seq<Local>, traps: nat, len: nat, k: nat, vars: Vars)
    returns (mx: Machine)
    requires Run(img, env.host, Unlimited, m, n) == CallHost(env.host, Unlimited, m1, op, f, vs)
    requires m1.st.Running? && Advances(a, m, m1) && |m1.x.ps| == |m.x.ps| && m1.x.ip == m.x.ip + len
    requires Implements(b, vars, m.x, m1.x.ps)
    ensures var c := AskHost(env, op, f, vs, m1.w);
            Simulates(img, env.host, m, n, mx, a, b, traps, len, k, Res(c.o, vars, c.w))
  {
    hide Run, Deliver;
    var (v, w) := env.host.invoke(op, f, vs, m1.w);
    mx := SimDeliver(env, img, m, n, m1.(w := w), v, a, b, traps, len, k, vars);
  }

  lemma {:induction false} SimExpr(env: Env, img: Image, e: Expr, cs: CState, traps: nat, d: set<Sym>,
                                   m: Machine, vars: Vars, k: nat)
    returns (n: nat, mx: Machine)
    requires env.Valid() && Setup(env, img) && SelfArity(e, |env.prog[env.self].params|) && Framed(m, cs, d, vars, traps)
    requires var o := Gen(e, cs, traps, env.prog[env.self].view); o.Emitted? && Loaded(env, img, m, o.code, o.cs)
    ensures var o := Gen(e, cs, traps, env.prog[env.self].view);
            Simulates(img, env.host, m, n, mx, cs.locals, o.cs.locals, traps, |o.code|, k, Eval(env, e, d, vars, m.w, k))
    decreases k, 2, e, 2
  {
    hide Run, Find, Gen, GenArgs, GenBody, Eval, EvalArgs, EvalBody, Declared, DeclaredArgs, DeclaredBody, Setup;
    hide Simulates;
    match e
    case Lit(v) =>
      n, mx := SimLit(env, img, e, cs, traps, d, m, vars, k);
    case Name(s) =>
      n, mx := SimName(env, img, s, cs, traps, d, m, vars, k);
    case Set(_, _) =>
      n, mx := SimSet(env, img, e, cs, traps, d, m, vars, k);
    case Let(_, _) =>
      n, mx := SimLet(env, img, e, cs, traps, d, m, vars, k);
    case IfElse(_, _, _) =>
      n, mx := SimIf(env, img, e, cs, traps, d, m, vars, k);
    case Do(es) =>
      n, mx := SimDo(env, img, e, cs, traps, d, m, vars, k);
    case Try(_, _) =>
      n, mx := SimTry(env, img, e, cs, traps, d, m, vars, k);
    case ReturnNull =>
      n, mx := SimReturnNull(env, img, e, cs, traps, d, m, vars, k);
    case Return(_) =>
      n, mx := SimReturn(env, img, e, cs, traps, d, m, vars, k);
    case SelfCall(_) =>
      n, mx := SimSelfCall(env, img, e, cs, traps, d, m, vars, k);
    case Call(_, _) =>
      n, mx := SimCall(env, img, e, cs, traps, d, m, vars, k);
  }

  lemma {:induction false} SimLit(env: Env, img: Image, e: Expr, cs: CState, traps: nat, d: set<Sym>,
                                   m: Machine, vars: Vars, k: nat)
    returns (n: nat, mx: Machine)
    requires e.Lit? && env.Valid() && Setup(env, img) && SelfArity(e, |env.prog[env.self].params|) && Framed(m, cs, d, vars, traps)
    requires var o := Gen(e, cs, traps, env.prog[env.self].view); o.Emitted? && Loaded(env, img, m, o.code, o.cs)
    ensures var o := Gen(e, cs, traps, env.prog[env.self].view);
            Simulates(img, env.host, m, n, mx, cs.locals, o.cs.locals, traps, |o.code|, k, Eval(env, e, d, vars, m.w, k))
    decreases k, 2, e, 1
  {
    hide Run, Find, Setup;
    RunZero(img, env.host, m);
    mx := SimConst(env, img, m, 0, m, e.v, cs, vars);
    n := 1;
  }

  lemma {:induction false} SimDo(env: Env, img: Image, e: Expr, cs: CState, traps: nat, d: set<Sym>,
                                   m: Machine, vars: Vars, k: nat)
    returns (n: nat, mx: Machine)
    requires e.Do? && env.Valid() && Setup(env, img) && SelfArity(e, |env.prog[env.self].params|) && Framed(m, cs, d, vars, traps)
    requires var o := Gen(e, cs, traps, env.prog[env.self].view); o.Emitted? && Loaded(env, img, m, o.code, o.cs)
    ensures var o := Gen(e, cs, traps, env.prog[env.self].view);
            Simulates(img, env.host, m, n, mx, cs.locals, o.cs.locals, traps, |o.code|, k, Eval(env, e, d, vars, m.w, k))
    decreases k, 2, e, 1
  {
    hide Run, Find, Setup;
    n, mx := SimBody(env, img, e.es, cs, traps, d, m, vars, k);
  }

  lemma {:induction false} SimSet(env: Env, img: Image, e: Expr, cs: CState, traps: nat, d: set<Sym>,
                                   m: Machine, vars: Vars, k: nat)
    returns (n: nat, mx: Machine)
    requires e.Set? && env.Valid() && Setup(env, img) && SelfArity(e, |env.prog[env.self].params|) && Framed(m, cs, d, vars, traps)
    requires var o := Gen(e, cs, traps, env.prog[env.self].view); o.Emitted? && Loaded(env, img, m, o.code, o.cs)
    ensures var o := Gen(e, cs, traps, env.prog[env.self].view);
            Simulates(img, env.host, m, n, mx, cs.locals, o.cs.locals, traps, |o.code|, k, Eval(env, e, d, vars, m.w, k))
    decreases k, 2, e, 1
  {
    hide Run, Find, Gen, GenArgs, GenBody, Eval, EvalArgs, EvalBody, Declared, DeclaredArgs, DeclaredBody, Setup;
    var view := env.prog[env.self].view;
    OfSet(env, e.s, e.e, cs, traps, d, vars, m.w, k);
    var o := Gen(e.e, cs, traps, view);
    AtSplit(img[env.self].code, m.x.ip, o.code, Indexed(STOREGLOBAL, STOREGLOBAL_W, ConstIndex(o.cs.consts, Symbol(e.s, false))));
    n, mx := SimExpr(env, img, e.e, cs, traps, d, m, vars, k);
    var r := Eval(env, e.e, d, vars, m.w, k);
    if r.o.Val? {
      n, mx := SimStoreGlobal(env, img, m, n, mx, e.s, o.cs, cs.locals, traps, |o.code|,
                              |Gen(e, cs, traps, view).code|, k, r);
    }
  }

  lemma {:induction false} SimLet(env: Env, img: Image, e: Expr, cs: CState, traps: nat, d: set<Sym>,
                                   m: Machine, vars: Vars, k: nat)
    returns (n: nat, mx: Machine)
    requires e.Let? && env.Valid() && Setup(env, img) && SelfArity(e, |env.prog[env.self].params|) && Framed(m, cs, d, vars, traps)
    requires var o := Gen(e, cs, traps, env.prog[env.self].view); o.Emitted? && Loaded(env, img, m, o.code, o.cs)
    ensures var o := Gen(e, cs, traps, env.prog[env.self].view);
            Simulates(img, env.host, m, n, mx, cs.locals, o.cs.locals, traps, |o.code|, k, Eval(env, e, d, vars, m.w, k))
    decreases k, 2, e, 1
  {
    hide Run, Find, Gen, GenArgs, GenBody, Eval, EvalArgs, EvalBody, Declared, DeclaredArgs, DeclaredBody, Setup;
    var view := env.prog[env.self].view;
    OfLet(env, e.s, e.e, cs, traps, d, vars, m.w, k);
    var o := Gen(e.e, cs, traps, view);
    var cs1 := Gen(e, cs, traps, view).cs;
    var found := Find(o.cs.locals, e.s);
    var slot: byte := if found >= 0 then found else |o.cs.locals|;
    var tail: seq<byte> := [FORCE] + [DUP] + [STOREENV, slot];
    assert Gen(e, cs, traps, view).code == o.code + tail;
    AtSplit(img[env.self].code, m.x.ip, o.code, tail);
    GenGrows(e.e, cs, traps, view, d);
    n, mx := SimExpr(env, img, e.e, cs, traps, d, m, vars, k);
    var r := Eval(env, e.e, d, vars, m.w, k);
    FindPush(o.cs.locals, Named(e.s), e.s);
    if r.o.Val? {
      n, mx := SimStoreLocal(env, img, m, n, mx, e.s, slot, o.cs, cs1, cs.locals, traps, |o.code|, k, r);
    } else {
      Widen(img, env.host, m, n, mx, cs.locals, o.cs.locals, cs1.locals, traps, |o.code|, |o.code| + 4, k, r);
    }
  }

  lemma {:induction false} SimReturnNull(env: Env, img: Image, e: Expr, cs: CState, traps: nat, d: set<Sym>,
                                   m: Machine, vars: Vars, k: nat)
    returns (n: nat, mx: Machine)
    requires e.ReturnNull? && env.Valid() && Setup(env, img) && SelfArity(e, |env.prog[env.self].params|) && Framed(m, cs, d, vars, traps)
    requires var o := Gen(e, cs, traps, env.prog[env.self].view); o.Emitted? && Loaded(env, img, m, o.code, o.cs)
    ensures var o := Gen(e, cs, traps, env.prog[env.self].view);
            Simulates(img, env.host, m, n, mx, cs.locals, o.cs.locals, traps, |o.code|, k, Eval(env, e, d, vars, m.w, k))
    decreases k, 2, e, 1
  {
    hide Run, Find, Gen, GenArgs, GenBody, Eval, EvalArgs, EvalBody, Declared, DeclaredArgs, DeclaredBody, Setup;
    var view := env.prog[env.self].view;
    OfReturnNull(env, cs, traps, d, vars, m.w, k);
    var o := GenConst(Null, cs);
    RunZero(img, env.host, m);
    assert Gen(e, cs, traps, view).code == o.code + (TrapEnds(traps) + [RET]);
    AtSplit(img[env.self].code, m.x.ip, o.code, TrapEnds(traps) + [RET]);
    var m1 := SimConst(env, img, m, 0, m, Null, cs, vars);
    n, mx := SimLeave(env, img, m, 1, m1, o.cs, cs.locals, traps, |o.code|,
                      |Gen(e, cs, traps, view).code|, k, Res(Val(Null), vars, m.w));
  }

  lemma {:induction false} SimReturn(env: Env, img: Image, e: Expr, cs: CState, traps: nat, d: set<Sym>,
                                   m: Machine, vars: Vars, k: nat)
    returns (n: nat, mx: Machine)
    requires e.Return? && env.Valid() && Setup(env, img) && SelfArity(e, |env.prog[env.self].params|) && Framed(m, cs, d, vars, traps)
    requires var o := Gen(e, cs, traps, env.prog[env.self].view); o.Emitted? && Loaded(env, img, m, o.code, o.cs)
    ensures var o := Gen(e, cs, traps, env.prog[env.self].view);
            Simulates(img, env.host, m, n, mx, cs.locals, o.cs.locals, traps, |o.code|, k, Eval(env, e, d, vars, m.w, k))
    decreases k, 2, e, 1
  {
    hide Run, Find, Gen, GenArgs, GenBody, Eval, EvalArgs, EvalBody, Declared, DeclaredArgs, DeclaredBody, Setup;
    var view := env.prog[env.self].view;
    OfReturn(env, e.e, cs, traps, d, vars, m.w, k);
    var o := Gen(e.e, cs, traps, view);
    assert Gen(e, cs, traps, view).code == o.code + (TrapEnds(traps) + [RET]);
    AtSplit(img[env.self].code, m.x.ip, o.code, TrapEnds(traps) + [RET]);
    n, mx := SimExpr(env, img, e.e, cs, traps, d, m, vars, k);
    var r := Eval(env, e.e, d, vars, m.w, k);
    if r.o.Val? {
      n, mx := SimLeave(env, img, m, n, mx, o.cs, cs.locals, traps, |o.code|,
                        |Gen(e, cs, traps, view).code|, k, r);
    }
  }

  lemma {:induction false} SimIf(env: Env, img: Image, e: Expr, cs: CState, traps: nat, d: set<Sym>,
                                   m: Machine, vars: Vars, k: nat)
    returns (n: nat, mx: Machine)
    requires e.IfElse? && env.Valid() && Setup(env, img) && SelfArity(e, |env.prog[env.self].params|) && Framed(m, cs, d, vars, traps)
    requires var o := Gen(e, cs, traps, env.prog[env.self].view); o.Emitted? && Loaded(env, img, m, o.code, o.cs)
    ensures var o := Gen(e, cs, traps, env.prog[env.self].view);
            Simulates(img, env.host, m, n, mx, cs.locals, o.cs.locals, traps, |o.code|, k, Eval(env, e, d, vars, m.w, k))
    decreases k, 2, e, 1
  {
    hide Run, Find, Gen, GenArgs, GenBody, Eval, EvalArgs, EvalBody, Declared, DeclaredArgs, DeclaredBody, Setup, Frame, Invoke, Handle;
    var view := env.prog[env.self].view;
    OfIf(env, e.c, e.t, e.f, cs, traps, d, vars, m.w, k);
    var o1 := Gen(e.c, cs, traps, view);
    var o2 := Gen(e.t, o1.cs, traps, view);
    var o3 := Gen(e.f, o2.cs, traps, view);
    var d1 := Declared(e.c, d, view);
    var d2 := Declared(e.t, d1, view);
    GenGrows(e.c, cs, traps, view, d);
    GenGrows(e.t, o1.cs, traps, view, d1);
    GenGrows(e.f, o2.cs, traps, view, d2);
    GrowsTrans(o1.cs, o2.cs, o3.cs);
    var code, len := img[env.self].code, |Gen(e, cs, traps, view).code|;
    AtSplit4(code, m.x.ip, o1.code, Jump(JMPF, |o2.code| + 3), o2.code + Jump(JMP, |o3.code|), o3.code);
    var n1, m1 := SimExpr(env, img, e.c, cs, traps, d, m, vars, k);
    var r1 := Eval(env, e.c, d, vars, m.w, k);
    if !r1.o.Val? {
      n, mx := n1, m1;
      Widen(img, env.host, m, n, mx, cs.locals, o1.cs.locals, o3.cs.locals, traps, |o1.code|, len, k, r1);
    } else {
      var base1 := BelowValue(m, m1, cs.locals, o1.cs.locals, r1, |o1.code|);
      ExecJumpIf(img, env.host, m, n1, m1, |o2.code| + 3, base1, r1.o.v);
      if Truthy(r1.o.v) {
        var m2 := m1.(x := m1.x.(ip := m1.x.ip + 3, ps := base1));
        n, mx := SimThen(env, img, e, cs, traps, d, m, n1 + 1, m2, r1.vars, k);
      } else {
        var m2 := m1.(x := m1.x.(ip := m1.x.ip + 3 + (|o2.code| + 3), ps := base1));
        n, mx := SimElse(env, img, e, cs, traps, d, m, n1 + 1, m2, r1.vars, k);
      }
    }
  }

  /** The else branch, likewise. */
  lemma {:induction false} SimElse(env: Env, img: Image, e: Expr, cs: CState, traps: nat, d: set<Sym>,
                                   m: Machine, n1: nat, m2: Machine, vars: Vars, k: nat)
    returns (n: nat, mx: Machine)
    requires e.IfElse? && env.Valid() && Setup(env, img) && SelfArity(e, |env.prog[env.self].params|)
    requires |cs.locals| <= MAX_LOCALS && Declares(cs.locals, d) && Run(img, env.host, Unlimited, m, n1) == m2
    requires Gen(e, cs, traps, env.prog[env.self].view).Emitted?
    requires var view := env.prog[env.self].view;
             var o1 := Gen(e.c, cs, traps, view);
             var o2 := Gen(e.t, o1.cs, traps, view);
             var o3 := Gen(e.f, o2.cs, traps, view);
             && o1.Emitted? && o2.Emitted? && o3.Emitted? && |o2.code| + 3 <= MAX_JUMP && |o3.code| <= MAX_JUMP
             && Framed(m2, o1.cs, Declared(e.c, d, view), vars, traps)
             && Advances(cs.locals, m, m2) && |m2.x.ps| == |m.x.ps|
             && m2.x.ip == m.x.ip + |o1.code| + |o2.code| + 6
             && Loaded(env, img, m2, o3.code, o3.cs)
    ensures var view := env.prog[env.self].view;
            var o := Gen(e, cs, traps, view);
            var d1 := Declared(e.c, d, view);
            Simulates(img, env.host, m, n, mx, cs.locals, o.cs.locals, traps, |o.code|, k,
                      Eval(env, e.f, Declared(e.t, d1, view), vars, m2.w, k))
    decreases k, 2, e, 0
  {
    hide Run, Find, Gen, GenArgs, GenBody, Eval, EvalArgs, EvalBody, Declared, DeclaredArgs, DeclaredBody, Setup, Frame, Invoke, Handle;
    var view := env.prog[env.self].view;
    OfIf(env, e.c, e.t, e.f, cs, traps, d, vars, m.w, k);
    var o1 := Gen(e.c, cs, traps, view);
    var o2 := Gen(e.t, o1.cs, traps, view);
    var o3 := Gen(e.f, o2.cs, traps, view);
    var d1 := Declared(e.c, d, view);
    var d2 := Declared(e.t, d1, view);
    GenGrows(e.c, cs, traps, view, d);
    GenGrows(e.t, o1.cs, traps, view, d1);
    GenGrows(e.f, o2.cs, traps, view, d2);
    var len := |Gen(e, cs, traps, view).code|;
    FrameGrows(o1.cs.locals, o2.cs.locals, vars, m2.x.ps, m2.x.fp, m2.x.nLocals);
    var n2, m3 := SimExpr(env, img, e.f, o2.cs, traps, d2, m2, vars, k);
    var r := Eval(env, e.f, d2, vars, m2.w, k);
    n, mx := n1 + n2, m3;
    if r.o.Val? {
      var base := Chain(img, env.host, m, n1, m2, n2, m3, cs.locals, o2.cs.locals, o3.cs.locals, |o3.code|, r);
      PutValue(m, mx, base, cs.locals, o3.cs.locals, r, len);
    } else {
      Lift(img, env.host, m, n1, m2, n2, mx, cs.locals, o2.cs.locals, o3.cs.locals, traps, |o3.code|, len, k, r);
    }
  }

  /** The then branch, once the condition has been popped. */
  lemma {:induction false} SimThen(env: Env, img: Image, e: Expr, cs: CState, traps: nat, d: set<Sym>,
                                   m: Machine, n1: nat, m2: Machine, vars: Vars, k: nat)
    returns (n: nat, mx: Machine)
    requires e.IfElse? && env.Valid() && Setup(env, img) && SelfArity(e, |env.prog[env.self].params|)
    requires |cs.locals| <= MAX_LOCALS && Declares(cs.locals, d) && Run(img, env.host, Unlimited, m, n1) == m2
    requires Gen(e, cs, traps, env.prog[env.self].view).Emitted?
    requires var view := env.prog[env.self].view;
             var o1 := Gen(e.c, cs, traps, view);
             var o2 := Gen(e.t, o1.cs, traps, view);
             var o3 := Gen(e.f, o2.cs, traps, view);
             && o1.Emitted? && o2.Emitted? && o3.Emitted? && |o2.code| + 3 <= MAX_JUMP && |o3.code| <= MAX_JUMP
             && Framed(m2, o1.cs, Declared(e.c, d, view), vars, traps)
             && Advances(cs.locals, m, m2) && |m2.x.ps| == |m.x.ps|
             && m2.x.ip == m.x.ip + |o1.code| + 3
             && Loaded(env, img, m2, o2.code + Jump(JMP, |o3.code|), o3.cs)
    ensures var view := env.prog[env.self].view;
            var o := Gen(e, cs, traps, view);
            Simulates(img, env.host, m, n, mx, cs.locals, o.cs.locals, traps, |o.code|, k,
                      Eval(env, e.t, Declared(e.c, d, view), vars, m2.w, k))
    decreases k, 2, e, 0
  {
    hide Run, Find, Gen, GenArgs, GenBody, Eval, EvalArgs, EvalBody, Declared, DeclaredArgs, DeclaredBody, Setup, Frame, Invoke, Handle;
    var view := env.prog[env.self].view;
    OfIf(env, e.c, e.t, e.f, cs, traps, d, vars, m.w, k);
    var o1 := Gen(e.c, cs, traps, view);
    var o2 := Gen(e.t, o1.cs, traps, view);
    var o3 := Gen(e.f, o2.cs, traps, view);
    var d1 := Declared(e.c, d, view);
    var d2 := Declared(e.t, d1, view);
    GenGrows(e.c, cs, traps, view, d);
    GenGrows(e.t, o1.cs, traps, view, d1);
    GenGrows(e.f, o2.cs, traps, view, d2);
    var len := |Gen(e, cs, traps, view).code|;
    AtSplit(img[env.self].code, m2.x.ip, o2.code, Jump(JMP, |o3.code|));
    var n2, m3 := SimExpr(env, img, e.t, o1.cs, traps, d1, m2, vars, k);
    var r := Eval(env, e.t, d1, vars, m2.w, k);
    if r.o.Val? {
      var base := Chain(img, env.host, m, n1, m2, n2, m3, cs.locals, o1.cs.locals, o2.cs.locals, |o2.code|, r);
      ExecJump(img, env.host, m, n1 + n2, m3, |o3.code|);
      n, mx := n1 + n2 + 1, m3.(x := m3.x.(ip := m3.x.ip + 3 + |o3.code|));
      FrameGrows(o2.cs.locals, o3.cs.locals, r.vars, base, m.x.fp, m.x.nLocals);
      PutValue(m, mx, base, cs.locals, o3.cs.locals, r, len);
    } else {
      n, mx := n1 + n2, m3;
      Lift(img, env.host, m, n1, m2, n2, mx, cs.locals, o1.cs.locals, o2.cs.locals, traps, |o2.code|, len, k, r);
      Widen(img, env.host, m, n, mx, cs.locals, o2.cs.locals, o3.cs.locals, traps, len, len, k, r);
    }
  }

  lemma {:induction false} SimBody(env: Env, img: Image, es: seq<Expr>, cs: CState, traps: nat, d: set<Sym>,
                                   m: Machine, vars: Vars, k: nat)
    returns (n: nat, mx: Machine)
    requires es != [] && env.Valid() && Setup(env, img)
    requires SelfArityAll(es, |env.prog[env.self].params|) && Framed(m, cs, d, vars, traps)
    requires var o := GenBody(es, cs, traps, env.prog[env.self].view); o.Emitted? && Loaded(env, img, m, o.code, o.cs)
    ensures var o := GenBody(es, cs, traps, env.prog[env.self].view);
            Simulates(img, env.host, m, n, mx, cs.locals, o.cs.locals, traps, |o.code|, k, EvalBody(env, es, d, vars, m.w, k))
    decreases k, 2, es, 1
  {
    hide Run, Find, Gen, GenArgs, GenBody, Eval, EvalArgs, EvalBody, Declared, DeclaredArgs, DeclaredBody, Setup, Frame, Invoke, Handle;
    var view := env.prog[env.self].view;
    OfBody(env, es, cs, traps, d, vars, m.w, k);
    var o1 := Gen(es[0], cs, traps, view);
    var r1 := Eval(env, es[0], d, vars, m.w, k);
    if |es| == 1 {
      n, mx := SimExpr(env, img, es[0], cs, traps, d, m, vars, k);
    } else {
      var o2 := GenBody(es[1..], o1.cs, traps, view);
      var d1 := Declared(es[0], d, view);
      GenGrows(es[0], cs, traps, view, d);
      GenBodyGrows(es[1..], o1.cs, traps, view, d1);
      var len := |o1.code| + 1 + |o2.code|;
      AtSplit3(img[env.self].code, m.x.ip, o1.code, [POP], o2.code);
      var n1, m1 := SimExpr(env, img, es[0], cs, traps, d, m, vars, k);
      if !r1.o.Val? {
        n, mx := n1, m1;
        Widen(img, env.host, m, n, mx, cs.locals, o1.cs.locals, o2.cs.locals, traps, |o1.code|, len, k, r1);
      } else {
        var base1 := BelowValue(m, m1, cs.locals, o1.cs.locals, r1, |o1.code|);
        ExecPop(img, env.host, m, n1, m1, base1, Holds(r1.o.v));
        var m2 := m1.(x := m1.x.(ip := m1.x.ip + 1, ps := base1));
        var n2, m3 := SimBody(env, img, es[1..], o1.cs, traps, d1, m2, r1.vars, k);
        var r := EvalBody(env, es[1..], d1, r1.vars, r1.w, k);
        n, mx := n1 + 1 + n2, m3;
        if r.o.Val? {
          var base := Chain(img, env.host, m, n1 + 1, m2, n2, m3, cs.locals, o1.cs.locals, o2.cs.locals, |o2.code|, r);
          PutValue(m, mx, base, cs.locals, o2.cs.locals, r, len);
        } else {
          Lift(img, env.host, m, n1 + 1, m2, n2, mx, cs.locals, o1.cs.locals, o2.cs.locals, traps, |o2.code|, len, k, r);
        }
      }
    }
  }

  /** Arming the trap. */
  lemma TryStarts(env: Env, img: Image, e: Expr, cs: CState, traps: nat, d: set<Sym>, m: Machine, vars: Vars)
    returns (m1: Machine)
    requires e.Try? && env.Valid() && Framed(m, cs, d, vars, traps)
    requires var o := Gen(e, cs, traps, env.prog[env.self].view); o.Emitted? && Loaded(env, img, m, o.code, o.cs)
    ensures var view := env.prog[env.self].view;
            var cs0, len := WithLocal(cs, Hidden), |Gen(e, cs, traps, view).code|;
            |cs0.locals| <= MAX_LOCALS &&
            var o1 := Gen(e.body, cs0, traps + 1, view);
            o1.Emitted? &&
            var o2 := Gen(e.handler, o1.cs, traps, view);
            o2.Emitted? && |o2.code| + 5 <= MAX_JUMP &&
            var t := Trap(|m.x.rs|, |m.x.ps|, m.x.ip + 3 + (|o1.code| + 4), m.x.fn, m.x.fp, m.x.nLocals);
            var code := img[env.self].code;
            && m1 == m.(x := m.x.(ip := m.x.ip + 3, ts := m.x.ts + [t]))
            && Run(img, env.host, Unlimited, m, 1) == m1
            && Framed(m1, cs0, d, vars, traps + 1) && Loaded(env, img, m1, o1.code, o1.cs)
            && At(code, m.x.ip + 3 + |o1.code|, [TRAP_END]) && At(code, m.x.ip + 4 + |o1.code|, Jump(JMP, |o2.code| + 5))
            && cs.locals <= cs0.locals && Fresh(o1.cs.locals, o2.cs.locals) && |o2.cs.locals| <= m.x.nLocals
            && len == |o1.code| + |o2.code| + 12 && Gen(e, cs, traps, view).cs == o2.cs
  {
    hide Run, Find, Gen, GenArgs, GenBody, Eval, EvalArgs, EvalBody, Declared, DeclaredArgs, DeclaredBody, Handle, TryCode;
    var view := env.prog[env.self].view;
    OfTry(env, e.body, e.handler, cs, traps, d, vars, m.w, 0);
    var cs0, slot := WithLocal(cs, Hidden), |cs.locals|;
    var o1 := Gen(e.body, cs0, traps + 1, view);
    var o2 := Gen(e.handler, o1.cs, traps, view);
    var d1 := Declared(e.body, d, view);
    DeclaresPush(cs.locals, d, Sym(0, false));
    GenGrows(e.body, cs0, traps + 1, view, d);
    GenGrows(e.handler, o1.cs, traps, view, d1);
    TryLayout(img[env.self].code, m.x.ip, o1.code, o2.code, slot);
    RunZero(img, env.host, m);
    ExecTrap(img, env.host, m, 0, m, |o1.code| + 4);
    var t := Trap(|m.x.rs|, |m.x.ps|, m.x.ip + 3 + (|o1.code| + 4), m.x.fn, m.x.fp, m.x.nLocals);
    m1 := m.(x := m.x.(ip := m.x.ip + 3, ts := m.x.ts + [t]));
    FrameGrows(cs.locals, cs0.locals, vars, m.x.ps, m.x.fp, m.x.nLocals);
  }

  lemma {:induction false} SimTry(env: Env, img: Image, e: Expr, cs: CState, traps: nat, d: set<Sym>,
                                   m: Machine, vars: Vars, k: nat)
    returns (n: nat, mx: Machine)
    requires e.Try? && env.Valid() && Setup(env, img) && SelfArity(e, |env.prog[env.self].params|) && Framed(m, cs, d, vars, traps)
    requires var o := Gen(e, cs, traps, env.prog[env.self].view); o.Emitted? && Loaded(env, img, m, o.code, o.cs)
    ensures var o := Gen(e, cs, traps, env.prog[env.self].view);
            Simulates(img, env.host, m, n, mx, cs.locals, o.cs.locals, traps, |o.code|, k, Eval(env, e, d, vars, m.w, k))
    decreases k, 2, e, 1
  {
    hide Run, Find, Gen, GenArgs, GenBody, Eval, EvalArgs, EvalBody, Declared, DeclaredArgs, DeclaredBody, Setup, TryCode, Handle, At;
    var view := env.prog[env.self].view;
    OfTry(env, e.body, e.handler, cs, traps, d, vars, m.w, k);
    var cs0 := WithLocal(cs, Hidden);
    var o1 := Gen(e.body, cs0, traps + 1, view);
    var o2 := Gen(e.handler, o1.cs, traps, view);
    var m1 := TryStarts(env, img, e, cs, traps, d, m, vars);
    var n1, b1 := SimExpr(env, img, e.body, cs0, traps + 1, d, m1, vars, k);
    var r := Eval(env, e.body, d, vars, m.w, k);
    RunAdd(img, env.host, Unlimited, m, 1, n1);
    n, mx := 1 + n1, b1;
    match r.o
    case Val(v) =>
      n, mx := SimTryDone(env, img, m, m1, 1 + n1, b1, o1.cs.locals, o2.cs, cs.locals, cs0.locals, traps, |o1.code|, |o2.code| + 5, k, r);
    case Ret(_) =>
      assert m1.x.ts[..|m1.x.ts| - (traps + 1)] == m.x.ts[..|m.x.ts| - traps];
    case Fail(f) =>
      KeepsLess(cs.locals, cs0.locals, m.x, m1.x, b1.x.ps);
      n, mx := SimCatch(env, img, e, cs, traps, d, m, 1 + n1, b1, r, k);
    case Timeout =>
  }

  /** A body that has a value drops the trap and jumps over the handler. */
  lemma SimTryDone(env: Env, img: Image, m: Machine, m1: Machine, n1: nat, b1: Machine, c: seq<Local>, cs: CState,
                   a: seq<Local>, a1: seq<Local>, traps: nat, len1: nat, off: nat, k: nat, r: Res)
    returns (n: nat, mx: Machine)
    requires Run(img, env.host, Unlimited, m, n1) == b1 && a <= a1 && off <= MAX_JUMP && Height(m.x) <= |m.x.ps|
    requires m1 == m.(x := m.x.(ip := m.x.ip + 3, ts := m1.x.ts)) && |m1.x.ts| == |m.x.ts| + 1 && m1.x.ts[..|m.x.ts|] == m.x.ts
    requires Yields(m1, b1, a1, c, r, len1) && Live(img, b1)
    requires At(img[b1.x.fn].code, b1.x.ip, [TRAP_END]) && At(img[b1.x.fn].code, b1.x.ip + 1, Jump(JMP, off))
    requires Fresh(c, cs.locals) && |cs.locals| <= m.x.nLocals
    ensures Simulates(img, env.host, m, n, mx, a, cs.locals, traps, len1 + off + 7, k, r)
  {
    hide Run, Find;
    var base := BelowValue(m1, b1, a1, c, r, len1);
    ExecTrapEnd(img, env.host, m, n1, b1);
    var m2 := b1.(x := b1.x.(ip := b1.x.ip + 1, ts := m.x.ts));
    ExecJump(img, env.host, m, n1 + 1, m2, off);
    n, mx := n1 + 2, m2.(x := m2.x.(ip := m2.x.ip + 3 + off));
    FrameGrows(c, cs.locals, r.vars, base, m.x.fp, m.x.nLocals);
    KeepsLess(a, a1, m.x, m1.x, base);
    PutValue(m, mx, base, a, cs.locals, r, len1 + off + 7);
  }

  /** What lies behind the body of a `try`, and how the table grows there. */
  lemma CatchLayout(env: Env, img: Image, e: Expr, cs: CState, traps: nat, d: set<Sym>, m: Machine)
    requires e.Try? && env.Valid() && |cs.locals| < MAX_LOCALS && Declares(cs.locals, d)
    requires var o := Gen(e, cs, traps, env.prog[env.self].view); o.Emitted? && Loaded(env, img, m, o.code, o.cs)
    ensures var view := env.prog[env.self].view;
            var o1 := Gen(e.body, WithLocal(cs, Hidden), traps + 1, view);
            o1.Emitted? &&
            var o2 := Gen(e.handler, o1.cs, traps, view);
            var code, slot, at := img[env.self].code, |cs.locals|, m.x.ip + 7 + |o1.code|;
            && o2.Emitted? && slot < |o1.cs.locals| && o1.cs.locals[slot].Hidden?
            && Declares(o1.cs.locals, Declared(e.body, d, view)) && |o1.cs.locals| <= MAX_LOCALS
            && At(code, at, [STOREENV, slot]) && At(code, at + 2, o2.code + [LOADENV, slot] + [TRYH])
            && o2.cs.consts <= img[env.self].consts && |o2.cs.locals| <= m.x.nLocals && Fresh(o1.cs.locals, o2.cs.locals)
            && |Gen(e, cs, traps, view).code| == |o1.code| + |o2.code| + 12 && Gen(e, cs, traps, view).cs == o2.cs
  {
    hide Run, Find, Gen, GenArgs, GenBody, Eval, EvalArgs, EvalBody, Declared, DeclaredArgs, DeclaredBody, Handle, TryCode;
    var view := env.prog[env.self].view;
    OfTry(env, e.body, e.handler, cs, traps, d, map[], m.w, 0);
    var cs0, slot := WithLocal(cs, Hidden), |cs.locals|;
    var o1 := Gen(e.body, cs0, traps + 1, view);
    var o2 := Gen(e.handler, o1.cs, traps, view);
    DeclaresPush(cs.locals, d, Sym(0, false));
    GenGrows(e.body, cs0, traps + 1, view, d);
    GenGrows(e.handler, o1.cs, traps, view, Declared(e.body, d, view));
    TryLayout(img[env.self].code, m.x.ip, o1.code, o2.code, slot);
    assert cs0.locals[slot] == Hidden;
  }

  /** The handler of a `try` whose body has failed. */
  lemma {:induction false} SimCatch(env: Env, img: Image, e: Expr, cs: CState, traps: nat, d: set<Sym>,
                                    m: Machine, n1: nat, b1: Machine, r: Res, k: nat)
    returns (n: nat, mx: Machine)
    requires e.Try? && env.Valid() && Setup(env, img) && SelfArity(e, |env.prog[env.self].params|)
    requires |cs.locals| < MAX_LOCALS && Declares(cs.locals, d) && traps <= |m.x.ts|
    requires var o := Gen(e, cs, traps, env.prog[env.self].view); o.Emitted? && Loaded(env, img, m, o.code, o.cs)
    requires var view := env.prog[env.self].view;
             var o1 := Gen(e.body, WithLocal(cs, Hidden), traps + 1, view);
             && o1.Emitted? && r.o.Fail? && Height(m.x) <= |m.x.ps|
             && Run(img, env.host, Unlimited, m, n1) == Unwind(Unlimited, b1, r.o.f)
             && b1.st.Running? && b1.w == r.w && b1.outer == m.outer && b1.tally == m.tally
             && b1.x.ts == m.x.ts + [Trap(|m.x.rs|, |m.x.ps|, m.x.ip + 3 + (|o1.code| + 4), m.x.fn, m.x.fp, m.x.nLocals)]
             && m.x.rs <= b1.x.rs && Keeps(cs.locals, m.x, b1.x.ps) && Implements(o1.cs.locals, r.vars, m.x, b1.x.ps)
    ensures var view := env.prog[env.self].view;
            var o := Gen(e, cs, traps, view);
            var hr := Eval(env, e.handler, Declared(e.body, d, view), r.vars, r.w.(pending := Unset), k);
            var c := if hr.o.Val? then Handle(env, hr.o.v, Payload(r.o.f, r.w), hr.w, k) else CallRes(hr.o, hr.w);
            Simulates(img, env.host, m, n, mx, cs.locals, o.cs.locals, traps, |o.code|, k, Res(c.o, hr.vars, c.w))
    decreases k, 2, e, 0
  {
    hide Run, Find, Gen, GenArgs, GenBody, Eval, EvalArgs, EvalBody, Declared, DeclaredArgs, DeclaredBody, Setup, Handle, At, Fresh, Unwind;
    var view := env.prog[env.self].view;
    CatchLayout(env, img, e, cs, traps, d, m);
    var slot := |cs.locals|;
    var o1 := Gen(e.body, WithLocal(cs, Hidden), traps + 1, view);
    var at := m.x.ip + 7 + |o1.code|;
    var err, low := Payload(r.o.f, r.w), b1.x.ps[..|m.x.ps|];
    var h0 := m.(x := m.x.(ip := at, ps := low + [Holds(err)]), w := r.w.(pending := Unset));
    CatchUnwinds(m, b1, r.o.f, at, low);
    ExecStoreEnv(img, env.host, m, n1, h0, slot, low, Holds(err));
    var ps := low[m.x.fp + slot := Holds(err)];
    FrameSame(o1.cs.locals, r.vars, b1.x.ps, low, m.x.fp, m.x.nLocals);
    FrameHidden(o1.cs.locals, r.vars, low, m.x.fp, m.x.nLocals, slot, Holds(err));
    KeepsBelow(cs.locals, m.x, b1.x.ps, low);
    KeepsStore(cs.locals, m.x, low, slot, Holds(err));
    var h1 := h0.(x := h0.x.(ip := at + 2, ps := ps));
    n, mx := SimHandler(env, img, e, cs, traps, d, m, n1 + 1, h1, r, err, k);
  }

  /** Unwinding to the trap of this frame restores everything but the locals. */
  lemma CatchUnwinds(m: Machine, b1: Machine, f: Failure, at: nat, low: seq<Slot>)
    requires b1.st.Running? && m.st.Running? && b1.outer == m.outer && b1.tally == m.tally
    requires b1.x.ts == m.x.ts + [Trap(|m.x.rs|, |m.x.ps|, at, m.x.fn, m.x.fp, m.x.nLocals)]
    requires m.x.rs <= b1.x.rs && |m.x.ps| <= |b1.x.ps| && low == b1.x.ps[..|m.x.ps|]
    ensures Unwind(Unlimited, b1, f) ==
            m.(x := m.x.(ip := at, ps := low + [Holds(Payload(f, b1.w))]), w := b1.w.(pending := Unset))
  {
    assert b1.x.ts[..|b1.x.ts| - 1] == m.x.ts && Take(b1.x.rs, |m.x.rs|) == m.x.rs;
  }

  /** The handler expression and its application, with the error in its hidden slot. */
  lemma {:induction false} SimHandler(env: Env, img: Image, e: Expr, cs: CState, traps: nat, d: set<Sym>,
                                      m: Machine, n1: nat, h1: Machine, r: Res, err: Value, k: nat)
    returns (n: nat, mx: Machine)
    requires e.Try? && env.Valid() && Setup(env, img) && SelfArity(e, |env.prog[env.self].params|)
    requires |cs.locals| < MAX_LOCALS && Declares(cs.locals, d)
    requires Gen(e, cs, traps, env.prog[env.self].view).Emitted?
    requires var view := env.prog[env.self].view;
             var slot := |cs.locals|;
             var o1 := Gen(e.body, WithLocal(cs, Hidden), traps + 1, view);
             o1.Emitted? &&
             var o2 := Gen(e.handler, o1.cs, traps, view);
             && o2.Emitted? && Run(img, env.host, Unlimited, m, n1) == h1
             && Framed(h1, o1.cs, Declared(e.body, d, view), r.vars, traps)
             && Advances(cs.locals, m, h1) && |h1.x.ps| == |m.x.ps|
             && h1.x.ip == m.x.ip + 3 + (|o1.code| + 4) + 2
             && Loaded(env, img, h1, o2.code + [LOADENV, slot] + [TRYH], o2.cs)
             && slot < h1.x.nLocals && h1.x.ps[h1.x.fp + slot] == Holds(err)
             && o1.cs.locals[slot..] != [] && o1.cs.locals[slot].Hidden?
    ensures var view := env.prog[env.self].view;
            var o := Gen(e, cs, traps, view);
            var hr := Eval(env, e.handler, Declared(e.body, d, view), r.vars, h1.w, k);
            var c := if hr.o.Val? then Handle(env, hr.o.v, err, hr.w, k) else CallRes(hr.o, hr.w);
            Simulates(img, env.host, m, n, mx, cs.locals, o.cs.locals, traps, |o.code|, k, Res(c.o, hr.vars, c.w))
    decreases k, 2, e, 0, 0
  {
    hide Run, Find, Gen, GenArgs, GenBody, Eval, EvalArgs, EvalBody, Declared, DeclaredArgs, DeclaredBody, Setup, Handle, TryCode, Frame;
    var view := env.prog[env.self].view;
    OfTry(env, e.body, e.handler, cs, traps, d, map[], m.w, k);
    var cs0, slot := WithLocal(cs, Hidden), |cs.locals|;
    var o1 := Gen(e.body, cs0, traps + 1, view);
    var o2 := Gen(e.handler, o1.cs, traps, view);
    var d1 := Declared(e.body, d, view);
    DeclaresPush(cs.locals, d, Sym(0, false));
    GenGrows(e.body, cs0, traps + 1, view, d);
    GenGrows(e.handler, o1.cs, traps, view, d1);
    var len := |Gen(e, cs, traps, view).code|;
    TryLength(o1.code, o2.code, slot);
    AtSplit3(img[env.self].code, h1.x.ip, o2.code, [LOADENV, slot], [TRYH]);
    var n2, b2 := SimExpr(env, img, e.handler, o1.cs, traps, d1, h1, r.vars, k);
    var hr := Eval(env, e.handler, d1, r.vars, h1.w, k);
    if hr.o.Val? {
      var base := Chain(img, env.host, m, n1, h1, n2, b2, cs.locals, o1.cs.locals, o2.cs.locals, |o2.code|, hr);
      assert b2.x.ps[m.x.fp + slot] == Holds(err);
      ExecLoadEnv(img, env.host, m, n1 + n2, b2, slot);
      var b3 := b2.(x := b2.x.(ip := b2.x.ip + 2, ps := base + [Holds(hr.o.v)] + [Holds(err)]));
      n, mx := SimHandle(env, img, m, n1 + n2 + 1, b3, base, hr.o.v, err, cs.locals, o2.cs.locals, traps, len, hr.vars, k);
    } else {
      n, mx := n1 + n2, b2;
      Lift(img, env.host, m, n1, h1, n2, b2, cs.locals, o1.cs.locals, o2.cs.locals, traps, |o2.code|, len, k, hr);
    }
  }

  /** `OP_TRYH`: a compiled lambda is run in an invocation of its own. */
  lemma {:induction false} SimHandle(env: Env, img: Image, m: Machine, n1: nat, m1: Machine, base: seq<Slot>, f: Value, err: Value,
                                     a: seq<Local>, b: seq<Local>, traps: nat, len: nat, vars: Vars, k: nat)
    returns (n: nat, mx: Machine)
    requires env.Valid() && Setup(env, img) && m.st.Running? && m.x.fn == env.self && env.self in img
    requires Run(img, env.host, Unlimited, m, n1) == m1
    requires m1 == m.(x := m.x.(ip := m1.x.ip, ps := base + [Holds(f)] + [Holds(err)]), w := m1.w)
    requires m1.x.ip + 1 == m.x.ip + len && At(img[env.self].code, m1.x.ip, [TRYH])
    requires |base| == |m.x.ps| && Keeps(a, m.x, base) && Implements(b, vars, m.x, base)
    ensures var c := Handle(env, f, err, m1.w, k);
            Simulates(img, env.host, m, n, mx, a, b, traps, len, k, Res(c.o, vars, c.w))
    decreases k, 1
  {
    hide Run, Find, Gen, Setup;
    ExecTryH(img, env.host, m, n1, m1, base, f, err);
    var m2 := m1.(x := m1.x.(ip := m1.x.ip + 1, ps := base));
    n, mx := n1 + 1, m2;
    if f.Lam? && f.id in img {
      SetupImage(env, img, f.id);
      if img[f.id].arity == 1 {
        n, mx := SimNested(env, img, m, n1 + 1, m2, f.id, err, a, b, traps, len, vars, k);
      }
    } else if f.Lam? || (f.Fn? && f.kind.Unary?) {
      SetupImage(env, img, env.self);
      mx := SimHost(env, img, m, n, m2, ByHandler, f, [err], a, b, traps, len, k, vars);
    } else {
      SetupImage(env, img, env.self);
      mx := SimDeliver(env, img, m, n, m2, f, a, b, traps, len, k, vars);
    }
  }

  /** The lambda handler, running on top of the suspended invocation. */
  lemma {:induction false} SimNested(env: Env, img: Image, m: Machine, n1: nat, m2: Machine, id: LamId, err: Value,
                                     a: seq<Local>, b: seq<Local>, traps: nat, len: nat, vars: Vars, k: nat)
    returns (n: nat, mx: Machine)
    requires env.Valid() && Setup(env, img) && id in img && img[id].arity == 1 && m.st.Running?
    requires id in env.prog && id in env.native && |env.prog[id].params| == 1
    requires m2 == m.(x := m.x.(ip := m.x.ip + len, ps := m2.x.ps), w := m2.w)
    requires |m2.x.ps| == |m.x.ps| && Keeps(a, m.x, m2.x.ps) && Implements(b, vars, m.x, m2.x.ps)
    requires Run(img, env.host, Unlimited, m, n1) ==
             m2.(x := Entry(id, img[id], [Holds(err)]), outer := m2.outer + [m2.x])
    requires n1 > 0
    ensures var c := Handle(env, Lam(id), err, m2.w, k);
            Simulates(img, env.host, m, n, mx, a, b, traps, len, k, Res(c.o, vars, c.w))
    decreases k, 1, 0
  {
    hide Run, Find, Gen, Setup, GenLambda;
    var env1 := env.(self := id);
    var mN := m2.(x := Entry(id, img[id], [Holds(err)]), outer := m2.outer + [m2.x]);
    SetupImage(env, img, id);
    ParamsFit(env.prog[id]);
    var n2, mxN := SimInvoke(env1, img, [err], mN, k);
    var c := Invoke(env1, [err], m2.w, k);
    RunAdd(img, env.host, Unlimited, m, n1, n2);
    n, mx := n1 + n2, mxN;
    assert mN.outer[..|mN.outer| - 1] == m2.outer;
    match c.o
    case Val(v) =>
      assert PopFrame(img, Unlimited, mxN, v) == Deliver(Unlimited, m2.(w := c.w), v);
      mx := SimDeliver(env, img, m, n, m2.(w := c.w), v, a, b, traps, len, k, vars);
    case Fail(f) =>
      mx := m2.(w := c.w);
      assert Unwind(Unlimited, mxN, f) == Unwind(Unlimited, mx, Failure(true, f.code));
    case Timeout =>
  }

  /** What the image knows about a lambda. */
  lemma SetupImage(env: Env, img: Image, id: LamId)
    requires env.Valid() && Setup(env, img) && id in img
    ensures id in env.prog && id in env.native && env.native == img.Keys
    ensures GenLambda(env.prog[id]).Emitted? && img[id] == CompiledOf(env.prog[id])
    ensures |img[id].consts| <= 65536 && SelfArityAll(env.prog[id].body, |env.prog[id].params|)
    ensures Setup(env.(self := id), img)
  {
  }

  /** At the entry of a lambda its body is loaded and its parameters are bound. */
  lemma {:induction false} InvokeStarts(env: Env, img: Image, vs: seq<Value>, m: Machine)
    requires env.Valid() && Setup(env, img) && |vs| == |env.prog[env.self].params| && Entered(env, img, m, vs)
    ensures var l := env.prog[env.self];
            |l.params| <= MAX_LOCALS &&
            var cs := CState([], Params(l.params));
            var o := GenBody(l.body, cs, 0, l.view);
            && o.Emitted? && Loaded(env, img, m, o.code, o.cs)
            && Framed(m, cs, (set s | s in l.params), Bind(l.params, vs), 0)
            && At(img[env.self].code, |o.code|, [RET]) && SelfArityAll(l.body, |l.params|)
  {
    hide Run, Find, Gen, Setup, GenBody;
    SetupImage(env, img, env.self);
    var l := env.prog[env.self];
    var cs, d := CState([], Params(l.params)), (set s | s in l.params);
    var o := GenBody(l.body, cs, 0, l.view);
    ParamsDeclare(l.params);
    GenBodyGrows(l.body, cs, 0, l.view, d);
    BindFrame(l.params, vs, m.x.ps, m.x.fp, m.x.nLocals);
    assert img[env.self].code == o.code + [RET];
    assert At(img[env.self].code, 0, o.code + [RET]);
    AtSplit(img[env.self].code, 0, o.code, [RET]);
  }

  /** A lambda from its entry to its last instruction. */
  lemma {:induction false} SimInvoke(env: Env, img: Image, vs: seq<Value>, m: Machine, k: nat)
    returns (n: nat, mx: Machine)
    requires env.Valid() && Setup(env, img) && |vs| == |env.prog[env.self].params| && Entered(env, img, m, vs)
    ensures SimulatesInvoke(img, env.host, m, n, mx, k, Invoke(env, vs, m.w, k))
    decreases k, 0, 0
  {
    hide Run, Find, Gen, GenBody, Eval, Setup, Unwind, PopFrame;
    RunZero(img, env.host, m);
    if k == 0 {
      n, mx := 0, m;
    } else {
      InvokeStarts(env, img, vs, m);
      var l := env.prog[env.self];
      var cs, d, vars := CState([], Params(l.params)), (set s | s in l.params), Bind(l.params, vs);
      var o := GenBody(l.body, cs, 0, l.view);
      if l.body == [] {
        assert o.code == [] by {
          EmptyBody(cs, l.view);
        }
        ExecRet(img, env.host, m, 0, m);
        n, mx := 1, m.(x := m.x.(ip := 1));
      } else {
        var n1, m1 := SimBody(env, img, l.body, cs, 0, d, m, vars, k - 1);
        var r := EvalBody(env, l.body, d, vars, m.w, k - 1);
        n, mx := BodyReturns(env, img, m, n1, m1, cs.locals, o.cs.locals, |o.code|, k - 1, r);
      }
    }
  }

  /** Behind the body comes the return. */
  lemma BodyReturns(env: Env, img: Image, m: Machine, n1: nat, m1: Machine, a: seq<Local>, b: seq<Local>, len: nat, k: nat, r: Res)
    returns (n: nat, mx: Machine)
    requires m.x.fn in img && m.st.Running? && At(img[m.x.fn].code, m.x.ip + len, [RET])
    requires Simulates(img, env.host, m, n1, m1, a, b, 0, len, k, r) && Height(m.x) <= |m.x.ps|
    ensures SimulatesInvoke(img, env.host, m, n, mx, k + 1, CallRes(if r.o.Ret? then Val(r.o.v) else r.o, r.w))
  {
    hide Run, Find, Unwind, PopFrame, Frame;
    n, mx := n1, m1;
    if r.o.Val? {
      var base := BelowValue(m, mx, a, b, r, len);
      ExecRet(img, env.host, m, n, mx);
      n, mx := n + 1, mx.(x := mx.x.(ip := mx.x.ip + 1));
    }
  }

  lemma EmptyBody(cs: CState, view: View)
    requires |cs.locals| <= MAX_LOCALS
    ensures GenBody([], cs, 0, view) == Emitted([], cs)
  {
  }

  lemma {:induction false} SimArgs(env: Env, img: Image, args: seq<Expr>, cs: CState, traps: nat, d: set<Sym>,
                                   m: Machine, vars: Vars, k: nat)
    returns (n: nat, mx: Machine, base: seq<Slot>)
    requires env.Valid() && Setup(env, img)
    requires SelfArityAll(args, |env.prog[env.self].params|) && Framed(m, cs, d, vars, traps)
    requires var o := GenArgs(args, cs, traps, env.prog[env.self].view); o.Emitted? && Loaded(env, img, m, o.code, o.cs)
    ensures var o := GenArgs(args, cs, traps, env.prog[env.self].view);
            SimulatesArgs(img, env.host, m, n, mx, base, cs.locals, o.cs.locals, traps, |o.code|, k,
                          EvalArgs(env, args, d, vars, m.w, k))
    decreases k, 2, args, 1
  {
    hide Run, Find, Gen, Eval, Declared, DeclaredArgs, Setup;
    if args == [] {
      RunZero(img, env.host, m);
      n, mx, base := 0, m, m.x.ps;
    } else {
      n, mx, base := SimArgsCons(env, img, args, cs, traps, d, m, vars, k);
    }
  }

  /** The rightmost operand first. */
  lemma {:induction false} SimArgsCons(env: Env, img: Image, args: seq<Expr>, cs: CState, traps: nat, d: set<Sym>,
                                       m: Machine, vars: Vars, k: nat)
    returns (n: nat, mx: Machine, base: seq<Slot>)
    requires args != [] && env.Valid() && Setup(env, img)
    requires SelfArityAll(args, |env.prog[env.self].params|) && Framed(m, cs, d, vars, traps)
    requires var o := GenArgs(args, cs, traps, env.prog[env.self].view); o.Emitted? && Loaded(env, img, m, o.code, o.cs)
    ensures var o := GenArgs(args, cs, traps, env.prog[env.self].view);
            SimulatesArgs(img, env.host, m, n, mx, base, cs.locals, o.cs.locals, traps, |o.code|, k,
                          EvalArgs(env, args, d, vars, m.w, k))
    decreases k, 2, args, 0
  {
    hide Run, Find, Gen, GenArgs, GenBody, Eval, EvalArgs, EvalBody, Declared, DeclaredArgs, DeclaredBody, Setup;
    var view := env.prog[env.self].view;
    OfArgs(env, args, cs, traps, d, vars, m.w, k);
    var last := |args| - 1;
    var o1 := Gen(args[last], cs, traps, view);
    var o2 := GenArgs(args[..last], o1.cs, traps, view);
    var d1 := Declared(args[last], d, view);
    GenGrows(args[last], cs, traps, view, d);
    GenArgsGrows(args[..last], o1.cs, traps, view, d1);
    var len := |o1.code| + |o2.code|;
    AtSplit(img[env.self].code, m.x.ip, o1.code, o2.code);
    var n1, m1 := SimExpr(env, img, args[last], cs, traps, d, m, vars, k);
    var r1 := Eval(env, args[last], d, vars, m.w, k);
    if !r1.o.Val? {
      n, mx, base := n1, m1, [];
      Widen(img, env.host, m, n, mx, cs.locals, o1.cs.locals, o2.cs.locals, traps, |o1.code|, len, k, r1);
    } else {
      var n2, m2, base2 := SimArgs(env, img, args[..last], o1.cs, traps, d1, m1, r1.vars, k);
      var rest := EvalArgs(env, args[..last], d1, r1.vars, r1.w, k);
      n, mx := n1 + n2, m2;
      if rest.Stopped? {
        base := [];
        Lift(img, env.host, m, n1, m1, n2, m2, cs.locals, o1.cs.locals, o2.cs.locals, traps, |o2.code|, len, k, rest.r);
      } else {
        RunAdd(img, env.host, Unlimited, m, n1, n2);
        base := ConsOperand(m, m1, m2, base2, cs.locals, o1.cs.locals, o2.cs.locals, r1, rest, |o1.code|, |o2.code|);
      }
    }
  }

  /** An operand below those computed after it. */
  lemma ConsOperand(m: Machine, m1: Machine, m2: Machine, base2: seq<Slot>, a: seq<Local>, a1: seq<Local>, b: seq<Local>,
                    r1: Res, rest: ArgsRes, len1: nat, len2: nat)
    returns (base: seq<Slot>)
    requires Yields(m, m1, a, a1, r1, len1) && a <= a1
    requires YieldsArgs(m1, m2, base2, a1, b, rest, len2)
    ensures YieldsArgs(m, m2, base, a, b, Args(rest.vs + [r1.o.v], rest.vars, rest.w), len1 + len2)
  {
    hide Find;
    AdvancesTrans(a, a1, m, m1, m2);
    base := base2[..|m.x.ps|];
    FrameSame(b, rest.vars, base2, base, m.x.fp, m.x.nLocals);
    assert m2.x.ps[|m.x.ps|] == Holds(r1.o.v);
    assert m2.x.ps[..|m.x.ps|] == m2.x.ps[..|base2|][..|m.x.ps|];
  }

  lemma {:induction false} SimSelfCall(env: Env, img: Image, e: Expr, cs: CState, traps: nat, d: set<Sym>,
                                   m: Machine, vars: Vars, k: nat)
    returns (n: nat, mx: Machine)
    requires e.SelfCall? && env.Valid() && Setup(env, img) && SelfArity(e, |env.prog[env.self].params|) && Framed(m, cs, d, vars, traps)
    requires var o := Gen(e, cs, traps, env.prog[env.self].view); o.Emitted? && Loaded(env, img, m, o.code, o.cs)
    ensures var o := Gen(e, cs, traps, env.prog[env.self].view);
            Simulates(img, env.host, m, n, mx, cs.locals, o.cs.locals, traps, |o.code|, k, Eval(env, e, d, vars, m.w, k))
    decreases k, 2, e, 1
  {
    hide Run, Find, Gen, GenArgs, GenBody, Eval, EvalArgs, EvalBody, Declared, DeclaredArgs, DeclaredBody, Setup;
    var view := env.prog[env.self].view;
    OfSelfCall(env, e.args, cs, traps, d, vars, m.w, k);
    var o := GenArgs(e.args, cs, traps, view);
    var len := |o.code| + 2;
    AtSplit(img[env.self].code, m.x.ip, o.code, [CALLS, |e.args|]);
    var n1, m1, base := SimArgs(env, img, e.args, cs, traps, d, m, vars, k);
    var a := EvalArgs(env, e.args, d, vars, m.w, k);
    n, mx := n1, m1;
    if a.Args? {
      SetupImage(env, img, env.self);
      ParamsFit(env.prog[env.self]);
      ExecCallS(img, env.host, m, n1, m1, base, a.vs);
      KeepsBelow(cs.locals, m.x, m1.x.ps, base);
      var m2 := m1.(x := m1.x.(ip := m1.x.ip + 2, ps := base));
      var n2, mC := SimInvoke(env, img, a.vs, EnterSelf(m2, a.vs), k);
      n, mx := AfterInvoke(env, img, m, n1 + 1, EnterSelf(m2, a.vs), n2, mC, SelfFrame(m.x.fp, m2.x.ip), base,
                           Invoke(env, a.vs, a.w, k), cs.locals, o.cs.locals, traps, len, a.vars, k);
    }
  }

  /** The frame of a lambda has room for its parameters. */
  lemma ParamsFit(l: Lambda)
    requires GenLambda(l).Emitted?
    ensures |l.params| <= |GenLambda(l).cs.locals|
  {
    hide Gen, Find;
    ParamsDeclare(l.params);
    GenBodyGrows(l.body, CState([], Params(l.params)), 0, l.view, set s | s in l.params);
  }

  /** Back in the caller. */
  lemma AfterInvoke(env: Env, img: Image, m: Machine, n1: nat, mE: Machine, n2: nat, mC: Machine, ctx: Ctx, base: seq<Slot>,
                    c: CallRes, a: seq<Local>, b: seq<Local>, traps: nat, len: nat, vars: Vars, k: nat)
    returns (n: nat, mx: Machine)
    requires Run(img, env.host, Unlimited, m, n1) == mE && n1 > 0 && m.st.Running?
    requires m.x.fn in img && m.x.nLocals == img[m.x.fn].nLocals
    requires mE == m.(x := mE.x, w := mE.w) && mE.x.ts == m.x.ts && mE.x.rs == m.x.rs + [ctx]
    requires match ctx
             case SelfFrame(fp, ip) => fp == m.x.fp && ip == m.x.ip + len && mE.x.fn == m.x.fn && mE.x.nLocals == m.x.nLocals
             case FnFrame(fn, fp, ip) => fn == m.x.fn && fp == m.x.fp && ip == m.x.ip + len
    requires mE.x.fp == |base| <= |mE.x.ps| && mE.x.ps[..|base|] == base
    requires |base| == |m.x.ps| && Keeps(a, m.x, base) && Implements(b, vars, m.x, base)
    requires SimulatesInvoke(img, env.host, mE, n2, mC, k, c)
    ensures Simulates(img, env.host, m, n, mx, a, b, traps, len, k, Res(c.o, vars, c.w))
  {
    hide Run, Find;
    RunAdd(img, env.host, Unlimited, m, n1, n2);
    n, mx := n1 + n2, mC;
    match c.o
    case Val(v) =>
      mx := m.(x := m.x.(ip := m.x.ip + len, ps := base + [Holds(v)]), w := c.w);
      assert mC.x.rs[..|mC.x.rs| - 1] == m.x.rs;
      assert PopFrame(img, Unlimited, mC, v) == mx;
      PutValue(m, mx, base, a, b, Res(Val(v), vars, c.w), len);
    case Fail(f) =>
      assert mC.x.ps[..|base|] == base;
      FrameSame(b, vars, base, mC.x.ps, m.x.fp, m.x.nLocals);
    case Timeout =>
  }

  lemma {:induction false} SimCall(env: Env, img: Image, e: Expr, cs: CState, traps: nat, d: set<Sym>,
                                   m: Machine, vars: Vars, k: nat)
    returns (n: nat, mx: Machine)
    requires e.Call? && env.Valid() && Setup(env, img) && SelfArity(e, |env.prog[env.self].params|) && Framed(m, cs, d, vars, traps)
    requires var o := Gen(e, cs, traps, env.prog[env.self].view); o.Emitted? && Loaded(env, img, m, o.code, o.cs)
    ensures var o := Gen(e, cs, traps, env.prog[env.self].view);
            Simulates(img, env.host, m, n, mx, cs.locals, o.cs.locals, traps, |o.code|, k, Eval(env, e, d, vars, m.w, k))
    decreases k, 2, e, 1
  {
    hide Run, Find, Gen, GenArgs, GenBody, Eval, EvalArgs, EvalBody, Declared, DeclaredArgs, DeclaredBody, Setup, Frame, Invoke, Handle;
    var view := env.prog[env.self].view;
    OfCall(env, e.head, e.args, cs, traps, d, vars, m.w, k);
    var known := KnownHead(e.head, view);
    var o1 := if known.Fn? then GenConst(known, cs) else Gen(e.head, cs, traps, view);
    var dh := DeclaredHead(e.head, d, view);
    var o2 := GenArgs(e.args, o1.cs, traps, view);
    var op := SelectCall(known, |e.args|);
    var code, len := img[env.self].code, |Gen(e, cs, traps, view).code|;
    AtSplit3(code, m.x.ip, o1.code, o2.code, CallCode(op, |e.args|));
    var hr := if known.Fn? then Res(Val(known), vars, m.w) else Eval(env, e.head, d, vars, m.w, k);
    GrowsHead(e.head, cs, traps, view, d);
    GenArgsGrows(e.args, o1.cs, traps, view, dh);
    var n1, m1 := SimHead(env, img, e, cs, traps, d, m, vars, k);
    if !hr.o.Val? {
      n, mx := n1, m1;
      Widen(img, env.host, m, n, mx, cs.locals, o1.cs.locals, o2.cs.locals, traps, |o1.code|, len, k, hr);
    } else {
      n, mx := SimCallArgs(env, img, e, cs, traps, d, m, n1, m1, hr, k);
    }
  }

  /** The operands and the call, once the callee is on the stack. */
  lemma {:induction false} SimCallArgs(env: Env, img: Image, e: Expr, cs: CState, traps: nat, d: set<Sym>,
                                       m: Machine, n1: nat, m1: Machine, hr: Res, k: nat)
    returns (n: nat, mx: Machine)
    requires e.Call? && env.Valid() && Setup(env, img) && SelfArity(e, |env.prog[env.self].params|)
    requires |cs.locals| <= MAX_LOCALS && Declares(cs.locals, d) && traps <= |m.x.ts|
    requires var o := Gen(e, cs, traps, env.prog[env.self].view); o.Emitted? && Loaded(env, img, m, o.code, o.cs)
    requires var view := env.prog[env.self].view;
             var known := KnownHead(e.head, view);
             var o1 := if known.Fn? then GenConst(known, cs) else Gen(e.head, cs, traps, view);
             o1.Emitted? && Run(img, env.host, Unlimited, m, n1) == m1
             && Yields(m, m1, cs.locals, o1.cs.locals, hr, |o1.code|)
    ensures var view := env.prog[env.self].view;
            var o := Gen(e, cs, traps, view);
            var a := EvalArgs(env, e.args, DeclaredHead(e.head, d, view), hr.vars, hr.w, k);
            var c := if a.Stopped? then CallRes(a.r.o, a.r.w)
                     else CallValue(env, SelectCall(KnownHead(e.head, view), |e.args|), hr.o.v, a.vs, a.w, k);
            Simulates(img, env.host, m, n, mx, cs.locals, o.cs.locals, traps, |o.code|, k,
                      Res(c.o, if a.Stopped? then a.r.vars else a.vars, c.w))
    decreases k, 2, e, 0
  {
    hide Run, Find, Gen, GenArgs, GenBody, Eval, EvalArgs, EvalBody, Declared, DeclaredArgs, DeclaredBody, Setup, Frame, Invoke, Handle;
    var view := env.prog[env.self].view;
    OfCall(env, e.head, e.args, cs, traps, d, hr.vars, m.w, k);
    var known := KnownHead(e.head, view);
    var o1 := if known.Fn? then GenConst(known, cs) else Gen(e.head, cs, traps, view);
    var dh := DeclaredHead(e.head, d, view);
    var o2 := GenArgs(e.args, o1.cs, traps, view);
    var op := SelectCall(known, |e.args|);
    var len := |Gen(e, cs, traps, view).code|;
    AtSplit3(img[env.self].code, m.x.ip, o1.code, o2.code, CallCode(op, |e.args|));
    GrowsHead(e.head, cs, traps, view, d);
    GenArgsGrows(e.args, o1.cs, traps, view, dh);
    var n2, m2, base2 := SimArgs(env, img, e.args, o1.cs, traps, dh, m1, hr.vars, k);
    var a := EvalArgs(env, e.args, dh, hr.vars, hr.w, k);
    n, mx := n1 + n2, m2;
    if a.Stopped? {
      Lift(img, env.host, m, n1, m1, n2, m2, cs.locals, o1.cs.locals, o2.cs.locals, traps, |o2.code|, len, k, a.r);
    } else {
      RunAdd(img, env.host, Unlimited, m, n1, n2);
      var base := CalleeBelow(m, m1, m2, base2, cs.locals, o1.cs.locals, o2.cs.locals, hr, a, |o1.code|, |o2.code|);
      n, mx := SimDispatch(env, img, m, n1 + n2, m2, base, op, hr.o.v, a.vs, cs.locals, o2.cs.locals, traps, len, a.vars, k);
    }
  }

  lemma GrowsHead(head: Expr, cs: CState, traps: nat, view: View, d: set<Sym>)
    requires |cs.locals| <= MAX_LOCALS && Declares(cs.locals, d)
    requires !KnownHead(head, view).Fn? ==> Gen(head, cs, traps, view).Emitted?
    ensures var known := KnownHead(head, view);
            var o := if known.Fn? then GenConst(known, cs) else Gen(head, cs, traps, view);
            Grows(cs, o.cs) && Declares(o.cs.locals, DeclaredHead(head, d, view))
  {
    hide Gen, Declared;
    if !KnownHead(head, view).Fn? {
      GenGrows(head, cs, traps, view, d);
    }
  }

  /** The callee: a constant when it is known, else an expression. */
  lemma {:induction false} SimHead(env: Env, img: Image, e: Expr, cs: CState, traps: nat, d: set<Sym>,
                                   m: Machine, vars: Vars, k: nat)
    returns (n: nat, mx: Machine)
    requires e.Call? && env.Valid() && Setup(env, img) && SelfArity(e, |env.prog[env.self].params|)
    requires Framed(m, cs, d, vars, traps)
    requires var view := env.prog[env.self].view;
             var known := KnownHead(e.head, view);
             var o := if known.Fn? then GenConst(known, cs) else Gen(e.head, cs, traps, view);
             o.Emitted? && Loaded(env, img, m, o.code, o.cs)
    ensures var view := env.prog[env.self].view;
            var known := KnownHead(e.head, view);
            var o := if known.Fn? then GenConst(known, cs) else Gen(e.head, cs, traps, view);
            var hr := if known.Fn? then Res(Val(known), vars, m.w) else Eval(env, e.head, d, vars, m.w, k);
            Simulates(img, env.host, m, n, mx, cs.locals, o.cs.locals, traps, |o.code|, k, hr)
    decreases k, 2, e, 0
  {
    hide Run, Find, Gen, GenArgs, GenBody, Eval, EvalArgs, EvalBody, Declared, DeclaredArgs, DeclaredBody, Setup;
    var known := KnownHead(e.head, env.prog[env.self].view);
    if known.Fn? {
      RunZero(img, env.host, m);
      n := 1;
      mx := SimConst(env, img, m, 0, m, known, cs, vars);
    } else {
      n, mx := SimExpr(env, img, e.head, cs, traps, d, m, vars, k);
    }
  }

  /** The callee lies below its operands. */
  lemma CalleeBelow(m: Machine, m1: Machine, m2: Machine, base2: seq<Slot>, a: seq<Local>, a1: seq<Local>, b: seq<Local>,
                    hr: Res, args: ArgsRes, len1: nat, len2: nat)
    returns (base: seq<Slot>)
    requires Yields(m, m1, a, a1, hr, len1) && a <= a1
    requires YieldsArgs(m1, m2, base2, a1, b, args, len2)
    ensures CallStack(m2.x, base, hr.o.v, args.vs) && |base| == |m.x.ps|
    ensures Advances(a, m, m2) && m2.x.ip == m.x.ip + len1 + len2 && m2.w == args.w
    ensures Keeps(a, m.x, base) && Implements(b, args.vars, m.x, base)
  {
    hide Find;
    AdvancesTrans(a, a1, m, m1, m2);
    base := base2[..|m.x.ps|];
    FrameSame(b, args.vars, base2, base, m.x.fp, m.x.nLocals);
    assert m2.x.ps[|m.x.ps|] == Holds(hr.o.v);
    assert m2.x.ps[..|m.x.ps|] == m2.x.ps[..|base2|][..|m.x.ps|];
    KeepsBelow(a, m.x, m2.x.ps, base);
  }

  /** The call instruction. */
  lemma {:induction false} SimDispatch(env: Env, img: Image, m: Machine, n1: nat, m1: Machine, base: seq<Slot>,
                                       op: CallOp, f: Value, vs: seq<Value>,
                                       a: seq<Local>, b: seq<Local>, traps: nat, len: nat, vars: Vars, k: nat)
    returns (n: nat, mx: Machine)
    requires env.Valid() && Setup(env, img) && m.st.Running? && m.x.fn == env.self && env.self in img
    requires m.x.nLocals == img[env.self].nLocals && |vs| <= MAX_ARGS && Run(img, env.host, Unlimited, m, n1) == m1
    requires (op.ByCall1? && |vs| == 1) || (op.ByCall2? && |vs| == 2) || op.ByCallN? || op.ByCallF?
    requires Advances(a, m, m1) && CallStack(m1.x, base, f, vs) && |base| == |m.x.ps|
    requires m1.x.ip + |CallCode(op, |vs|)| == m.x.ip + len && At(img[env.self].code, m1.x.ip, CallCode(op, |vs|))
    requires Keeps(a, m.x, base) && Implements(b, vars, m.x, base)
    ensures var c := CallValue(env, op, f, vs, m1.w, k);
            Simulates(img, env.host, m, n, mx, a, b, traps, len, k, Res(c.o, vars, c.w))
    decreases k, 1
  {
    hide Run, Find, Gen, Setup, Eval;
    n := n1 + 1;
    var m2 := m1.(x := m1.x.(ip := m.x.ip + len, ps := base));
    mx := m2;
    if !op.ByCallF? {
      ExecCallHost(img, env.host, m, n1, m1, op, base, f, vs);
      mx := SimHost(env, img, m, n, m2, op, f, vs, a, b, traps, len, k, vars);
    } else {
      n, mx := SimDispatchF(env, img, m, n1, m1, base, f, vs, a, b, traps, len, vars, k);
    }
  }

  /** `OP_CALLF`. */
  lemma {:induction false} SimDispatchF(env: Env, img: Image, m: Machine, n1: nat, m1: Machine, base: seq<Slot>,
                                        f: Value, vs: seq<Value>,
                                        a: seq<Local>, b: seq<Local>, traps: nat, len: nat, vars: Vars, k: nat)
    returns (n: nat, mx: Machine)
    requires env.Valid() && Setup(env, img) && m.st.Running? && m.x.fn == env.self && env.self in img
    requires m.x.nLocals == img[env.self].nLocals && |vs| <= MAX_ARGS && Run(img, env.host, Unlimited, m, n1) == m1
    requires Advances(a, m, m1) && CallStack(m1.x, base, f, vs) && |base| == |m.x.ps|
    requires m1.x.ip + 2 == m.x.ip + len && At(img[env.self].code, m1.x.ip, [CALLF, |vs|])
    requires Keeps(a, m.x, base) && Implements(b, vars, m.x, base)
    ensures var c := CallValue(env, ByCallF, f, vs, m1.w, k);
            Simulates(img, env.host, m, n, mx, a, b, traps, len, k, Res(c.o, vars, c.w))
    decreases k, 0, 1
  {
    hide Run, Find, Gen, Setup, Eval, Unwind, Invoke, GenLambda, CallHost, CallStack, Frame;
    n := n1 + 1;
    var m2 := m1.(x := m1.x.(ip := m.x.ip + len, ps := base));
    mx := m2;
    ExecCallF(img, env.host, m, n1, m1, base, f, vs);
    SetupImage(env, img, env.self);
    if f.Lam? && f.id in img {
      SetupImage(env, img, f.id);
      ParamsFit(env.prog[f.id]);
      if |vs| == img[f.id].arity {
        var env1 := env.(self := f.id);
        var mE := EnterLambda(img, m2, f.id, vs);
        var n2, mC := SimInvoke(env1, img, vs, mE, k);
        n, mx := AfterInvoke(env, img, m, n, mE, n2, mC, FnFrame(m.x.fn, m.x.fp, m2.x.ip), base,
                             Invoke(env1, vs, m1.w, k), a, b, traps, len, vars, k);
      }
    } else if f.Fn? && ((f.kind.Unary? && |vs| != 1) || (f.kind.Binary? && |vs| != 2)) {
    } else {
      mx := SimHost(env, img, m, n, m2, ByCallF, f, vs, a, b, traps, len, k, vars);
    }
  }
}
