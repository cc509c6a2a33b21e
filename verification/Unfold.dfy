/** The compiler and the evaluator side by side, one form at a time. */
module Unfold {
  import opened Lang
  import opened Bytecode
  import opened CodeGen
  import opened Reference

  lemma OfSet(env: Env, s: Sym, x: Expr, cs: CState, traps: nat, d: set<Sym>, vars: Vars, w: World, k: nat)
    requires env.Valid() && |cs.locals| <= MAX_LOCALS
    ensures var view := env.prog[env.self].view;
            var o := Gen(x, cs, traps, view);
            var name := Symbol(s, false);
            Gen(Set(s, x), cs, traps, view) ==
            if o.Refused? then Refused
            else Emitted(o.code + Indexed(STOREGLOBAL, STOREGLOBAL_W, ConstIndex(o.cs.consts, name)), WithConst(o.cs, name))
    ensures var r := Eval(env, x, d, vars, w, k);
            Eval(env, Set(s, x), d, vars, w, k) ==
            if !r.o.Val? then r else Store(r, s)
  {
    hide Find, ConstIndex, WithConst, Indexed, TrapEnds, CallCode, SelectCall, IfCode, TryCode, Jump, Handle, Invoke, CallValue, Checked, Declared,
         WithLocal, GenConst, GenArgs, GenBody, EvalArgs, EvalBody, KnownHead, Store, Truthy;
  }

  lemma OfLet(env: Env, s: Sym, x: Expr, cs: CState, traps: nat, d: set<Sym>, vars: Vars, w: World, k: nat)
    requires env.Valid() && |cs.locals| <= MAX_LOCALS
    requires Gen(Let(s, x), cs, traps, env.prog[env.self].view).Emitted?
    ensures var view := env.prog[env.self].view;
            var o := Gen(x, cs, traps, view);
            var found := Find(o.cs.locals, s);
            && !s.reserved && o.Emitted? && (found < 0 ==> |o.cs.locals| < MAX_LOCALS)
            && Gen(Let(s, x), cs, traps, view) ==
               Emitted(o.code + [FORCE] + [DUP] + [STOREENV, if found >= 0 then found else |o.cs.locals|],
                       if found >= 0 then o.cs else WithLocal(o.cs, Named(s)))
    ensures var r := Eval(env, x, d, vars, w, k);
            Eval(env, Let(s, x), d, vars, w, k) ==
            if !r.o.Val? then r else r.(vars := r.vars[s := r.o.v])
  {
    hide Find, ConstIndex, WithConst, Indexed, TrapEnds, CallCode, SelectCall, IfCode, TryCode, Jump, Handle, Invoke, CallValue, Checked, Declared,
         WithLocal, GenConst, GenArgs, GenBody, EvalArgs, EvalBody, KnownHead, Store, Truthy;
  }

  lemma OfIf(env: Env, c: Expr, t: Expr, f: Expr, cs: CState, traps: nat, d: set<Sym>, vars: Vars, w: World, k: nat)
    requires env.Valid() && |cs.locals| <= MAX_LOCALS
    requires Gen(IfElse(c, t, f), cs, traps, env.prog[env.self].view).Emitted?
    ensures var view := env.prog[env.self].view;
            var o1 := Gen(c, cs, traps, view);
            o1.Emitted? &&
            var o2 := Gen(t, o1.cs, traps, view);
            o2.Emitted? &&
            var o3 := Gen(f, o2.cs, traps, view);
            && o3.Emitted? && |o2.code| + 3 <= MAX_JUMP && |o3.code| <= MAX_JUMP
            && Gen(IfElse(c, t, f), cs, traps, view) == Emitted(IfCode(o1.code, o2.code, o3.code), o3.cs)
    ensures var view := env.prog[env.self].view;
            var r := Eval(env, c, d, vars, w, k);
            var d1 := Declared(c, d, view);
            Eval(env, IfElse(c, t, f), d, vars, w, k) ==
            if !r.o.Val? then r
            else if Truthy(r.o.v) then Eval(env, t, d1, r.vars, r.w, k)
            else Eval(env, f, Declared(t, d1, view), r.vars, r.w, k)
  {
    hide Find, ConstIndex, WithConst, Indexed, TrapEnds, CallCode, SelectCall, IfCode, TryCode, Jump, Handle, Invoke, CallValue, Checked, Declared,
         WithLocal, GenConst, GenArgs, GenBody, EvalArgs, EvalBody, KnownHead, Store, Truthy;
  }

  lemma OfTry(env: Env, b: Expr, h: Expr, cs: CState, traps: nat, d: set<Sym>, vars: Vars, w: World, k: nat)
    requires env.Valid() && |cs.locals| <= MAX_LOCALS
    requires Gen(Try(b, h), cs, traps, env.prog[env.self].view).Emitted?
    ensures var view := env.prog[env.self].view;
            |cs.locals| < MAX_LOCALS &&
            var o1 := Gen(b, WithLocal(cs, Hidden), traps + 1, view);
            o1.Emitted? &&
            var o2 := Gen(h, o1.cs, traps, view);
            && o2.Emitted? && |o1.code| + 4 <= MAX_JUMP && |o2.code| + 5 <= MAX_JUMP
            && Gen(Try(b, h), cs, traps, view) == Emitted(TryCode(o1.code, o2.code, |cs.locals|), o2.cs)
    ensures var view := env.prog[env.self].view;
            var r := Eval(env, b, d, vars, w, k);
            Eval(env, Try(b, h), d, vars, w, k) ==
            if !r.o.Fail? then r
            else
              var hr := Eval(env, h, Declared(b, d, view), r.vars, r.w.(pending := Unset), k);
              if !hr.o.Val? then hr
              else
                var c := Handle(env, hr.o.v, Payload(r.o.f, r.w), hr.w, k);
                Res(c.o, hr.vars, c.w)
  {
    hide Find, ConstIndex, WithConst, Indexed, TrapEnds, CallCode, SelectCall, IfCode, TryCode, Jump, Handle, Invoke, CallValue, Checked, Declared,
         GenConst, GenArgs, GenBody, EvalArgs, EvalBody, KnownHead, Store, Truthy;
  }

  lemma OfReturn(env: Env, x: Expr, cs: CState, traps: nat, d: set<Sym>, vars: Vars, w: World, k: nat)
    requires env.Valid() && |cs.locals| <= MAX_LOCALS
    ensures var view := env.prog[env.self].view;
            var o := Gen(x, cs, traps, view);
            Gen(Return(x), cs, traps, view) ==
            if o.Refused? then Refused else Emitted(o.code + TrapEnds(traps) + [RET], o.cs)
    ensures var r := Eval(env, x, d, vars, w, k);
            Eval(env, Return(x), d, vars, w, k) == if r.o.Val? then r.(o := Ret(r.o.v)) else r
  {
    hide Find, ConstIndex, WithConst, Indexed, TrapEnds, CallCode, SelectCall, IfCode, TryCode, Jump, Handle, Invoke, CallValue, Checked, Declared,
         WithLocal, GenConst, GenArgs, GenBody, EvalArgs, EvalBody, KnownHead, Store, Truthy;
  }

  lemma OfReturnNull(env: Env, cs: CState, traps: nat, d: set<Sym>, vars: Vars, w: World, k: nat)
    requires env.Valid() && |cs.locals| <= MAX_LOCALS
    ensures var o := GenConst(Null, cs);
            Gen(ReturnNull, cs, traps, env.prog[env.self].view) == Emitted(o.code + TrapEnds(traps) + [RET], o.cs)
    ensures Eval(env, ReturnNull, d, vars, w, k) == Res(Ret(Null), vars, w)
  {
  }

  lemma OfSelfCall(env: Env, args: seq<Expr>, cs: CState, traps: nat, d: set<Sym>, vars: Vars, w: World, k: nat)
    requires env.Valid() && |cs.locals| <= MAX_LOCALS && |args| == |env.prog[env.self].params|
    requires Gen(SelfCall(args), cs, traps, env.prog[env.self].view).Emitted?
    ensures var view := env.prog[env.self].view;
            var o := GenArgs(args, cs, traps, view);
            && o.Emitted? && |args| <= MAX_ARGS
            && Gen(SelfCall(args), cs, traps, view) == Emitted(o.code + [CALLS, |args|], o.cs)
    ensures var a := EvalArgs(env, args, d, vars, w, k);
            Eval(env, SelfCall(args), d, vars, w, k) ==
            if a.Stopped? then a.r
            else
              var c := Invoke(env, a.vs, a.w, k);
              Res(c.o, a.vars, c.w)
  {
    hide Find, ConstIndex, WithConst, Indexed, TrapEnds, CallCode, SelectCall, IfCode, TryCode, Jump, Handle, Invoke, CallValue, Checked, Declared,
         WithLocal, GenConst, GenBody, EvalBody, KnownHead, Store, Truthy;
  }

  lemma OfCall(env: Env, head: Expr, args: seq<Expr>, cs: CState, traps: nat, d: set<Sym>, vars: Vars, w: World, k: nat)
    requires env.Valid() && |cs.locals| <= MAX_LOCALS
    requires Gen(Call(head, args), cs, traps, env.prog[env.self].view).Emitted?
    ensures var view := env.prog[env.self].view;
            var known := KnownHead(head, view);
            var o1 := if known.Fn? then GenConst(known, cs) else Gen(head, cs, traps, view);
            o1.Emitted? && |o1.cs.locals| <= MAX_LOCALS && |args| <= MAX_ARGS &&
            var o2 := GenArgs(args, o1.cs, traps, view);
            && o2.Emitted?
            && Gen(Call(head, args), cs, traps, view) ==
               Emitted(o1.code + o2.code + CallCode(SelectCall(known, |args|), |args|), o2.cs)
    ensures var view := env.prog[env.self].view;
            var known := KnownHead(head, view);
            var hr := if known.Fn? then Res(Val(known), vars, w) else Eval(env, head, d, vars, w, k);
            Eval(env, Call(head, args), d, vars, w, k) ==
            if !hr.o.Val? then hr
            else
              var a := EvalArgs(env, args, DeclaredHead(head, d, view), hr.vars, hr.w, k);
              if a.Stopped? then a.r
              else
                var c := CallValue(env, SelectCall(known, |args|), hr.o.v, a.vs, a.w, k);
                Res(c.o, a.vars, c.w)
  {
    hide Find, ConstIndex, WithConst, Indexed, TrapEnds, CallCode, SelectCall, IfCode, TryCode, Jump, Handle, Invoke, CallValue, Checked, Declared,
         WithLocal, GenBody, EvalBody, KnownHead, Store, Truthy;
  }

  lemma OfArgs(env: Env, args: seq<Expr>, cs: CState, traps: nat, d: set<Sym>, vars: Vars, w: World, k: nat)
    requires env.Valid() && |cs.locals| <= MAX_LOCALS && args != []
    requires GenArgs(args, cs, traps, env.prog[env.self].view).Emitted?
    ensures var view := env.prog[env.self].view;
            var last := |args| - 1;
            var o1 := Gen(args[last], cs, traps, view);
            o1.Emitted? &&
            var o2 := GenArgs(args[..last], o1.cs, traps, view);
            o2.Emitted? && GenArgs(args, cs, traps, view) == Emitted(o1.code + o2.code, o2.cs)
    ensures var view := env.prog[env.self].view;
            var last := |args| - 1;
            var r := Eval(env, args[last], d, vars, w, k);
            EvalArgs(env, args, d, vars, w, k) ==
            if !r.o.Val? then Stopped(r)
            else
              var rest := EvalArgs(env, args[..last], Declared(args[last], d, view), r.vars, r.w, k);
              if rest.Stopped? then rest else Args(rest.vs + [r.o.v], rest.vars, rest.w)
  {
  }

  lemma OfBody(env: Env, es: seq<Expr>, cs: CState, traps: nat, d: set<Sym>, vars: Vars, w: World, k: nat)
    requires env.Valid() && |cs.locals| <= MAX_LOCALS && es != []
    requires GenBody(es, cs, traps, env.prog[env.self].view).Emitted?
    ensures var view := env.prog[env.self].view;
            var o1 := Gen(es[0], cs, traps, view);
            o1.Emitted? &&
            if |es| == 1 then GenBody(es, cs, traps, view) == o1
            else
              var o2 := GenBody(es[1..], o1.cs, traps, view);
              o2.Emitted? && GenBody(es, cs, traps, view) == Emitted(o1.code + [POP] + o2.code, o2.cs)
    ensures var view := env.prog[env.self].view;
            var r := Eval(env, es[0], d, vars, w, k);
            EvalBody(env, es, d, vars, w, k) ==
            if |es| == 1 || !r.o.Val? then r
            else EvalBody(env, es[1..], Declared(es[0], d, view), r.vars, r.w, k)
  {
  }
}
