/** `Gen`, one form at a time. */
module GenForms {
  import opened Lang
  import opened Bytecode
  import opened CodeGen

  lemma OfLeaf(e: Expr, cs: CState, traps: nat, view: View)
    requires |cs.locals| <= MAX_LOCALS
    ensures e.Lit? ==> Gen(e, cs, traps, view) == GenConst(e.v, cs)
    ensures e.Name? ==>
            var slot, name := Find(cs.locals, e.s), Symbol(e.s, false);
            Gen(e, cs, traps, view) ==
            if slot >= 0 then Emitted([LOADENV, slot], cs)
            else Emitted(Indexed(RESOLVE, RESOLVE_W, ConstIndex(cs.consts, name)), WithConst(cs, name))
    ensures e.ReturnNull? ==>
            var o := GenConst(Null, cs);
            Gen(e, cs, traps, view) == Emitted(o.code + TrapEnds(traps) + [RET], o.cs)
  {
  }

  lemma OfOne(e: Expr, cs: CState, traps: nat, view: View)
    requires |cs.locals| <= MAX_LOCALS && (e.Set? || e.Return?)
    ensures var o := Gen(e.e, cs, traps, view);
            Gen(e, cs, traps, view) ==
            if o.Refused? then Refused
            else if e.Return? then Emitted(o.code + TrapEnds(traps) + [RET], o.cs)
            else
              var name := Symbol(e.s, false);
              Emitted(o.code + Indexed(STOREGLOBAL, STOREGLOBAL_W, ConstIndex(o.cs.consts, name)), WithConst(o.cs, name))
  {
  }

  lemma OfLet(e: Expr, cs: CState, traps: nat, view: View)
    requires |cs.locals| <= MAX_LOCALS && e.Let?
    ensures var o := Gen(e.e, cs, traps, view);
            Gen(e, cs, traps, view) ==
            if e.s.reserved || o.Refused? then Refused
            else
              var found := Find(o.cs.locals, e.s);
              if found >= 0 then Emitted(o.code + [FORCE] + [DUP] + [STOREENV, found], o.cs)
              else if |o.cs.locals| >= MAX_LOCALS then Refused
              else Emitted(o.code + [FORCE] + [DUP] + [STOREENV, |o.cs.locals|], WithLocal(o.cs, Named(e.s)))
  {
  }

  lemma OfIf(e: Expr, cs: CState, traps: nat, view: View)
    requires |cs.locals| <= MAX_LOCALS && e.IfElse?
    ensures var o1 := Gen(e.c, cs, traps, view);
            if o1.Refused? then Gen(e, cs, traps, view).Refused? else
            var o2 := Gen(e.t, o1.cs, traps, view);
            if o2.Refused? then Gen(e, cs, traps, view).Refused? else
            var o3 := Gen(e.f, o2.cs, traps, view);
            if o3.Refused? || |o2.code| + 3 > MAX_JUMP || |o3.code| > MAX_JUMP then Gen(e, cs, traps, view).Refused?
            else Gen(e, cs, traps, view) == Emitted(IfCode(o1.code, o2.code, o3.code), o3.cs)
  {
  }

  lemma OfTry(e: Expr, cs: CState, traps: nat, view: View)
    requires |cs.locals| <= MAX_LOCALS && e.Try?
    ensures if |cs.locals| >= MAX_LOCALS then Gen(e, cs, traps, view).Refused? else
            var o1 := Gen(e.body, WithLocal(cs, Hidden), traps + 1, view);
            if o1.Refused? then Gen(e, cs, traps, view).Refused? else
            var o2 := Gen(e.handler, o1.cs, traps, view);
            if o2.Refused? || |o1.code| + 4 > MAX_JUMP || |o2.code| + 5 > MAX_JUMP then Gen(e, cs, traps, view).Refused?
            else Gen(e, cs, traps, view) == Emitted(TryCode(o1.code, o2.code, |cs.locals|), o2.cs)
  {
  }

  lemma OfMany(e: Expr, cs: CState, traps: nat, view: View)
    requires |cs.locals| <= MAX_LOCALS && (e.Do? || e.SelfCall?)
    ensures e.Do? ==> Gen(e, cs, traps, view) == if e.es == [] then Refused else GenBody(e.es, cs, traps, view)
    ensures e.SelfCall? ==>
            var o := GenArgs(e.args, cs, traps, view);
            Gen(e, cs, traps, view) ==
            if |e.args| > MAX_ARGS || o.Refused? then Refused else Emitted(o.code + [CALLS, |e.args|], o.cs)
  {
  }

  lemma OfCall(e: Expr, cs: CState, traps: nat, view: View)
    requires |cs.locals| <= MAX_LOCALS && e.Call?
    ensures var known, argc := KnownHead(e.head, view), |e.args|;
            var o1 := if known.Fn? then GenConst(known, cs) else Gen(e.head, cs, traps, view);
            if o1.Refused? || argc > MAX_ARGS then Gen(e, cs, traps, view).Refused? else
            var o2 := GenArgs(e.args, o1.cs, traps, view);
            if o2.Refused? then Gen(e, cs, traps, view).Refused?
            else Gen(e, cs, traps, view) == Emitted(o1.code + o2.code + CallCode(SelectCall(known, argc), argc), o2.cs)
  {
  }

  lemma OfArgs(args: seq<Expr>, cs: CState, traps: nat, view: View)
    requires |cs.locals| <= MAX_LOCALS
    ensures args == [] ==> GenArgs(args, cs, traps, view) == Emitted([], cs)
    ensures args != [] ==>
            var last := |args| - 1;
            var o1 := Gen(args[last], cs, traps, view);
            if o1.Refused? then GenArgs(args, cs, traps, view).Refused? else
            var o2 := GenArgs(args[..last], o1.cs, traps, view);
            GenArgs(args, cs, traps, view) == if o2.Refused? then Refused else Emitted(o1.code + o2.code, o2.cs)
  {
  }

  lemma OfBody(es: seq<Expr>, cs: CState, traps: nat, view: View)
    requires |cs.locals| <= MAX_LOCALS
    ensures es == [] ==> GenBody(es, cs, traps, view) == Emitted([], cs)
    ensures es != [] ==>
            var o1 := Gen(es[0], cs, traps, view);
            if o1.Refused? || |es| == 1 then GenBody(es, cs, traps, view) == o1 else
            var o2 := GenBody(es[1..], o1.cs, traps, view);
            GenBody(es, cs, traps, view) == if o2.Refused? then Refused else Emitted(o1.code + [POP] + o2.code, o2.cs)
  {
  }
}
