/** How the compiler's table of locals follows the declared names of the
    reference evaluator, and what a table says about the slots of a frame. */
module Scope {
  import opened Lang
  import opened Bytecode
  import opened CodeGen
  import opened Reference

  /** The table declares exactly the names `d`. */
  ghost predicate Declares(locals: seq<Local>, d: set<Sym>) {
    forall s :: s in d <==> Find(locals, s) >= 0
  }

  /** `b` extends `a`, and no name it adds was in the table before. */
  ghost predicate Fresh(a: seq<Local>, b: seq<Local>) {
    && a <= b
    && forall i, j :: 0 <= i < j < |b| && |a| <= j && b[j].Named? ==> b[i] != b[j]
  }

  ghost predicate Grows(a: CState, b: CState) {
    a.consts <= b.consts && Fresh(a.locals, b.locals)
  }

  lemma GrowsTrans(a: CState, b: CState, c: CState)
    requires Grows(a, b) && Grows(b, c)
    ensures Grows(a, c)
  {
  }

  lemma FindPush(locals: seq<Local>, l: Local, s: Sym)
    ensures Find(locals + [l], s) == if l == Named(s) then |locals| else Find(locals, s)
  {
    assert (locals + [l])[..|locals|] == locals;
  }

  lemma DeclaresPush(locals: seq<Local>, d: set<Sym>, s: Sym)
    requires Declares(locals, d)
    ensures Declares(locals + [Named(s)], d + {s})
    ensures Declares(locals + [Hidden], d)
  {
    forall t ensures Find(locals + [Named(s)], t) == (if t == s then |locals| else Find(locals, t))
      && Find(locals + [Hidden], t) == Find(locals, t) {
      FindPush(locals, Named(s), t);
      FindPush(locals, Hidden, t);
    }
  }

  lemma {:induction false} GenGrows(e: Expr, cs: CState, traps: nat, view: View, d: set<Sym>)
    requires |cs.locals| <= MAX_LOCALS && Declares(cs.locals, d)
    requires Gen(e, cs, traps, view).Emitted?
    ensures var o := Gen(e, cs, traps, view);
            Grows(cs, o.cs) && Declares(o.cs.locals, Declared(e, d, view))
    decreases e, 2
  {
    match e
    case Lit(v) =>
    case Name(s) =>
    case Set(s, x) =>
      GenGrows(x, cs, traps, view, d);
    case Let(s, x) =>
      GenGrowsLet(e, cs, traps, view, d);
    case IfElse(x, t, f) =>
      GenGrowsIf(e, cs, traps, view, d);
    case Do(es) =>
      GenBodyGrows(es, cs, traps, view, d);
    case Try(b, h) =>
      GenGrowsTry(e, cs, traps, view, d);
    case ReturnNull =>
    case Return(x) =>
      GenGrows(x, cs, traps, view, d);
    case SelfCall(args) =>
      GenArgsGrows(args, cs, traps, view, d);
    case Call(head, args) =>
      GenGrowsCall(e, cs, traps, view, d);
  }

  lemma {:induction false} GenGrowsLet(e: Expr, cs: CState, traps: nat, view: View, d: set<Sym>)
    requires e.Let? && |cs.locals| <= MAX_LOCALS && Declares(cs.locals, d)
    requires Gen(e, cs, traps, view).Emitted?
    ensures var o := Gen(e, cs, traps, view);
            Grows(cs, o.cs) && Declares(o.cs.locals, Declared(e, d, view))
    decreases e, 1
  {
    var s, x := e.s, e.e;
    GenGrows(x, cs, traps, view, d);
    var cs1, d1 := Gen(x, cs, traps, view).cs, Declared(x, d, view);
    if Find(cs1.locals, s) < 0 {
      DeclaresPush(cs1.locals, d1, s);
      GrowsTrans(cs, cs1, WithLocal(cs1, Named(s)));
    } else {
      assert d1 + {s} == d1;
    }
  }

  lemma {:induction false} GenGrowsIf(e: Expr, cs: CState, traps: nat, view: View, d: set<Sym>)
    requires e.IfElse? && |cs.locals| <= MAX_LOCALS && Declares(cs.locals, d)
    requires Gen(e, cs, traps, view).Emitted?
    ensures var o := Gen(e, cs, traps, view);
            Grows(cs, o.cs) && Declares(o.cs.locals, Declared(e, d, view))
    decreases e, 1
  {
    GenGrows(e.c, cs, traps, view, d);
    var cs1, d1 := Gen(e.c, cs, traps, view).cs, Declared(e.c, d, view);
    GenGrows(e.t, cs1, traps, view, d1);
    var cs2, d2 := Gen(e.t, cs1, traps, view).cs, Declared(e.t, d1, view);
    GenGrows(e.f, cs2, traps, view, d2);
    var cs3 := Gen(e.f, cs2, traps, view).cs;
    GrowsTrans(cs, cs1, cs2);
    GrowsTrans(cs, cs2, cs3);
  }

  lemma {:induction false} GenGrowsTry(e: Expr, cs: CState, traps: nat, view: View, d: set<Sym>)
    requires e.Try? && |cs.locals| <= MAX_LOCALS && Declares(cs.locals, d)
    requires Gen(e, cs, traps, view).Emitted?
    ensures var o := Gen(e, cs, traps, view);
            Grows(cs, o.cs) && Declares(o.cs.locals, Declared(e, d, view))
    decreases e, 1
  {
    var cs0 := WithLocal(cs, Hidden);
    DeclaresPush(cs.locals, d, Sym(0, false));
    assert Grows(cs, cs0);
    GenGrows(e.body, cs0, traps + 1, view, d);
    var cs1, d1 := Gen(e.body, cs0, traps + 1, view).cs, Declared(e.body, d, view);
    GenGrows(e.handler, cs1, traps, view, d1);
    var cs2 := Gen(e.handler, cs1, traps, view).cs;
    GrowsTrans(cs, cs0, cs1);
    GrowsTrans(cs, cs1, cs2);
  }

  lemma {:induction false} GenGrowsCall(e: Expr, cs: CState, traps: nat, view: View, d: set<Sym>)
    requires e.Call? && |cs.locals| <= MAX_LOCALS && Declares(cs.locals, d)
    requires Gen(e, cs, traps, view).Emitted?
    ensures var o := Gen(e, cs, traps, view);
            Grows(cs, o.cs) && Declares(o.cs.locals, Declared(e, d, view))
    decreases e, 1
  {
    var known := KnownHead(e.head, view);
    var cs1 := if known.Fn? then WithConst(cs, known) else Gen(e.head, cs, traps, view).cs;
    if !known.Fn? {
      GenGrows(e.head, cs, traps, view, d);
    }
    assert Grows(cs, cs1);
    GenArgsGrows(e.args, cs1, traps, view, DeclaredHead(e.head, d, view));
    var cs2 := GenArgs(e.args, cs1, traps, view).cs;
    GrowsTrans(cs, cs1, cs2);
  }

  lemma {:induction false} GenArgsGrows(args: seq<Expr>, cs: CState, traps: nat, view: View, d: set<Sym>)
    requires |cs.locals| <= MAX_LOCALS && Declares(cs.locals, d)
    requires GenArgs(args, cs, traps, view).Emitted?
    ensures var o := GenArgs(args, cs, traps, view);
            Grows(cs, o.cs) && Declares(o.cs.locals, DeclaredArgs(args, d, view))
    decreases args, 0
  {
    if args != [] {
      var last := |args| - 1;
      GenGrows(args[last], cs, traps, view, d);
      var cs1, d1 := Gen(args[last], cs, traps, view).cs, Declared(args[last], d, view);
      GenArgsGrows(args[..last], cs1, traps, view, d1);
    }
  }

  lemma {:induction false} GenBodyGrows(es: seq<Expr>, cs: CState, traps: nat, view: View, d: set<Sym>)
    requires |cs.locals| <= MAX_LOCALS && Declares(cs.locals, d)
    requires GenBody(es, cs, traps, view).Emitted?
    ensures var o := GenBody(es, cs, traps, view);
            Grows(cs, o.cs) && Declares(o.cs.locals, DeclaredBody(es, d, view))
    decreases es, 0
  {
    if es != [] {
      GenGrows(es[0], cs, traps, view, d);
      var cs1, d1 := Gen(es[0], cs, traps, view).cs, Declared(es[0], d, view);
      if |es| == 1 {
        assert es[1..] == [];
      } else {
        GenBodyGrows(es[1..], cs1, traps, view, d1);
      }
    }
  }

  /** The frame of `n` slots at `fp` implements the variables: the slot of an
      assigned variable holds its value, every other slot of a declared name
      and every slot not yet in the table is unset. */
  ghost predicate Frame(locals: seq<Local>, vars: Vars, ps: seq<Slot>, fp: nat, n: nat) {
    && |locals| <= n && fp + n <= |ps|
    && (forall s :: Find(locals, s) >= 0 ==> ps[fp + Find(locals, s)] == Lookup(vars, s))
    && (forall s :: s in vars ==> Find(locals, s) >= 0)
    && (forall i :: fp + |locals| <= i < fp + n ==> ps[i].Unset?)
  }

  function Lookup(vars: Vars, s: Sym): Slot {
    if s in vars then Holds(vars[s]) else Unset
  }

  lemma FindFresh(a: seq<Local>, b: seq<Local>, s: Sym)
    requires Fresh(a, b)
    ensures Find(a, s) >= 0 ==> Find(b, s) == Find(a, s)
    ensures Find(a, s) < 0 ==> Find(b, s) < 0 || Find(b, s) >= |a|
  {
    var p, q := Find(a, s), Find(b, s);
    if p >= 0 {
      assert b[p] == Named(s);
    }
    if 0 <= q < |a| {
      assert a[q] == Named(s);
    }
  }

  /** Names declared later are unset now. */
  lemma FrameGrows(a: seq<Local>, b: seq<Local>, vars: Vars, ps: seq<Slot>, fp: nat, n: nat)
    requires Fresh(a, b) && |b| <= n && Frame(a, vars, ps, fp, n)
    ensures Frame(b, vars, ps, fp, n)
  {
    hide Find;
    forall s
      ensures Find(b, s) >= 0 ==> ps[fp + Find(b, s)] == Lookup(vars, s)
      ensures s in vars ==> Find(b, s) >= 0
    {
      FindFresh(a, b, s);
    }
  }

  /** Storing into the slot of a name assigns the variable and nothing else. */
  lemma FrameStore(locals: seq<Local>, vars: Vars, ps: seq<Slot>, fp: nat, n: nat, s: Sym, v: Value)
    requires Frame(locals, vars, ps, fp, n) && Find(locals, s) >= 0
    ensures Frame(locals, vars[s := v], ps[fp + Find(locals, s) := Holds(v)], fp, n)
  {
    hide Find;
    var ps1, vars1 := ps[fp + Find(locals, s) := Holds(v)], vars[s := v];
    assert locals[Find(locals, s)] == Named(s);
    forall t | Find(locals, t) >= 0
      ensures ps1[fp + Find(locals, t)] == Lookup(vars1, t)
    {
      if t != s {
        assert locals[Find(locals, t)] == Named(t);
        assert Lookup(vars1, t) == Lookup(vars, t) == ps[fp + Find(locals, t)];
      }
    }
  }

  /** A hidden slot is nobody's variable. */
  lemma FrameHidden(locals: seq<Local>, vars: Vars, ps: seq<Slot>, fp: nat, n: nat, i: nat, v: Slot)
    requires Frame(locals, vars, ps, fp, n) && i < |locals| && locals[i].Hidden?
    ensures Frame(locals, vars, ps[fp + i := v], fp, n)
  {
    hide Find;
    forall t | Find(locals, t) >= 0
      ensures ps[fp + i := v][fp + Find(locals, t)] == Lookup(vars, t)
    {
      assert locals[Find(locals, t)] == Named(t);
    }
  }

  /** Only the frame itself matters. */
  lemma FrameSame(locals: seq<Local>, vars: Vars, ps: seq<Slot>, ps1: seq<Slot>, fp: nat, n: nat)
    requires Frame(locals, vars, ps, fp, n) && fp + n <= |ps1|
    requires forall i :: fp <= i < fp + n ==> ps1[i] == ps[i]
    ensures Frame(locals, vars, ps1, fp, n)
  {
  }

  lemma {:induction false} ParamsDeclare(params: seq<Sym>)
    ensures Declares(Params(params), set s | s in params)
  {
    forall s
      ensures s in params <==> Find(Params(params), s) >= 0
    {
      if s in params {
        var i :| 0 <= i < |params| && params[i] == s;
        assert Params(params)[i] == Named(s);
      }
    }
  }

  /** A fresh frame holds the operands in the slots of the parameters, the last
      of equal names winning, and nothing else. */
  lemma {:induction false} BindFrame(params: seq<Sym>, vs: seq<Value>, ps: seq<Slot>, fp: nat, n: nat)
    requires |params| == |vs| <= n && fp + n <= |ps|
    requires forall i :: 0 <= i < |vs| ==> ps[fp + i] == Holds(vs[i])
    requires forall i :: fp + |vs| <= i < fp + n ==> ps[i].Unset?
    ensures Frame(Params(params), Bind(params, vs), ps, fp, n)
  {
    forall s
      ensures Find(Params(params), s) >= 0 ==> ps[fp + Find(Params(params), s)] == Lookup(Bind(params, vs), s)
      ensures s in Bind(params, vs) ==> Find(Params(params), s) >= 0
    {
      BindLookup(params, vs, s);
    }
  }

  lemma {:induction false} BindLookup(params: seq<Sym>, vs: seq<Value>, s: Sym)
    requires |params| == |vs|
    ensures var p := Find(Params(params), s);
            Lookup(Bind(params, vs), s) == if p < 0 then Unset else Holds(vs[p])
    decreases |params|
  {
    if params != [] {
      var n := |params| - 1;
      BindLookup(params[..n], vs[..n], s);
      assert Params(params)[..n] == Params(params[..n]);
    }
  }
}
