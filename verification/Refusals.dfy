/** Which lambdas the compiler turns away, said of the source and of the length of
    the code alone. */
module Refusals {
  import opened Lang
  import opened Bytecode
  import opened CodeGen
  import opened Reference
  import opened Scope
  import GenForms

  /** No `let` of a reserved name, no empty `do`, no call of more than 64 operands.
      A head that names a builtin is not looked at. */
  predicate Proper(e: Expr, view: View)
    decreases e, 1
  {
    match e
    case Set(_, x) => Proper(x, view)
    case Let(s, x) => !s.reserved && Proper(x, view)
    case IfElse(c, t, f) => Proper(c, view) && Proper(t, view) && Proper(f, view)
    case Do(es) => es != [] && AllProper(es, view)
    case Try(b, h) => Proper(b, view) && Proper(h, view)
    case Return(x) => Proper(x, view)
    case SelfCall(args) => |args| <= 64 && AllProper(args, view)
    case Call(head, args) => |args| <= 64 && (KnownHead(head, view).Fn? || Proper(head, view)) && AllProper(args, view)
    case _ => true
  }

  predicate AllProper(es: seq<Expr>, view: View)
    decreases es, 0
  {
    forall i :: 0 <= i < |es| ==> Proper(es[i], view)
  }

  /** How many slots `e` adds to those of the names `d`: one for each name it declares
      anew and one for each `try`. */
  function NewSlots(e: Expr, d: set<Sym>, view: View): nat
    decreases e, 1
  {
    match e
    case Set(_, x) => NewSlots(x, d, view)
    case Let(s, x) => NewSlots(x, d, view) + if s in Declared(x, d, view) then 0 else 1
    case IfElse(c, t, f) =>
      var d1 := Declared(c, d, view);
      NewSlots(c, d, view) + NewSlots(t, d1, view) + NewSlots(f, Declared(t, d1, view), view)
    case Do(es) => BodySlots(es, d, view)
    case Try(b, h) => 1 + NewSlots(b, d, view) + NewSlots(h, Declared(b, d, view), view)
    case Return(x) => NewSlots(x, d, view)
    case SelfCall(args) => ArgsSlots(args, d, view)
    case Call(head, args) =>
      (if KnownHead(head, view).Fn? then 0 else NewSlots(head, d, view)) + ArgsSlots(args, DeclaredHead(head, d, view), view)
    case _ => 0
  }

  function ArgsSlots(args: seq<Expr>, d: set<Sym>, view: View): nat
    decreases args, 0
  {
    if args == [] then 0
    else
      var last := |args| - 1;
      NewSlots(args[last], d, view) + ArgsSlots(args[..last], Declared(args[last], d, view), view)
  }

  function BodySlots(es: seq<Expr>, d: set<Sym>, view: View): nat
    decreases es, 0
  {
    if es == [] then 0 else NewSlots(es[0], d, view) + BodySlots(es[1..], Declared(es[0], d, view), view)
  }

  /** No jump of an `if` or a `try` is longer than a signed 16-bit offset can say,
      as far as there is code to jump over. */
  predicate JumpsFit(e: Expr, cs: CState, traps: nat, view: View)
    requires |cs.locals| <= MAX_LOCALS
    decreases e, 1
  {
    match e
    case Set(_, x) => JumpsFit(x, cs, traps, view)
    case Let(_, x) => JumpsFit(x, cs, traps, view)
    case IfElse(c, t, f) =>
      var o1 := Gen(c, cs, traps, view);
      JumpsFit(c, cs, traps, view) && (o1.Emitted? ==>
        var o2 := Gen(t, o1.cs, traps, view);
        JumpsFit(t, o1.cs, traps, view) && (o2.Emitted? ==>
          var o3 := Gen(f, o2.cs, traps, view);
          JumpsFit(f, o2.cs, traps, view) && (o3.Emitted? ==> |o2.code| + 3 <= 32767 && |o3.code| <= 32767)))
    case Do(es) => BodyJumpsFit(es, cs, traps, view)
    case Try(b, h) =>
      |cs.locals| < MAX_LOCALS ==>
        var o1 := Gen(b, WithLocal(cs, Hidden), traps + 1, view);
        JumpsFit(b, WithLocal(cs, Hidden), traps + 1, view) && (o1.Emitted? ==>
          var o2 := Gen(h, o1.cs, traps, view);
          JumpsFit(h, o1.cs, traps, view) && (o2.Emitted? ==> |o1.code| + 4 <= 32767 && |o2.code| + 5 <= 32767))
    case Return(x) => JumpsFit(x, cs, traps, view)
    case SelfCall(args) => ArgsJumpsFit(args, cs, traps, view)
    case Call(head, args) =>
      var known := KnownHead(head, view);
      var o := if known.Fn? then GenConst(known, cs) else Gen(head, cs, traps, view);
      (known.Fn? || JumpsFit(head, cs, traps, view)) && (o.Emitted? && |o.cs.locals| <= MAX_LOCALS ==> ArgsJumpsFit(args, o.cs, traps, view))
    case _ => true
  }

  predicate ArgsJumpsFit(args: seq<Expr>, cs: CState, traps: nat, view: View)
    requires |cs.locals| <= MAX_LOCALS
    decreases args, 0
  {
    args == [] ||
    var last := |args| - 1;
    var o := Gen(args[last], cs, traps, view);
    JumpsFit(args[last], cs, traps, view) && (o.Emitted? ==> ArgsJumpsFit(args[..last], o.cs, traps, view))
  }

  predicate BodyJumpsFit(es: seq<Expr>, cs: CState, traps: nat, view: View)
    requires |cs.locals| <= MAX_LOCALS
    decreases es, 0
  {
    es == [] ||
    var o := Gen(es[0], cs, traps, view);
    JumpsFit(es[0], cs, traps, view) && (o.Emitted? ==> BodyJumpsFit(es[1..], o.cs, traps, view))
  }

  /** `o` is there if and only if it may be, and it has just the slots it needs. */
  predicate Meets(o: Out, cs: CState, proper: bool, slots: nat, jumps: bool) {
    && (o.Emitted? <==> proper && |cs.locals| + slots <= 256 && jumps)
    && (o.Emitted? ==> |o.cs.locals| == |cs.locals| + slots)
  }

  lemma {:induction false} GenMeets(e: Expr, cs: CState, traps: nat, view: View, d: set<Sym>)
    requires |cs.locals| <= MAX_LOCALS && Declares(cs.locals, d)
    ensures Meets(Gen(e, cs, traps, view), cs, Proper(e, view), NewSlots(e, d, view), JumpsFit(e, cs, traps, view))
    decreases e, 2
  {
    hide Gen, GenArgs, GenBody;
    match e
    case Lit(_) => GenForms.OfLeaf(e, cs, traps, view);
    case Name(_) => GenForms.OfLeaf(e, cs, traps, view);
    case ReturnNull => GenForms.OfLeaf(e, cs, traps, view);
    case Set(_, x) =>
      GenForms.OfOne(e, cs, traps, view);
      GenMeets(x, cs, traps, view, d);
    case Return(x) =>
      GenForms.OfOne(e, cs, traps, view);
      GenMeets(x, cs, traps, view, d);
    case Let(_, _) => LetMeets(e, cs, traps, view, d);
    case IfElse(_, _, _) => IfMeets(e, cs, traps, view, d);
    case Do(es) =>
      GenForms.OfMany(e, cs, traps, view);
      BodyMeets(es, cs, traps, view, d);
    case Try(_, _) => TryMeets(e, cs, traps, view, d);
    case SelfCall(args) =>
      GenForms.OfMany(e, cs, traps, view);
      ArgsMeet(args, cs, traps, view, d);
    case Call(_, _) => CallMeets(e, cs, traps, view, d);
  }

  lemma {:induction false} LetMeets(e: Expr, cs: CState, traps: nat, view: View, d: set<Sym>)
    requires e.Let? && |cs.locals| <= MAX_LOCALS && Declares(cs.locals, d)
    ensures Meets(Gen(e, cs, traps, view), cs, Proper(e, view), NewSlots(e, d, view), JumpsFit(e, cs, traps, view))
    decreases e, 1
  {
    hide Gen;
    GenForms.OfLet(e, cs, traps, view);
    GenMeets(e.e, cs, traps, view, d);
    if Gen(e.e, cs, traps, view).Emitted? {
      GenGrows(e.e, cs, traps, view, d);
    }
  }

  lemma {:induction false} IfMeets(e: Expr, cs: CState, traps: nat, view: View, d: set<Sym>)
    requires e.IfElse? && |cs.locals| <= MAX_LOCALS && Declares(cs.locals, d)
    ensures Meets(Gen(e, cs, traps, view), cs, Proper(e, view), NewSlots(e, d, view), JumpsFit(e, cs, traps, view))
    decreases e, 1
  {
    hide Gen;
    GenForms.OfIf(e, cs, traps, view);
    GenMeets(e.c, cs, traps, view, d);
    var o1, d1 := Gen(e.c, cs, traps, view), Declared(e.c, d, view);
    if o1.Emitted? {
      GenGrows(e.c, cs, traps, view, d);
      GenMeets(e.t, o1.cs, traps, view, d1);
      var o2 := Gen(e.t, o1.cs, traps, view);
      if o2.Emitted? {
        GenGrows(e.t, o1.cs, traps, view, d1);
        GenMeets(e.f, o2.cs, traps, view, Declared(e.t, d1, view));
      }
    }
  }

  lemma {:induction false} TryMeets(e: Expr, cs: CState, traps: nat, view: View, d: set<Sym>)
    requires e.Try? && |cs.locals| <= MAX_LOCALS && Declares(cs.locals, d)
    ensures Meets(Gen(e, cs, traps, view), cs, Proper(e, view), NewSlots(e, d, view), JumpsFit(e, cs, traps, view))
    decreases e, 1
  {
    hide Gen;
    GenForms.OfTry(e, cs, traps, view);
    if |cs.locals| < MAX_LOCALS {
      var cs0 := WithLocal(cs, Hidden);
      DeclaresPush(cs.locals, d, Sym(0, false));
      GenMeets(e.body, cs0, traps + 1, view, d);
      var o1 := Gen(e.body, cs0, traps + 1, view);
      if o1.Emitted? {
        GenGrows(e.body, cs0, traps + 1, view, d);
        GenMeets(e.handler, o1.cs, traps, view, Declared(e.body, d, view));
      }
    }
  }

  lemma {:induction false} CallMeets(e: Expr, cs: CState, traps: nat, view: View, d: set<Sym>)
    requires e.Call? && |cs.locals| <= MAX_LOCALS && Declares(cs.locals, d)
    ensures Meets(Gen(e, cs, traps, view), cs, Proper(e, view), NewSlots(e, d, view), JumpsFit(e, cs, traps, view))
    decreases e, 1
  {
    hide Gen;
    GenForms.OfCall(e, cs, traps, view);
    var known := KnownHead(e.head, view);
    if known.Fn? {
      ArgsMeet(e.args, GenConst(known, cs).cs, traps, view, d);
    } else {
      GenMeets(e.head, cs, traps, view, d);
      var o := Gen(e.head, cs, traps, view);
      if o.Emitted? {
        GenGrows(e.head, cs, traps, view, d);
        ArgsMeet(e.args, o.cs, traps, view, Declared(e.head, d, view));
      }
    }
  }

  lemma {:induction false} ArgsMeet(args: seq<Expr>, cs: CState, traps: nat, view: View, d: set<Sym>)
    requires |cs.locals| <= MAX_LOCALS && Declares(cs.locals, d)
    ensures Meets(GenArgs(args, cs, traps, view), cs, AllProper(args, view), ArgsSlots(args, d, view), ArgsJumpsFit(args, cs, traps, view))
    decreases args, 0
  {
    hide Gen, GenArgs;
    GenForms.OfArgs(args, cs, traps, view);
    if args != [] {
      var last := |args| - 1;
      var o := Gen(args[last], cs, traps, view);
      GenMeets(args[last], cs, traps, view, d);
      assert AllProper(args, view) <==> Proper(args[last], view) && AllProper(args[..last], view) by {
        assert args == args[..last] + [args[last]];
      }
      if o.Emitted? {
        GenGrows(args[last], cs, traps, view, d);
        ArgsMeet(args[..last], o.cs, traps, view, Declared(args[last], d, view));
      }
    }
  }

  lemma {:induction false} BodyMeets(es: seq<Expr>, cs: CState, traps: nat, view: View, d: set<Sym>)
    requires |cs.locals| <= MAX_LOCALS && Declares(cs.locals, d)
    ensures Meets(GenBody(es, cs, traps, view), cs, AllProper(es, view), BodySlots(es, d, view), BodyJumpsFit(es, cs, traps, view))
    decreases es, 0
  {
    hide Gen, GenBody;
    GenForms.OfBody(es, cs, traps, view);
    if es != [] {
      var o := Gen(es[0], cs, traps, view);
      GenMeets(es[0], cs, traps, view, d);
      assert AllProper(es, view) <==> Proper(es[0], view) && AllProper(es[1..], view) by {
        assert es == [es[0]] + es[1..];
      }
      if o.Emitted? {
        GenGrows(es[0], cs, traps, view, d);
        var d1 := Declared(es[0], d, view);
        BodyMeets(es[1..], o.cs, traps, view, d1);
        if |es| == 1 {
          assert es[1..] == [];
        }
      }
    }
  }

  /** A lambda is compiled if and only if it is proper, its frame has at most 256 slots,
      the parameters, the other locals and one for each `try`, and its jumps fit. */
  lemma CompiledIff(l: Lambda)
    ensures var slots := |l.params| + BodySlots(l.body, (set s | s in l.params), l.view);
            && (GenLambda(l).Emitted? <==>
                  AllProper(l.body, l.view) && slots <= 256 &&
                  BodyJumpsFit(l.body, CState([], if |l.params| <= 256 then Params(l.params) else []), 0, l.view))
            && (GenLambda(l).Emitted? ==> CompiledOf(l).nLocals == slots && CompiledOf(l).arity == |l.params|)
  {
    hide GenBody, AllProper, BodySlots, BodyJumpsFit;
    if |l.params| <= 256 {
      ParamsDeclare(l.params);
      BodyMeets(l.body, CState([], Params(l.params)), 0, l.view, (set s | s in l.params));
    }
  }
}
