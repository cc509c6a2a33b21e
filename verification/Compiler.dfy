/** `compiler_t` and its functions, in place: a growing code buffer with
    back-patched jumps, a deduplicated constant pool and a table of locals.
    Every method is tied to the code the specification `Gen` asks for. */
module Compiler {
  import opened Options
  import opened Lang
  import opened Bytes
  import opened Bytecode
  import opened CodeGen
  import GenForms

  /** Code that is continued by the outcome of compiling the rest. */
  function After(c: seq<byte>, o: Out): Out {
    if o.Refused? then Refused else Emitted(c + o.code, o.cs)
  }

  lemma AfterPop(done: seq<byte>, c: seq<byte>, rest: Out)
    ensures rest.Emitted? ==>
            After(done, Emitted(c + [POP] + rest.code, rest.cs)) == After(done + c + [POP], rest)
  {
    if rest.Emitted? {
      assert done + (c + [POP] + rest.code) == done + c + [POP] + rest.code;
    }
  }

  lemma AfterNothing(o: Out)
    ensures After([], o) == o
  {
    if o.Emitted? {
      assert [] + o.code == o.code;
    }
  }

  /** The first part of a sequence is compiled. */
  lemma PartDone(done: seq<byte>, part: seq<Expr>, cs: CState, traps: nat, view: View)
    requires part != [] && |cs.locals| <= MAX_LOCALS
    ensures var o, all := Gen(part[0], cs, traps, view), After(done, GenBody(part, cs, traps, view));
            if o.Refused? then all.Refused?
            else if |part| == 1 then all == Emitted(done + o.code, o.cs)
            else all == After(done + o.code + [POP], GenBody(part[1..], o.cs, traps, view))
  {
    hide Gen, GenBody;
    GenForms.OfBody(part, cs, traps, view);
    var o := Gen(part[0], cs, traps, view);
    if o.Emitted? && |part| > 1 {
      AfterPop(done, o.code, GenBody(part[1..], o.cs, traps, view));
    }
  }

  lemma PatchMiddle(a: seq<byte>, op: byte, b: seq<byte>, off: nat)
    requires off <= MAX_JUMP
    ensures (a + [op, 0, 0] + b)[|a| + 1 := off / 256][|a| + 2 := off % 256] == a + Jump(op, off) + b
  {
  }

  /** The patched jump over the first branch of an `if`. */
  lemma ThenAssembled(code: seq<byte>, tc: seq<byte>)
    requires |tc| + 3 <= MAX_JUMP
    ensures var p, off := |code| + 1, |tc| + 3;
            (code + [JMPF, 0, 0] + tc + [JMP, 0, 0])[p := off / 256][p + 1 := off % 256] ==
            code + Jump(JMPF, off) + tc + [JMP, 0, 0]
  {
    var off := |tc| + 3;
    PatchMiddle(code, JMPF, tc + [JMP, 0, 0], off);
    assert code + [JMPF, 0, 0] + tc + [JMP, 0, 0] == code + [JMPF, 0, 0] + (tc + [JMP, 0, 0]);
    assert code + Jump(JMPF, off) + (tc + [JMP, 0, 0]) == code + Jump(JMPF, off) + tc + [JMP, 0, 0];
  }

  /** The patched jump over the second branch completes the code of an `if`. */
  lemma IfAssembled(code: seq<byte>, cc: seq<byte>, tc: seq<byte>, fc: seq<byte>)
    requires |tc| + 3 <= MAX_JUMP && |fc| <= MAX_JUMP
    ensures var first := code + cc + Jump(JMPF, |tc| + 3) + tc + [JMP, 0, 0];
            var q := |first| - 2;
            (first + fc)[q := |fc| / 256][q + 1 := |fc| % 256] == code + IfCode(cc, tc, fc)
  {
    var b := code + cc + Jump(JMPF, |tc| + 3) + tc;
    PatchMiddle(b, JMP, fc, |fc|);
    assert b + Jump(JMP, |fc|) + fc == code + IfCode(cc, tc, fc);
  }

  /** The patched trap of a `try` around the code of its body. */
  lemma GuardAssembled(code: seq<byte>, bc: seq<byte>)
    requires |bc| + 4 <= MAX_JUMP
    ensures var p, off := |code| + 1, |bc| + 4;
            (code + [TRAP, 0, 0] + bc + [TRAP_END] + [JMP, 0, 0])[p := off / 256][p + 1 := off % 256] ==
            code + Jump(TRAP, off) + bc + [TRAP_END] + [JMP, 0, 0]
  {
    var off := |bc| + 4;
    PatchMiddle(code, TRAP, bc + [TRAP_END] + [JMP, 0, 0], off);
    assert code + [TRAP, 0, 0] + bc + [TRAP_END] + [JMP, 0, 0] == code + [TRAP, 0, 0] + (bc + [TRAP_END] + [JMP, 0, 0]);
    assert code + Jump(TRAP, off) + (bc + [TRAP_END] + [JMP, 0, 0]) == code + Jump(TRAP, off) + bc + [TRAP_END] + [JMP, 0, 0];
  }

  /** The patched jump over the handler completes the code of a `try`. */
  lemma TryAssembled(code: seq<byte>, bc: seq<byte>, hc: seq<byte>, slot: byte)
    requires |bc| + 4 <= MAX_JUMP && |hc| + 5 <= MAX_JUMP
    ensures var guard := code + Jump(TRAP, |bc| + 4) + bc + [TRAP_END] + [JMP, 0, 0];
            var q, skip := |guard| - 2, |hc| + 5;
            (guard + [STOREENV, slot] + hc + [LOADENV, slot] + [TRYH])[q := skip / 256][q + 1 := skip % 256] ==
            code + TryCode(bc, hc, slot)
  {
    var skip := |hc| + 5;
    var tail := [STOREENV, slot] + hc + [LOADENV, slot] + [TRYH];
    var a := code + Jump(TRAP, |bc| + 4) + bc + [TRAP_END];
    assert a + [JMP, 0, 0] + [STOREENV, slot] + hc + [LOADENV, slot] + [TRYH] == a + [JMP, 0, 0] + tail;
    PatchMiddle(a, JMP, tail, skip);
    assert a + Jump(JMP, skip) + tail == code + TryCode(bc, hc, slot);
  }

  class CompilerState {
    var code: seq<byte>
    var consts: seq<Value>
    var locals: seq<Local>
    var maxLocals: nat
    var error: bool
    var trapDepth: nat
    const view: View

    ghost predicate Valid()
      reads this
    {
      |locals| <= MAX_LOCALS && maxLocals == |locals|
    }

    ghost function State(): CState
      reads this
    {
      CState(consts, locals)
    }

    /** The outcome `o` has been emitted behind `before`. */
    ghost predicate Follows(before: seq<byte>, o: Out)
      reads this
    {
      match o
      case Refused => error
      case Emitted(c, cs) => !error && code == before + c && State() == cs
    }

    constructor (view: View)
      ensures Valid() && code == [] && State() == CState([], []) && !error && trapDepth == 0 && this.view == view
    {
      code, consts, locals, maxLocals := [], [], [], 0;
      error, trapDepth := false, 0;
      this.view := view;
    }

    method Emit(b: byte)
      modifies this`code
      ensures code == old(code) + [b]
    {
      code := code + [b];
    }

    method EmitOperand(op: byte, operand: byte)
      modifies this`code
      ensures code == old(code) + [op, operand]
    {
      Emit(op);
      Emit(operand);
    }

    method EmitConst(idx: nat)
      modifies this`code
      ensures code == old(code) + Indexed(LOADCONST, LOADCONST_W, idx)
    {
      EmitIndexed(LOADCONST, LOADCONST_W, idx);
    }

    /** The narrow form below 256, else the wide form. */
    method EmitIndexed(narrow: byte, wide: byte, idx: nat)
      modifies this`code
      ensures code == old(code) + Indexed(narrow, wide, idx)
    {
      if idx < 256 {
        Emit(narrow);
        Emit(idx);
      } else {
        Emit(wide);
        Emit(idx / 256 % 256);
        Emit(idx % 256);
      }
    }

    /** A value already in the pool is not added again. */
    method AddConstant(v: Value) returns (idx: nat)
      modifies this`consts
      ensures idx == ConstIndex(old(consts), v)
      ensures State() == WithConst(old(State()), v)
    {
      idx := 0;
      while idx < |consts|
        invariant idx <= |consts|
        invariant forall j :: 0 <= j < idx ==> consts[j] != v
      {
        if consts[idx] == v {
          return;
        }
        idx := idx + 1;
      }
      consts := consts + [v];
    }

    method FindLocal(s: Sym) returns (slot: int)
      ensures slot == Find(locals, s)
    {
      slot := |locals| - 1;
      while slot >= 0
        invariant -1 <= slot < |locals|
        invariant forall j :: slot < j < |locals| ==> locals[j] != Named(s)
      {
        if locals[slot] == Named(s) {
          return;
        }
        slot := slot - 1;
      }
    }

    /** A new slot, or -1 when the table is full. */
    method AddLocal(l: Local) returns (slot: int)
      requires Valid()
      modifies this`locals, this`maxLocals
      ensures Valid()
      ensures old(|locals|) >= MAX_LOCALS ==> slot == -1 && locals == old(locals)
      ensures old(|locals|) < MAX_LOCALS ==> slot == old(|locals|) && State() == WithLocal(old(State()), l)
    {
      if |locals| >= MAX_LOCALS {
        return -1;
      }
      slot := |locals|;
      locals := locals + [l];
      if |locals| > maxLocals {
        maxLocals := |locals|;
      }
    }

    /** A jump whose offset is still to be patched. */
    method EmitJump(op: byte) returns (pos: nat)
      modifies this`code
      ensures code == old(code) + [op, 0, 0] && pos == old(|code|) + 1
    {
      Emit(op);
      pos := |code|;
      Emit(0);
      Emit(0);
    }

    /** Let the jump at `pos` go to the end of the code. */
    method PatchJump(pos: nat)
      requires pos + 2 <= |code|
      modifies this`code, this`error
      ensures |code| == old(|code|) && (old(error) ==> error)
      ensures var raw := old(|code|) - pos - 2;
              if raw > MAX_JUMP then error && code == old(code)
              else error == old(error) && code == old(code)[pos := raw / 256][pos + 1 := raw % 256]
    {
      var raw := |code| - pos - 2;
      if raw > MAX_JUMP {
        error := true;
        return;
      }
      code := code[pos := raw / 256];
      code := code[pos + 1 := raw % 256];
    }

    method CompileExpr(e: Expr)
      requires Valid()
      modifies this
      ensures Valid() && trapDepth == old(trapDepth) && |code| >= old(|code|)
      ensures old(error) ==> error
      ensures !old(error) ==> Follows(old(code), Gen(e, old(State()), old(trapDepth), view))
      decreases e, 2
    {
      hide Gen, GenArgs, GenBody, Find, ConstIndex, IfCode, TryCode;
      if error {
        return;
      }
      match e
      case Lit(v) =>
        GenForms.OfLeaf(e, State(), trapDepth, view);
        var idx := AddConstant(v);
        EmitConst(idx);
      case Name(s) =>
        GenForms.OfLeaf(e, State(), trapDepth, view);
        var slot := FindLocal(s);
        if slot >= 0 {
          EmitOperand(LOADENV, slot);
        } else {
          var idx := AddConstant(Symbol(s, false));
          EmitIndexed(RESOLVE, RESOLVE_W, idx);
        }
      case Set(s, x) =>
        GenForms.OfOne(e, State(), trapDepth, view);
        CompileExpr(x);
        var idx := AddConstant(Symbol(s, false));
        EmitIndexed(STOREGLOBAL, STOREGLOBAL_W, idx);
      case Let(_, _) =>
        CompileLet(e);
      case IfElse(_, _, _) =>
        CompileIf(e);
      case Do(es) =>
        GenForms.OfMany(e, State(), trapDepth, view);
        if es == [] {
          error := true;
        } else {
          CompileBody(es);
        }
      case Try(_, _) =>
        CompileTry(e);
      case ReturnNull =>
        GenForms.OfLeaf(e, State(), trapDepth, view);
        var idx := AddConstant(Null);
        EmitConst(idx);
        EmitReturn();
      case Return(x) =>
        GenForms.OfOne(e, State(), trapDepth, view);
        CompileExpr(x);
        EmitReturn();
      case SelfCall(args) =>
        GenForms.OfMany(e, State(), trapDepth, view);
        if |args| > MAX_ARGS {
          error := true;
        } else {
          CompileArgs(args);
          EmitOperand(CALLS, |args|);
        }
      case Call(_, _) =>
        CompileCall(e);
    }

    /** Drop the traps of the enclosing `try` bodies, then return. */
    method EmitReturn()
      modifies this`code
      ensures code == old(code) + TrapEnds(trapDepth) + [RET]
    {
      ghost var before := code;
      for i := 0 to trapDepth
        invariant code == before + TrapEnds(i)
      {
        Emit(TRAP_END);
        assert TrapEnds(i) + [TRAP_END] == TrapEnds(i + 1);
      }
      Emit(RET);
    }

    method CompileLet(e: Expr)
      requires e.Let? && Valid() && !error
      modifies this
      ensures Valid() && trapDepth == old(trapDepth) && |code| >= old(|code|)
      ensures Follows(old(code), Gen(e, old(State()), old(trapDepth), view))
      decreases e, 1
    {
      hide Gen, GenArgs, GenBody, Find, ConstIndex;
      GenForms.OfLet(e, State(), trapDepth, view);
      if e.s.reserved {
        error := true;
        return;
      }
      CompileExpr(e.e);
      Emit(FORCE);
      Emit(DUP);
      var slot := FindLocal(e.s);
      if slot < 0 {
        slot := AddLocal(Named(e.s));
      }
      if slot < 0 {
        error := true;
        return;
      }
      EmitOperand(STOREENV, slot);
    }

    method CompileIf(e: Expr)
      requires e.IfElse? && Valid() && !error
      modifies this
      ensures Valid() && trapDepth == old(trapDepth) && |code| >= old(|code|)
      ensures Follows(old(code), Gen(e, old(State()), old(trapDepth), view))
      decreases e, 1
    {
      hide Gen, GenArgs, GenBody, Find, ConstIndex;
      GenForms.OfIf(e, State(), trapDepth, view);
      ghost var code0 := code;
      ghost var o1 := Gen(e.c, State(), trapDepth, view);
      CompileExpr(e.c);
      ghost var o2 := Gen(e.t, State(), trapDepth, view);
      var jumpEnd := CompileThen(e.t);
      ghost var o3 := Gen(e.f, State(), trapDepth, view);
      CompileExpr(e.f);
      PatchJump(jumpEnd);
      if o1.Emitted? && o2.Emitted? && o3.Emitted? && |o2.code| + 3 <= MAX_JUMP && |o3.code| <= MAX_JUMP {
        IfAssembled(code0, o1.code, o2.code, o3.code);
      }
    }

    /** The first branch of an `if` behind the jump over it, and the jump over the second. */
    method CompileThen(branch: Expr) returns (jumpEnd: nat)
      requires Valid()
      modifies this
      ensures Valid() && trapDepth == old(trapDepth) && |code| >= old(|code|) && jumpEnd + 2 == |code|
      ensures old(error) ==> error
      ensures !old(error) ==>
              var o := Gen(branch, old(State()), old(trapDepth), view);
              if o.Refused? || |o.code| + 3 > MAX_JUMP then error
              else !error && State() == o.cs && code == old(code) + Jump(JMPF, |o.code| + 3) + o.code + [JMP, 0, 0]
      decreases branch, 3
    {
      hide Gen, GenArgs, GenBody, Find, ConstIndex;
      ghost var code0 := code;
      var jumpFalse := EmitJump(JMPF);
      ghost var o := Gen(branch, State(), trapDepth, view);
      CompileExpr(branch);
      jumpEnd := EmitJump(JMP);
      PatchJump(jumpFalse);
      if o.Emitted? && |o.code| + 3 <= MAX_JUMP {
        ThenAssembled(code0, o.code);
      }
    }

    method CompileTry(e: Expr)
      requires e.Try? && Valid() && !error
      modifies this
      ensures Valid() && trapDepth == old(trapDepth) && |code| >= old(|code|)
      ensures Follows(old(code), Gen(e, old(State()), old(trapDepth), view))
      decreases e, 1
    {
      hide Gen, GenArgs, GenBody, Find, ConstIndex, TryCode;
      GenForms.OfTry(e, State(), trapDepth, view);
      ghost var code0 := code;
      var slot := AddLocal(Hidden);
      if slot < 0 {
        error := true;
        return;
      }
      ghost var o1 := Gen(e.body, State(), trapDepth + 1, view);
      var jumpEnd := CompileGuarded(e.body);
      ghost var o2 := Gen(e.handler, State(), trapDepth, view);
      EmitOperand(STOREENV, slot);
      CompileExpr(e.handler);
      EmitOperand(LOADENV, slot);
      Emit(TRYH);
      PatchJump(jumpEnd);
      if o1.Emitted? && o2.Emitted? && |o1.code| + 4 <= MAX_JUMP && |o2.code| + 5 <= MAX_JUMP {
        TryAssembled(code0, o1.code, o2.code, slot);
      }
    }

    /** The body of a `try` under its trap, and the jump over the handler. */
    method CompileGuarded(body: Expr) returns (jumpEnd: nat)
      requires Valid() && !error
      modifies this
      ensures Valid() && trapDepth == old(trapDepth) && |code| >= old(|code|) && jumpEnd + 2 == |code|
      ensures var o := Gen(body, old(State()), old(trapDepth) + 1, view);
              if o.Refused? || |o.code| + 4 > MAX_JUMP then error
              else
                && !error && State() == o.cs
                && code == old(code) + Jump(TRAP, |o.code| + 4) + o.code + [TRAP_END] + [JMP, 0, 0]
      decreases body, 3
    {
      hide Gen, GenArgs, GenBody, Find, ConstIndex;
      ghost var code0 := code;
      var trap := EmitJump(TRAP);
      trapDepth := trapDepth + 1;
      ghost var o := Gen(body, State(), trapDepth, view);
      CompileExpr(body);
      trapDepth := trapDepth - 1;
      Emit(TRAP_END);
      jumpEnd := EmitJump(JMP);
      PatchJump(trap);
      if o.Emitted? && |o.code| + 4 <= MAX_JUMP {
        GuardAssembled(code0, o.code);
      }
    }

    method CompileCall(e: Expr)
      requires e.Call? && Valid() && !error
      modifies this
      ensures Valid() && trapDepth == old(trapDepth) && |code| >= old(|code|)
      ensures Follows(old(code), Gen(e, old(State()), old(trapDepth), view))
      decreases e, 1
    {
      hide Gen, GenArgs, GenBody, Find, ConstIndex;
      GenForms.OfCall(e, State(), trapDepth, view);
      ghost var cs0 := State();
      var known := KnownHead(e.head, view);
      if known.Fn? {
        var idx := AddConstant(known);
        EmitConst(idx);
      } else {
        CompileExpr(e.head);
      }
      ghost var code1, cs1, error1 := code, State(), error;
      var argc := |e.args|;
      if argc > MAX_ARGS {
        error := true;
        return;
      }
      CompileArgs(e.args);
      ghost var code2 := code;
      if known.Fn? && known.kind.Unary? && argc == 1 {
        Emit(CALL1);
      } else if known.Fn? && known.kind.Binary? && argc == 2 {
        Emit(CALL2);
      } else if known.Fn? && known.kind.Vary? {
        EmitOperand(CALLN, argc);
      } else {
        EmitOperand(CALLF, argc);
      }
      assert code == code2 + CallCode(SelectCall(known, argc), argc);
    }

    /** Right to left. */
    method CompileArgs(args: seq<Expr>)
      requires Valid()
      modifies this
      ensures Valid() && trapDepth == old(trapDepth) && |code| >= old(|code|)
      ensures old(error) ==> error
      ensures !old(error) ==> Follows(old(code), GenArgs(args, old(State()), old(trapDepth), view))
      decreases args, 3
    {
      hide Gen, GenArgs, GenBody, Find, ConstIndex;
      ghost var code0, cs0 := code, State();
      ghost var all := GenArgs(args, cs0, trapDepth, view);
      ghost var done: seq<byte> := [];
      var i := |args|;
      assert args[..i] == args;
      while i > 0
        invariant 0 <= i <= |args| && Valid() && trapDepth == old(trapDepth) && |code| >= old(|code|)
        invariant old(error) ==> error
        invariant !old(error) && error ==> all.Refused?
        invariant !error ==> code == code0 + done && all == After(done, GenArgs(args[..i], State(), trapDepth, view))
      {
        i := i - 1;
        ghost var before, cs := code, State();
        assert args[..i + 1][..i] == args[..i];
        GenForms.OfArgs(args[..i + 1], cs, trapDepth, view);
        CompileExpr(args[i]);
        if !error {
          var c := Gen(args[i], cs, trapDepth, view).code;
          var rest := GenArgs(args[..i], State(), trapDepth, view);
          assert rest.Emitted? ==> done + (c + rest.code) == done + c + rest.code;
          done := done + c;
        }
      }
      assert args[..0] == [];
      if !error {
        GenForms.OfArgs([], State(), trapDepth, view);
      }
    }

    /** A sequence, with `OP_POP` between its parts. */
    method CompileBody(es: seq<Expr>)
      requires Valid()
      modifies this
      ensures Valid() && trapDepth == old(trapDepth) && |code| >= old(|code|)
      ensures old(error) ==> error
      ensures !old(error) ==> Follows(old(code), GenBody(es, old(State()), old(trapDepth), view))
      decreases es, 3
    {
      hide Gen, GenArgs, GenBody, Find, ConstIndex, After;
      ghost var code0, cs0 := code, State();
      ghost var all := GenBody(es, cs0, trapDepth, view);
      ghost var done: seq<byte> := [];
      var i := 0;
      assert es[0..] == es;
      AfterNothing(all);
      if es == [] {
        GenForms.OfBody(es, cs0, trapDepth, view);
      }
      while i < |es|
        invariant 0 <= i <= |es| && Valid() && trapDepth == old(trapDepth) && |code| >= old(|code|)
        invariant old(error) ==> error
        invariant !old(error) && error ==> all.Refused?
        invariant !error ==> code == code0 + done
        invariant !error && i < |es| ==>
            all == After(if i == 0 then done else done + [POP], GenBody(es[i..], State(), trapDepth, view))
        invariant !error && i == |es| ==> all == Emitted(done, State())
      {
        if i > 0 {
          Emit(POP);
          done := done + [POP];
        }
        ghost var cs, part := State(), es[i..];
        assert part[0] == es[i] && part[1..] == es[i + 1..];
        PartDone(done, part, cs, trapDepth, view);
        CompileExpr(es[i]);
        i := i + 1;
        if !error {
          done := done + Gen(es[i - 1], cs, trapDepth, view).code;
        }
      }
    }
  }

  /** `ray_compile`: the compiled lambda, or none when the compiler gave up. */
  method Compile(l: Lambda) returns (r: Option<Compiled>)
    ensures r == if GenLambda(l).Emitted? then Some(CompiledOf(l)) else None
  {
    hide GenBody, Find;
    var c := new CompilerState(l.view);
    var i := 0;
    while i < |l.params| && !c.error
      invariant 0 <= i <= |l.params| && c.Valid() && c.code == [] && c.consts == [] && c.trapDepth == 0 && c.view == l.view
      invariant fresh(c)
      invariant if c.error then |l.params| > MAX_LOCALS else c.locals == Params(l.params)[..i] && i <= MAX_LOCALS
    {
      var slot := c.AddLocal(Named(l.params[i]));
      if slot < 0 {
        c.error := true;
      }
      i := i + 1;
    }
    ghost var tooMany := c.error;
    assert !tooMany ==> c.locals == Params(l.params) && c.State() == CState([], Params(l.params));
    c.CompileBody(l.body);
    c.Emit(RET);
    if c.error {
      r := None;
    } else {
      ghost var body := GenBody(l.body, CState([], Params(l.params)), 0, l.view);
      assert !tooMany && c.code == [] + body.code + [RET] == body.code + [RET];
      r := Some(Compiled(c.code, c.consts, c.maxLocals, |l.params|));
    }
  }
}
