/** The bytecode `ray_compile` is to produce, as a function of the source.
    The pool and the table of locals only grow, and they are threaded through
    the expression in the order in which the compiler visits it. */
module CodeGen {
  import opened Lang
  import opened Bytes
  import opened Bytecode

  const MAX_LOCALS: nat := 256
  const MAX_ARGS: nat := 64
  const MAX_JUMP: nat := 32767

  /** One slot of the frame; `Hidden` slots hold the error value of a `try`. */
  datatype Local = Hidden | Named(s: Sym)

  datatype CState = CState(consts: seq<Value>, locals: seq<Local>)

  datatype Out = Refused | Emitted(code: seq<byte>, cs: CState) {
    predicate IsFailure() {
      Refused?
    }
    function PropagateFailure(): Out
      requires Refused?
    {
      Refused
    }
    function Extract(): (seq<byte>, CState)
      requires Emitted?
    {
      (code, cs)
    }
  }

  /** The slot a name denotes: the last one of that name, or -1. */
  function Find(locals: seq<Local>, s: Sym): (slot: int)
    ensures -1 <= slot < |locals|
    ensures slot >= 0 ==> locals[slot] == Named(s)
    ensures forall j :: slot < j < |locals| ==> locals[j] != Named(s)
  {
    if locals == [] then -1
    else if locals[|locals| - 1] == Named(s) then |locals| - 1
    else Find(locals[..|locals| - 1], s)
  }

  function ConstIndex(consts: seq<Value>, v: Value): (i: nat)
    ensures i <= |consts|
    ensures i < |consts| ==> consts[i] == v
    ensures forall j :: 0 <= j < i ==> consts[j] != v
  {
    if consts == [] || consts[0] == v then 0 else 1 + ConstIndex(consts[1..], v)
  }

  function WithConst(cs: CState, v: Value): (r: CState)
    ensures cs.consts <= r.consts && r.locals == cs.locals
    ensures ConstIndex(cs.consts, v) < |r.consts| && r.consts[ConstIndex(cs.consts, v)] == v
  {
    if ConstIndex(cs.consts, v) < |cs.consts| then cs else cs.(consts := cs.consts + [v])
  }

  function WithLocal(cs: CState, l: Local): CState {
    cs.(locals := cs.locals + [l])
  }

  function GenConst(v: Value, cs: CState): (o: Out)
    ensures o.Emitted? && o.cs == WithConst(cs, v)
  {
    Emitted(Indexed(LOADCONST, LOADCONST_W, ConstIndex(cs.consts, v)), WithConst(cs, v))
  }

  function TrapEnds(n: nat): (r: seq<byte>)
    ensures |r| == n
  {
    seq(n, _ => TRAP_END)
  }

  /** The code of `if`, once its three parts are compiled. */
  function IfCode(cc: seq<byte>, tc: seq<byte>, fc: seq<byte>): seq<byte>
    requires |tc| + 3 <= MAX_JUMP && |fc| <= MAX_JUMP
  {
    cc + Jump(JMPF, |tc| + 3) + (tc + Jump(JMP, |fc|)) + fc
  }

  /** The code of `try`, once its two parts are compiled. */
  function TryCode(bc: seq<byte>, hc: seq<byte>, slot: byte): seq<byte>
    requires |bc| + 4 <= MAX_JUMP && |hc| + 5 <= MAX_JUMP
  {
    Jump(TRAP, |bc| + 4) + bc + ([TRAP_END] + Jump(JMP, |hc| + 5)) +
    ([STOREENV, slot] + hc + [LOADENV, slot] + [TRYH])
  }

  lemma TryLength(bc: seq<byte>, hc: seq<byte>, slot: byte)
    requires |bc| + 4 <= MAX_JUMP && |hc| + 5 <= MAX_JUMP
    ensures |TryCode(bc, hc, slot)| == |bc| + |hc| + 12
  {
  }

  /** Where the parts of a `try` lie. */
  lemma TryLayout(code: seq<byte>, ip: nat, bc: seq<byte>, hc: seq<byte>, slot: byte)
    requires |bc| + 4 <= MAX_JUMP && |hc| + 5 <= MAX_JUMP && At(code, ip, TryCode(bc, hc, slot))
    ensures At(code, ip, Jump(TRAP, |bc| + 4)) && At(code, ip + 3, bc)
    ensures At(code, ip + 3 + |bc|, [TRAP_END]) && At(code, ip + 4 + |bc|, Jump(JMP, |hc| + 5))
    ensures At(code, ip + 7 + |bc|, [STOREENV, slot])
    ensures At(code, ip + 9 + |bc|, hc + [LOADENV, slot] + [TRYH])
    ensures |TryCode(bc, hc, slot)| == |bc| + |hc| + 12
  {
    TryLength(bc, hc, slot);
    var skip, catch := [TRAP_END] + Jump(JMP, |hc| + 5), [STOREENV, slot] + hc + [LOADENV, slot] + [TRYH];
    AtSplit4(code, ip, Jump(TRAP, |bc| + 4), bc, skip, catch);
    AtSplit(code, ip + 3 + |bc|, [TRAP_END], Jump(JMP, |hc| + 5));
    assert catch == [STOREENV, slot] + (hc + [LOADENV, slot] + [TRYH]);
    AtSplit(code, ip + 7 + |bc|, [STOREENV, slot], hc + [LOADENV, slot] + [TRYH]);
  }

  /** Where the parts of an `if` lie. */
  lemma IfLayout(code: seq<byte>, ip: nat, cc: seq<byte>, tc: seq<byte>, fc: seq<byte>)
    requires |tc| + 3 <= MAX_JUMP && |fc| <= MAX_JUMP && At(code, ip, IfCode(cc, tc, fc))
    ensures At(code, ip, cc) && At(code, ip + |cc|, Jump(JMPF, |tc| + 3)) && At(code, ip + |cc| + 3, tc)
    ensures At(code, ip + |cc| + 3 + |tc|, Jump(JMP, |fc|)) && At(code, ip + |cc| + 6 + |tc|, fc)
    ensures |IfCode(cc, tc, fc)| == |cc| + |tc| + |fc| + 6
  {
    AtSplit4(code, ip, cc, Jump(JMPF, |tc| + 3), tc + Jump(JMP, |fc|), fc);
    AtSplit(code, ip + |cc| + 3, tc, Jump(JMP, |fc|));
  }

  function CallCode(op: CallOp, argc: byte): seq<byte> {
    match op
    case ByCall1 => [CALL1]
    case ByCall2 => [CALL2]
    case ByCallN => [CALLN, argc]
    case _ => [CALLF, argc]
  }

  /** `traps` is the number of `try` bodies of this lambda around `e`. */
  function Gen(e: Expr, cs: CState, traps: nat, view: View): (o: Out)
    requires |cs.locals| <= MAX_LOCALS
    ensures o.Emitted? ==> |o.cs.locals| <= MAX_LOCALS
    decreases e, 1
  {
    match e
    case Lit(v) => GenConst(v, cs)
    case Name(s) =>
      var slot := Find(cs.locals, s);
      if slot >= 0 then Emitted([LOADENV, slot], cs)
      else
        var name := Symbol(s, false);
        Emitted(Indexed(RESOLVE, RESOLVE_W, ConstIndex(cs.consts, name)), WithConst(cs, name))
    case Set(s, x) =>
      var (c, cs1) :- Gen(x, cs, traps, view);
      var name := Symbol(s, false);
      Emitted(c + Indexed(STOREGLOBAL, STOREGLOBAL_W, ConstIndex(cs1.consts, name)), WithConst(cs1, name))
    case Let(s, x) =>
      if s.reserved then Refused else
      var (c, cs1) :- Gen(x, cs, traps, view);
      var found := Find(cs1.locals, s);
      if found >= 0 then Emitted(c + [FORCE] + [DUP] + [STOREENV, found], cs1)
      else if |cs1.locals| >= MAX_LOCALS then Refused
      else Emitted(c + [FORCE] + [DUP] + [STOREENV, |cs1.locals|], WithLocal(cs1, Named(s)))
    case IfElse(x, t, f) =>
      var (cc, cs1) :- Gen(x, cs, traps, view);
      var (tc, cs2) :- Gen(t, cs1, traps, view);
      var (fc, cs3) :- Gen(f, cs2, traps, view);
      if |tc| + 3 > MAX_JUMP || |fc| > MAX_JUMP then Refused
      else Emitted(IfCode(cc, tc, fc), cs3)
    case Do(es) =>
      if es == [] then Refused else GenBody(es, cs, traps, view)
    case Try(b, h) =>
      if |cs.locals| >= MAX_LOCALS then Refused else
      var slot := |cs.locals|;
      var (bc, cs1) :- Gen(b, WithLocal(cs, Hidden), traps + 1, view);
      var (hc, cs2) :- Gen(h, cs1, traps, view);
      if |bc| + 4 > MAX_JUMP || |hc| + 5 > MAX_JUMP then Refused
      else Emitted(TryCode(bc, hc, slot), cs2)
    case ReturnNull =>
      var (c, cs1) :- GenConst(Null, cs);
      Emitted(c + TrapEnds(traps) + [RET], cs1)
    case Return(x) =>
      var (c, cs1) :- Gen(x, cs, traps, view);
      Emitted(c + TrapEnds(traps) + [RET], cs1)
    case SelfCall(args) =>
      if |args| > MAX_ARGS then Refused else
      var (c, cs1) :- GenArgs(args, cs, traps, view);
      Emitted(c + [CALLS, |args|], cs1)
    case Call(head, args) =>
      var known := KnownHead(head, view);
      var (hc, cs1) :- if known.Fn? then GenConst(known, cs) else Gen(head, cs, traps, view);
      if |args| > MAX_ARGS then Refused else
      var (ac, cs2) :- GenArgs(args, cs1, traps, view);
      Emitted(hc + ac + CallCode(SelectCall(known, |args|), |args|), cs2)
  }

  /** Operands are compiled right to left, so the leftmost ends on top. */
  function GenArgs(args: seq<Expr>, cs: CState, traps: nat, view: View): (o: Out)
    requires |cs.locals| <= MAX_LOCALS
    ensures o.Emitted? ==> |o.cs.locals| <= MAX_LOCALS
    decreases args, 0
  {
    if args == [] then Emitted([], cs) else
    var last := |args| - 1;
    var (c, cs1) :- Gen(args[last], cs, traps, view);
    var (rest, cs2) :- GenArgs(args[..last], cs1, traps, view);
    Emitted(c + rest, cs2)
  }

  /** A sequence leaves the value of its last expression. */
  function GenBody(es: seq<Expr>, cs: CState, traps: nat, view: View): (o: Out)
    requires |cs.locals| <= MAX_LOCALS
    ensures o.Emitted? ==> |o.cs.locals| <= MAX_LOCALS
    decreases es, 0
  {
    if es == [] then Emitted([], cs)
    else
      var (c, cs1) :- Gen(es[0], cs, traps, view);
      if |es| == 1 then Emitted(c, cs1) else
      var (rest, cs2) :- GenBody(es[1..], cs1, traps, view);
      Emitted(c + [POP] + rest, cs2)
  }

  function Params(params: seq<Sym>): (r: seq<Local>)
    ensures |r| == |params|
  {
    seq(|params|, i requires 0 <= i < |params| => Named(params[i]))
  }

  /** A compiled lambda: `nLocals` is the size of its frame. */
  datatype Compiled = Compiled(code: seq<byte>, consts: seq<Value>, nLocals: nat, arity: nat)

  function GenLambda(l: Lambda): Out {
    if |l.params| > MAX_LOCALS then Refused else
    var (c, cs) :- GenBody(l.body, CState([], Params(l.params)), 0, l.view);
    Emitted(c + [RET], cs)
  }

  function CompiledOf(l: Lambda): Compiled
    requires GenLambda(l).Emitted?
  {
    var o := GenLambda(l);
    Compiled(o.code, o.cs.consts, |o.cs.locals|, |l.params|)
  }

  /** A constant index is at most two bytes wide; nothing checks that it fits. */
  predicate PoolsFit(prog: Program) {
    forall id :: id in prog && GenLambda(prog[id]).Emitted? ==> |GenLambda(prog[id]).cs.consts| <= 65536
  }

  type Image = map<LamId, Compiled>

  /** The program as the executor finds it; the rest of the lambdas are left to the host. */
  function Link(prog: Program): Image {
    map id | id in prog && GenLambda(prog[id]).Emitted? :: CompiledOf(prog[id])
  }
}
