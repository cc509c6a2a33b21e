/** The tables of compiled code, by recursion on the source. */
module StackCode {
  import opened Lang
  import opened Bytes
  import opened Bytecode
  import opened CodeGen
  import opened GenForms
  import opened Reference
  import opened Scope
  import opened StackTypes
  import opened StackTyping

  ghost function NamesOf(locals: seq<Local>): set<Sym> {
    set l | l in locals && l.Named? :: l.s
  }

  lemma NamesDeclared(locals: seq<Local>)
    ensures Declares(locals, NamesOf(locals))
  {
    forall s: Sym ensures s in NamesOf(locals) <==> Find(locals, s) >= 0 {
      if s in NamesOf(locals) {
        var i :| 0 <= i < |locals| && locals[i] == Named(s);
      }
    }
  }

  /** The pool and the table of locals only grow. */
  lemma Extends(e: Expr, cs: CState, traps: nat, view: View)
    requires |cs.locals| <= MAX_LOCALS && Gen(e, cs, traps, view).Emitted?
    ensures var o := Gen(e, cs, traps, view); cs.consts <= o.cs.consts && |cs.locals| <= |o.cs.locals|
  {
    hide Gen, Find;
    NamesDeclared(cs.locals);
    GenGrows(e, cs, traps, view, NamesOf(cs.locals));
  }

  lemma ArgsExtend(args: seq<Expr>, cs: CState, traps: nat, view: View)
    requires |cs.locals| <= MAX_LOCALS && GenArgs(args, cs, traps, view).Emitted?
    ensures var o := GenArgs(args, cs, traps, view); cs.consts <= o.cs.consts && |cs.locals| <= |o.cs.locals|
  {
    hide GenArgs, Find;
    NamesDeclared(cs.locals);
    GenArgsGrows(args, cs, traps, view, NamesOf(cs.locals));
  }

  lemma BodyExtends(es: seq<Expr>, cs: CState, traps: nat, view: View)
    requires |cs.locals| <= MAX_LOCALS && GenBody(es, cs, traps, view).Emitted?
    ensures var o := GenBody(es, cs, traps, view); cs.consts <= o.cs.consts && |cs.locals| <= |o.cs.locals|
  {
    hide GenBody, Find;
    NamesDeclared(cs.locals);
    GenBodyGrows(es, cs, traps, view, NamesOf(cs.locals));
  }

  /** `o` lies at `lo` in the code of `c`, where `s` holds. */
  ghost predicate Placed(c: Compiled, lo: nat, o: Out, s: St, traps: nat) {
    && o.Emitted? && At(c.code, lo, o.code) && o.cs.consts <= c.consts && |o.cs.locals| <= c.nLocals
    && |c.consts| <= 65536 && Rooted(s) && |s.marks| == traps
  }

  lemma ConstBlock(c: Compiled, lo: nat, v: Value, cs: CState, s: St, traps: nat) returns (t: Typing)
    requires Placed(c, lo, GenConst(v, cs), s, traps)
    ensures Block(c, t, lo, lo + |GenConst(v, cs).code|, s, Up(s))
  {
    hide Fetch, At;
    var k := ConstIndex(cs.consts, v);
    var hi := lo + |GenConst(v, cs).code|;
    assert WithConst(cs, v).consts[k] == v;
    FetchIndexed(c.code, lo, LOADCONST, LOADCONST_W, k);
    t := map[lo := s, hi := Up(s)];
    RootedUp(s, 1);
    One(c, lo, hi, s, Up(s), ILoadConst(k));
  }

  lemma NameBlock(c: Compiled, lo: nat, e: Expr, cs: CState, view: View, s: St, traps: nat) returns (t: Typing)
    requires e.Name? && |cs.locals| <= MAX_LOCALS && Placed(c, lo, Gen(e, cs, traps, view), s, traps)
    ensures Block(c, t, lo, lo + |Gen(e, cs, traps, view).code|, s, Up(s))
  {
    hide Fetch, At, Gen;
    OfLeaf(e, cs, traps, view);
    var hi := lo + |Gen(e, cs, traps, view).code|;
    t := map[lo := s, hi := Up(s)];
    RootedUp(s, 1);
    var slot, name := Find(cs.locals, e.s), Symbol(e.s, false);
    if slot >= 0 {
      FetchOperand(c.code, lo, LOADENV, slot);
      One(c, lo, hi, s, Up(s), ILoadEnv(slot));
    } else {
      var k := ConstIndex(cs.consts, name);
      assert WithConst(cs, name).consts[k] == name;
      FetchIndexed(c.code, lo, RESOLVE, RESOLVE_W, k);
      One(c, lo, hi, s, Up(s), IResolve(k));
    }
  }

  lemma SetBlock(c: Compiled, tx: Typing, lo: nat, a: nat, hi: nat, k: nat, s: St) returns (t: Typing)
    requires Rooted(s) && Block(c, tx, lo, a, s, Up(s)) && a < hi
    requires NameAt(c, k) && Fetch(c.code, a) == Fetched(IStoreGlobal(k), hi)
    ensures Block(c, t, lo, hi, s, Up(s))
  {
    hide Fetch, Block, Rooted;
    RootedUp(s, 1);
    One(c, a, hi, Up(s), Up(s), IStoreGlobal(k));
    Append(c, tx, map[a := Up(s), hi := Up(s)], lo, a, hi, s, Up(s), Up(s));
    t := tx + map[a := Up(s), hi := Up(s)];
  }

  lemma LetBlock(c: Compiled, tx: Typing, lo: nat, a: nat, slot: nat, s: St) returns (t: Typing)
    requires Rooted(s) && Block(c, tx, lo, a, s, Up(s)) && slot < c.nLocals
    requires Fetch(c.code, a) == Fetched(IForce, a + 1) && Fetch(c.code, a + 1) == Fetched(IDup, a + 2)
    requires Fetch(c.code, a + 2) == Fetched(IStoreEnv(slot), a + 4)
    ensures Block(c, t, lo, a + 4, s, Up(s))
  {
    hide Fetch, Block, Rooted;
    RootedUp(s, 1);
    RootedUp(s, 2);
    One(c, a, a + 1, Up(s), Up(s), IForce);
    One(c, a + 1, a + 2, Up(s), UpBy(s, 2), IDup);
    One(c, a + 2, a + 4, UpBy(s, 2), Up(s), IStoreEnv(slot));
    var t1, t2, t3 := map[a := Up(s), a + 1 := Up(s)], map[a + 1 := Up(s), a + 2 := UpBy(s, 2)], map[a + 2 := UpBy(s, 2), a + 4 := Up(s)];
    Append(c, tx, t1, lo, a, a + 1, s, Up(s), Up(s));
    Append(c, tx + t1, t2, lo, a + 1, a + 2, s, Up(s), UpBy(s, 2));
    Append(c, tx + t1 + t2, t3, lo, a + 2, a + 4, s, UpBy(s, 2), Up(s));
    t := tx + t1 + t2 + t3;
  }

  /** A call consumes its operands and, unless the callee is the running lambda, the callee. */
  lemma CallBlock(c: Compiled, lo: nat, hi: nat, i: Instr, s: St, n: nat)
    requires Rooted(s) && lo < hi && Fetch(c.code, lo) == Fetched(i, hi)
    requires match i
             case ICall1 => n == 2
             case ICall2 => n == 3
             case ICallN(k) => n == k + 1
             case ICallF(k) => n == k + 1
             case ICallS(k) => n == k <= c.nLocals
             case _ => false
    ensures Block(c, map[lo := UpBy(s, n), hi := Up(s)], lo, hi, UpBy(s, n), Up(s))
  {
    hide Fetch, Block, Rooted;
    RootedUp(s, 1);
    RootedUp(s, n);
    One(c, lo, hi, UpBy(s, n), Up(s), i);
  }

  lemma FetchTrapEnds(code: seq<byte>, a: nat, n: nat)
    requires At(code, a, TrapEnds(n))
    ensures forall j :: a <= j < a + n ==> Fetch(code, j) == Fetched(ITrapEnd, j + 1)
  {
    hide Fetch;
    forall j | a <= j < a + n ensures Fetch(code, j) == Fetched(ITrapEnd, j + 1) {
      assert code[a..a + n][j - a] == TRAP_END;
      FetchByte(code, j, TRAP_END);
    }
  }

  lemma ReturnCode(c: Compiled, tx: Typing, lo: nat, a: nat, s: St) returns (t: Typing)
    requires Rooted(s) && Block(c, tx, lo, a, s, Up(s)) && At(c.code, a, TrapEnds(|s.marks|) + [RET])
    ensures Block(c, t, lo, a + |s.marks| + 1, s, Up(s))
  {
    hide Fetch, Block, At, Rooted;
    var n := |s.marks|;
    AtSplit(c.code, a, TrapEnds(n), [RET]);
    FetchTrapEnds(c.code, a, n);
    FetchByte(c.code, a + n, RET);
    RootedUp(s, 1);
    ReturnBlock(c, a, Up(s));
    Append(c, tx, ReturnTable(a, Up(s)), lo, a, a + n + 1, s, Up(s), Up(s));
    t := tx + ReturnTable(a, Up(s));
  }

  lemma {:induction false} IfTyped(e: Expr, cs: CState, traps: nat, view: View, c: Compiled, n: nat, lo: nat, s: St)
    returns (t: Typing)
    requires e.IfElse? && |cs.locals| <= MAX_LOCALS && SelfArity(e, n) && n <= c.nLocals
    requires Placed(c, lo, Gen(e, cs, traps, view), s, traps)
    ensures Block(c, t, lo, lo + |Gen(e, cs, traps, view).code|, s, Up(s))
    decreases e, 1
  {
    hide Fetch, At, Gen, GenArgs, GenBody, Block, IfCode;
    OfIf(e, cs, traps, view);
    var o1 := Gen(e.c, cs, traps, view);
    var o2 := Gen(e.t, o1.cs, traps, view);
    var o3 := Gen(e.f, o2.cs, traps, view);
    Extends(e.t, o1.cs, traps, view);
    Extends(e.f, o2.cs, traps, view);
    IfLayout(c.code, lo, o1.code, o2.code, o3.code);
    var a := lo + |o1.code|;
    var b := a + 3 + |o2.code|;
    var tc := GenTyped(e.c, cs, traps, view, c, n, lo, s);
    var tt := GenTyped(e.t, o1.cs, traps, view, c, n, a + 3, s);
    var tf := GenTyped(e.f, o2.cs, traps, view, c, n, b + 3, s);
    FetchJump(c.code, a, JMPF, |o2.code| + 3);
    FetchJump(c.code, b, JMP, |o3.code|);
    IfBlock(c, tc, tt, tf, lo, a, b, b + 3 + |o3.code|, s);
    t := tc + tt + tf;
  }

  lemma {:induction false} TryTyped(e: Expr, cs: CState, traps: nat, view: View, c: Compiled, n: nat, lo: nat, s: St)
    returns (t: Typing)
    requires e.Try? && |cs.locals| <= MAX_LOCALS && SelfArity(e, n) && n <= c.nLocals
    requires Placed(c, lo, Gen(e, cs, traps, view), s, traps)
    ensures Block(c, t, lo, lo + |Gen(e, cs, traps, view).code|, s, Up(s))
    decreases e, 1
  {
    hide Fetch, At, Gen, GenArgs, GenBody, Block, TryCode;
    OfTry(e, cs, traps, view);
    var cs0, slot := WithLocal(cs, Hidden), |cs.locals|;
    var o1 := Gen(e.body, cs0, traps + 1, view);
    var o2 := Gen(e.handler, o1.cs, traps, view);
    Extends(e.body, cs0, traps + 1, view);
    Extends(e.handler, o1.cs, traps, view);
    TryLayout(c.code, lo, o1.code, o2.code, slot);
    var p := lo + 3 + |o1.code|;
    var q := p + 6 + |o2.code|;
    AtSplit3(c.code, p + 6, o2.code, [LOADENV, slot], [TRYH]);
    var inner := s.(marks := s.marks + [Mark(p + 4, s.h)]);
    var tb := GenTyped(e.body, cs0, traps + 1, view, c, n, lo + 3, inner);
    var th := GenTyped(e.handler, o1.cs, traps, view, c, n, p + 6, s);
    FetchJump(c.code, lo, TRAP, |o1.code| + 4);
    FetchByte(c.code, p, TRAP_END);
    FetchJump(c.code, p + 1, JMP, |o2.code| + 5);
    FetchOperand(c.code, p + 4, STOREENV, slot);
    FetchOperand(c.code, q, LOADENV, slot);
    FetchByte(c.code, q + 2, TRYH);
    TryBlock(c, tb, th, lo, p, q, s, slot);
    t := TryTable(tb, th, lo, p, q, s);
  }

  lemma {:induction false} OneTyped(e: Expr, cs: CState, traps: nat, view: View, c: Compiled, n: nat, lo: nat, s: St)
    returns (t: Typing)
    requires e.Set? || e.Return?
    requires |cs.locals| <= MAX_LOCALS && SelfArity(e, n) && n <= c.nLocals
    requires Placed(c, lo, Gen(e, cs, traps, view), s, traps)
    ensures Block(c, t, lo, lo + |Gen(e, cs, traps, view).code|, s, Up(s))
    decreases e, 1
  {
    hide Fetch, At, Gen, GenArgs, GenBody, Block;
    var o := Gen(e.e, cs, traps, view);
    OfOne(e, cs, traps, view);
    var a := lo + |o.code|;
    if e.Return? {
      assert o.code + TrapEnds(traps) + [RET] == o.code + (TrapEnds(traps) + [RET]);
      AtSplit(c.code, lo, o.code, TrapEnds(traps) + [RET]);
      var tx := GenTyped(e.e, cs, traps, view, c, n, lo, s);
      t := ReturnCode(c, tx, lo, a, s);
    } else {
      var name := Symbol(e.s, false);
      var k := ConstIndex(o.cs.consts, name);
      assert WithConst(o.cs, name).consts[k] == name;
      AtSplit(c.code, lo, o.code, Indexed(STOREGLOBAL, STOREGLOBAL_W, k));
      FetchIndexed(c.code, a, STOREGLOBAL, STOREGLOBAL_W, k);
      var tx := GenTyped(e.e, cs, traps, view, c, n, lo, s);
      t := SetBlock(c, tx, lo, a, a + |Indexed(STOREGLOBAL, STOREGLOBAL_W, k)|, k, s);
    }
  }

  lemma {:induction false} LetTyped(e: Expr, cs: CState, traps: nat, view: View, c: Compiled, n: nat, lo: nat, s: St)
    returns (t: Typing)
    requires e.Let? && |cs.locals| <= MAX_LOCALS && SelfArity(e, n) && n <= c.nLocals
    requires Placed(c, lo, Gen(e, cs, traps, view), s, traps)
    ensures Block(c, t, lo, lo + |Gen(e, cs, traps, view).code|, s, Up(s))
    decreases e, 1
  {
    hide Fetch, At, Gen, GenArgs, GenBody, Block;
    OfLet(e, cs, traps, view);
    var o := Gen(e.e, cs, traps, view);
    var found := Find(o.cs.locals, e.s);
    var slot := if found >= 0 then found else |o.cs.locals|;
    AtSplit4(c.code, lo, o.code, [FORCE], [DUP], [STOREENV, slot]);
    var a := lo + |o.code|;
    FetchByte(c.code, a, FORCE);
    FetchByte(c.code, a + 1, DUP);
    FetchOperand(c.code, a + 2, STOREENV, slot);
    var tx := GenTyped(e.e, cs, traps, view, c, n, lo, s);
    t := LetBlock(c, tx, lo, a, slot, s);
  }

  lemma {:induction false} SelfTyped(e: Expr, cs: CState, traps: nat, view: View, c: Compiled, n: nat, lo: nat, s: St)
    returns (t: Typing)
    requires e.SelfCall? && |cs.locals| <= MAX_LOCALS && SelfArity(e, n) && n <= c.nLocals
    requires Placed(c, lo, Gen(e, cs, traps, view), s, traps)
    ensures Block(c, t, lo, lo + |Gen(e, cs, traps, view).code|, s, Up(s))
    decreases e, 1
  {
    hide Fetch, At, Gen, GenArgs, GenBody, Block;
    OfMany(e, cs, traps, view);
    var o := GenArgs(e.args, cs, traps, view);
    var a, k := lo + |o.code|, |e.args|;
    AtSplit(c.code, lo, o.code, [CALLS, k]);
    FetchOperand(c.code, a, CALLS, k);
    var ta := ArgsTyped(e.args, cs, traps, view, c, n, lo, s);
    CallBlock(c, a, a + 2, ICallS(k), s, k);
    Append(c, ta, map[a := UpBy(s, k), a + 2 := Up(s)], lo, a, a + 2, s, UpBy(s, k), Up(s));
    t := ta + map[a := UpBy(s, k), a + 2 := Up(s)];
  }

  lemma CallInstr(code: seq<byte>, ip: nat, known: Value, argc: nat) returns (i: Instr)
    requires argc <= MAX_ARGS && At(code, ip, CallCode(SelectCall(known, argc), argc))
    ensures Fetch(code, ip) == Fetched(i, ip + |CallCode(SelectCall(known, argc), argc)|)
    ensures match i
            case ICall1 => argc == 1
            case ICall2 => argc == 2
            case ICallN(k) => argc == k
            case ICallF(k) => argc == k
            case _ => false
  {
    hide Fetch;
    match SelectCall(known, argc)
    case ByCall1 =>
      FetchByte(code, ip, CALL1);
      i := ICall1;
    case ByCall2 =>
      FetchByte(code, ip, CALL2);
      i := ICall2;
    case ByCallN =>
      FetchOperand(code, ip, CALLN, argc);
      i := ICallN(argc);
    case ByCallF =>
      FetchOperand(code, ip, CALLF, argc);
      i := ICallF(argc);
  }

  lemma {:induction false} CallTyped(e: Expr, cs: CState, traps: nat, view: View, c: Compiled, n: nat, lo: nat, s: St)
    returns (t: Typing)
    requires e.Call? && |cs.locals| <= MAX_LOCALS && SelfArity(e, n) && n <= c.nLocals
    requires Placed(c, lo, Gen(e, cs, traps, view), s, traps)
    ensures Block(c, t, lo, lo + |Gen(e, cs, traps, view).code|, s, Up(s))
    decreases e, 1
  {
    hide Fetch, At, Gen, GenArgs, GenBody, Block, KnownHead, SelectCall, CallCode;
    OfCall(e, cs, traps, view);
    var known, argc := KnownHead(e.head, view), |e.args|;
    var o1 := if known.Fn? then GenConst(known, cs) else Gen(e.head, cs, traps, view);
    var o2 := GenArgs(e.args, o1.cs, traps, view);
    var op := CallCode(SelectCall(known, argc), argc);
    AtSplit3(c.code, lo, o1.code, o2.code, op);
    var a := lo + |o1.code|;
    var b := a + |o2.code|;
    ArgsExtend(e.args, o1.cs, traps, view);
    var th: Typing;
    if known.Fn? {
      th := ConstBlock(c, lo, known, cs, s, traps);
    } else {
      th := GenTyped(e.head, cs, traps, view, c, n, lo, s);
    }
    RootedUp(s, 1);
    var ta := ArgsTyped(e.args, o1.cs, traps, view, c, n, a, Up(s));
    Append(c, th, ta, lo, a, b, s, Up(s), UpBy(Up(s), argc));
    t := CallEnd(c, th + ta, lo, b, known, argc, s);
  }

  lemma CallCodeLength(op: CallOp, argc: byte)
    ensures |CallCode(op, argc)| > 0
  {
  }

  /** The call itself, behind the callee and its operands. */
  lemma CallEnd(c: Compiled, ta: Typing, lo: nat, b: nat, known: Value, argc: nat, s: St) returns (t: Typing)
    requires Rooted(s) && argc <= MAX_ARGS && Block(c, ta, lo, b, s, UpBy(Up(s), argc))
    requires At(c.code, b, CallCode(SelectCall(known, argc), argc))
    ensures Block(c, t, lo, b + |CallCode(SelectCall(known, argc), argc)|, s, Up(s))
  {
    hide Fetch, At, Block, SelectCall, CallCode;
    var i := CallInstr(c.code, b, known, argc);
    var hi := b + |CallCode(SelectCall(known, argc), argc)|;
    assert hi > b by {
      CallCodeLength(SelectCall(known, argc), argc);
    }
    CallBlock(c, b, hi, i, s, argc + 1);
    Append(c, ta, map[b := UpBy(s, argc + 1), hi := Up(s)], lo, b, hi, s, UpBy(s, argc + 1), Up(s));
    t := ta + map[b := UpBy(s, argc + 1), hi := Up(s)];
  }

  /** Every expression leaves one operand more, and the armed traps as they were. */
  lemma {:induction false} GenTyped(e: Expr, cs: CState, traps: nat, view: View, c: Compiled, n: nat, lo: nat, s: St)
    returns (t: Typing)
    requires |cs.locals| <= MAX_LOCALS && SelfArity(e, n) && n <= c.nLocals
    requires Placed(c, lo, Gen(e, cs, traps, view), s, traps)
    ensures Block(c, t, lo, lo + |Gen(e, cs, traps, view).code|, s, Up(s))
    decreases e, 2
  {
    hide Fetch, At, Gen, GenArgs, GenBody, Block;
    match e
    case Lit(v) =>
      OfLeaf(e, cs, traps, view);
      t := ConstBlock(c, lo, v, cs, s, traps);
    case Name(_) =>
      t := NameBlock(c, lo, e, cs, view, s, traps);
    case Set(_, _) =>
      t := OneTyped(e, cs, traps, view, c, n, lo, s);
    case Let(_, _) =>
      t := LetTyped(e, cs, traps, view, c, n, lo, s);
    case IfElse(_, _, _) =>
      t := IfTyped(e, cs, traps, view, c, n, lo, s);
    case Do(es) =>
      OfMany(e, cs, traps, view);
      t := BodyTyped(es, cs, traps, view, c, n, lo, s);
    case Try(_, _) =>
      t := TryTyped(e, cs, traps, view, c, n, lo, s);
    case ReturnNull =>
      OfLeaf(e, cs, traps, view);
      var o := GenConst(Null, cs);
      assert o.code + TrapEnds(traps) + [RET] == o.code + (TrapEnds(traps) + [RET]);
      AtSplit(c.code, lo, o.code, TrapEnds(traps) + [RET]);
      var tx := ConstBlock(c, lo, Null, cs, s, traps);
      t := ReturnCode(c, tx, lo, lo + |o.code|, s);
    case Return(_) =>
      t := OneTyped(e, cs, traps, view, c, n, lo, s);
    case SelfCall(_) =>
      t := SelfTyped(e, cs, traps, view, c, n, lo, s);
    case Call(_, _) =>
      t := CallTyped(e, cs, traps, view, c, n, lo, s);
  }

  lemma {:induction false} ArgsTyped(args: seq<Expr>, cs: CState, traps: nat, view: View, c: Compiled, n: nat, lo: nat, s: St)
    returns (t: Typing)
    requires |cs.locals| <= MAX_LOCALS && SelfArityAll(args, n) && n <= c.nLocals
    requires Placed(c, lo, GenArgs(args, cs, traps, view), s, traps)
    ensures Block(c, t, lo, lo + |GenArgs(args, cs, traps, view).code|, s, UpBy(s, |args|))
    decreases args, 0
  {
    hide Fetch, At, Gen, GenArgs, GenBody, Block;
    OfArgs(args, cs, traps, view);
    if args == [] {
      Nothing(c, lo, s);
      t := map[lo := s];
    } else {
      var last := |args| - 1;
      var o1 := Gen(args[last], cs, traps, view);
      var o2 := GenArgs(args[..last], o1.cs, traps, view);
      AtSplit(c.code, lo, o1.code, o2.code);
      ArgsExtend(args[..last], o1.cs, traps, view);
      var a := lo + |o1.code|;
      RootedUp(s, 1);
      var t1 := GenTyped(args[last], cs, traps, view, c, n, lo, s);
      var t2 := ArgsTyped(args[..last], o1.cs, traps, view, c, n, a, Up(s));
      Append(c, t1, t2, lo, a, a + |o2.code|, s, Up(s), UpBy(s, |args|));
      t := t1 + t2;
    }
  }

  lemma {:induction false} BodyTyped(es: seq<Expr>, cs: CState, traps: nat, view: View, c: Compiled, n: nat, lo: nat, s: St)
    returns (t: Typing)
    requires es != [] && |cs.locals| <= MAX_LOCALS && SelfArityAll(es, n) && n <= c.nLocals
    requires Placed(c, lo, GenBody(es, cs, traps, view), s, traps)
    ensures Block(c, t, lo, lo + |GenBody(es, cs, traps, view).code|, s, Up(s))
    decreases es, 0
  {
    hide Fetch, At, Gen, GenArgs, GenBody, Block;
    OfBody(es, cs, traps, view);
    if |es| == 1 {
      t := GenTyped(es[0], cs, traps, view, c, n, lo, s);
    } else {
      var o1 := Gen(es[0], cs, traps, view);
      var o2 := GenBody(es[1..], o1.cs, traps, view);
      AtSplit3(c.code, lo, o1.code, [POP], o2.code);
      BodyExtends(es[1..], o1.cs, traps, view);
      var a := lo + |o1.code|;
      RootedUp(s, 1);
      FetchByte(c.code, a, POP);
      var t1 := GenTyped(es[0], cs, traps, view, c, n, lo, s);
      One(c, a, a + 1, Up(s), s, IPop);
      Append(c, t1, map[a := Up(s), a + 1 := s], lo, a, a + 1, s, Up(s), s);
      var t2 := BodyTyped(es[1..], o1.cs, traps, view, c, n, a + 1, s);
      Append(c, t1 + map[a := Up(s), a + 1 := s], t2, lo, a + 1, a + 1 + |o2.code|, s, s, Up(s));
      t := t1 + map[a := Up(s), a + 1 := s] + t2;
    }
  }

  /** Every compiled lambda has a table. */
  lemma LambdaTyped(l: Lambda) returns (t: Typing)
    requires GenLambda(l).Emitted? && |GenLambda(l).cs.consts| <= 65536 && SelfArityAll(l.body, |l.params|)
    ensures WellTyped(CompiledOf(l), t)
  {
    hide Fetch, Gen, GenArgs, GenBody, Block, Checks, Sound;
    var c := CompiledOf(l);
    var cs := CState([], Params(l.params));
    var o := GenBody(l.body, cs, 0, l.view);
    var s := St(0, []);
    assert c.code[0..0 + |c.code|] == c.code;
    AtSplit(c.code, 0, o.code, [RET]);
    FetchByte(c.code, |o.code|, RET);
    BodyExtends(l.body, cs, 0, l.view);
    if l.body == [] {
      OfBody([], cs, 0, l.view);
      t := map[0 := s];
      RetChecks(c, t, 0, s);
    } else {
      t := BodyTyped(l.body, cs, 0, l.view, c, |l.params|, 0, s);
      BlockIsAll(c, t, |o.code|, s, Up(s));
    }
  }

  lemma RetChecks(c: Compiled, t: Typing, pc: nat, s: St)
    requires s.marks == [] && Fetch(c.code, pc) == Fetched(IRet, pc + 1)
    ensures Has(t, pc, s) ==> Checks(c, t, pc)
    ensures Sound(t, [], s)
  {
  }

  lemma BlockIsAll(c: Compiled, t: Typing, hi: nat, a: St, b: St)
    requires Block(c, t, 0, hi, a, b) && a == St(0, [])
    requires b.marks == [] && Fetch(c.code, hi) == Fetched(IRet, hi + 1)
    ensures WellTyped(c, t)
  {
    RetChecks(c, t, hi, b);
    hide Checks, Sound;
  }
}
