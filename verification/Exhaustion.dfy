/** Two lambdas that call themselves without end.  One runs out of return frames
    and loses nothing; the other runs out of room for an operand and loses it. */
module Exhaustion {
  import opened Lang
  import opened Bytes
  import opened Bytecode
  import opened CodeGen
  import opened Machine
  import opened Correctness
  import GenForms

  const LIST := Fn(Vary, 0)

  /** `(fn [] (list (self) 1 1))`. */
  const WIDE := Lambda([], [Call(Lit(LIST), [SelfCall([]), Lit(Int(1)), Lit(Int(1))])], map[])

  const WIDE_CODE: seq<byte> := [LOADCONST, 0, LOADCONST, 1, LOADCONST, 1, CALLS, 0, CALLN, 3, RET]

  /** `(fn [] (self))`. */
  const DEEP := Lambda([], [SelfCall([])], map[])

  const DEEP_CODE: seq<byte> := [CALLS, 0, RET]

  const PROG: Program := map[0 := WIDE, 1 := DEEP]

  lemma DeepCompiles()
    ensures GenLambda(DEEP) == Emitted(DEEP_CODE, CState([], []))
  {
    hide Gen, GenArgs, GenBody;
    var cs := CState([], []);
    assert Params([]) == [];
    GenForms.OfBody(DEEP.body, cs, 0, map[]);
    GenForms.OfMany(SelfCall([]), cs, 0, map[]);
    GenForms.OfArgs([], cs, 0, map[]);
    assert [] + [CALLS, 0] + [RET] == DEEP_CODE;
  }

  lemma Ones(cs: CState)
    requires cs == CState([LIST], []) || cs == CState([LIST, Int(1)], [])
    ensures GenConst(Int(1), cs) == Emitted([LOADCONST, 1], CState([LIST, Int(1)], []))
  {
    assert ConstIndex([Int(1)], Int(1)) == 0;
    assert cs.consts[0] == LIST;
  }

  lemma WideCompiles()
    ensures GenLambda(WIDE) == Emitted(WIDE_CODE, CState([LIST, Int(1)], []))
  {
    hide Gen, GenArgs, GenBody;
    var none, one, two := CState([], []), CState([LIST], []), CState([LIST, Int(1)], []);
    var args := [SelfCall([]), Lit(Int(1)), Lit(Int(1))];
    assert Params([]) == [];
    GenForms.OfBody(WIDE.body, none, 0, map[]);
    GenForms.OfCall(WIDE.body[0], none, 0, map[]);
    assert GenConst(LIST, none) == Emitted([LOADCONST, 0], one);
    GenForms.OfArgs(args, one, 0, map[]);
    GenForms.OfLeaf(args[2], one, 0, map[]);
    Ones(one);
    assert args[..2] == [SelfCall([]), Lit(Int(1))];
    GenForms.OfArgs(args[..2], two, 0, map[]);
    GenForms.OfLeaf(args[1], two, 0, map[]);
    Ones(two);
    assert args[..2][..1] == [SelfCall([])];
    GenForms.OfArgs([SelfCall([])], two, 0, map[]);
    GenForms.OfMany(SelfCall([]), two, 0, map[]);
    assert [SelfCall([])][..0] == [];
    GenForms.OfArgs([], two, 0, map[]);
    assert [LOADCONST, 0] + ([LOADCONST, 1] + ([LOADCONST, 1] + (([] + [CALLS, 0]) + []))) + [CALLN, 3] + [RET] == WIDE_CODE;
  }

  lemma Linked()
    ensures Callable(PROG, 0, []) && Callable(PROG, 1, [])
    ensures Link(PROG) == map[0 := Compiled(WIDE_CODE, [LIST, Int(1)], 0, 0), 1 := Compiled(DEEP_CODE, [], 0, 0)]
  {
    hide Gen, GenBody, GenLambda;
    WideCompiles();
    DeepCompiles();
    assert SelfArity(SelfCall([]), 0) && SelfArity(WIDE.body[0], 0);
    assert SelfArityAll(WIDE.body, 0) && SelfArityAll(DEEP.body, 0);
    assert WellFormed(PROG) && PoolsFit(PROG);
  }

  /** `OP_CALLS` without operands in a frame without locals. */
  lemma SelfStep(img: Image, h: Host, m: Machine, next: nat)
    requires m.st.Running? && m.x.fn in img && Fetch(img[m.x.fn].code, m.x.ip) == Fetched(ICallS(0), next)
    requires m.x.nLocals == 0 && m.x.fp <= |m.x.ps| && m.x.ts == [] && m.outer == []
    ensures var x := m.x;
            Step(img, h, Limits, m) ==
            if |x.rs| < VM_STACK_SIZE && |x.ps| < VM_STACK_SIZE then
              m.(x := x.(ip := 0, fp := |x.ps|, rs := x.rs + [SelfFrame(x.fp, next)]))
            else m.(x := x.(ip := next), st := Done(ErrObj(Limit)), tally := Fired(m.tally))
  {
    hide Fetch;
    assert Popped(m.x.ps, 0) == [];
    assert m.x.ps[..|m.x.ps| - 0] + AsSlots([]) + Unsets(0) == m.x.ps;
  }

  lemma ConstStep(img: Image, h: Host, m: Machine, k: nat, next: nat)
    requires m.st.Running? && m.x.fn in img && Fetch(img[m.x.fn].code, m.x.ip) == Fetched(ILoadConst(k), next)
    requires k < |img[m.x.fn].consts| && m.x.ts == [] && m.outer == []
    ensures var x, v := m.x.(ip := next), img[m.x.fn].consts[k];
            Step(img, h, Limits, m) ==
            if |x.ps| < VM_STACK_SIZE then m.(x := x.(ps := x.ps + [Holds(v)]))
            else m.(x := x, st := Done(ErrObj(Limit)), tally := Missed(m.tally, v))
  {
    hide Fetch;
  }

  lemma OneMore(img: Image, h: Host, m: Machine, n: nat)
    ensures Run(img, h, Limits, m, n + 1) == Step(img, h, Limits, Run(img, h, Limits, m, n))
  {
    hide Step;
    RunAdd(img, h, Limits, m, n, 1);
    var r := Run(img, h, Limits, m, n);
    assert Run(img, h, Limits, r, 1) == Run(img, h, Limits, Step(img, h, Limits, r), 0);
  }

  /** The return frames `d` self calls leave, each with `width` operands in its frame. */
  function Frames(d: nat, width: nat, back: nat): (r: seq<Ctx>)
    ensures |r| == d
  {
    if d == 0 then [] else Frames(d - 1, width, back) + [SelfFrame((d - 1) * width, back)]
  }

  /** `DEEP`, `d` calls deep. */
  function DeepAt(d: nat, w: World): Machine {
    Machine(Exec(1, 0, 0, 0, [], Frames(d, 0, 2), []), [], w, Running, CLEAN)
  }

  lemma DeepStep(h: Host, w: World, d: nat)
    ensures var m := DeepAt(d, w);
            Step(Link(PROG), h, Limits, m) ==
            if d < VM_STACK_SIZE then DeepAt(d + 1, w)
            else m.(x := m.x.(ip := 2), st := Done(ErrObj(Limit)), tally := Tally(true, multiset{}))
  {
    hide Link, Step, Callable;
    Linked();
    assert Fetch(DEEP_CODE, 0) == Fetched(ICallS(0), 2);
    SelfStep(Link(PROG), h, DeepAt(d, w), 2);
  }

  lemma {:induction false} Deeper(h: Host, w: World, d: nat)
    requires d <= VM_STACK_SIZE
    ensures Run(Link(PROG), h, Limits, DeepAt(0, w), d) == DeepAt(d, w)
  {
    hide Link, Step, DeepAt, Run;
    if d == 0 {
      Started(Link(PROG), h, DeepAt(0, w));
    } else {
      Deeper(h, w, d - 1);
      OneMore(Link(PROG), h, DeepAt(0, w), d - 1);
      DeepStep(h, w, d - 1);
    }
  }

  lemma Started(img: Image, h: Host, m: Machine)
    ensures Run(img, h, Limits, m, 0) == m
  {
  }

  /** Too many calls: the check fires, and nothing is lost. */
  lemma DeepLosesNothing(h: Host, w: World)
    ensures Callable(PROG, 1, [])
    ensures var end := Run(Link(PROG), h, Limits, Boot(Link(PROG), 1, [], w), VM_STACK_SIZE + 1);
            end.st == Done(ErrObj(Limit)) && end.w == w && end.tally == Tally(true, multiset{})
  {
    hide Link, Step, Run, Callable;
    Linked();
    assert AsSlots([]) + Unsets(0) == [];
    assert Boot(Link(PROG), 1, [], w) == DeepAt(0, w);
    Deeper(h, w, VM_STACK_SIZE);
    OneMore(Link(PROG), h, DeepAt(0, w), VM_STACK_SIZE);
    DeepStep(h, w, VM_STACK_SIZE);
  }

  /** The operands `d` calls of `WIDE` have left behind. */
  function Waiting(d: nat): (r: seq<Slot>)
    ensures |r| == 3 * d
  {
    if d == 0 then [] else Waiting(d - 1) + [Holds(LIST), Holds(Int(1)), Holds(Int(1))]
  }

  /** `WIDE`, `d` calls deep. */
  function WideAt(d: nat, w: World): Machine {
    Machine(Exec(0, 0, 3 * d, 0, Waiting(d), Frames(d, 3, 8), []), [], w, Running, CLEAN)
  }

  function Held(m: Machine, n: nat): Machine
    requires n <= 3
  {
    m.(x := m.x.(ip := 2 * n, ps := m.x.ps + [Holds(LIST), Holds(Int(1)), Holds(Int(1))][..n]))
  }

  /** One operand of the next call of `list`, if there is room for it. */
  lemma WideStep(h: Host, w: World, d: nat, n: nat)
    requires n < 3
    ensures var m, v := Held(WideAt(d, w), n), if n == 0 then LIST else Int(1);
            Step(Link(PROG), h, Limits, m) ==
            if 3 * d + n < VM_STACK_SIZE then Held(WideAt(d, w), n + 1)
            else m.(x := m.x.(ip := 2 * n + 2), st := Done(ErrObj(Limit)), tally := Tally(true, multiset{v}))
  {
    hide Link, Step, Callable;
    Linked();
    var k := if n == 0 then 0 else 1;
    assert Fetch(WIDE_CODE, 0) == Fetched(ILoadConst(0), 2);
    assert Fetch(WIDE_CODE, 2) == Fetched(ILoadConst(1), 4);
    assert Fetch(WIDE_CODE, 4) == Fetched(ILoadConst(1), 6);
    ConstStep(Link(PROG), h, Held(WideAt(d, w), n), k, 2 * n + 2);
    var s := [Holds(LIST), Holds(Int(1)), Holds(Int(1))];
    assert s[..n] + [s[n]] == s[..n + 1];
  }

  /** And then the call. */
  lemma WideCalls(h: Host, w: World, d: nat)
    requires d < 341
    ensures Step(Link(PROG), h, Limits, Held(WideAt(d, w), 3)) == WideAt(d + 1, w)
  {
    hide Link, Step, Callable;
    Linked();
    assert Fetch(WIDE_CODE, 6) == Fetched(ICallS(0), 8);
    SelfStep(Link(PROG), h, Held(WideAt(d, w), 3), 8);
  }

  lemma {:induction false} Wider(h: Host, w: World, d: nat, n: nat)
    requires d <= 341 && n <= 3 && 3 * d + n <= VM_STACK_SIZE
    ensures Run(Link(PROG), h, Limits, WideAt(0, w), 4 * d + n) == Held(WideAt(d, w), n)
    decreases d, n
  {
    hide Link, Step, Run;
    if n > 0 {
      Wider(h, w, d, n - 1);
      OneMore(Link(PROG), h, WideAt(0, w), 4 * d + (n - 1));
      WideStep(h, w, d, n - 1);
    } else if d > 0 {
      Wider(h, w, d - 1, 3);
      OneMore(Link(PROG), h, WideAt(0, w), 4 * (d - 1) + 3);
      WideCalls(h, w, d - 1);
    } else {
      Started(Link(PROG), h, WideAt(0, w));
    }
  }

  /** Too many operands: the push of the last one overflows, and it is lost. */
  lemma WideLosesOne(h: Host, w: World)
    ensures Callable(PROG, 0, [])
    ensures var end := Run(Link(PROG), h, Limits, Boot(Link(PROG), 0, [], w), 1366);
            end.st == Done(ErrObj(Limit)) && end.w == w && end.tally == Tally(true, multiset{Int(1)})
  {
    hide Link, Step, Run, Callable;
    Linked();
    assert AsSlots([]) + Unsets(0) == [];
    assert Boot(Link(PROG), 0, [], w) == WideAt(0, w);
    Wider(h, w, 341, 1);
    OneMore(Link(PROG), h, WideAt(0, w), 1365);
    WideStep(h, w, 341, 1);
  }
}
