/** What it means for the executor, started in front of the code of an
    expression, to do what the reference evaluator says the expression does. */
module SimDefs {
  import opened Lang
  import opened Bytes
  import opened Bytecode
  import opened CodeGen
  import opened Reference
  import opened Machine
  import opened Scope

  /** The image is the compiled program and the environment runs one of its lambdas. */
  ghost predicate Setup(env: Env, img: Image) {
    && env.Valid() && WellFormed(env.prog) && PoolsFit(env.prog)
    && img == Link(env.prog) && env.native == img.Keys && env.self in img
  }

  /** The frame of `x` implements the variables on the stack `ps`. */
  ghost predicate Implements(locals: seq<Local>, vars: Vars, x: Exec, ps: seq<Slot>) {
    Frame(locals, vars, ps, x.fp, x.nLocals)
  }

  /** `ps` keeps everything of `x.ps` but the slots of declared names and of
      names declared later. */
  ghost predicate Keeps(locals: seq<Local>, x: Exec, ps: seq<Slot>) {
    && |x.ps| <= |ps|
    && (forall i :: 0 <= i < |x.ps| && !(x.fp <= i < Height(x)) ==> ps[i] == x.ps[i])
    && (forall j :: 0 <= j < |locals| && locals[j].Hidden? && x.fp + j < |x.ps| ==> ps[x.fp + j] == x.ps[x.fp + j])
  }

  /** `m1` is further on in the same frame of the same invocation. */
  ghost predicate Advances(locals: seq<Local>, m: Machine, m1: Machine) {
    && m1 == m.(x := m.x.(ip := m1.x.ip, ps := m1.x.ps), w := m1.w)
    && Height(m.x) <= |m.x.ps| && Keeps(locals, m.x, m1.x.ps)
  }

  /** The expression has left its value on the stack and control behind its code. */
  ghost predicate Yields(m: Machine, mx: Machine, a: seq<Local>, b: seq<Local>, r: Res, len: nat) {
    && r.o.Val?
    && Advances(a, m, mx)
    && mx.x.ip == m.x.ip + len && mx.w == r.w
    && |mx.x.ps| == |m.x.ps| + 1 && mx.x.ps[|m.x.ps|] == Holds(r.o.v)
    && Implements(b, r.vars, m.x, mx.x.ps)
  }

  /** An error was raised in this frame or above it; the frame is still there. */
  ghost predicate Raises(m: Machine, mx: Machine, a: seq<Local>, b: seq<Local>, r: Res) {
    && mx.st.Running? && mx.w == r.w && mx.outer == m.outer && mx.tally == m.tally
    && mx.x.ts == m.x.ts && m.x.rs <= mx.x.rs
    && Keeps(a, m.x, mx.x.ps) && Implements(b, r.vars, m.x, mx.x.ps)
  }

  /** A `return` has removed the traps of this frame and is about to pop it. */
  ghost predicate Leaves(m: Machine, mx: Machine, traps: nat, w: World) {
    && mx.st.Running? && mx.w == w && mx.outer == m.outer && mx.tally == m.tally
    && mx.x.fn == m.x.fn && mx.x.fp == m.x.fp && mx.x.nLocals == m.x.nLocals && mx.x.rs == m.x.rs
    && traps <= |m.x.ts| && mx.x.ts == m.x.ts[..|m.x.ts| - traps]
    && m.x.fp <= |m.x.ps| && m.x.fp <= |mx.x.ps| && mx.x.ps[..m.x.fp] == m.x.ps[..m.x.fp]
  }

  /** `n` steps of the executor from `m` match the outcome `r` of the evaluator.
      Running out of call depth `k` is matched by at least `k` steps without an end. */
  ghost predicate Simulates(img: Image, h: Host, m: Machine, n: nat, mx: Machine,
                            a: seq<Local>, b: seq<Local>, traps: nat, len: nat, k: nat, r: Res) {
    var end := Run(img, h, Unlimited, m, n);
    match r.o
    case Val(_) => end == mx && Yields(m, mx, a, b, r, len)
    case Ret(v) => end == PopFrame(img, Unlimited, mx, v) && Leaves(m, mx, traps, r.w)
    case Fail(f) => end == Unwind(Unlimited, mx, f) && Raises(m, mx, a, b, r)
    case Timeout => n >= k && end.st.Running?
  }

  /** The operands lie on the stack, the leftmost on top, above `base`. */
  ghost predicate YieldsArgs(m: Machine, mx: Machine, base: seq<Slot>, a: seq<Local>, b: seq<Local>, r: ArgsRes, len: nat) {
    && r.Args?
    && Advances(a, m, mx)
    && mx.x.ip == m.x.ip + len && mx.w == r.w
    && |base| == |m.x.ps| && |mx.x.ps| == |base| + |r.vs| && mx.x.ps[..|base|] == base
    && (forall i :: 0 <= i < |r.vs| ==> mx.x.ps[|mx.x.ps| - 1 - i] == Holds(r.vs[i]))
    && Implements(b, r.vars, m.x, base)
  }

  /** Control stands in front of `code`, whose constants and slots are those of the running lambda. */
  ghost predicate Loaded(env: Env, img: Image, m: Machine, code: seq<byte>, cs: CState) {
    && m.st.Running? && m.x.fn == env.self && env.self in img
    && m.x.nLocals == img[env.self].nLocals
    && At(img[env.self].code, m.x.ip, code)
    && cs.consts <= img[env.self].consts && |img[env.self].consts| <= 65536
    && |cs.locals| <= m.x.nLocals
  }

  lemma AdvancesTrans(a: seq<Local>, b: seq<Local>, m: Machine, m1: Machine, m2: Machine)
    requires a <= b && Advances(a, m, m1) && Advances(b, m1, m2)
    ensures Advances(a, m, m2)
  {
    KeepsTrans(a, b, m, m1, m2.x.ps);
  }

  lemma KeepsTrans(a: seq<Local>, b: seq<Local>, m: Machine, m1: Machine, ps: seq<Slot>)
    requires a <= b && Advances(a, m, m1) && Keeps(b, m1.x, ps)
    ensures Keeps(a, m.x, ps)
  {
    forall j | 0 <= j < |a| && a[j].Hidden? && m.x.fp + j < |m.x.ps|
      ensures ps[m.x.fp + j] == m.x.ps[m.x.fp + j]
    {
      assert b[j].Hidden?;
    }
  }

  /** An abrupt outcome after some progress is the abrupt outcome of the whole. */
  lemma Lift(img: Image, h: Host, m: Machine, n1: nat, m1: Machine, n2: nat, mx: Machine,
             a: seq<Local>, a1: seq<Local>, b: seq<Local>, traps: nat, len1: nat, len: nat, k: nat, r: Res)
    requires Run(img, h, Unlimited, m, n1) == m1 && Advances(a, m, m1) && a <= a1
    requires !r.o.Val? && Simulates(img, h, m1, n2, mx, a1, b, traps, len1, k, r)
    ensures Simulates(img, h, m, n1 + n2, mx, a, b, traps, len, k, r)
  {
    hide Run;
    RunAdd(img, h, Unlimited, m, n1, n2);
    match r.o
    case Ret(v) =>
      assert m1.x.ps[..m.x.fp] == m.x.ps[..m.x.fp];
    case Fail(f) =>
      KeepsTrans(a, a1, m, m1, mx.x.ps);
    case Timeout =>
  }

  /** The names declared by code that was skipped stay unset. */
  lemma Widen(img: Image, h: Host, m: Machine, n: nat, mx: Machine, a: seq<Local>, b: seq<Local>, c: seq<Local>,
              traps: nat, len1: nat, len: nat, k: nat, r: Res)
    requires !r.o.Val? && Simulates(img, h, m, n, mx, a, b, traps, len1, k, r)
    requires Fresh(b, c) && |c| <= m.x.nLocals
    ensures Simulates(img, h, m, n, mx, a, c, traps, len, k, r)
  {
    if r.o.Fail? {
      FrameGrows(b, c, r.vars, mx.x.ps, m.x.fp, m.x.nLocals);
    }
  }

  /** The stack of a machine that yields, without the value. */
  lemma BelowValue(m: Machine, mx: Machine, a: seq<Local>, b: seq<Local>, r: Res, len: nat) returns (base: seq<Slot>)
    requires Yields(m, mx, a, b, r, len)
    ensures mx.x.ps == base + [Holds(r.o.v)] && |base| == |m.x.ps|
    ensures Keeps(a, m.x, base) && Implements(b, r.vars, m.x, base)
  {
    base := mx.x.ps[..|m.x.ps|];
    assert mx.x.ps == base + [mx.x.ps[|m.x.ps|]];
    FrameSame(b, r.vars, mx.x.ps, base, m.x.fp, m.x.nLocals);
  }

  /** A value on top of a stack that kept the frame. */
  lemma PutValue(m: Machine, mx: Machine, base: seq<Slot>, a: seq<Local>, b: seq<Local>, r: Res, len: nat)
    requires r.o.Val? && mx == m.(x := m.x.(ip := m.x.ip + len, ps := base + [Holds(r.o.v)]), w := r.w)
    requires |base| == |m.x.ps| && Keeps(a, m.x, base) && Implements(b, r.vars, m.x, base)
    ensures Yields(m, mx, a, b, r, len)
  {
    FrameSame(b, r.vars, base, mx.x.ps, m.x.fp, m.x.nLocals);
  }

  /** Storing into a slot that is not hidden keeps what has to be kept. */
  lemma KeepsStore(a: seq<Local>, x: Exec, ps: seq<Slot>, slot: nat, v: Slot)
    requires Keeps(a, x, ps) && slot < x.nLocals && Height(x) <= |x.ps|
    requires slot < |a| ==> a[slot].Named?
    ensures Keeps(a, x, ps[x.fp + slot := v])
  {
  }

  /** A value computed after some progress, seen from the start. */
  lemma Chain(img: Image, h: Host, m: Machine, n1: nat, m1: Machine, n2: nat, mx: Machine,
              a: seq<Local>, a1: seq<Local>, b: seq<Local>, len1: nat, r: Res)
    returns (base: seq<Slot>)
    requires Run(img, h, Unlimited, m, n1) == m1 && Advances(a, m, m1) && a <= a1 && |m1.x.ps| == |m.x.ps|
    requires Run(img, h, Unlimited, m1, n2) == mx && Yields(m1, mx, a1, b, r, len1)
    ensures Run(img, h, Unlimited, m, n1 + n2) == mx
    ensures mx == m.(x := m.x.(ip := m1.x.ip + len1, ps := base + [Holds(r.o.v)]), w := r.w)
    ensures |base| == |m.x.ps| && Keeps(a, m.x, base) && Implements(b, r.vars, m.x, base)
  {
    hide Run;
    RunAdd(img, h, Unlimited, m, n1, n2);
    base := BelowValue(m1, mx, a1, b, r, len1);
    KeepsTrans(a, a1, m, m1, base);
  }

  /** Operands computed on the stack, or an abrupt outcome on the way. */
  ghost predicate SimulatesArgs(img: Image, h: Host, m: Machine, n: nat, mx: Machine, base: seq<Slot>,
                                a: seq<Local>, b: seq<Local>, traps: nat, len: nat, k: nat, r: ArgsRes) {
    match r
    case Args(_, _, _) => Run(img, h, Unlimited, m, n) == mx && YieldsArgs(m, mx, base, a, b, r, len)
    case Stopped(r1) => !r1.o.Val? && Simulates(img, h, m, n, mx, a, b, traps, len, k, r1)
  }

  /** `n` steps from the entry of a lambda match its invocation: it is about to
      drop its frame, or an error has been raised in it or above it. */
  ghost predicate SimulatesInvoke(img: Image, h: Host, m: Machine, n: nat, mx: Machine, k: nat, c: CallRes) {
    var end := Run(img, h, Unlimited, m, n);
    match c.o
    case Val(v) => end == PopFrame(img, Unlimited, mx, v) && Leaves(m, mx, 0, c.w)
    case Ret(_) => false
    case Fail(f) => end == Unwind(Unlimited, mx, f) && Breaks(m, mx, c.w)
    case Timeout => n + 1 >= k && end.st.Running?
  }

  /** An error was raised in this frame or above it. */
  ghost predicate Breaks(m: Machine, mx: Machine, w: World) {
    && mx.st.Running? && mx.w == w && mx.outer == m.outer && mx.tally == m.tally
    && mx.x.ts == m.x.ts && m.x.rs <= mx.x.rs
    && m.x.fp <= |m.x.ps| && m.x.fp <= |mx.x.ps| && mx.x.ps[..m.x.fp] == m.x.ps[..m.x.fp]
  }

  /** The entry of a lambda: its operands in the first slots of a fresh frame. */
  ghost predicate Entered(env: Env, img: Image, m: Machine, vs: seq<Value>) {
    && m.st.Running? && m.x.fn == env.self && env.self in img && m.x.ip == 0
    && m.x.nLocals == img[env.self].nLocals && |m.x.ps| == Height(m.x) && |vs| <= m.x.nLocals
    && (forall i :: 0 <= i < |vs| ==> m.x.ps[m.x.fp + i] == Holds(vs[i]))
    && (forall i :: m.x.fp + |vs| <= i < Height(m.x) ==> m.x.ps[i].Unset?)
  }

  /** The start of a stack that keeps what has to be kept. */
  lemma KeepsBelow(a: seq<Local>, x: Exec, ps: seq<Slot>, base: seq<Slot>)
    requires Keeps(a, x, ps) && |base| == |x.ps| && ps[..|base|] == base
    ensures Keeps(a, x, base)
  {
  }

  lemma KeepsLess(a: seq<Local>, b: seq<Local>, x: Exec, y: Exec, ps: seq<Slot>)
    requires a <= b && Keeps(b, y, ps) && x.ps == y.ps && x.fp == y.fp && x.nLocals == y.nLocals
    ensures Keeps(a, x, ps)
  {
    forall j | 0 <= j < |a| && a[j].Hidden? && x.fp + j < |x.ps|
      ensures ps[x.fp + j] == x.ps[x.fp + j]
    {
      assert b[j].Hidden?;
    }
  }
}
