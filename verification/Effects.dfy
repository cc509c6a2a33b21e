/** What an instruction comes to: a push, an error, or neither.  With that it can
    be said which instructions raise, and which pushes overflow. */
module Effects {
  import opened Lang
  import opened Bytecode
  import opened CodeGen
  import opened Machine

  /** `m` is the state in which the value is pushed or the error raised. */
  datatype Effect = Goes | Pushes(m: Machine, v: Value) | Raises(m: Machine, f: Failure)

  /** What an operation that may fail has returned. */
  function Returned(m: Machine, v: Value): Effect {
    if v.ErrObj? then Raises(m, Failure(true, v.code)) else Pushes(m, v)
  }

  function Asked(h: Host, m: Machine, op: CallOp, f: Value, vs: seq<Value>): Effect {
    var (v, w) := h.invoke(op, f, vs, m.w);
    Returned(m.(w := w), v)
  }

  function AskedAt(h: Host, m: Machine, op: CallOp, n: nat): Effect {
    if !Operands(m.x, n + 1) then Goes
    else
      var vs := Popped(m.x.ps, n + 1);
      Asked(h, m.(x := Drop(m.x, n + 1)), op, vs[n], vs[..n])
  }

  function Exceeded(m: Machine): Effect {
    Raises(m.(tally := Fired(m.tally)), LIMIT)
  }

  function CallEffect(img: Image, h: Host, caps: Caps, m: Machine, n: nat): Effect {
    if !Operands(m.x, n + 1) then Goes
    else
      var vs := Popped(m.x.ps, n + 1);
      var f, m1 := vs[n], m.(x := Drop(m.x, n + 1));
      if f.Lam? && f.id in img then
        if caps.Limits? && (|m1.x.rs| >= VM_STACK_SIZE || |m1.x.ps| + img[f.id].nLocals >= VM_STACK_SIZE) then Exceeded(m1)
        else if n != img[f.id].arity then Raises(m1, ErrorOf(Arity))
        else Goes
      else if f.Fn? && ((f.kind.Unary? && n != 1) || (f.kind.Binary? && n != 2)) then Raises(m1, ErrorOf(Arity))
      else Asked(h, m1, ByCallF, f, vs[..n])
  }

  function HandlerEffect(img: Image, h: Host, m: Machine): Effect {
    if !Operands(m.x, 2) then Goes
    else
      var err, f := m.x.ps[|m.x.ps| - 1].v, m.x.ps[|m.x.ps| - 2].v;
      var m1 := m.(x := Drop(m.x, 2));
      if f.Lam? && f.id in img then
        if img[f.id].arity != 1 then Raises(m1, ErrorOf(Arity)) else Goes
      else if f.Lam? || (f.Fn? && f.kind.Unary?) then Asked(h, m1, ByHandler, f, [err])
      else Returned(m1, f)
  }

  /** A return pushes its result in the frame it goes back to; in an invocation
      that waits for its handler it may raise it. */
  function ReturnEffect(img: Image, m: Machine, v: Value): Effect {
    var x := m.x;
    var ps := Take(x.ps, x.fp);
    if x.rs == [] then
      if m.outer == [] then Goes
      else Returned(m.(x := m.outer[|m.outer| - 1], outer := m.outer[..|m.outer| - 1]), v)
    else
      match x.rs[|x.rs| - 1]
      case SelfFrame(fp, ip) => Pushes(m.(x := x.(ps := ps, rs := x.rs[..|x.rs| - 1], fp := fp, ip := ip)), v)
      case FnFrame(fn, fp, ip) =>
        if fn !in img then Goes
        else Pushes(m.(x := Exec(fn, ip, fp, img[fn].nLocals, ps, x.rs[..|x.rs| - 1], x.ts)), v)
  }

  /** Of one instruction; `m.x.ip` is already past it. */
  function EffectOf(img: Image, h: Host, caps: Caps, m: Machine, i: Instr): Effect
    requires m.x.fn in img
  {
    var x, consts := m.x, img[m.x.fn].consts;
    match i
    case IRet =>
      if |x.ps| <= Height(x) then ReturnEffect(img, m, Null)
      else if x.ps[|x.ps| - 1].Unset? then Goes
      else ReturnEffect(img, m, x.ps[|x.ps| - 1].v)
    case ILoadConst(k) =>
      if k < |consts| then Pushes(m, consts[k]) else Goes
    case ILoadEnv(s) =>
      if s >= x.nLocals || Height(x) > |x.ps| then Goes
      else Pushes(m, if x.ps[x.fp + s].Holds? then x.ps[x.fp + s].v else Int(0))
    case IDup =>
      if Operands(x, 1) then Pushes(m, x.ps[|x.ps| - 1].v) else Goes
    case IResolve(k) =>
      if k >= |consts| || !consts[k].Symbol? then Goes
      else if consts[k].s in m.w.globals then Returned(m, m.w.globals[consts[k].s])
      else Raises(m, Failure(false, NameErr))
    case ICall1 => AskedAt(h, m, ByCall1, 1)
    case ICall2 => AskedAt(h, m, ByCall2, 2)
    case ICallN(n) =>
      if n > MAX_ARGS then Raises(m, Failure(false, Domain)) else AskedAt(h, m, ByCallN, n)
    case ICallF(n) =>
      if n > MAX_ARGS then Raises(m, Failure(false, Domain)) else CallEffect(img, h, caps, m, n)
    case ICallS(n) =>
      if Operands(x, n) && caps.Limits? && (|x.rs| >= VM_STACK_SIZE || |x.ps| + x.nLocals >= VM_STACK_SIZE) then Exceeded(m)
      else Goes
    case ITrap(off) =>
      if Target(x.ip, off) >= 0 && caps.Limits? && |x.ts| >= VM_TRAP_SIZE then Exceeded(m) else Goes
    case IStoreGlobal(k) =>
      if k >= |consts| || !Operands(x, 1) || !consts[k].Symbol? then Goes
      else
        (match SetGlobal(m.w.globals, consts[k].s, x.ps[|x.ps| - 1].v)
         case NotBound(code) => Raises(m.(x := Drop(x, 1)), ErrorOf(code))
         case Rebound(_) => Goes)
    case ITryH => HandlerEffect(img, h, m)
    case _ => Goes
  }

  /** `r` is what becomes of `e`; what neither pushes nor raises loses nothing. */
  ghost predicate Settles(caps: Caps, m: Machine, e: Effect, r: Machine) {
    match e
    case Goes => r.tally == m.tally
    case Pushes(m1, v) => r == Push(caps, m1, v) && m1.tally == m.tally
    case Raises(m1, f) => r == Unwind(caps, m1, f) && m1.tally.lost == m.tally.lost
  }

  lemma ReturnedSettles(caps: Caps, m: Machine, v: Value)
    ensures Settles(caps, m, Returned(m, v), Deliver(caps, m, v))
  {
    hide Push, Unwind;
  }

  lemma AskedSettles(h: Host, caps: Caps, m: Machine, op: CallOp, f: Value, vs: seq<Value>)
    ensures Settles(caps, m, Asked(h, m, op, f, vs), CallHost(h, caps, m, op, f, vs))
  {
    hide Push, Unwind;
    var (v, w) := h.invoke(op, f, vs, m.w);
    ReturnedSettles(caps, m.(w := w), v);
  }

  lemma AskedAtSettles(h: Host, caps: Caps, m: Machine, op: CallOp, n: nat)
    ensures Settles(caps, m, AskedAt(h, m, op, n), StepCallHost(h, caps, m, op, n))
  {
    hide Push, Unwind, CallHost, Asked;
    if Operands(m.x, n + 1) {
      var vs := Popped(m.x.ps, n + 1);
      AskedSettles(h, caps, m.(x := Drop(m.x, n + 1)), op, vs[n], vs[..n]);
    }
  }

  lemma CallSettles(img: Image, h: Host, caps: Caps, m: Machine, n: nat)
    ensures Settles(caps, m, CallEffect(img, h, caps, m, n), StepCallF(img, h, caps, m, n))
  {
    hide Push, Unwind, CallHost, Asked;
    if Operands(m.x, n + 1) {
      var vs := Popped(m.x.ps, n + 1);
      AskedSettles(h, caps, m.(x := Drop(m.x, n + 1)), ByCallF, vs[n], vs[..n]);
    }
  }

  lemma HandlerSettles(img: Image, h: Host, caps: Caps, m: Machine)
    ensures Settles(caps, m, HandlerEffect(img, h, m), StepTryH(img, h, caps, m))
  {
    hide Push, Unwind, CallHost, Asked, Returned, Deliver;
    if Operands(m.x, 2) {
      var err, f := m.x.ps[|m.x.ps| - 1].v, m.x.ps[|m.x.ps| - 2].v;
      var m1 := m.(x := Drop(m.x, 2));
      AskedSettles(h, caps, m1, ByHandler, f, [err]);
      ReturnedSettles(caps, m1, f);
    }
  }

  lemma ReturnSettles(img: Image, caps: Caps, m: Machine, v: Value)
    ensures Settles(caps, m, ReturnEffect(img, m, v), PopFrame(img, caps, m, v))
  {
    hide Push, Unwind, Returned, Deliver;
    if m.x.rs == [] && m.outer != [] {
      ReturnedSettles(caps, m.(x := m.outer[|m.outer| - 1], outer := m.outer[..|m.outer| - 1]), v);
    }
  }

  /** Every instruction comes to its effect. */
  lemma EffectSettles(img: Image, h: Host, caps: Caps, m: Machine, i: Instr)
    requires m.x.fn in img
    ensures Settles(caps, m, EffectOf(img, h, caps, m, i), Apply(img, h, caps, m, i))
  {
    hide Push, Unwind, Deliver, Returned, PopFrame, StepCallF, StepCallHost, StepTryH, ReturnEffect, AskedAt, CallEffect, HandlerEffect, SetGlobal;
    var x, consts := m.x, img[m.x.fn].consts;
    match i
    case IRet =>
      ReturnSettles(img, caps, m, Null);
      if |x.ps| > Height(x) && x.ps[|x.ps| - 1].Holds? {
        ReturnSettles(img, caps, m, x.ps[|x.ps| - 1].v);
      }
    case IResolve(k) =>
      if k < |consts| && consts[k].Symbol? && consts[k].s in m.w.globals {
        ReturnedSettles(caps, m, m.w.globals[consts[k].s]);
      }
    case ICall1 => AskedAtSettles(h, caps, m, ByCall1, 1);
    case ICall2 => AskedAtSettles(h, caps, m, ByCall2, 2);
    case ICallN(n) => AskedAtSettles(h, caps, m, ByCallN, n);
    case ICallF(n) => CallSettles(img, h, caps, m, n);
    case ITryH => HandlerSettles(img, h, caps, m);
    case _ =>
  }

  /** Of the instruction a machine is about to execute. */
  function NextEffect(img: Image, h: Host, caps: Caps, m: Machine): Effect {
    if !m.st.Running? || m.x.fn !in img then Goes
    else
      match Fetch(img[m.x.fn].code, m.x.ip)
      case NoInstr => Goes
      case Fetched(i, next) => EffectOf(img, h, caps, m.(x := m.x.(ip := next)), i)
  }

  lemma StepSettles(img: Image, h: Host, caps: Caps, m: Machine)
    ensures Settles(caps, m, NextEffect(img, h, caps, m), Step(img, h, caps, m))
  {
    hide Push, Unwind, Apply, EffectOf;
    if m.st.Running? && m.x.fn in img {
      match Fetch(img[m.x.fn].code, m.x.ip)
      case NoInstr =>
      case Fetched(i, next) => EffectSettles(img, h, caps, m.(x := m.x.(ip := next)), i);
    }
  }

  // What is lost.

  /** The innermost trap, in this invocation or one that waits, resumes with its operand stack full. */
  predicate CaughtFull(m: Machine)
    decreases |m.outer|
  {
    if m.x.ts != [] then |Take(m.x.ps, m.x.ts[|m.x.ts| - 1].sp)| >= VM_STACK_SIZE
    else m.outer != [] && CaughtFull(m.(x := m.outer[|m.outer| - 1], outer := m.outer[..|m.outer| - 1]))
  }

  lemma {:induction false} UnwindLoses(m: Machine, f: Failure)
    ensures m.tally.lost <= Unwind(Limits, m, f).tally.lost
    ensures Unwind(Limits, m, f).tally.lost == m.tally.lost <==> !CaughtFull(m)
    decreases |m.outer|, |m.x.ts|
  {
    var x := m.x;
    if |x.ts| > 0 {
      var t := x.ts[|x.ts| - 1];
      var x1 := Exec(t.fn, t.handler, t.fp, t.nLocals, Take(x.ps, t.sp), Take(x.rs, t.rp), x.ts[..|x.ts| - 1]);
      var v := Payload(f, m.w);
      UnwindLoses(m.(x := x1, w := m.w.(pending := Unset), tally := Missed(m.tally, v)), LIMIT);
      MoreIsNotSame(m.tally.lost, v);
    } else if m.outer != [] {
      var last := |m.outer| - 1;
      UnwindLoses(m.(x := m.outer[last], outer := m.outer[..last]), Failure(true, f.code));
    }
  }

  lemma MoreIsNotSame(a: multiset<Value>, v: Value)
    ensures a <= a + multiset{v}
    ensures forall b :: a + multiset{v} <= b ==> b != a
  {
    assert (a + multiset{v})[v] == a[v] + 1;
  }

  /** The next instruction pushes onto a full operand stack, its value or, having failed, its error. */
  predicate Overflows(img: Image, h: Host, m: Machine) {
    match NextEffect(img, h, Limits, m)
    case Goes => false
    case Pushes(m1, _) => |m1.x.ps| >= VM_STACK_SIZE
    case Raises(m1, _) => CaughtFull(m1)
  }

  lemma StepLoses(img: Image, h: Host, m: Machine)
    ensures m.tally.lost <= Step(img, h, Limits, m).tally.lost
    ensures Step(img, h, Limits, m).tally.lost == m.tally.lost <==> !Overflows(img, h, m)
  {
    hide Step, Unwind, CaughtFull, NextEffect;
    StepSettles(img, h, Limits, m);
    match NextEffect(img, h, Limits, m)
    case Goes =>
    case Pushes(m1, v) =>
      UnwindLoses(m1.(tally := Missed(m1.tally, v)), LIMIT);
      MoreIsNotSame(m1.tally.lost, v);
    case Raises(m1, f) => UnwindLoses(m1, f);
  }

  /** A run loses nothing just when none of its pushes overflows. */
  lemma {:induction false} RunLoses(img: Image, h: Host, m: Machine, n: nat)
    ensures m.tally.lost <= Run(img, h, Limits, m, n).tally.lost
    ensures Run(img, h, Limits, m, n).tally.lost == m.tally.lost
      <==> forall k :: 0 <= k < n ==> !Overflows(img, h, Run(img, h, Limits, m, k))
    decreases n
  {
    hide Step, Overflows;
    if n > 0 {
      RunLoses(img, h, m, n - 1);
      var last := Run(img, h, Limits, m, n - 1);
      RunAdd(img, h, Limits, m, n - 1, 1);
      assert Run(img, h, Limits, last, 1) == Run(img, h, Limits, Step(img, h, Limits, last), 0);
      StepLoses(img, h, last);
    }
  }
}
