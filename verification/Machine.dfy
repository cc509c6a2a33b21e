/** `vm_exec` as a step function on values.  `Stuck` marks what the C code
    would do without checking: running off the code, popping the frame's own
    locals, or using a constant or a slot that does not exist. */
module Machine {
  import opened Lang
  import opened Bytecode
  import opened CodeGen

  const VM_STACK_SIZE: nat := 1024
  const VM_TRAP_SIZE: nat := 16

  /** The executor's arrays are bounded; `Unlimited` is the same executor with room for everything. */
  datatype Caps = Unlimited | Limits

  /** A return frame.  A self call saves no function: the running one stays. */
  datatype Ctx = SelfFrame(fp: nat, ip: nat) | FnFrame(fn: LamId, fp: nat, ip: nat)

  datatype Trap = Trap(rp: nat, sp: nat, handler: nat, fn: LamId, fp: nat, nLocals: nat)

  /** One invocation of `vm_exec`: `ps`, `rs` and `ts` are its three stacks up
      to `sp`, `rp` and `tp`. */
  datatype Exec = Exec(fn: LamId, ip: nat, fp: nat, nLocals: nat,
                       ps: seq<Slot>, rs: seq<Ctx>, ts: seq<Trap>)

  datatype Status = Running | Done(v: Value) | Stuck

  /** Whether some capacity check has fired, and the values whose pushes have overflowed. */
  datatype Tally = Tally(fired: bool, lost: multiset<Value>)

  const CLEAN: Tally := Tally(false, multiset{})

  function Fired(t: Tally): Tally {
    t.(fired := true)
  }

  function Missed(t: Tally, v: Value): Tally {
    Tally(true, t.lost + multiset{v})
  }

  /** `outer` holds the invocations suspended in a `try` handler. */
  datatype Machine = Machine(x: Exec, outer: seq<Exec>, w: World, st: Status, tally: Tally)

  function Take<T>(s: seq<T>, n: nat): seq<T> {
    if n <= |s| then s[..n] else s
  }

  function Height(x: Exec): nat {
    x.fp + x.nLocals
  }

  function Entry(id: LamId, c: Compiled, args: seq<Slot>): Exec {
    Exec(id, 0, 0, c.nLocals, args + Unsets(c.nLocals - |args|), [], [])
  }

  function Unsets(n: int): (r: seq<Slot>)
    ensures |r| == (if n < 0 then 0 else n)
  {
    seq(if n < 0 then 0 else n, _ => Unset)
  }

  function AsSlots(vs: seq<Value>): (r: seq<Slot>)
    ensures |r| == |vs|
  {
    seq(|vs|, i requires 0 <= i < |vs| => Holds(vs[i]))
  }

  function Jammed(m: Machine): Machine {
    m.(st := Stuck)
  }

  const LIMIT: Failure := Failure(false, Limit)

  function ErrorOf(c: ErrCode): Failure {
    Failure(true, c)
  }

  /** `vm_error_cleanup`: resume the innermost trap, or end this invocation
      with the error and hand it to the one suspended below. */
  function Unwind(caps: Caps, m: Machine, f: Failure): Machine
    decreases |m.outer|, |m.x.ts|
  {
    var x := m.x;
    if |x.ts| > 0 then
      var t := x.ts[|x.ts| - 1];
      var ps := Take(x.ps, t.sp);
      var x1 := Exec(t.fn, t.handler, t.fp, t.nLocals, ps, Take(x.rs, t.rp), x.ts[..|x.ts| - 1]);
      var m1 := m.(x := x1, w := m.w.(pending := Unset));
      if caps.Limits? && |ps| >= VM_STACK_SIZE then
        Unwind(caps, m1.(tally := Missed(m.tally, Payload(f, m.w))), LIMIT)
      else m1.(x := x1.(ps := ps + [Holds(Payload(f, m.w))]))
    else if m.outer == [] then m.(st := Done(FinalError(f)))
    else
      var last := |m.outer| - 1;
      Unwind(caps, m.(x := m.outer[last], outer := m.outer[..last]), Failure(true, f.code))
  }

  function HitLimit(caps: Caps, m: Machine): Machine {
    Unwind(caps, m.(tally := Fired(m.tally)), LIMIT)
  }

  function Push(caps: Caps, m: Machine, v: Value): Machine {
    if caps.Limits? && |m.x.ps| >= VM_STACK_SIZE then Unwind(caps, m.(tally := Missed(m.tally, v)), LIMIT)
    else m.(x := m.x.(ps := m.x.ps + [Holds(v)]))
  }

  /** The result of an operation that may fail: raised if it is an error object, else pushed. */
  function Deliver(caps: Caps, m: Machine, v: Value): Machine {
    if v.ErrObj? then Unwind(caps, m, Failure(true, v.code)) else Push(caps, m, v)
  }

  /** `op_ret` once the result is known: drop the frame and go back to its caller.
      A caller in this invocation gets any result as a value; an invocation
      waiting in `op_tryh` takes an error object for an error. */
  function PopFrame(img: Image, caps: Caps, m: Machine, v: Value): Machine {
    var x := m.x;
    var ps := Take(x.ps, x.fp);
    if x.rs == [] then
      if m.outer == [] then m.(x := x.(ps := ps), st := Done(v))
      else
        var last := |m.outer| - 1;
        Deliver(caps, m.(x := m.outer[last], outer := m.outer[..last]), v)
    else
      var c := x.rs[|x.rs| - 1];
      var rs := x.rs[..|x.rs| - 1];
      match c
      case SelfFrame(fp, ip) => Push(caps, m.(x := x.(ps := ps, rs := rs, fp := fp, ip := ip)), v)
      case FnFrame(fn, fp, ip) =>
        if fn !in img then Jammed(m)
        else Push(caps, m.(x := Exec(fn, ip, fp, img[fn].nLocals, ps, rs, x.ts)), v)
  }

  function Target(next: nat, off: int): int {
    next + off
  }

  /** The topmost `n` operands, topmost first. */
  function Popped(ps: seq<Slot>, n: nat): (r: seq<Value>)
    requires n <= |ps| && forall i :: |ps| - n <= i < |ps| ==> ps[i].Holds?
    ensures |r| == n
  {
    seq(n, i requires 0 <= i < n => ps[|ps| - 1 - i].v)
  }

  /** `n` operands can be popped without touching the frame's locals. */
  predicate Operands(x: Exec, n: nat) {
    && Height(x) + n <= |x.ps|
    && forall i :: |x.ps| - n <= i < |x.ps| ==> x.ps[i].Holds?
  }

  function Drop(x: Exec, n: nat): Exec
    requires n <= |x.ps|
  {
    x.(ps := x.ps[..|x.ps| - n])
  }

  function CallHost(h: Host, caps: Caps, m: Machine, op: CallOp, f: Value, vs: seq<Value>): Machine {
    var (r, w) := h.invoke(op, f, vs, m.w);
    Deliver(caps, m.(w := w), r)
  }

  function StepCallHost(h: Host, caps: Caps, m: Machine, op: CallOp, n: nat): Machine {
    if !Operands(m.x, n + 1) then Jammed(m)
    else
      var vs := Popped(m.x.ps, n + 1);
      CallHost(h, caps, m.(x := Drop(m.x, n + 1)), op, vs[n], vs[..n])
  }

  /** `op_callf`. */
  function StepCallF(img: Image, h: Host, caps: Caps, m: Machine, n: nat): Machine {
    if !Operands(m.x, n + 1) then Jammed(m)
    else
      var vs := Popped(m.x.ps, n + 1);
      var f := vs[n];
      var m1 := m.(x := Drop(m.x, n + 1));
      if f.Lam? && f.id in img then
        var c := img[f.id];
        var x := m1.x;
        if caps.Limits? && (|x.rs| >= VM_STACK_SIZE || |x.ps| + c.nLocals >= VM_STACK_SIZE) then HitLimit(caps, m1)
        else if n != c.arity then Unwind(caps, m1, ErrorOf(Arity))
        else m1.(x := Exec(f.id, 0, |x.ps|, c.nLocals,
                           x.ps + AsSlots(vs[..n]) + Unsets(c.nLocals - n),
                           x.rs + [FnFrame(x.fn, x.fp, x.ip)], x.ts))
      else if f.Fn? && ((f.kind.Unary? && n != 1) || (f.kind.Binary? && n != 2)) then
        Unwind(caps, m1, ErrorOf(Arity))
      else CallHost(h, caps, m1, ByCallF, f, vs[..n])
  }

  /** `op_calls`: the operands become the first slots of the new frame. */
  function StepCallS(caps: Caps, m: Machine, n: nat): Machine {
    var x := m.x;
    if !Operands(x, n) then Jammed(m)
    else if caps.Limits? && (|x.rs| >= VM_STACK_SIZE || |x.ps| + x.nLocals >= VM_STACK_SIZE) then HitLimit(caps, m)
    else
      m.(x := x.(ip := 0, fp := |x.ps| - n,
                 ps := x.ps[..|x.ps| - n] + AsSlots(Popped(x.ps, n)) + Unsets(x.nLocals - n),
                 rs := x.rs + [SelfFrame(x.fp, x.ip)]))
  }

  /** `op_tryh`: a lambda runs in an invocation of its own, and a value that cannot be called is the answer. */
  function StepTryH(img: Image, h: Host, caps: Caps, m: Machine): Machine {
    if !Operands(m.x, 2) then Jammed(m)
    else
      var err := m.x.ps[|m.x.ps| - 1].v;
      var f := m.x.ps[|m.x.ps| - 2].v;
      var m1 := m.(x := Drop(m.x, 2));
      if f.Lam? && f.id in img then
        if img[f.id].arity != 1 then Unwind(caps, m1, ErrorOf(Arity))
        else m1.(x := Entry(f.id, img[f.id], [Holds(err)]), outer := m1.outer + [m1.x])
      else if f.Lam? || (f.Fn? && f.kind.Unary?) then CallHost(h, caps, m1, ByHandler, f, [err])
      else Deliver(caps, m1, f)
  }

  function StepTrap(caps: Caps, m: Machine, off: int): Machine {
    var x := m.x;
    if Target(x.ip, off) < 0 then Jammed(m)
    else if caps.Limits? && |x.ts| >= VM_TRAP_SIZE then HitLimit(caps, m)
    else m.(x := x.(ts := x.ts + [Trap(|x.rs|, |x.ps|, Target(x.ip, off), x.fn, x.fp, x.nLocals)]))
  }

  function StepRet(img: Image, caps: Caps, m: Machine): Machine {
    var x := m.x;
    if |x.ps| <= Height(x) then PopFrame(img, caps, m, Null)
    else if x.ps[|x.ps| - 1].Unset? then Jammed(m)
    else PopFrame(img, caps, m, x.ps[|x.ps| - 1].v)
  }

  function StepStoreGlobal(caps: Caps, m: Machine, name: Value): Machine {
    if !Operands(m.x, 1) || !name.Symbol? then Jammed(m)
    else
      match SetGlobal(m.w.globals, name.s, m.x.ps[|m.x.ps| - 1].v)
      case NotBound(code) => Unwind(caps, m.(x := Drop(m.x, 1)), ErrorOf(code))
      case Rebound(globals) => m.(w := m.w.(globals := globals))
  }

  /** One instruction; `m.x.ip` is already past it. */
  function Apply(img: Image, h: Host, caps: Caps, m: Machine, i: Instr): Machine
    requires m.x.fn in img
  {
    var x := m.x;
    var consts := img[x.fn].consts;
    match i
    case IRet => StepRet(img, caps, m)
    case IJmp(off) =>
      if Target(x.ip, off) < 0 then Jammed(m) else m.(x := x.(ip := Target(x.ip, off)))
    case IJmpF(off) =>
      if !Operands(x, 1) || Target(x.ip, off) < 0 then Jammed(m)
      else
        var x1 := Drop(x, 1);
        if Truthy(x.ps[|x.ps| - 1].v) then m.(x := x1) else m.(x := x1.(ip := Target(x.ip, off)))
    case ILoadConst(k) =>
      if k < |consts| then Push(caps, m, consts[k]) else Jammed(m)
    case ILoadEnv(s) =>
      if s >= x.nLocals || Height(x) > |x.ps| then Jammed(m)
      else if x.ps[x.fp + s].Holds? then Push(caps, m, x.ps[x.fp + s].v)
      else Push(caps, m, Int(0))
    case IStoreEnv(s) =>
      if s >= x.nLocals || !Operands(x, 1) then Jammed(m)
      else
        var x1 := Drop(x, 1);
        m.(x := x1.(ps := x1.ps[x.fp + s := x.ps[|x.ps| - 1]]))
    case IPop =>
      if |x.ps| > Height(x) then m.(x := Drop(x, 1)) else m
    case IResolve(k) =>
      if k >= |consts| || !consts[k].Symbol? then Jammed(m)
      else if consts[k].s in m.w.globals then Deliver(caps, m, m.w.globals[consts[k].s])
      else Unwind(caps, m, Failure(false, NameErr))
    case ICall1 => StepCallHost(h, caps, m, ByCall1, 1)
    case ICall2 => StepCallHost(h, caps, m, ByCall2, 2)
    case ICallN(n) =>
      if n > MAX_ARGS then Unwind(caps, m, Failure(false, Domain))
      else StepCallHost(h, caps, m, ByCallN, n)
    case ICallF(n) =>
      if n > MAX_ARGS then Unwind(caps, m, Failure(false, Domain))
      else StepCallF(img, h, caps, m, n)
    case ICallS(n) => StepCallS(caps, m, n)
    case IDup =>
      if Operands(x, 1) then Push(caps, m, x.ps[|x.ps| - 1].v) else Jammed(m)
    case ITrap(off) => StepTrap(caps, m, off)
    case ITrapEnd =>
      if |x.ts| > 0 then m.(x := x.(ts := x.ts[..|x.ts| - 1])) else m
    case IStoreGlobal(k) =>
      if k < |consts| then StepStoreGlobal(caps, m, consts[k]) else Jammed(m)
    case ITryH => StepTryH(img, h, caps, m)
    case IForce =>
      if Operands(x, 1) then m else Jammed(m)
  }

  function Step(img: Image, h: Host, caps: Caps, m: Machine): Machine {
    if !m.st.Running? then m
    else if m.x.fn !in img then Jammed(m)
    else
      match Fetch(img[m.x.fn].code, m.x.ip)
      case NoInstr => Jammed(m)
      case Fetched(i, next) => Apply(img, h, caps, m.(x := m.x.(ip := next)), i)
  }

  function Run(img: Image, h: Host, caps: Caps, m: Machine, n: nat): Machine
    decreases n
  {
    if n == 0 then m else Run(img, h, caps, Step(img, h, caps, m), n - 1)
  }

  /** `vm_exec` on a lambda of the right arity. */
  function Boot(img: Image, id: LamId, args: seq<Value>, w: World): Machine
    requires id in img
  {
    Machine(Entry(id, img[id], AsSlots(args)), [], w, Running, CLEAN)
  }

  lemma {:induction false} RunAdd(img: Image, h: Host, caps: Caps, m: Machine, a: nat, b: nat)
    ensures Run(img, h, caps, m, a + b) == Run(img, h, caps, Run(img, h, caps, m, a), b)
    decreases a
  {
    if a > 0 {
      RunAdd(img, h, caps, Step(img, h, caps, m), a - 1, b);
    }
  }

  lemma {:induction false} RunHalted(img: Image, h: Host, caps: Caps, m: Machine, n: nat)
    requires !m.st.Running?
    ensures Run(img, h, caps, m, n) == m
    decreases n
  {
    if n > 0 {
      RunHalted(img, h, caps, m, n - 1);
    }
  }
}
