/** The executor keeps to the tables: what holds in every state of every run,
    whatever the capacities and whatever the host does. */
module StackSafety {
  import opened Lang
  import opened Bytecode
  import opened CodeGen
  import opened Machine
  import opened StackTypes
  import opened StackCode

  type Tables = map<LamId, Typing>

  ghost predicate Tabled(img: Image, ty: Tables) {
    && img.Keys == ty.Keys
    && forall id :: id in img ==> WellTyped(img[id], ty[id]) && img[id].arity <= img[id].nLocals
  }

  /** Values, not unset slots, in `[lo, hi)`. */
  ghost predicate Solid(ps: seq<Slot>, lo: nat, hi: nat) {
    hi <= |ps| && forall i :: lo <= i < hi ==> ps[i].Holds?
  }

  /** The traps on the stack that stand for the marks of a frame. */
  function TrapsOf(marks: seq<Mark>, rp: nat, fn: LamId, fp: nat, n: nat): (ts: seq<Trap>)
    ensures |ts| == |marks|
  {
    seq(|marks|, i requires 0 <= i < |marks| => Trap(rp, fp + n + marks[i].height, marks[i].handler, fn, fp, n))
  }

  ghost predicate Armed(ts: seq<Trap>, marks: seq<Mark>, rp: nat, fn: LamId, fp: nat, n: nat) {
    |marks| <= |ts| && ts[|ts| - |marks|..] == TrapsOf(marks, rp, fn, fp, n)
  }

  /** The frame that is to go on once the frame at `fp` is gone: its own, or that of a caller. */
  function Caller(img: Image, fn: LamId, fp: nat, ps: seq<Slot>, rs: seq<Ctx>, ts: seq<Trap>): (x: Exec)
    requires rs != [] && fp <= |ps|
    requires rs[|rs| - 1].FnFrame? ==> rs[|rs| - 1].fn in img
    requires fn in img
    ensures x.fn in img && |x.rs| == |rs| - 1
  {
    var c := rs[|rs| - 1];
    var f := if c.SelfFrame? then fn else c.fn;
    Exec(f, c.ip, c.fp, img[f].nLocals, ps[..fp], rs[..|rs| - 1], ts)
  }

  /** Under the frame of `fn` at `fp` lie the frames of its callers, each waiting
      for one operand where its table says so, each with its own traps armed. */
  ghost predicate Below(img: Image, ty: Tables, fn: LamId, fp: nat, ps: seq<Slot>, rs: seq<Ctx>, ts: seq<Trap>)
    requires Tabled(img, ty) && fn in img
    decreases |rs|
  {
    if rs == [] then fp == 0 && ts == []
    else
      && fp <= |ps| && (rs[|rs| - 1].FnFrame? ==> rs[|rs| - 1].fn in img)
      && var x := Caller(img, fn, fp, ps, rs, ts);
         && Waits(ty, x)
         && Below(img, ty, x.fn, x.fp, x.ps, x.rs, ts[..|ts| - |ty[x.fn][x.ip].marks|])
  }

  /** One operand short of what the table says, with the traps it says armed. */
  ghost predicate Waits(ty: Tables, x: Exec)
    ensures Waits(ty, x) ==> x.fn in ty && x.ip in ty[x.fn] && |ty[x.fn][x.ip].marks| <= |x.ts|
  {
    && x.fn in ty && x.ip in ty[x.fn]
    && var s := ty[x.fn][x.ip];
       && Pops(s, 1) && |x.ps| + 1 == Height(x) + s.h && Solid(x.ps, Height(x), |x.ps|)
       && Armed(x.ts, s.marks, |x.rs|, x.fn, x.fp, x.nLocals)
  }

  /** The frame is intact down to its innermost trap: enough to unwind. */
  ghost predicate Guarded(img: Image, ty: Tables, x: Exec, marks: seq<Mark>)
    requires Tabled(img, ty)
  {
    && x.fn in img && x.nLocals == img[x.fn].nLocals
    && Height(x) + Floor(marks) <= |x.ps| && Solid(x.ps, Height(x), |x.ps|)
    && Armed(x.ts, marks, |x.rs|, x.fn, x.fp, x.nLocals)
    && (exists h :: Sound(ty[x.fn], [], St(h, marks)))
    && Below(img, ty, x.fn, x.fp, x.ps, x.rs, x.ts[..|x.ts| - |marks|])
  }

  /** The frame has the height and the traps of `s`. */
  ghost predicate Fits(img: Image, ty: Tables, x: Exec, s: St)
    requires Tabled(img, ty)
  {
    Guarded(img, ty, x, s.marks) && |x.ps| == Height(x) + s.h
  }

  /** In front of an instruction, as its table says. */
  ghost predicate Live(img: Image, ty: Tables, x: Exec)
    requires Tabled(img, ty)
  {
    x.fn in img && x.ip in ty[x.fn] && Fits(img, ty, x, ty[x.fn][x.ip])
  }

  /** Waiting for one operand to be pushed. */
  ghost predicate Suspended(img: Image, ty: Tables, x: Exec)
    requires Tabled(img, ty)
  {
    x.fn in img && x.ip in ty[x.fn] && Waits(ty, x) && Guarded(img, ty, x, ty[x.fn][x.ip].marks)
  }

  ghost predicate Disciplined(img: Image, ty: Tables, m: Machine)
    requires Tabled(img, ty)
  {
    && (forall i :: 0 <= i < |m.outer| ==> Suspended(img, ty, m.outer[i]))
    && (m.st.Running? ==> Live(img, ty, m.x))
    && !m.st.Stuck?
  }

  lemma SameLambdas(img: Image, ty: Tables)
    requires Tabled(img, ty)
    ensures img.Keys == ty.Keys
  {
  }

  lemma TableSound(img: Image, ty: Tables, fn: LamId, ip: nat)
    requires Tabled(img, ty) && fn in img && ip in ty[fn]
    ensures Sound(ty[fn], [], ty[fn][ip]) && Checks(img[fn], ty[fn], ip)
  {
    hide Sound, Checks;
  }

  /** Only the part of the stack under the frame matters to what lies below it. */
  lemma BelowPrefix(img: Image, ty: Tables, fn: LamId, fp: nat, ps: seq<Slot>, qs: seq<Slot>, rs: seq<Ctx>, ts: seq<Trap>)
    requires Tabled(img, ty) && fn in img && Below(img, ty, fn, fp, ps, rs, ts)
    requires fp <= |ps| && fp <= |qs| && ps[..fp] == qs[..fp]
    ensures Below(img, ty, fn, fp, qs, rs, ts)
  {
    hide Tabled, Waits;
    if rs != [] {
      assert Caller(img, fn, fp, ps, rs, ts) == Caller(img, fn, fp, qs, rs, ts);
    }
  }

  lemma WaitsSuspended(img: Image, ty: Tables, x: Exec)
    requires Tabled(img, ty) && x.fn in img && x.nLocals == img[x.fn].nLocals && Waits(ty, x)
    requires Below(img, ty, x.fn, x.fp, x.ps, x.rs, x.ts[..|x.ts| - |ty[x.fn][x.ip].marks|])
    ensures Suspended(img, ty, x)
  {
    hide Tabled, Below, Sound, Solid, Armed;
    TableSound(img, ty, x.fn, x.ip);
    var s := ty[x.fn][x.ip];
    assert s == St(s.h, s.marks);
  }

  lemma CallerWaits(img: Image, ty: Tables, fn: LamId, fp: nat, ps: seq<Slot>, rs: seq<Ctx>, ts: seq<Trap>)
    requires Tabled(img, ty) && fn in img && rs != [] && Below(img, ty, fn, fp, ps, rs, ts)
    ensures fp <= |ps| && (rs[|rs| - 1].FnFrame? ==> rs[|rs| - 1].fn in img)
    ensures var x := Caller(img, fn, fp, ps, rs, ts);
      Waits(ty, x) && Below(img, ty, x.fn, x.fp, x.ps, x.rs, ts[..|ts| - |ty[x.fn][x.ip].marks|])
  {
    hide Tabled, Waits, Caller;
  }

  /** A suspended caller is under every frame but the first. */
  lemma CallerSuspended(img: Image, ty: Tables, fn: LamId, fp: nat, ps: seq<Slot>, rs: seq<Ctx>, ts: seq<Trap>)
    requires Tabled(img, ty) && fn in img && rs != [] && Below(img, ty, fn, fp, ps, rs, ts)
    ensures fp <= |ps| && (rs[|rs| - 1].FnFrame? ==> rs[|rs| - 1].fn in img)
    ensures Suspended(img, ty, Caller(img, fn, fp, ps, rs, ts))
  {
    hide Tabled, Waits, Below, Suspended;
    CallerWaits(img, ty, fn, fp, ps, rs, ts);
    WaitsSuspended(img, ty, Caller(img, fn, fp, ps, rs, ts));
  }

  lemma TopArmed(x: Exec, marks: seq<Mark>)
    requires Armed(x.ts, marks, |x.rs|, x.fn, x.fp, x.nLocals) && marks != []
    ensures x.ts != []
    ensures var k := marks[|marks| - 1];
      x.ts[|x.ts| - 1] == Trap(|x.rs|, Height(x) + k.height, k.handler, x.fn, x.fp, x.nLocals)
    ensures Armed(x.ts[..|x.ts| - 1], marks[..|marks| - 1], |x.rs|, x.fn, x.fp, x.nLocals)
    ensures x.ts[..|x.ts| - 1][..|x.ts| - |marks|] == x.ts[..|x.ts| - |marks|]
  {
    var top := x.ts[|x.ts| - |marks|..];
    assert top[|marks| - 1] == x.ts[|x.ts| - 1];
    var less := x.ts[..|x.ts| - 1];
    assert less[|x.ts| - |marks|..] == top[..|marks| - 1];
  }

  /** The trap on top fits the frame or one of its callers. */
  lemma {:induction false} TopTrap(img: Image, ty: Tables, x: Exec, marks: seq<Mark>)
    requires Tabled(img, ty) && Guarded(img, ty, x, marks) && x.ts != []
    ensures x.ts[|x.ts| - 1].rp <= |x.rs| && x.ts[|x.ts| - 1].sp <= |x.ps|
    ensures marks == [] ==> x.rs != [] && x.ts[|x.ts| - 1].rp < |x.rs| && x.ts[|x.ts| - 1].sp <= x.fp <= |x.ps|
    decreases |x.rs|
  {
    hide Tabled, Sound, Waits;
    if marks != [] {
      TopArmed(x, marks);
    } else {
      assert x.ts[..|x.ts|] == x.ts;
      hide Caller;
      CallerSuspended(img, ty, x.fn, x.fp, x.ps, x.rs, x.ts);
      var y := Caller(img, x.fn, x.fp, x.ps, x.rs, x.ts);
      CallerParts(img, x.fn, x.fp, x.ps, x.rs, x.ts);
      TopTrap(img, ty, y, ty[y.fn][y.ip].marks);
    }
  }

  lemma CallerParts(img: Image, fn: LamId, fp: nat, ps: seq<Slot>, rs: seq<Ctx>, ts: seq<Trap>)
    requires rs != [] && fp <= |ps| && fn in img
    requires rs[|rs| - 1].FnFrame? ==> rs[|rs| - 1].fn in img
    ensures var x := Caller(img, fn, fp, ps, rs, ts);
      x.ts == ts && x.ps == ps[..fp] && x.rs == rs[..|rs| - 1]
  {
  }

  /** What a trap of the frame resumes. */
  lemma Resumed(img: Image, ty: Tables, x: Exec, marks: seq<Mark>, y: Exec)
    requires Tabled(img, ty) && Guarded(img, ty, x, marks) && marks != []
    requires var t := x.ts[|x.ts| - 1];
      y == Exec(t.fn, t.handler, t.fp, t.nLocals, Take(x.ps, t.sp), Take(x.rs, t.rp), x.ts[..|x.ts| - 1])
    ensures Suspended(img, ty, y)
  {
    hide Tabled, Sound, Below, Solid;
    SameLambdas(img, ty);
    TopArmed(x, marks);
    var n := |marks|;
    var k := marks[n - 1];
    var h :| Sound(ty[x.fn], [], St(h, marks));
    HandlerHas(ty[x.fn], h, marks);
    FloorBelow(ty[x.fn], h, marks);
    assert y == Exec(x.fn, k.handler, x.fp, x.nLocals, x.ps[..Height(x) + k.height], x.rs, x.ts[..|x.ts| - 1]);
    SolidLess(x.ps, Height(x), Height(x) + k.height);
    assert y.ts[..|y.ts| - |marks[..n - 1]|] == x.ts[..|x.ts| - n];
    BelowPrefix(img, ty, x.fn, x.fp, x.ps, y.ps, x.rs, x.ts[..|x.ts| - n]);
    WaitsSuspended(img, ty, y);
  }

  lemma SolidLess(ps: seq<Slot>, lo: nat, hi: nat)
    requires Solid(ps, lo, |ps|) && lo <= hi <= |ps|
    ensures Solid(ps[..hi], lo, hi)
  {
  }

  lemma HandlerHas(t: Typing, h: nat, marks: seq<Mark>)
    requires Sound(t, [], St(h, marks)) && marks != []
    ensures var k := marks[|marks| - 1]; Has(t, k.handler, St(k.height + 1, marks[..|marks| - 1]))
  {
  }

  lemma FloorBelow(t: Typing, h: nat, marks: seq<Mark>)
    requires Sound(t, [], St(h, marks)) && marks != []
    ensures Floor(marks[..|marks| - 1]) <= marks[|marks| - 1].height
  {
  }

  /** Raising an error in a guarded frame ends in a disciplined state, through
      any number of frames, handlers and failed resumptions. */
  lemma {:induction false} UnwindDisciplined(img: Image, ty: Tables, caps: Caps, m: Machine, f: Failure, marks: seq<Mark>)
    requires Tabled(img, ty) && Guarded(img, ty, m.x, marks) && m.st.Running?
    requires forall i :: 0 <= i < |m.outer| ==> Suspended(img, ty, m.outer[i])
    ensures Disciplined(img, ty, Unwind(caps, m, f))
    decreases |m.outer|, |m.x.ts|, |m.x.rs|
  {
    hide Tabled, Guarded, Below, Live, Suspended;
    var x := m.x;
    if |x.ts| > 0 {
      if marks == [] {
        var y := ToCaller(img, ty, x);
        UnwindDisciplined(img, ty, caps, m.(x := y), f, ty[y.fn][y.ip].marks);
        TrapAlike(caps, m, y, f);
      } else {
        var t := x.ts[|x.ts| - 1];
        var ps := Take(x.ps, t.sp);
        var y := Exec(t.fn, t.handler, t.fp, t.nLocals, ps, Take(x.rs, t.rp), x.ts[..|x.ts| - 1]);
        Resumed(img, ty, x, marks, y);
        var m1 := m.(x := y, w := m.w.(pending := Unset));
        SuspendedGuarded(img, ty, y);
        if caps.Limits? && |ps| >= VM_STACK_SIZE {
          UnwindDisciplined(img, ty, caps, m1.(tally := Missed(m.tally, Payload(f, m.w))), LIMIT, ty[y.fn][y.ip].marks);
        } else {
          Pushed(img, ty, y, Payload(f, m.w));
        }
      }
    } else if m.outer != [] {
      var last := |m.outer| - 1;
      var y := m.outer[last];
      SuspendedGuarded(img, ty, y);
      UnwindDisciplined(img, ty, caps, m.(x := y, outer := m.outer[..last]), Failure(true, f.code), ty[y.fn][y.ip].marks);
    }
  }

  lemma SuspendedGuarded(img: Image, ty: Tables, x: Exec)
    requires Tabled(img, ty) && Suspended(img, ty, x)
    ensures x.fn in ty && x.ip in ty[x.fn] && Guarded(img, ty, x, ty[x.fn][x.ip].marks)
  {
    hide Tabled, Guarded;
  }

  /** The caller of a frame without traps, when there are traps further down. */
  lemma ToCaller(img: Image, ty: Tables, x: Exec) returns (y: Exec)
    requires Tabled(img, ty) && Guarded(img, ty, x, []) && x.ts != []
    ensures y.fn in ty && y.ip in ty[y.fn] && Guarded(img, ty, y, ty[y.fn][y.ip].marks)
    ensures y.ts == x.ts && |y.rs| < |x.rs| && y.rs <= x.rs && y.ps <= x.ps
    ensures x.ts[|x.ts| - 1].rp <= |y.rs| && x.ts[|x.ts| - 1].sp <= |y.ps|
  {
    hide Tabled, Sound, Waits, Suspended;
    TopTrap(img, ty, x, []);
    assert x.ts[..|x.ts|] == x.ts;
    CallerSuspended(img, ty, x.fn, x.fp, x.ps, x.rs, x.ts);
    y := Caller(img, x.fn, x.fp, x.ps, x.rs, x.ts);
    SuspendedGuarded(img, ty, y);
    TopTrap(img, ty, y, ty[y.fn][y.ip].marks);
  }

  /** Unwinding to a trap does not look at what lies above it. */
  lemma TrapAlike(caps: Caps, m: Machine, y: Exec, f: Failure)
    requires m.x.ts != [] && y.ts == m.x.ts && y.rs <= m.x.rs && y.ps <= m.x.ps
    requires m.x.ts[|m.x.ts| - 1].rp <= |y.rs| && m.x.ts[|m.x.ts| - 1].sp <= |y.ps|
    ensures Unwind(caps, m.(x := y), f) == Unwind(caps, m, f)
  {
    var t := m.x.ts[|m.x.ts| - 1];
    assert Take(y.ps, t.sp) == Take(m.x.ps, t.sp) && Take(y.rs, t.rp) == Take(m.x.rs, t.rp);
  }

  /** Pushing the operand a suspended frame waits for. */
  lemma Pushed(img: Image, ty: Tables, x: Exec, v: Value)
    requires Tabled(img, ty) && Suspended(img, ty, x)
    ensures Live(img, ty, x.(ps := x.ps + [Holds(v)]))
  {
    hide Tabled, Sound, Below;
    var y := x.(ps := x.ps + [Holds(v)]);
    var marks := ty[x.fn][x.ip].marks;
    var ts := x.ts[..|x.ts| - |marks|];
    BelowHigh(img, ty, x.fn, x.fp, x.ps, x.rs, ts);
    BelowPrefix(img, ty, x.fn, x.fp, x.ps, y.ps, x.rs, ts);
  }

  lemma BelowHigh(img: Image, ty: Tables, fn: LamId, fp: nat, ps: seq<Slot>, rs: seq<Ctx>, ts: seq<Trap>)
    requires Tabled(img, ty) && fn in img && Below(img, ty, fn, fp, ps, rs, ts)
    ensures fp <= |ps|
  {
  }

  ghost predicate OuterSuspended(img: Image, ty: Tables, m: Machine)
    requires Tabled(img, ty)
  {
    forall i :: 0 <= i < |m.outer| ==> Suspended(img, ty, m.outer[i])
  }

  lemma PushDisciplined(img: Image, ty: Tables, caps: Caps, m: Machine, v: Value)
    requires Tabled(img, ty) && Suspended(img, ty, m.x) && OuterSuspended(img, ty, m) && m.st.Running?
    ensures Disciplined(img, ty, Push(caps, m, v))
  {
    hide Tabled, Suspended, Live, Unwind, Guarded;
    Pushed(img, ty, m.x, v);
    SuspendedGuarded(img, ty, m.x);
    if caps.Limits? && |m.x.ps| >= VM_STACK_SIZE {
      UnwindDisciplined(img, ty, caps, m.(tally := Missed(m.tally, v)), LIMIT, ty[m.x.fn][m.x.ip].marks);
    }
  }

  lemma DeliverDisciplined(img: Image, ty: Tables, caps: Caps, m: Machine, v: Value)
    requires Tabled(img, ty) && Suspended(img, ty, m.x) && OuterSuspended(img, ty, m) && m.st.Running?
    ensures Disciplined(img, ty, Deliver(caps, m, v))
  {
    hide Tabled, Unwind, Disciplined, Suspended, Push;
    if v.ErrObj? {
      SuspendedGuarded(img, ty, m.x);
      UnwindDisciplined(img, ty, caps, m, Failure(true, v.code), ty[m.x.fn][m.x.ip].marks);
    } else {
      PushDisciplined(img, ty, caps, m, v);
    }
  }

  // One instruction, `s` being what its table says and `x.ip` already past it.

  ghost predicate Ready(img: Image, ty: Tables, m: Machine, s: St)
    requires Tabled(img, ty)
  {
    m.st.Running? && Fits(img, ty, m.x, s) && OuterSuspended(img, ty, m)
  }

  lemma HasOperands(img: Image, ty: Tables, x: Exec, s: St, n: nat)
    requires Tabled(img, ty) && Fits(img, ty, x, s) && Pops(s, n)
    ensures Operands(x, n)
  {
    hide Tabled, Sound, Below;
  }

  lemma DropGuarded(img: Image, ty: Tables, x: Exec, s: St, n: nat)
    requires Tabled(img, ty) && Fits(img, ty, x, s) && Pops(s, n)
    ensures n <= |x.ps| && Guarded(img, ty, Drop(x, n), s.marks)
  {
    hide Tabled, Sound, Below;
    SolidLess(x.ps, Height(x), |x.ps| - n);
    BelowHigh(img, ty, x.fn, x.fp, x.ps, x.rs, x.ts[..|x.ts| - |s.marks|]);
    BelowPrefix(img, ty, x.fn, x.fp, x.ps, x.ps[..|x.ps| - n], x.rs, x.ts[..|x.ts| - |s.marks|]);
  }

  lemma DropSuspended(img: Image, ty: Tables, x: Exec, s: St, n: nat)
    requires Tabled(img, ty) && Fits(img, ty, x, s) && Pops(s, n) && x.fn in ty && Has(ty[x.fn], x.ip, s.(h := s.h - n + 1))
    ensures n <= |x.ps| && Suspended(img, ty, Drop(x, n))
  {
    DropGuarded(img, ty, x, s, n);
    hide Tabled, Sound, Below, Solid, Armed;
  }

  lemma DropLive(img: Image, ty: Tables, x: Exec, s: St, n: nat)
    requires Tabled(img, ty) && Fits(img, ty, x, s) && Pops(s, n) && x.fn in ty && Has(ty[x.fn], x.ip, s.(h := s.h - n))
    ensures n <= |x.ps| && Live(img, ty, Drop(x, n))
  {
    SameLambdas(img, ty);
    hide Tabled, Guarded;
    DropGuarded(img, ty, x, s, n);
  }

  lemma DropNothing(x: Exec)
    ensures Drop(x, 0) == x
  {
  }

  /** A value is pushed. */
  lemma PushStep(img: Image, ty: Tables, caps: Caps, m: Machine, s: St, v: Value)
    requires Tabled(img, ty) && Ready(img, ty, m, s) && Pops(s, 0) && m.x.fn in ty && Has(ty[m.x.fn], m.x.ip, s.(h := s.h + 1))
    ensures Disciplined(img, ty, Push(caps, m, v))
  {
    hide Tabled, Fits, OuterSuspended, Push, Suspended, Disciplined;
    DropSuspended(img, ty, m.x, s, 0);
    DropNothing(m.x);
    PushDisciplined(img, ty, caps, m, v);
  }

  /** A value is pushed, or an error object raised. */
  lemma DeliverStep(img: Image, ty: Tables, caps: Caps, m: Machine, s: St, v: Value)
    requires Tabled(img, ty) && Ready(img, ty, m, s) && Pops(s, 0) && m.x.fn in ty && Has(ty[m.x.fn], m.x.ip, s.(h := s.h + 1))
    ensures Disciplined(img, ty, Deliver(caps, m, v))
  {
    hide Tabled, Fits, OuterSuspended, Deliver, Suspended, Disciplined;
    DropSuspended(img, ty, m.x, s, 0);
    DropNothing(m.x);
    DeliverDisciplined(img, ty, caps, m, v);
  }

  lemma RaiseStep(img: Image, ty: Tables, caps: Caps, m: Machine, s: St, n: nat, f: Failure)
    requires Tabled(img, ty) && Ready(img, ty, m, s) && Pops(s, n)
    ensures n <= |m.x.ps| && Disciplined(img, ty, Unwind(caps, m.(x := Drop(m.x, n)), f))
  {
    DropGuarded(img, ty, m.x, s, n);
    hide Tabled, Unwind, Disciplined, Guarded;
    UnwindDisciplined(img, ty, caps, m.(x := Drop(m.x, n)), f, s.marks);
  }

  lemma HostStep(img: Image, ty: Tables, h: Host, caps: Caps, m: Machine, op: CallOp, f: Value, vs: seq<Value>)
    requires Tabled(img, ty) && Suspended(img, ty, m.x) && OuterSuspended(img, ty, m) && m.st.Running?
    ensures Disciplined(img, ty, CallHost(h, caps, m, op, f, vs))
  {
    hide Tabled, Unwind, Disciplined, Suspended, Push;
    var (v, w) := h.invoke(op, f, vs, m.w);
    var m1 := m.(w := w);
    assert OuterSuspended(img, ty, m1);
    DeliverDisciplined(img, ty, caps, m1, v);
  }

  lemma CallHostStep(img: Image, ty: Tables, h: Host, caps: Caps, m: Machine, s: St, op: CallOp, n: nat)
    requires Tabled(img, ty) && Ready(img, ty, m, s) && Pops(s, n + 1)
    requires m.x.fn in ty && Has(ty[m.x.fn], m.x.ip, s.(h := s.h - n))
    ensures Disciplined(img, ty, StepCallHost(h, caps, m, op, n))
  {
    HasOperands(img, ty, m.x, s, n + 1);
    DropSuspended(img, ty, m.x, s, n + 1);
    hide Tabled, Disciplined, Suspended, CallHost, Fits;
    var vs := Popped(m.x.ps, n + 1);
    HostStep(img, ty, h, caps, m.(x := Drop(m.x, n + 1)), op, vs[n], vs[..n]);
  }

  /** A fresh frame over a suspended one. */
  lemma EnterLive(img: Image, ty: Tables, y: Exec, x: Exec, c: Ctx)
    requires Tabled(img, ty) && Suspended(img, ty, y) && x.fn in img && x.nLocals == img[x.fn].nLocals
    requires x.ip == 0 && x.fp == |y.ps| && |x.ps| == Height(x) && y.ps <= x.ps && x.rs == y.rs + [c] && x.ts == y.ts
    requires c == FnFrame(y.fn, y.fp, y.ip) || (c == SelfFrame(y.fp, y.ip) && x.fn == y.fn)
    ensures Live(img, ty, x)
  {
    SameLambdas(img, ty);
    EntryTyped(img, ty, x.fn);
    hide Tabled, Sound, Below, Solid, Waits;
    BelowUnder(img, ty, y, x.fn, x.ps, c);
    GuardedEntry(img, ty, x);
  }

  lemma EntryTyped(img: Image, ty: Tables, fn: LamId)
    requires Tabled(img, ty) && fn in img
    ensures fn in ty && Has(ty[fn], 0, St(0, [])) && Sound(ty[fn], [], St(0, []))
  {
    TableSound(img, ty, fn, 0);
    hide Sound, Checks;
  }

  lemma EmptyMarks(x: Exec)
    ensures Armed(x.ts, [], |x.rs|, x.fn, x.fp, x.nLocals)
  {
  }

  lemma GuardedEntry(img: Image, ty: Tables, x: Exec)
    requires Tabled(img, ty) && x.fn in img && x.nLocals == img[x.fn].nLocals && |x.ps| == Height(x)
    requires x.ip == 0 && Below(img, ty, x.fn, x.fp, x.ps, x.rs, x.ts)
    ensures Live(img, ty, x)
  {
    hide Tabled, Sound, Below, Armed;
    EntryTyped(img, ty, x.fn);
    EmptyMarks(x);
    assert x.ts[..|x.ts|] == x.ts;
  }

  lemma BelowUnder(img: Image, ty: Tables, y: Exec, fn: LamId, ps: seq<Slot>, c: Ctx)
    requires Tabled(img, ty) && Suspended(img, ty, y) && fn in img && y.ps <= ps
    requires c == FnFrame(y.fn, y.fp, y.ip) || (c == SelfFrame(y.fp, y.ip) && fn == y.fn)
    ensures Below(img, ty, fn, |y.ps|, ps, y.rs + [c], y.ts)
  {
    hide Tabled, Sound, Waits;
    var rs := y.rs + [c];
    assert ps[..|y.ps|] == y.ps && rs[..|rs| - 1] == y.rs;
    assert Caller(img, fn, |y.ps|, ps, rs, y.ts) == y;
  }

  lemma Unwinds(img: Image, ty: Tables, caps: Caps, m: Machine, f: Failure, marks: seq<Mark>)
    requires Tabled(img, ty) && Guarded(img, ty, m.x, marks) && m.st.Running? && OuterSuspended(img, ty, m)
    ensures Disciplined(img, ty, Unwind(caps, m, f))
  {
    hide Tabled, Guarded, Disciplined, Unwind, Suspended;
    UnwindDisciplined(img, ty, caps, m, f, marks);
  }

  lemma SameOuter(img: Image, ty: Tables, m: Machine, n: Machine)
    requires Tabled(img, ty) && OuterSuspended(img, ty, m) && n.outer == m.outer
    ensures OuterSuspended(img, ty, n)
  {
  }

  lemma CallFStep(img: Image, ty: Tables, h: Host, caps: Caps, m: Machine, s: St, n: nat)
    requires Tabled(img, ty) && Ready(img, ty, m, s) && Pops(s, n + 1)
    requires m.x.fn in ty && Has(ty[m.x.fn], m.x.ip, s.(h := s.h - n))
    ensures Disciplined(img, ty, StepCallF(img, h, caps, m, n))
  {
    hide Disciplined, Suspended, CallHost, Unwind, Guarded, Live, Below, WellTyped, Tabled, OuterSuspended;
    SameLambdas(img, ty);
    HasOperands(img, ty, m.x, s, n + 1);
    DropSuspended(img, ty, m.x, s, n + 1);
    var vs := Popped(m.x.ps, n + 1);
    var f := vs[n];
    var m1 := m.(x := Drop(m.x, n + 1));
    SameOuter(img, ty, m, m1);
    SameOuter(img, ty, m, m1.(tally := Fired(m1.tally)));
    SuspendedGuarded(img, ty, m1.x);
    var marks := ty[m1.x.fn][m1.x.ip].marks;
    HostStep(img, ty, h, caps, m1, ByCallF, f, vs[..n]);
    Unwinds(img, ty, caps, m1, ErrorOf(Arity), marks);
    if f.Lam? && f.id in img {
      Unwinds(img, ty, caps, m1.(tally := Fired(m1.tally)), LIMIT, marks);
      if n == img[f.id].arity {
        CallEnters(img, ty, m1, f.id, vs[..n]);
      }
    }
  }

  lemma CallEnters(img: Image, ty: Tables, m: Machine, id: LamId, vs: seq<Value>)
    requires Tabled(img, ty) && Suspended(img, ty, m.x) && OuterSuspended(img, ty, m) && m.st.Running?
    requires id in img && |vs| == img[id].arity
    ensures
      var x := m.x;
      Disciplined(img, ty, m.(x := Exec(id, 0, |x.ps|, img[id].nLocals,
        x.ps + AsSlots(vs) + Unsets(img[id].nLocals - |vs|), x.rs + [FnFrame(x.fn, x.fp, x.ip)], x.ts)))
  {
    var x := m.x;
    var y := Exec(id, 0, |x.ps|, img[id].nLocals, x.ps + AsSlots(vs) + Unsets(img[id].nLocals - |vs|),
      x.rs + [FnFrame(x.fn, x.fp, x.ip)], x.ts);
    assert |y.ps| == Height(y);
    hide Tabled, Suspended, Live;
    EnterLive(img, ty, x, y, FnFrame(x.fn, x.fp, x.ip));
  }

  lemma CallSStep(img: Image, ty: Tables, caps: Caps, m: Machine, s: St, n: nat)
    requires Tabled(img, ty) && Ready(img, ty, m, s) && Pops(s, n) && n <= m.x.nLocals
    requires m.x.fn in ty && Has(ty[m.x.fn], m.x.ip, s.(h := s.h - n + 1))
    ensures Disciplined(img, ty, StepCallS(caps, m, n))
  {
    hide Tabled, Suspended, Unwind, Live, Guarded, Operands, OuterSuspended, Disciplined;
    SameLambdas(img, ty);
    HasOperands(img, ty, m.x, s, n);
    DropSuspended(img, ty, m.x, s, n);
    SameOuter(img, ty, m, m.(tally := Fired(m.tally)));
    Unwinds(img, ty, caps, m.(tally := Fired(m.tally)), LIMIT, s.marks);
    SelfEnters(img, ty, m, n);
  }

  lemma SelfEnters(img: Image, ty: Tables, m: Machine, n: nat)
    requires Tabled(img, ty) && OuterSuspended(img, ty, m) && m.st.Running? && Operands(m.x, n) && n <= m.x.nLocals
    requires Suspended(img, ty, Drop(m.x, n))
    ensures
      var x := m.x;
      Disciplined(img, ty, m.(x := x.(ip := 0, fp := |x.ps| - n,
        ps := x.ps[..|x.ps| - n] + AsSlots(Popped(x.ps, n)) + Unsets(x.nLocals - n),
        rs := x.rs + [SelfFrame(x.fp, x.ip)])))
  {
    hide Tabled, Suspended, Live, OuterSuspended;
    var x := m.x;
    var y := x.(ip := 0, fp := |x.ps| - n,
                ps := x.ps[..|x.ps| - n] + AsSlots(Popped(x.ps, n)) + Unsets(x.nLocals - n),
                rs := x.rs + [SelfFrame(x.fp, x.ip)]);
    SuspendedLambda(img, ty, Drop(x, n));
    SuspendedOuter(img, ty, m);
    assert |y.ps| == Height(y) && Drop(x, n).ps <= y.ps;
    EnterLive(img, ty, Drop(x, n), y, SelfFrame(x.fp, x.ip));
  }

  lemma SuspendedLambda(img: Image, ty: Tables, x: Exec)
    requires Tabled(img, ty) && Suspended(img, ty, x)
    ensures x.fn in img && x.nLocals == img[x.fn].nLocals
  {
    hide Tabled, Below, Sound, Waits;
  }

  lemma TryHStep(img: Image, ty: Tables, h: Host, caps: Caps, m: Machine, s: St)
    requires Tabled(img, ty) && Ready(img, ty, m, s) && Pops(s, 2)
    requires m.x.fn in ty && Has(ty[m.x.fn], m.x.ip, s.(h := s.h - 1))
    ensures Disciplined(img, ty, StepTryH(img, h, caps, m))
  {
    HasOperands(img, ty, m.x, s, 2);
    DropSuspended(img, ty, m.x, s, 2);
    hide Suspended, CallHost, Unwind, Deliver, Guarded, Live, Below, WellTyped;
    var err, f := m.x.ps[|m.x.ps| - 1].v, m.x.ps[|m.x.ps| - 2].v;
    var m1 := m.(x := Drop(m.x, 2));
    SuspendedGuarded(img, ty, m1.x);
    if f.Lam? && f.id in img {
      if img[f.id].arity != 1 {
        UnwindDisciplined(img, ty, caps, m1, ErrorOf(Arity), ty[m1.x.fn][m1.x.ip].marks);
      } else {
        HandlerEnters(img, ty, m1, f.id, err);
      }
    } else if f.Lam? || (f.Fn? && f.kind.Unary?) {
      HostStep(img, ty, h, caps, m1, ByHandler, f, [err]);
    } else {
      DeliverDisciplined(img, ty, caps, m1, f);
    }
  }

  lemma BootLive(img: Image, ty: Tables, id: LamId, args: seq<Slot>)
    requires Tabled(img, ty) && id in img && |args| <= img[id].nLocals
    ensures Live(img, ty, Entry(id, img[id], args))
  {
    var x := Entry(id, img[id], args);
    GuardedEntry(img, ty, x);
  }

  lemma HandlerEnters(img: Image, ty: Tables, m: Machine, id: LamId, err: Value)
    requires Tabled(img, ty) && Suspended(img, ty, m.x) && OuterSuspended(img, ty, m) && m.st.Running?
    requires id in img && img[id].arity == 1
    ensures Disciplined(img, ty, m.(x := Entry(id, img[id], [Holds(err)]), outer := m.outer + [m.x]))
  {
    BootLive(img, ty, id, [Holds(err)]);
    hide Tabled, Suspended, Live, Entry;
  }

  /** Dropping a frame without traps goes back to its caller. */
  lemma PopFrameStep(img: Image, ty: Tables, caps: Caps, m: Machine, v: Value)
    requires Tabled(img, ty) && Guarded(img, ty, m.x, []) && OuterSuspended(img, ty, m) && m.st.Running?
    ensures Disciplined(img, ty, PopFrame(img, caps, m, v))
  {
    hide Tabled, Suspended, Push, Deliver, Live, Sound, Waits, Solid, Armed;
    var x := m.x;
    assert x.ts[..|x.ts|] == x.ts;
    if x.rs == [] {
      if m.outer != [] {
        var last := |m.outer| - 1;
        DeliverDisciplined(img, ty, caps, m.(x := m.outer[last], outer := m.outer[..last]), v);
      }
    } else {
      CallerSuspended(img, ty, x.fn, x.fp, x.ps, x.rs, x.ts);
      var y := Caller(img, x.fn, x.fp, x.ps, x.rs, x.ts);
      PushDisciplined(img, ty, caps, m.(x := y), v);
      assert PopFrame(img, caps, m, v) == Push(caps, m.(x := y), v);
    }
  }

  lemma RetStep(img: Image, ty: Tables, caps: Caps, m: Machine, s: St)
    requires Tabled(img, ty) && Ready(img, ty, m, s) && s.marks == []
    ensures Disciplined(img, ty, StepRet(img, caps, m))
  {
    hide Tabled, Disciplined, PopFrame, Below, Sound, Armed;
    var x := m.x;
    PopFrameStep(img, ty, caps, m, Null);
    if |x.ps| > Height(x) {
      assert x.ps[|x.ps| - 1].Holds?;
      PopFrameStep(img, ty, caps, m, x.ps[|x.ps| - 1].v);
    }
  }

  lemma TrapStep(img: Image, ty: Tables, caps: Caps, m: Machine, s: St, off: int)
    requires Tabled(img, ty) && Ready(img, ty, m, s) && m.x.fn in ty && Target(m.x.ip, off) >= 0
    requires Has(ty[m.x.fn], m.x.ip, s.(marks := s.marks + [Mark(Target(m.x.ip, off), s.h)]))
    ensures Disciplined(img, ty, StepTrap(caps, m, off))
  {
    hide Tabled, Guarded, Below, Unwind, Live, OuterSuspended;
    SameOuter(img, ty, m, m.(tally := Fired(m.tally)));
    Unwinds(img, ty, caps, m.(tally := Fired(m.tally)), LIMIT, s.marks);
    TrapLive(img, ty, m.x, s, Target(m.x.ip, off));
    SuspendedOuter(img, ty, m);
  }

  lemma SuspendedOuter(img: Image, ty: Tables, m: Machine)
    requires Tabled(img, ty) && OuterSuspended(img, ty, m)
    ensures forall i :: 0 <= i < |m.outer| ==> Suspended(img, ty, m.outer[i])
  {
  }

  lemma TrapLive(img: Image, ty: Tables, x: Exec, s: St, target: nat)
    requires Tabled(img, ty) && Fits(img, ty, x, s) && x.fn in ty
    requires Has(ty[x.fn], x.ip, s.(marks := s.marks + [Mark(target, s.h)]))
    ensures Live(img, ty, x.(ts := x.ts + [Trap(|x.rs|, |x.ps|, target, x.fn, x.fp, x.nLocals)]))
  {
    hide Tabled, Below, Sound, Solid, Armed;
    SameLambdas(img, ty);
    TableSound(img, ty, x.fn, x.ip);
    var k := Mark(target, s.h);
    var y := x.(ts := x.ts + [Trap(|x.rs|, |x.ps|, target, x.fn, x.fp, x.nLocals)]);
    ArmOne(x, s.marks, k, y);
    assert ty[x.fn][x.ip] == St(s.h, s.marks + [k]);
  }

  lemma ArmOne(x: Exec, marks: seq<Mark>, k: Mark, y: Exec)
    requires Armed(x.ts, marks, |x.rs|, x.fn, x.fp, x.nLocals)
    requires y == x.(ts := x.ts + [Trap(|x.rs|, Height(x) + k.height, k.handler, x.fn, x.fp, x.nLocals)])
    ensures Armed(y.ts, marks + [k], |y.rs|, y.fn, y.fp, y.nLocals)
    ensures y.ts[..|y.ts| - |marks + [k]|] == x.ts[..|x.ts| - |marks|]
  {
    var n := |x.ts| - |marks|;
    assert y.ts[n..] == x.ts[n..] + [y.ts[|x.ts|]];
  }

  lemma TrapEndStep(img: Image, ty: Tables, m: Machine, s: St)
    requires Tabled(img, ty) && Ready(img, ty, m, s) && m.x.fn in ty && s.marks != [] && Rooted(s)
    requires Has(ty[m.x.fn], m.x.ip, s.(marks := s.marks[..|s.marks| - 1]))
    ensures m.x.ts != [] && Disciplined(img, ty, m.(x := m.x.(ts := m.x.ts[..|m.x.ts| - 1])))
  {
    hide Tabled, Below, Sound, Solid, Armed, Rooted;
    SameLambdas(img, ty);
    TableSound(img, ty, m.x.fn, m.x.ip);
    TopArmed(m.x, s.marks);
    var marks := s.marks[..|s.marks| - 1];
    FloorRooted(s);
    assert ty[m.x.fn][m.x.ip] == St(s.h, marks);
  }

  lemma FloorRooted(s: St)
    requires Rooted(s) && s.marks != []
    ensures Floor(s.marks[..|s.marks| - 1]) <= s.h
  {
  }

  lemma JumpStep(img: Image, ty: Tables, m: Machine, s: St)
    requires Tabled(img, ty) && Ready(img, ty, m, s) && m.x.fn in ty && Has(ty[m.x.fn], m.x.ip, s)
    ensures Disciplined(img, ty, m)
  {
    hide Tabled, Guarded;
    SameLambdas(img, ty);
  }

  lemma DropStep(img: Image, ty: Tables, m: Machine, s: St, n: nat)
    requires Tabled(img, ty) && Ready(img, ty, m, s) && Pops(s, n) && m.x.fn in ty && Has(ty[m.x.fn], m.x.ip, s.(h := s.h - n))
    ensures n <= |m.x.ps| && Disciplined(img, ty, m.(x := Drop(m.x, n)))
  {
    hide Tabled, Guarded, Live;
    DropLive(img, ty, m.x, s, n);
  }

  /** Storing into a slot of the frame disturbs neither operands nor callers. */
  lemma StoreStep(img: Image, ty: Tables, m: Machine, s: St, k: nat, v: Slot)
    requires Tabled(img, ty) && Ready(img, ty, m, s) && Pops(s, 1) && m.x.fn in ty && Has(ty[m.x.fn], m.x.ip, s.(h := s.h - 1))
    requires k < m.x.nLocals
    ensures |m.x.ps| > Height(m.x)
    ensures var x1 := Drop(m.x, 1); Disciplined(img, ty, m.(x := x1.(ps := x1.ps[m.x.fp + k := v])))
  {
    hide Tabled, Suspended;
    DropLive(img, ty, m.x, s, 1);
    var x1 := Drop(m.x, 1);
    StoreLive(img, ty, x1, k, v);
    hide Live;
  }

  lemma StoreLive(img: Image, ty: Tables, x: Exec, k: nat, v: Slot)
    requires Tabled(img, ty) && Live(img, ty, x) && k < x.nLocals
    ensures |x.ps| >= Height(x) && Live(img, ty, x.(ps := x.ps[x.fp + k := v]))
  {
    hide Tabled, Below, Sound;
    SameLambdas(img, ty);
    var qs := x.ps[x.fp + k := v];
    assert x.ps[..x.fp] == qs[..x.fp];
    BelowPrefix(img, ty, x.fn, x.fp, x.ps, qs, x.rs, x.ts[..|x.ts| - |ty[x.fn][x.ip].marks|]);
  }

  lemma StoreGlobalStep(img: Image, ty: Tables, caps: Caps, m: Machine, s: St, name: Value)
    requires Tabled(img, ty) && Ready(img, ty, m, s) && Pops(s, 1) && m.x.fn in ty && Has(ty[m.x.fn], m.x.ip, s) && name.Symbol?
    ensures Disciplined(img, ty, StepStoreGlobal(caps, m, name))
  {
    hide Tabled, Guarded, Unwind, Disciplined, SetGlobal;
    HasOperands(img, ty, m.x, s, 1);
    match SetGlobal(m.w.globals, name.s, m.x.ps[|m.x.ps| - 1].v)
    case NotBound(code) => RaiseStep(img, ty, caps, m, s, 1, ErrorOf(code));
    case Rebound(globals) => JumpStep(img, ty, m.(w := m.w.(globals := globals)), s);
  }

  /** Instructions that push a value. */
  lemma PlainDisciplined(img: Image, ty: Tables, h: Host, caps: Caps, m: Machine, s: St, i: Instr)
    requires Tabled(img, ty) && Ready(img, ty, m, s) && m.x.fn in img && m.x.fn in ty && Rooted(s)
    requires i.ILoadConst? || i.ILoadEnv? || i.IResolve? || i.IDup?
    requires Allows(img[m.x.fn], ty[m.x.fn], s, i, m.x.ip)
    ensures Disciplined(img, ty, Apply(img, h, caps, m, i))
  {
    hide Tabled, Disciplined, Ready, Fits, Push, Deliver, Unwind;
    var x, c := m.x, img[m.x.fn];
    ReadyShape(img, ty, m, s);
    RootedPops(s);
    match i
    case ILoadConst(k) => PushStep(img, ty, caps, m, s, c.consts[k]);
    case ILoadEnv(l) =>
      PushStep(img, ty, caps, m, s, Int(0));
      if x.ps[x.fp + l].Holds? {
        PushStep(img, ty, caps, m, s, x.ps[x.fp + l].v);
      }
    case IResolve(k) =>
      RaiseStep(img, ty, caps, m, s, 0, Failure(false, NameErr));
      DropNothing(x);
      if c.consts[k].s in m.w.globals {
        DeliverStep(img, ty, caps, m, s, m.w.globals[c.consts[k].s]);
      }
    case IDup =>
      HasOperands(img, ty, x, s, 1);
      PushStep(img, ty, caps, m, s, x.ps[|x.ps| - 1].v);
  }

  /** One instruction keeps the discipline. */
  lemma ApplyDisciplined(img: Image, ty: Tables, h: Host, caps: Caps, m: Machine, s: St, i: Instr)
    requires Tabled(img, ty) && Ready(img, ty, m, s) && m.x.fn in img && m.x.fn in ty && Rooted(s)
    requires Allows(img[m.x.fn], ty[m.x.fn], s, i, m.x.ip)
    ensures Disciplined(img, ty, Apply(img, h, caps, m, i))
  {
    hide Tabled, Disciplined, Ready, Fits, Push, Deliver, Unwind, StepRet, StepCallHost, StepCallF, StepCallS, StepTryH, StepTrap, StepStoreGlobal;
    var x, c := m.x, img[m.x.fn];
    ReadyShape(img, ty, m, s);
    RootedPops(s);
    match i
    case IRet => RetStep(img, ty, caps, m, s);
    case IJmp(off) =>
      ReadyAt(img, ty, m, s, x.ip + off);
      JumpStep(img, ty, m.(x := x.(ip := x.ip + off)), s);
    case IJmpF(off) =>
      HasOperands(img, ty, x, s, 1);
      ReadyAt(img, ty, m, s, x.ip + off);
      DropStep(img, ty, m, s, 1);
      DropStep(img, ty, m.(x := x.(ip := x.ip + off)), s, 1);
    case IStoreEnv(l) =>
      HasOperands(img, ty, x, s, 1);
      StoreStep(img, ty, m, s, l, x.ps[|x.ps| - 1]);
    case IPop => DropStep(img, ty, m, s, 1);
    case ICall1 => CallHostStep(img, ty, h, caps, m, s, ByCall1, 1);
    case ICall2 => CallHostStep(img, ty, h, caps, m, s, ByCall2, 2);
    case ICallN(n) =>
      RaiseStep(img, ty, caps, m, s, 0, Failure(false, Domain));
      DropNothing(x);
      CallHostStep(img, ty, h, caps, m, s, ByCallN, n);
    case ICallF(n) =>
      RaiseStep(img, ty, caps, m, s, 0, Failure(false, Domain));
      DropNothing(x);
      CallFStep(img, ty, h, caps, m, s, n);
    case ICallS(n) => CallSStep(img, ty, caps, m, s, n);
    case ITrap(off) => TrapStep(img, ty, caps, m, s, off);
    case ITrapEnd => TrapEndStep(img, ty, m, s);
    case IStoreGlobal(k) => StoreGlobalStep(img, ty, caps, m, s, c.consts[k]);
    case ITryH => TryHStep(img, ty, h, caps, m, s);
    case IForce =>
      HasOperands(img, ty, x, s, 1);
      JumpStep(img, ty, m, s);
    case _ => PlainDisciplined(img, ty, h, caps, m, s, i);
  }

  lemma RootedPops(s: St)
    requires Rooted(s)
    ensures Pops(s, 0)
  {
  }

  lemma ReadyShape(img: Image, ty: Tables, m: Machine, s: St)
    requires Tabled(img, ty) && Ready(img, ty, m, s)
    ensures m.st.Running? && Fits(img, ty, m.x, s)
    ensures m.x.fn in img && m.x.nLocals == img[m.x.fn].nLocals && |m.x.ps| == Height(m.x) + s.h
  {
    hide Tabled, Below, Sound, Solid, Armed;
  }

  lemma ReadyAt(img: Image, ty: Tables, m: Machine, s: St, ip: nat)
    requires Tabled(img, ty) && Ready(img, ty, m, s)
    ensures Ready(img, ty, m.(x := m.x.(ip := ip)), s)
  {
    hide Tabled, Below, Sound, Solid, Armed;
  }

  lemma StepDisciplined(img: Image, ty: Tables, h: Host, caps: Caps, m: Machine)
    requires Tabled(img, ty) && Disciplined(img, ty, m)
    ensures Disciplined(img, ty, Step(img, h, caps, m))
  {
    hide Tabled, Guarded, Suspended, Apply, Fetch, Allows, Sound;
    if m.st.Running? {
      SameLambdas(img, ty);
      var s := ty[m.x.fn][m.x.ip];
      TableSound(img, ty, m.x.fn, m.x.ip);
      SoundRooted(ty[m.x.fn], s);
      match Fetch(img[m.x.fn].code, m.x.ip)
      case Fetched(i, next) =>
        ReadyAt(img, ty, m, s, next);
        ApplyDisciplined(img, ty, h, caps, m.(x := m.x.(ip := next)), s, i);
    }
  }

  lemma SoundRooted(t: Typing, s: St)
    requires Sound(t, [], s)
    ensures Rooted(s)
  {
  }

  lemma {:induction false} RunDisciplined(img: Image, ty: Tables, h: Host, caps: Caps, m: Machine, n: nat)
    requires Tabled(img, ty) && Disciplined(img, ty, m)
    ensures Disciplined(img, ty, Run(img, h, caps, m, n))
    decreases n
  {
    hide Tabled, Disciplined, Step;
    if n > 0 {
      StepDisciplined(img, ty, h, caps, m);
      RunDisciplined(img, ty, h, caps, Step(img, h, caps, m), n - 1);
    }
  }
}
