/** `vm_exec` in its own form: three arrays, their tops, and a ledger of the
    references it has taken and not yet given back. */
module Vm {
  import opened Lang
  import opened Bytes
  import opened Bytecode
  import opened CodeGen
  import opened Machine
  import opened Effects
  import opened Ledger

  /** How an instruction ends: the next one follows, the invocation is over, or
      a `try` handler that is a compiled lambda has to run first. */
  datatype Signal = Continue | Finish(v: Value) | Handler(f: LamId, err: Value)

  /** The machine `m` as one step of it left it, from the executor's own point of view. */
  ghost predicate Reports(img: Image, m: Machine, x: Exec, w: World, tally: Tally, sig: Signal) {
    match sig
    case Continue => m == Machine(x, [], w, Running, tally)
    case Finish(v) => m.st == Done(v) && m.w == w && m.tally == tally && m.outer == []
    case Handler(f, err) =>
      f in img && img[f].arity == 1 && m == Machine(Entry(f, img[f], [Holds(err)]), [x], w, Running, tally)
  }

  lemma ReportsTally(img: Image, m: Machine, x: Exec, w: World, tally: Tally, sig: Signal)
    requires Reports(img, m, x, w, tally, sig)
    ensures m.tally == tally
  {
  }

  /** The references an outcome passes on. */
  function Passed(sig: Signal): Refs {
    match sig
    case Continue => multiset{}
    case Finish(v) => multiset{v}
    case Handler(f, err) => multiset{Lam(f), err}
  }

  function ErrRef(f: Failure): Refs {
    if f.given then multiset{ErrObj(f.code)} else multiset{}
  }

  class Executor {
    const img: Image
    const host: Host
    const ps: array<Slot>
    const rs: array<Ctx>
    const ts: array<Trap>
    var sp: nat
    var rp: nat
    var tp: nat
    var fn: LamId
    var ip: nat
    var fp: nat
    var nLocals: nat
    var w: World
    ghost var tally: Tally
    ghost var owned: Refs

    /** `vm_exec` on entry: the operands, retained, are the first slots of the frame. */
    constructor (image: Image, h: Host, id: LamId, args: seq<Value>, world: World)
      requires id in image && |args| <= image[id].nLocals <= VM_STACK_SIZE
      ensures Valid() && img == image && host == h && Balanced(multiset{})
      ensures fresh(ps) && fresh(rs) && fresh(ts)
      ensures M() == Machine(Entry(id, image[id], AsSlots(args)), [], world, Running, CLEAN)
    {
      img, host := image, h;
      fn, fp, ip, nLocals, sp, rp, tp := id, 0, 0, image[id].nLocals, image[id].nLocals, 0, 0;
      ps := new Slot[VM_STACK_SIZE](i requires 0 <= i => if i < |args| then Holds(args[i]) else Unset);
      rs := new Ctx[VM_STACK_SIZE](_ => SelfFrame(0, 0));
      ts := new Trap[VM_TRAP_SIZE](_ => Trap(0, 0, 0, id, 0, 0));
      w, tally := world, CLEAN;
      owned := multiset(args) + multiset{Lam(id)};
      new;
      hide HeldBy;
      assert ps[..sp] == AsSlots(args) + Unsets(nLocals - |args|);
      EntryHolds(View(), args);
    }

    ghost predicate Valid()
      reads this
    {
      && ps.Length == VM_STACK_SIZE && rs.Length == VM_STACK_SIZE && ts.Length == VM_TRAP_SIZE
      && sp <= ps.Length && rp <= rs.Length && tp <= ts.Length
      && (!tally.fired ==> tally.lost == multiset{})
    }

    ghost function View(): Exec
      requires Valid()
      reads this, ps, rs, ts
    {
      Exec(fn, ip, fp, nLocals, ps[..sp], rs[..rp], ts[..tp])
    }

    ghost function M(): Machine
      requires Valid()
      reads this, ps, rs, ts
    {
      Machine(View(), [], w, Running, tally)
    }

    /** Every reference taken is in a slot, a frame or a trap, or in `hand`. */
    ghost predicate Balanced(hand: Refs)
      requires Valid()
      reads this, ps, rs, ts
    {
      owned == HeldBy(View()) + hand + tally.lost
    }

    method Retain(v: Value)
      requires Valid()
      modifies this`owned
      ensures Valid() && owned == old(owned) + multiset{v}
    {
      owned := owned + multiset{v};
    }

    /** Giving back a reference: it must have been taken. */
    method Release(v: Value)
      requires Valid() && v in owned
      modifies this`owned
      ensures Valid() && owned == old(owned) - multiset{v}
    {
      owned := owned - multiset{v};
    }

    method PopRaw() returns (s: Slot)
      requires Valid() && sp > 0
      modifies this`sp
      ensures Valid() && sp == old(sp) - 1 && s == old(View()).ps[sp]
      ensures View() == old(View()).(ps := old(View()).ps[..old(sp) - 1])
      ensures HeldBy(old(View())) == HeldBy(View()) + SlotRef(s)
    {
      hide HeldBy;
      PopSlot(View());
      sp := sp - 1;
      s := ps[sp];
      assert old(ps[..sp])[..sp] == ps[..sp];
    }

    method PushRaw(s: Slot)
      requires Valid() && sp < VM_STACK_SIZE
      modifies this`sp, ps
      ensures Valid() && View() == old(View()).(ps := old(View()).ps + [s]) && sp == old(sp) + 1
      ensures HeldBy(View()) == HeldBy(old(View())) + SlotRef(s)
    {
      hide HeldBy;
      PushSlot(View(), s);
      ps[sp] := s;
      sp := sp + 1;
      assert ps[..sp] == old(ps[..sp]) + [s];
    }

    method StoreRaw(i: nat, s: Slot) returns (was: Slot)
      requires Valid() && i < sp
      modifies ps
      ensures was == old(View()).ps[i] && View() == old(View()).(ps := old(View()).ps[i := s])
      ensures HeldBy(View()) + SlotRef(was) == HeldBy(old(View())) + SlotRef(s)
    {
      StoreSlot(View(), i, s);
      was := ps[i];
      ps[i] := s;
    }

    method PopFrameRaw() returns (c: Ctx)
      requires Valid() && rp > 0
      modifies this`rp
      ensures Valid() && rp == old(rp) - 1 && c == old(View()).rs[rp]
      ensures View() == old(View()).(rs := old(View()).rs[..old(rp) - 1])
      ensures HeldBy(old(View())) == HeldBy(View()) + CtxRef(c)
    {
      hide HeldBy;
      PopCtx(View());
      rp := rp - 1;
      c := rs[rp];
      assert old(rs[..rp])[..rp] == rs[..rp];
    }

    method PushFrameRaw(c: Ctx)
      requires Valid() && rp < VM_STACK_SIZE
      modifies this`rp, rs
      ensures Valid() && rp == old(rp) + 1 && View() == old(View()).(rs := old(View()).rs + [c])
      ensures HeldBy(View()) == HeldBy(old(View())) + CtxRef(c)
    {
      hide HeldBy;
      PushCtx(View(), c);
      rs[rp] := c;
      rp := rp + 1;
      assert rs[..rp] == old(rs[..rp]) + [c];
    }

    method PopTrapRaw() returns (t: Trap)
      requires Valid() && tp > 0
      modifies this`tp
      ensures Valid() && tp == old(tp) - 1 && t == old(View()).ts[tp]
      ensures View() == old(View()).(ts := old(View()).ts[..old(tp) - 1])
      ensures HeldBy(old(View())) == HeldBy(View()) + multiset{Lam(t.fn)}
    {
      hide HeldBy;
      PopTrapRef(View());
      tp := tp - 1;
      t := ts[tp];
      assert old(ts[..tp])[..tp] == ts[..tp];
    }

    method PushTrapRaw(t: Trap)
      requires Valid() && tp < VM_TRAP_SIZE
      modifies this`tp, ts
      ensures Valid() && tp == old(tp) + 1 && View() == old(View()).(ts := old(View()).ts + [t])
      ensures HeldBy(View()) == HeldBy(old(View())) + multiset{Lam(t.fn)}
    {
      hide HeldBy;
      PushTrapRef(View(), t);
      ts[tp] := t;
      tp := tp + 1;
      assert ts[..tp] == old(ts[..tp]) + [t];
    }

    /** Pops a slot and gives its reference back. */
    method DropSlot(ghost hand: Refs)
      requires Valid() && Balanced(hand) && sp > 0
      modifies this`sp, this`owned
      ensures Valid() && Balanced(hand) && View() == old(View()).(ps := old(View()).ps[..old(sp) - 1])
    {
      hide HeldBy;
      ghost var h := HeldBy(View());
      var s := PopRaw();
      GiveBack(owned, h, HeldBy(View()), SlotRef(s), hand, tally.lost);
      if s.Holds? {
        Release(s.v);
      }
    }

    method DropFrame(ghost hand: Refs)
      requires Valid() && Balanced(hand) && rp > 0
      modifies this`rp, this`owned
      ensures Valid() && Balanced(hand) && View() == old(View()).(rs := old(View()).rs[..old(rp) - 1])
    {
      hide HeldBy;
      ghost var h := HeldBy(View());
      var c := PopFrameRaw();
      GiveBack(owned, h, HeldBy(View()), CtxRef(c), hand, tally.lost);
      if c.FnFrame? {
        Release(Lam(c.fn));
      }
    }

    /** Drops the slots from `n` on. */
    method ReleaseSlots(n: nat, ghost hand: Refs)
      requires Valid() && Balanced(hand)
      modifies this`sp, this`owned
      ensures Valid() && Balanced(hand) && View() == old(View()).(ps := Take(old(View()).ps, n))
    {
      hide HeldBy, Balanced;
      while sp > n
        invariant Valid() && Balanced(hand) && sp <= old(sp) && (sp < n ==> sp == old(sp))
        invariant View() == old(View()).(ps := old(View()).ps[..sp])
      {
        DropSlot(hand);
      }
    }

    method ReleaseFrames(n: nat, ghost hand: Refs)
      requires Valid() && Balanced(hand)
      modifies this`rp, this`owned
      ensures Valid() && Balanced(hand) && View() == old(View()).(rs := Take(old(View()).rs, n))
    {
      hide HeldBy, Balanced;
      while rp > n
        invariant Valid() && Balanced(hand) && rp <= old(rp) && (rp < n ==> rp == old(rp))
        invariant View() == old(View()).(rs := old(View()).rs[..rp])
      {
        DropFrame(hand);
      }
    }

    /** What every way on guarantees: either the ledger is balanced, or the
        executor is done and owns just what it passes on. */
    ghost predicate Settled(sig: Signal)
      requires Valid()
      reads this, ps, rs, ts
    {
      match sig
      case Continue => Balanced(multiset{})
      case Finish(_) => owned == Passed(sig) + tally.lost
      case Handler(_, _) => Balanced(Passed(sig))
    }

    /** The error the handler of a trap is given; the pending raise value, if there is one, becomes ours. */
    method TakeError(f: Failure) returns (e: Value)
      requires Valid() && Balanced(ErrRef(f))
      modifies this`owned, this`w
      ensures Valid() && e == Payload(f, old(w)) && w == old(w).(pending := Unset)
      ensures e == if old(w).pending.Holds? then old(w).pending.v else if f.given then ErrObj(f.code) else Int(0)
      ensures View() == old(View()) && Balanced(multiset{e})
    {
      hide HeldBy;
      if w.pending.Holds? {
        ReleaseRef(if f.given then Holds(ErrObj(f.code)) else Unset);
        e := w.pending.v;
        RetainRef(e);
      } else if f.given {
        e := ErrObj(f.code);
      } else {
        e := Int(0);
        RetainRef(e);
      }
      w := w.(pending := Unset);
    }

    method RetainRef(v: Value)
      requires Valid() && Balanced(multiset{})
      modifies this`owned
      ensures Valid() && Balanced(multiset{v})
    {
      hide HeldBy;
      Retain(v);
    }

    /** Goes back to the frame of a trap just popped, whose function reference is in hand. */
    method Resume(t: Trap, ghost hand: Refs)
      requires Valid() && Balanced(multiset{Lam(t.fn)} + hand)
      modifies this`fn, this`fp, this`nLocals, this`ip, this`owned
      ensures Valid() && Balanced(hand)
      ensures View() == old(View()).(fn := t.fn, fp := t.fp, nLocals := t.nLocals, ip := t.handler)
    {
      hide HeldBy;
      ghost var x := View();
      ghost var y := x.(fn := t.fn, fp := t.fp, nLocals := t.nLocals, ip := t.handler);
      SwitchFn(x, y);
      Exchange(owned, HeldBy(x), HeldBy(y), Lam(fn), Lam(t.fn), hand, tally.lost);
      Release(Lam(fn));
      SetContext(t);
    }

    method SetContext(t: Trap)
      requires Valid()
      modifies this`fn, this`fp, this`nLocals, this`ip
      ensures Valid() && View() == old(View()).(fn := t.fn, fp := t.fp, nLocals := t.nLocals, ip := t.handler)
    {
      fn, fp, nLocals, ip := t.fn, t.fp, t.nLocals, t.handler;
    }

    /** Everything held is given back. */
    method GiveAll(ghost hand: Refs)
      requires Valid() && Balanced(hand) && tp == 0
      modifies this`sp, this`rp, this`owned
      ensures Valid() && owned == hand + tally.lost
    {
      hide HeldBy;
      ReleaseSlots(0, hand);
      ReleaseFrames(0, hand);
      OnlyFn(View());
      Release(Lam(fn));
    }

    /** Nothing catches the error. */
    method GiveUp(f: Failure) returns (sig: Signal)
      requires Valid() && Balanced(ErrRef(f)) && tp == 0
      modifies this`sp, this`rp, this`owned
      ensures Valid() && sig == Finish(FinalError(f)) && Settled(sig)
    {
      hide HeldBy;
      GiveAll(ErrRef(f));
      if !f.given {
        Retain(ErrObj(f.code));
      }
      sig := Finish(FinalError(f));
    }

    /** `vm_error_cleanup`. */
    method Cleanup(f: Failure) returns (sig: Signal)
      requires Valid() && Balanced(ErrRef(f))
      modifies this, ps
      ensures Valid() && Settled(sig) && !sig.Handler?
      ensures Reports(img, Unwind(Limits, old(M()), f), View(), w, tally, sig)
      decreases tp, 0
    {
      hide HeldBy, Balanced, Settled;
      ghost var m := M();
      if tp == 0 {
        sig := GiveUp(f);
        return;
      }
      var t := PopTrap(ErrRef(f));
      ReleaseFrames(t.rp, multiset{Lam(t.fn)} + ErrRef(f));
      ReleaseSlots(t.sp, multiset{Lam(t.fn)} + ErrRef(f));
      Resume(t, ErrRef(f));
      var e := TakeError(f);
      UnwindToTrap(m, f, View());
      sig := PushRef(e);
    }

    method PopTrap(ghost hand: Refs) returns (t: Trap)
      requires Valid() && Balanced(hand) && tp > 0
      modifies this`tp
      ensures Valid() && tp == old(tp) - 1 && t == old(View()).ts[old(tp) - 1]
      ensures View() == old(View()).(ts := old(View()).ts[..old(tp) - 1])
      ensures Balanced(multiset{Lam(t.fn)} + hand)
    {
      hide HeldBy;
      ghost var h := HeldBy(View());
      t := PopTrapRaw();
      TakeOut(owned, h, HeldBy(View()), multiset{Lam(t.fn)}, hand, tally.lost);
    }

    /** `PUSH`: a reference in hand goes onto the stack, or, exactly when the stack
        is full, it is lost and an overflow raised. */
    method PushRef(v: Value) returns (sig: Signal)
      requires Valid() && Balanced(multiset{v})
      modifies this, ps
      ensures Valid() && Settled(sig) && !sig.Handler?
      ensures Reports(img, Push(Limits, old(M()), v), View(), w, tally, sig)
      ensures if old(sp) < VM_STACK_SIZE then tally == old(tally) else old(tally.lost) + multiset{v} <= tally.lost
      decreases tp, 1
    {
      hide HeldBy, Unwind;
      if sp >= VM_STACK_SIZE {
        ghost var m, lost := M(), tally.lost + multiset{v};
        tally := Missed(tally, v);
        sig := Cleanup(LIMIT);
        UnwindLoses(m.(tally := Missed(m.tally, v)), LIMIT);
        ReportsTally(img, Unwind(Limits, m.(tally := Missed(m.tally, v)), LIMIT), View(), w, tally, sig);
      } else {
        PushRaw(Holds(v));
        sig := Continue;
      }
    }

    /** What an operation that may fail has returned, in hand: raised if it is an error object, else pushed. */
    method DeliverRef(v: Value) returns (sig: Signal)
      requires Valid() && Balanced(multiset{v})
      modifies this, ps
      ensures Valid() && Settled(sig) && !sig.Handler?
      ensures Reports(img, Deliver(Limits, old(M()), v), View(), w, tally, sig)
    {
      hide HeldBy, Reports;
      if v.ErrObj? {
        sig := Cleanup(Failure(true, v.code));
      } else {
        sig := PushRef(v);
      }
    }

    // The instructions.  `ip` is past the instruction already.

    method OpLoadConst(k: nat) returns (sig: Signal)
      requires Valid() && Balanced(multiset{}) && fn in img && k < |img[fn].consts|
      modifies this, ps
      ensures Valid() && Settled(sig) && Reports(img, Push(Limits, old(M()), img[old(fn)].consts[k]), View(), w, tally, sig)
    {
      hide HeldBy, Reports;
      var v := img[fn].consts[k];
      Retain(v);
      sig := PushRef(v);
    }

    method OpLoadEnv(slot: nat) returns (sig: Signal)
      requires Valid() && Balanced(multiset{}) && fp + slot < sp
      modifies this, ps
      ensures
        var s := old(View()).ps[old(fp) + slot];
        Valid() && Settled(sig)
        && Reports(img, Push(Limits, old(M()), if s.Holds? then s.v else Int(0)), View(), w, tally, sig)
    {
      hide HeldBy, Reports;
      var s := ps[fp + slot];
      var v := if s.Holds? then s.v else Int(0);
      Retain(v);
      sig := PushRef(v);
    }

    method OpStoreEnv(slot: nat)
      requires Valid() && Balanced(multiset{}) && fp + slot + 1 < sp && ps[sp - 1].Holds?
      modifies this`sp, this`owned, ps
      ensures Valid() && Balanced(multiset{})
      ensures
        var x := old(View());
        var x1 := Drop(x, 1);
        View() == x1.(ps := x1.ps[old(fp) + slot := x.ps[|x.ps| - 1]])
    {
      hide HeldBy, Balanced;
      var v := TakeTop();
      PutSlot(fp + slot, v);
    }

    /** The reference in hand replaces the one in the slot. */
    method PutSlot(i: nat, v: Value)
      requires Valid() && Balanced(multiset{v}) && i < sp
      modifies this`owned, ps
      ensures Valid() && Balanced(multiset{}) && View() == old(View()).(ps := old(View()).ps[i := Holds(v)])
    {
      hide HeldBy, Balanced;
      var was := ExchangeSlot(i, v);
      ReleaseRef(was);
    }

    method ExchangeSlot(i: nat, v: Value) returns (was: Slot)
      requires Valid() && Balanced(multiset{v}) && i < sp
      modifies ps
      ensures Balanced(SlotRef(was)) && View() == old(View()).(ps := old(View()).ps[i := Holds(v)])
    {
      hide HeldBy;
      was := StoreRaw(i, Holds(v));
    }

    method ReleaseRef(s: Slot)
      requires Valid() && Balanced(SlotRef(s))
      modifies this`owned
      ensures Valid() && Balanced(multiset{})
    {
      hide HeldBy;
      if s.Holds? {
        Release(s.v);
      }
    }

    method OpPop()
      requires Valid() && Balanced(multiset{})
      modifies this`sp, this`owned
      ensures Valid() && Balanced(multiset{})
      ensures var x := old(View()); View() == if |x.ps| > Height(x) then Drop(x, 1) else x
    {
      if sp > fp + nLocals {
        DropSlot(multiset{});
      }
    }

    method OpDup() returns (sig: Signal)
      requires Valid() && Balanced(multiset{}) && Operands(View(), 1)
      modifies this, ps
      ensures var x := old(View());
        Valid() && Settled(sig) && Reports(img, Push(Limits, old(M()), x.ps[|x.ps| - 1].v), View(), w, tally, sig)
    {
      hide HeldBy, Reports;
      var v := ps[sp - 1].v;
      Retain(v);
      sig := PushRef(v);
    }

    method OpResolve(s: Sym) returns (sig: Signal)
      requires Valid() && Balanced(multiset{})
      modifies this, ps
      ensures Valid() && Settled(sig)
      ensures Reports(img, if s in old(w).globals then Deliver(Limits, old(M()), old(w).globals[s])
                           else Unwind(Limits, old(M()), Failure(false, NameErr)), View(), w, tally, sig)
    {
      hide HeldBy, Reports, Deliver;
      if s in w.globals {
        var v := w.globals[s];
        Retain(v);
        sig := DeliverRef(v);
      } else {
        sig := Cleanup(Failure(false, NameErr));
      }
    }

    /** One operand more comes into the hand. */
    method PopOne(vs: seq<Value>) returns (v: Value)
      requires Valid() && Balanced(multiset(vs)) && sp > 0 && ps[sp - 1].Holds?
      modifies this`sp
      ensures Valid() && sp == old(sp) - 1 && Holds(v) == old(View()).ps[sp] && View() == Drop(old(View()), 1)
      ensures Balanced(multiset(vs + [v]))
    {
      hide HeldBy;
      ghost var h := HeldBy(View());
      var s := PopRaw();
      v := s.v;
      TakeOne(owned, h, HeldBy(View()), vs, v, tally.lost);
    }

    /** The operands in hand, topmost first. */
    method PopArgs(n: nat) returns (vs: seq<Value>)
      requires Valid() && Balanced(multiset{}) && Operands(View(), n)
      modifies this`sp
      ensures Valid() && vs == Popped(old(View()).ps, n) && View() == Drop(old(View()), n)
      ensures Balanced(multiset(vs))
    {
      hide HeldBy, Popped, Balanced;
      vs := [];
      ghost var x := View();
      NonePopped(x);
      Rehand(multiset{}, multiset(vs));
      for k := 0 to n
        invariant Valid() && sp == old(sp) - k && View() == Drop(x, k)
        invariant vs == Popped(x.ps, k) && Balanced(multiset(vs))
      {
        PoppedNext(x.ps, k);
        var v := PopOne(vs);
        DropMore(x, k);
        vs := vs + [v];
      }
    }

    lemma Rehand(hand: Refs, same: Refs)
      requires Valid() && Balanced(hand) && hand == same
      ensures Balanced(same)
    {
    }

    method ReleaseAll(vs: seq<Value>, ghost hand: Refs)
      requires Valid() && Balanced(multiset(vs) + hand)
      modifies this`owned
      ensures Valid() && Balanced(hand)
    {
      hide HeldBy;
      for k := 0 to |vs|
        invariant Valid() && Balanced(multiset(vs[k..]) + hand)
      {
        GiveFirst(owned, HeldBy(View()), vs[k..], hand, tally.lost);
        assert vs[k..][1..] == vs[k + 1..];
        Release(vs[k]);
      }
    }

    /** A result that has been handed to us: pushed, or raised. */
    method Receive(r: Value) returns (sig: Signal)
      requires Valid() && Balanced(multiset{})
      modifies this, ps
      ensures Valid() && Settled(sig) && !sig.Handler? && Reports(img, Deliver(Limits, old(M()), r), View(), w, tally, sig)
    {
      hide HeldBy, Reports, Deliver;
      Retain(r);
      sig := DeliverRef(r);
    }

    /** The host borrows what is in hand and gives a result of its own. */
    method Ask(op: CallOp, f: Value, vs: seq<Value>) returns (sig: Signal)
      requires Valid() && Balanced(multiset(vs) + multiset{f})
      modifies this, ps
      ensures Valid() && Settled(sig) && Reports(img, CallHost(host, Limits, old(M()), op, f, vs), View(), w, tally, sig)
    {
      hide HeldBy, Reports, Deliver, Balanced, Settled;
      var (r, w1) := host.invoke(op, f, vs, w);
      ReleaseAll(vs, multiset{f});
      ReleaseLast(f);
      SetWorld(w1);
      sig := Receive(r);
    }

    method SetWorld(w1: World)
      requires Valid() && Balanced(multiset{})
      modifies this`w
      ensures Valid() && Balanced(multiset{}) && View() == old(View()) && w == w1
    {
      w := w1;
    }

    method ReleaseLast(v: Value)
      requires Valid() && Balanced(multiset{v})
      modifies this`owned
      ensures Valid() && Balanced(multiset{})
    {
      hide HeldBy;
      Release(v);
    }

    method OpCallHost(op: CallOp, n: nat) returns (sig: Signal)
      requires Valid() && Balanced(multiset{}) && Operands(View(), n + 1)
      modifies this, ps
      ensures Valid() && Settled(sig) && Reports(img, StepCallHost(host, Limits, old(M()), op, n), View(), w, tally, sig)
    {
      hide HeldBy, Reports, Balanced, Settled, CallHost;
      var vs := PopArgs(n + 1);
      LastInHand(vs);
      sig := Ask(op, vs[n], vs[..n]);
    }

    /** Suspends the running function and makes `f`, whose reference is in hand, the running one. */
    method EnterFunction(f: LamId, ghost hand: Refs)
      requires Valid() && Balanced(multiset{Lam(f)} + hand) && rp < VM_STACK_SIZE
      modifies this`rp, this`fn, rs
      ensures Valid() && Balanced(hand)
      ensures var x := old(View()); View() == x.(fn := f, rs := x.rs + [FnFrame(x.fn, x.fp, x.ip)])
    {
      hide HeldBy;
      ghost var h, a := HeldBy(View()), Lam(fn);
      PushFrameRaw(FnFrame(fn, fp, ip));
      SwitchFn(View(), View().(fn := f));
      Transfer(owned, h, HeldBy(View()), HeldBy(View().(fn := f)), a, Lam(f), hand, tally.lost);
      fn := f;
    }

    /** The first of the operands in hand becomes a slot. */
    method PushFirst(vs: seq<Value>, ghost hand: Refs)
      requires Valid() && vs != [] && Balanced(multiset(vs) + hand) && sp < VM_STACK_SIZE
      modifies this`sp, ps
      ensures Valid() && Balanced(multiset(vs[1..]) + hand) && sp == old(sp) + 1
      ensures View() == old(View()).(ps := old(View()).ps + [Holds(vs[0])])
    {
      hide HeldBy;
      MoveIn(owned, HeldBy(View()), HeldBy(View()) + multiset{vs[0]}, vs, hand, tally.lost);
      PushRaw(Holds(vs[0]));
    }

    /** All of them do. */
    method PushAll(vs: seq<Value>, ghost hand: Refs)
      requires Valid() && Balanced(multiset(vs) + hand) && sp + |vs| <= VM_STACK_SIZE
      modifies this`sp, ps
      ensures Valid() && Balanced(hand) && sp == old(sp) + |vs|
      ensures View() == old(View()).(ps := old(View()).ps + AsSlots(vs))
    {
      hide HeldBy, Balanced, AsSlots;
      assert vs[0..] == vs && AsSlots(vs[..0]) == [];
      for k := 0 to |vs|
        invariant Valid() && sp == old(sp) + k && Balanced(multiset(vs[k..]) + hand)
        invariant View() == old(View()).(ps := old(View()).ps + AsSlots(vs[..k]))
      {
        AsSlotsNext(vs, k);
        PushFirst(vs[k..], hand);
      }
      assert vs[..|vs|] == vs && vs[|vs|..] == [];
      assert multiset(vs[|vs|..]) + hand == hand;
    }

    method PushUnsets(n: nat)
      requires Valid() && Balanced(multiset{}) && sp + n <= VM_STACK_SIZE
      modifies this`sp, ps
      ensures Valid() && Balanced(multiset{}) && View() == old(View()).(ps := old(View()).ps + Unsets(n))
    {
      hide HeldBy;
      for k := 0 to n
        invariant Valid() && sp == old(sp) + k && Balanced(multiset{})
        invariant View() == old(View()).(ps := old(View()).ps + Unsets(k))
      {
        PushRaw(Unset);
        assert Unsets(k + 1) == Unsets(k) + [Unset];
      }
    }

    /** Gives back callee and operands, and raises. */
    method Refuse(f: Value, vs: seq<Value>, e: Failure) returns (sig: Signal)
      requires Valid() && Balanced(multiset(vs) + multiset{f})
      modifies this, ps
      ensures Valid() && Settled(sig) && Reports(img, Unwind(Limits, old(M()), e), View(), w, tally, sig)
    {
      hide HeldBy, Reports, Balanced, Settled;
      ReleaseAll(vs, multiset{f});
      ReleaseLast(f);
      sig := Raise(e);
    }

    /** An error of our own making. */
    method Raise(e: Failure) returns (sig: Signal)
      requires Valid() && Balanced(multiset{})
      modifies this, ps
      ensures Valid() && Settled(sig) && !sig.Handler? && Reports(img, Unwind(Limits, old(M()), e), View(), w, tally, sig)
    {
      hide HeldBy, Reports;
      if e.given {
        Retain(ErrObj(e.code));
      }
      sig := Cleanup(e);
    }

    method Overflow() returns (sig: Signal)
      requires Valid() && Balanced(multiset{})
      modifies this, ps
      ensures Valid() && Settled(sig) && !sig.Handler? && Reports(img, HitLimit(Limits, old(M())), View(), w, tally, sig)
    {
      hide HeldBy, Reports;
      tally := Fired(tally);
      sig := Raise(LIMIT);
    }

    /** A compiled lambda becomes the running function, its operands the first slots of its frame. */
    method Enter(f: LamId, vs: seq<Value>)
      requires Valid() && Balanced(multiset(vs) + multiset{Lam(f)}) && f in img
      requires rp < VM_STACK_SIZE && |vs| <= img[f].nLocals && sp + img[f].nLocals < VM_STACK_SIZE
      modifies this`sp, this`rp, this`fn, this`fp, this`ip, this`nLocals, ps, rs
      ensures Valid() && Balanced(multiset{})
      ensures
        var x, c := old(View()), img[f];
        View() == Exec(f, 0, |x.ps|, c.nLocals, x.ps + AsSlots(vs) + Unsets(c.nLocals - |vs|),
                       x.rs + [FnFrame(x.fn, x.fp, x.ip)], x.ts)
    {
      hide HeldBy, AsSlots, Unsets, Balanced;
      var c := img[f];
      Reorder(vs, f);
      EnterFunction(f, multiset(vs));
      var base := sp;
      AddNothing(multiset(vs));
      PushAll(vs, multiset{});
      PushUnsets(c.nLocals - |vs|);
      SetFrame(base, c.nLocals, 0, multiset{});
    }

    method SetFrame(base: nat, n: nat, at: nat, ghost hand: Refs)
      requires Valid() && Balanced(hand)
      modifies this`fp, this`nLocals, this`ip
      ensures Valid() && Balanced(hand) && View() == old(View()).(fp := base, nLocals := n, ip := at)
    {
      hide HeldBy;
      SameRefs(View(), View().(fp := base, nLocals := n, ip := at));
      fp, nLocals, ip := base, n, at;
    }

    lemma Reorder(vs: seq<Value>, f: LamId)
      requires Valid() && Balanced(multiset(vs) + multiset{Lam(f)})
      ensures Balanced(multiset{Lam(f)} + multiset(vs))
    {
      hide HeldBy;
    }

    lemma AddNothing(hand: Refs)
      requires Valid() && Balanced(hand)
      ensures Balanced(hand + multiset{})
    {
      assert hand + multiset{} == hand;
    }

    /** `op_callf`. */
    method OpCallF(n: nat) returns (sig: Signal)
      requires Valid() && Balanced(multiset{}) && Operands(View(), n + 1)
      requires forall id :: id in img ==> img[id].arity <= img[id].nLocals
      modifies this, ps, rs
      ensures Valid() && Settled(sig) && Reports(img, StepCallF(img, host, Limits, old(M()), n), View(), w, tally, sig)
    {
      hide HeldBy, Balanced, Settled, Reports, CallHost, Unwind, HitLimit, AsSlots, Unsets;
      var vs := PopArgs(n + 1);
      var f, args := vs[n], vs[..n];
      LastInHand(vs);
      if f.Lam? && f.id in img {
        sig := CallCompiled(f.id, args);
      } else if f.Fn? && ((f.kind.Unary? && n != 1) || (f.kind.Binary? && n != 2)) {
        sig := Refuse(f, args, ErrorOf(Arity));
      } else {
        sig := Ask(ByCallF, f, args);
      }
    }

    /** All checks come before anything is changed; stack limits before the number of operands. */
    method CallCompiled(f: LamId, vs: seq<Value>) returns (sig: Signal)
      requires Valid() && Balanced(multiset(vs) + multiset{Lam(f)}) && f in img && img[f].arity <= img[f].nLocals
      modifies this, ps, rs
      ensures Valid() && Settled(sig)
      ensures
        var m, c := old(M()), img[f];
        var x := m.x;
        Reports(img,
          if |x.rs| >= VM_STACK_SIZE || |x.ps| + c.nLocals >= VM_STACK_SIZE then HitLimit(Limits, m)
          else if |vs| != c.arity then Unwind(Limits, m, ErrorOf(Arity))
          else m.(x := Exec(f, 0, |x.ps|, c.nLocals, x.ps + AsSlots(vs) + Unsets(c.nLocals - |vs|),
                            x.rs + [FnFrame(x.fn, x.fp, x.ip)], x.ts)),
          View(), w, tally, sig)
    {
      hide HeldBy, Balanced, Settled, Reports, HitLimit, Unwind, AsSlots, Unsets;
      var c := img[f];
      if rp >= VM_STACK_SIZE || sp + c.nLocals >= VM_STACK_SIZE {
        sig := RefuseLimit(Lam(f), vs);
      } else if |vs| != c.arity {
        sig := Refuse(Lam(f), vs, ErrorOf(Arity));
      } else {
        Enter(f, vs);
        sig := Went();
      }
    }

    method RefuseLimit(f: Value, vs: seq<Value>) returns (sig: Signal)
      requires Valid() && Balanced(multiset(vs) + multiset{f})
      modifies this, ps
      ensures Valid() && Settled(sig) && Reports(img, HitLimit(Limits, old(M())), View(), w, tally, sig)
    {
      hide HeldBy, Reports, Balanced, Settled;
      ReleaseAll(vs, multiset{f});
      ReleaseLast(f);
      sig := Overflow();
    }

    /** The instruction has simply been carried out. */
    method Went() returns (sig: Signal)
      requires Valid() && Balanced(multiset{})
      ensures sig == Continue && Settled(sig) && Reports(img, M(), View(), w, tally, sig)
    {
      sig := Continue;
    }

    /** Two slots change places. */
    method SwapSlots(i: nat, j: nat, ghost hand: Refs)
      requires Valid() && i < sp && j < sp && i != j && Balanced(hand)
      modifies ps
      ensures Balanced(hand)
      ensures View() == old(View()).(ps := old(View()).ps[i := old(View()).ps[j]][j := old(View()).ps[i]])
    {
      hide HeldBy;
      ghost var x := View();
      var t := ps[j];
      var was := StoreRaw(i, t);
      ghost var h := HeldBy(View());
      var gone := StoreRaw(j, was);
      SwapCancels(HeldBy(x), h, HeldBy(View()), SlotRef(was), SlotRef(t));
    }

    /** The topmost `n` slots in reverse. */
    method ReverseTop(n: nat, ghost hand: Refs)
      requires Valid() && Balanced(hand) && Operands(View(), n)
      modifies ps
      ensures Balanced(hand)
      ensures var x := old(View()); View() == x.(ps := x.ps[..|x.ps| - n] + AsSlots(Popped(x.ps, n)))
    {
      hide HeldBy, HalfReversed, Popped, AsSlots, Balanced;
      ghost var x := View();
      var i := ReverseLoop(sp - n, n, hand);
      HalfDone(View().ps, x.ps, sp - n, n, i);
    }

    method ReverseLoop(base: nat, n: nat, ghost hand: Refs) returns (i: nat)
      requires Valid() && Balanced(hand) && base + n == sp
      modifies ps
      ensures Balanced(hand) && View() == old(View()).(ps := View().ps) && 2 * i + 1 >= n
      ensures HalfReversed(View().ps, old(View()).ps, base, n, i)
    {
      hide HeldBy, HalfReversed, Balanced;
      ghost var x, qs := View(), View().ps;
      HalfStart(x.ps, base, n);
      i := 0;
      var j := n - 1;
      while i < j
        invariant i <= n && j == n - 1 - i && i <= j + 2
        invariant View() == x.(ps := qs) && |qs| == sp && Balanced(hand)
        invariant HalfReversed(qs, x.ps, base, n, i)
        decreases j - i
      {
        HalfStep(qs, x.ps, base, n, i);
        SwapSlots(base + i, base + j, hand);
        qs := View().ps;
        i, j := i + 1, j - 1;
      }
    }

    /** `op_calls`: no function changes hands; the operands become the first slots where they lie. */
    method OpCallS(n: nat) returns (sig: Signal)
      requires Valid() && Balanced(multiset{}) && Operands(View(), n) && n <= nLocals
      modifies this, ps, rs
      ensures Valid() && Settled(sig) && Reports(img, StepCallS(Limits, old(M()), n), View(), w, tally, sig)
    {
      hide HeldBy, Balanced, Settled, Reports, Unwind, AsSlots, Unsets;
      if rp >= VM_STACK_SIZE || sp + nLocals >= VM_STACK_SIZE {
        sig := Overflow();
      } else {
        SuspendSelf(multiset{});
        var base := sp - n;
        ReverseTop(n, multiset{});
        PushUnsets(nLocals - n);
        SetFrame(base, nLocals, 0, multiset{});
        sig := Went();
      }
    }

    method SuspendSelf(ghost hand: Refs)
      requires Valid() && Balanced(hand) && rp < VM_STACK_SIZE
      modifies this`rp, rs
      ensures Valid() && Balanced(hand)
      ensures var x := old(View()); View() == x.(rs := x.rs + [SelfFrame(x.fp, x.ip)])
    {
      hide HeldBy;
      PushFrameRaw(SelfFrame(fp, ip));
    }

    /** `op_tryh`.  A handler that is a compiled lambda runs in an executor of its
        own, with references to it and to the error still in hand. */
    method OpTryH() returns (sig: Signal)
      requires Valid() && Balanced(multiset{}) && Operands(View(), 2)
      modifies this, ps
      ensures Valid() && Settled(sig) && Reports(img, StepTryH(img, host, Limits, old(M())), View(), w, tally, sig)
    {
      hide HeldBy, Balanced, CallHost, Unwind, Deliver, Entry, Settled;
      var vs := PopArgs(2);
      var err, f := vs[0], vs[1];
      TwoInHand(vs);
      if f.Lam? && f.id in img {
        if img[f.id].arity != 1 {
          sig := Refuse(f, [err], ErrorOf(Arity));
        } else {
          sig := CallOut(f.id, err);
        }
      } else if f.Lam? || (f.Fn? && f.kind.Unary?) {
        sig := Ask(ByHandler, f, [err]);
      } else {
        ReleaseAll([err], multiset{f});
        sig := DeliverRef(f);
      }
    }

    method CallOut(f: LamId, err: Value) returns (sig: Signal)
      requires Valid() && Balanced(multiset{Lam(f), err})
      ensures sig == Handler(f, err) && Settled(sig)
    {
      sig := Handler(f, err);
    }

    lemma TwoInHand(vs: seq<Value>)
      requires Valid() && |vs| == 2 && Balanced(multiset(vs))
      ensures Balanced(multiset([vs[0]]) + multiset{vs[1]}) && Balanced(multiset{vs[1], vs[0]})
    {
      hide HeldBy;
      assert vs == [vs[0]] + [vs[1]];
      assert multiset(vs) == multiset{vs[0]} + multiset{vs[1]};
    }

    lemma CalledOut(f: LamId, err: Value)
      requires Valid() && Settled(Handler(f, err))
      ensures Balanced(multiset([err]) + multiset{Lam(f)})
    {
      hide HeldBy;
      assert multiset{Lam(f), err} == multiset([err]) + multiset{Lam(f)};
    }

    /** The handler has ended: its references go back, and its result is taken over. */
    method Answer(f: LamId, err: Value, r: Value) returns (sig: Signal)
      requires Valid() && Settled(Handler(f, err))
      modifies this, ps
      ensures Valid() && Settled(sig) && !sig.Handler? && Reports(img, Deliver(Limits, old(M()), r), View(), w, tally, sig)
    {
      hide HeldBy, Reports, Deliver, Balanced, Settled;
      CalledOut(f, err);
      ReleaseAll([err], multiset{Lam(f)});
      ReleaseLast(Lam(f));
      sig := Receive(r);
    }

    method OpTrap(off: int) returns (sig: Signal)
      requires Valid() && Balanced(multiset{}) && ip + off >= 0
      modifies this, ps, ts
      ensures Valid() && Settled(sig) && Reports(img, StepTrap(Limits, old(M()), off), View(), w, tally, sig)
    {
      hide HeldBy, Unwind, Balanced, Settled, Reports;
      if tp >= VM_TRAP_SIZE {
        sig := Overflow();
      } else {
        ArmTrap(Trap(rp, sp, ip + off, fn, fp, nLocals));
        sig := Went();
      }
    }

    method ArmTrap(t: Trap)
      requires Valid() && Balanced(multiset{}) && tp < VM_TRAP_SIZE
      modifies this`tp, this`owned, ts
      ensures Valid() && Balanced(multiset{}) && View() == old(View()).(ts := old(View()).ts + [t])
    {
      hide HeldBy;
      TakeIn(owned, HeldBy(View()), HeldBy(View()) + multiset{Lam(t.fn)}, multiset{Lam(t.fn)}, multiset{}, tally.lost);
      PushTrapRaw(t);
      Retain(Lam(t.fn));
    }

    method OpTrapEnd()
      requires Valid() && Balanced(multiset{})
      modifies this`tp, this`owned
      ensures Valid() && Balanced(multiset{})
      ensures var x := old(View()); View() == if |x.ts| > 0 then x.(ts := x.ts[..|x.ts| - 1]) else x
    {
      hide HeldBy;
      if tp > 0 {
        ghost var h := HeldBy(View());
        var t := PopTrapRaw();
        GiveBack(owned, h, HeldBy(View()), multiset{Lam(t.fn)}, multiset{}, tally.lost);
        Release(Lam(t.fn));
      }
    }

    method OpStoreGlobal(name: Value) returns (sig: Signal)
      requires Valid() && Balanced(multiset{}) && Operands(View(), 1) && name.Symbol?
      modifies this, ps
      ensures Valid() && Settled(sig)
      ensures Reports(img, StepStoreGlobal(Limits, old(M()), name), View(), w, tally, sig)
    {
      hide HeldBy, Unwind, SetGlobal;
      match SetGlobal(w.globals, name.s, ps[sp - 1].v)
      case NotBound(code) =>
        DropSlot(multiset{});
        sig := Raise(ErrorOf(code));
      case Rebound(globals) =>
        w := w.(globals := globals);
        sig := Continue;
    }

    method OpJmpF(off: int)
      requires Valid() && Balanced(multiset{}) && Operands(View(), 1) && ip + off >= 0
      modifies this`sp, this`owned, this`ip
      ensures Valid() && Balanced(multiset{})
      ensures
        var x := old(View());
        View() == Drop(x, 1).(ip := if Truthy(x.ps[|x.ps| - 1].v) then x.ip else x.ip + off)
    {
      hide HeldBy;
      var truthy := Truthy(ps[sp - 1].v);
      DropSlot(multiset{});
      JumpTo(if truthy then ip else ip + off);
    }

    method JumpTo(at: nat)
      requires Valid() && Balanced(multiset{})
      modifies this`ip
      ensures Valid() && Balanced(multiset{}) && View() == old(View()).(ip := at)
    {
      hide HeldBy;
      SameRefs(View(), View().(ip := at));
      ip := at;
    }

    /** `op_ret`. */
    method OpRet() returns (sig: Signal)
      requires Valid() && Balanced(multiset{}) && fp <= sp && (rp == 0 ==> tp == 0)
      requires sp > Height(View()) ==> ps[sp - 1].Holds?
      requires rp > 0 && rs[rp - 1].FnFrame? ==> rs[rp - 1].fn in img
      modifies this, ps
      ensures Valid() && Settled(sig) && Reports(img, StepRet(img, Limits, old(M())), View(), w, tally, sig)
    {
      hide HeldBy, PopFrame, Balanced, Settled;
      if sp > fp + nLocals {
        PopFrameDrop(img, M(), ps[sp - 1].v);
        var v := TakeTop();
        sig := Leave(v);
      } else {
        TakeNull();
        sig := Leave(Null);
      }
    }

    method TakeTop() returns (v: Value)
      requires Valid() && Balanced(multiset{}) && sp > 0 && ps[sp - 1].Holds?
      modifies this`sp
      ensures Valid() && sp == old(sp) - 1 && Balanced(multiset{v}) && Holds(v) == old(View()).ps[old(sp) - 1]
      ensures View() == Drop(old(View()), 1)
    {
      hide HeldBy;
      var s := PopRaw();
      v := s.v;
    }

    method TakeNull()
      requires Valid() && Balanced(multiset{})
      modifies this`owned
      ensures Valid() && Balanced(multiset{Null}) && View() == old(View())
    {
      hide HeldBy;
      Retain(Null);
    }

    /** The frame goes, and the result in hand goes to the caller. */
    method Leave(v: Value) returns (sig: Signal)
      requires Valid() && Balanced(multiset{v}) && fp <= sp && (rp == 0 ==> tp == 0)
      requires rp > 0 && rs[rp - 1].FnFrame? ==> rs[rp - 1].fn in img
      modifies this, ps
      ensures Valid() && Settled(sig) && Reports(img, PopFrame(img, Limits, old(M()), v), View(), w, tally, sig)
    {
      hide HeldBy, Balanced, Push, Settled;
      ReleaseSlots(fp, multiset{v});
      if rp == 0 {
        sig := End(v);
      } else {
        BackToCaller(multiset{v});
        sig := PushRef(v);
      }
    }

    method End(v: Value) returns (sig: Signal)
      requires Valid() && Balanced(multiset{v}) && tp == 0
      modifies this`sp, this`rp, this`owned
      ensures Valid() && sig == Finish(v) && Settled(sig)
    {
      hide HeldBy, Balanced;
      GiveAll(multiset{v});
      sig := Finish(v);
    }

    method BackToCaller(ghost hand: Refs)
      requires Valid() && Balanced(hand) && rp > 0 && (rs[rp - 1].FnFrame? ==> rs[rp - 1].fn in img)
      modifies this`rp, this`fn, this`fp, this`ip, this`nLocals, this`owned
      ensures Valid() && Balanced(hand)
      ensures
        var x := old(View());
        var c := x.rs[|x.rs| - 1];
        View() == match c
                  case SelfFrame(fp, ip) => x.(rs := x.rs[..|x.rs| - 1], fp := fp, ip := ip)
                  case FnFrame(fn, fp, ip) => Exec(fn, ip, fp, img[fn].nLocals, x.ps, x.rs[..|x.rs| - 1], x.ts)
    {
      hide HeldBy;
      ghost var h := HeldBy(View());
      var c := PopFrameRaw();
      TakeOut(owned, h, HeldBy(View()), CtxRef(c), hand, tally.lost);
      if c.FnFrame? {
        Resume(Trap(0, 0, c.ip, c.fn, c.fp, img[c.fn].nLocals), hand);
      } else {
        SetFrame(c.fp, nLocals, c.ip, hand);
      }
    }

    /** The next instruction finds what it takes for granted. */
    ghost predicate Sane()
      requires Valid()
      reads this, ps, rs, ts
    {
      && fn in img && fp <= sp
      && match Fetch(img[fn].code, ip)
         case NoInstr => false
         case Fetched(i, next) => Granted(img, View().(ip := next), i) && (i.IRet? && rp == 0 ==> tp == 0)
    }

    /** One instruction: what the step function says, with the ledger balanced. */
    method StepOnce() returns (sig: Signal)
      requires Valid() && Balanced(multiset{}) && Sane()
      requires forall id :: id in img ==> img[id].arity <= img[id].nLocals
      modifies this, ps, rs, ts
      ensures Valid() && Settled(sig) && Reports(img, Step(img, host, Limits, old(M())), View(), w, tally, sig)
    {
      hide HeldBy, Balanced, Settled, Reports, Apply, Granted;
      match Fetch(img[fn].code, ip)
      case Fetched(i, next) =>
        JumpTo(next);
        if PushesValue(i) {
          sig := PerformPush(i);
        } else if Straight(i) {
          sig := Perform(i);
        } else {
          sig := PerformCall(i);
        }
    }

    /** Calls, returns and traps. */
    method PerformCall(i: Instr) returns (sig: Signal)
      requires Valid() && Balanced(multiset{}) && fn in img && fp <= sp && !Straight(i)
      requires forall id :: id in img ==> img[id].arity <= img[id].nLocals
      requires Granted(img, View(), i) && (i.IRet? && rp == 0 ==> tp == 0)
      modifies this, ps, rs, ts
      ensures Valid() && Settled(sig) && Reports(img, Apply(img, host, Limits, old(M()), i), View(), w, tally, sig)
    {
      hide HeldBy, Balanced, Settled, Reports, Push, Unwind, StepCallHost, StepCallF, StepCallS, StepTryH, StepTrap, StepRet, PopFrame;
      match i
      case IRet => sig := OpRet();
      case ICall1 => sig := OpCallHost(ByCall1, 1);
      case ICall2 => sig := OpCallHost(ByCall2, 2);
      case ICallN(n) =>
        if n > MAX_ARGS {
          sig := Raise(Failure(false, Domain));
        } else {
          sig := OpCallHost(ByCallN, n);
        }
      case ICallF(n) =>
        if n > MAX_ARGS {
          sig := Raise(Failure(false, Domain));
        } else {
          sig := OpCallF(n);
        }
      case ICallS(n) => sig := OpCallS(n);
      case ITrap(off) => sig := OpTrap(off);
      case ITryH => sig := OpTryH();
    }

    /** Instructions that push a value. */
    method PerformPush(i: Instr) returns (sig: Signal)
      requires Valid() && Balanced(multiset{}) && fn in img && fp <= sp && PushesValue(i)
      requires Granted(img, View(), i)
      modifies this, ps
      ensures Valid() && Settled(sig) && Reports(img, Apply(img, host, Limits, old(M()), i), View(), w, tally, sig)
    {
      hide HeldBy, Balanced, Settled, Reports, Push, Unwind;
      match i
      case ILoadConst(k) => sig := OpLoadConst(k);
      case ILoadEnv(slot) => sig := OpLoadEnv(slot);
      case IResolve(k) => sig := OpResolve(img[fn].consts[k].s);
      case IDup => sig := OpDup();
    }

    /** The rest. */
    method Perform(i: Instr) returns (sig: Signal)
      requires Valid() && Balanced(multiset{}) && fn in img && fp <= sp && Straight(i) && !PushesValue(i)
      requires Granted(img, View(), i)
      modifies this, ps
      ensures Valid() && Settled(sig) && Reports(img, Apply(img, host, Limits, old(M()), i), View(), w, tally, sig)
    {
      hide HeldBy, Balanced, Settled, Reports, Push, Unwind, StepStoreGlobal;
      match i
      case IJmp(off) =>
        JumpTo(ip + off);
        sig := Went();
      case IJmpF(off) =>
        OpJmpF(off);
        sig := Went();
      case IStoreEnv(slot) =>
        OpStoreEnv(slot);
        sig := Went();
      case IPop =>
        OpPop();
        sig := Went();
      case ITrapEnd =>
        OpTrapEnd();
        sig := Went();
      case IStoreGlobal(k) => sig := OpStoreGlobal(img[fn].consts[k]);
      case IForce => sig := Went();
    }
  }

  predicate PushesValue(i: Instr) {
    i.ILoadConst? || i.ILoadEnv? || i.IResolve? || i.IDup?
  }

  /** Instructions that neither call nor return nor arm a trap. */
  predicate Straight(i: Instr) {
    !(i.IRet? || i.ICall1? || i.ICall2? || i.ICallN? || i.ICallF? || i.ICallS? || i.ITrap? || i.ITryH?)
  }

  /** Where the slot at `k` comes from once `i` pairs of the top `n` have changed places. */
  function Source(base: nat, n: nat, i: nat, k: int): int {
    if base <= k < base + i || base + n - i <= k < base + n then 2 * base + n - 1 - k else k
  }

  ghost predicate HalfReversed(ps: seq<Slot>, was: seq<Slot>, base: nat, n: nat, i: nat) {
    |ps| == |was| == base + n && 2 * i <= n + 1
    && forall k :: 0 <= k < |ps| ==> 0 <= Source(base, n, i, k) < |was| && ps[k] == was[Source(base, n, i, k)]
  }

  lemma HalfStart(ps: seq<Slot>, base: nat, n: nat)
    requires |ps| == base + n
    ensures HalfReversed(ps, ps, base, n, 0)
  {
  }

  lemma DropMore(x: Exec, k: nat)
    requires k < |x.ps|
    ensures Drop(Drop(x, k), 1) == Drop(x, k + 1)
  {
  }

  lemma NonePopped(x: Exec)
    ensures Popped(x.ps, 0) == [] && Drop(x, 0) == x
  {
  }

  lemma HalfStep(ps: seq<Slot>, was: seq<Slot>, base: nat, n: nat, i: nat)
    requires HalfReversed(ps, was, base, n, i) && 2 * i + 1 < n
    ensures HalfReversed(ps[base + i := ps[base + n - 1 - i]][base + n - 1 - i := ps[base + i]], was, base, n, i + 1)
  {
  }

  lemma HalfDone(ps: seq<Slot>, was: seq<Slot>, base: nat, n: nat, i: nat)
    requires HalfReversed(ps, was, base, n, i) && 2 * i + 1 >= n
    requires forall k :: base <= k < base + n ==> was[k].Holds?
    ensures ps == was[..base] + AsSlots(Popped(was, n))
  {
  }

  /** What an instruction takes for granted. */
  ghost predicate Granted(img: Image, x: Exec, i: Instr)
    requires x.fn in img
  {
    match i
    case IRet =>
      && (|x.ps| > Height(x) ==> x.ps[|x.ps| - 1].Holds?)
      && (x.rs != [] && x.rs[|x.rs| - 1].FnFrame? ==> x.rs[|x.rs| - 1].fn in img)
    case IJmp(off) => x.ip + off >= 0
    case IJmpF(off) => Operands(x, 1) && x.ip + off >= 0
    case ILoadConst(k) => k < |img[x.fn].consts|
    case ILoadEnv(l) => l < x.nLocals && Height(x) <= |x.ps|
    case IStoreEnv(l) => l < x.nLocals && Operands(x, 1)
    case IResolve(k) => k < |img[x.fn].consts| && img[x.fn].consts[k].Symbol?
    case ICall1 => Operands(x, 2)
    case ICall2 => Operands(x, 3)
    case ICallN(n) => n <= MAX_ARGS ==> Operands(x, n + 1)
    case ICallF(n) => n <= MAX_ARGS ==> Operands(x, n + 1)
    case ICallS(n) => Operands(x, n) && n <= x.nLocals
    case IDup => Operands(x, 1)
    case ITrap(off) => x.ip + off >= 0
    case IStoreGlobal(k) => k < |img[x.fn].consts| && img[x.fn].consts[k].Symbol? && Operands(x, 1)
    case ITryH => Operands(x, 2)
    case IForce => Operands(x, 1)
    case _ => true
  }

  lemma PopFrameDrop(img: Image, m: Machine, v: Value)
    requires m.x.fp < |m.x.ps| && m.outer == []
    requires m.x.rs != [] && m.x.rs[|m.x.rs| - 1].FnFrame? ==> m.x.rs[|m.x.rs| - 1].fn in img
    ensures PopFrame(img, Limits, m, v) == PopFrame(img, Limits, m.(x := Drop(m.x, 1)), v)
  {
    hide Push;
    var ps, x, y := Take(m.x.ps, m.x.fp), m.x, Drop(m.x, 1);
    assert Take(y.ps, y.fp) == ps;
    if x.rs == [] {
      assert y.(ps := ps) == x.(ps := ps);
    } else {
      var rs := x.rs[..|x.rs| - 1];
      match x.rs[|x.rs| - 1]
      case SelfFrame(fp, ip) =>
        assert y.(ps := ps, rs := rs, fp := fp, ip := ip) == x.(ps := ps, rs := rs, fp := fp, ip := ip);
      case FnFrame(fn, fp, ip) =>
        assert Exec(fn, ip, fp, img[fn].nLocals, ps, rs, y.ts) == Exec(fn, ip, fp, img[fn].nLocals, ps, rs, x.ts);
    }
  }

  /** Unwinding to a trap is restoring its frame and pushing the error. */
  lemma UnwindToTrap(m: Machine, f: Failure, y: Exec)
    requires m.x.ts != []
    requires
      var t := m.x.ts[|m.x.ts| - 1];
      y == Exec(t.fn, t.handler, t.fp, t.nLocals, Take(m.x.ps, t.sp), Take(m.x.rs, t.rp), m.x.ts[..|m.x.ts| - 1])
    ensures Unwind(Limits, m, f) == Push(Limits, m.(x := y, w := m.w.(pending := Unset)), Payload(f, m.w))
  {
  }
}
