/** Which references a state of the executor holds. A reference is named by the
    value it refers to. */
module Ledger {
  import opened Lang
  import opened Machine

  type Refs = multiset<Value>

  function SlotRef(s: Slot): Refs {
    if s.Holds? then multiset{s.v} else multiset{}
  }

  /** One for each value in a slot. */
  function SlotRefs(ps: seq<Slot>): Refs {
    if ps == [] then multiset{} else SlotRefs(ps[..|ps| - 1]) + SlotRef(ps[|ps| - 1])
  }

  function CtxRef(c: Ctx): Refs {
    if c.FnFrame? then multiset{Lam(c.fn)} else multiset{}
  }

  /** One for each suspended function; a self call suspends none. */
  function FrameRefs(rs: seq<Ctx>): Refs {
    if rs == [] then multiset{} else FrameRefs(rs[..|rs| - 1]) + CtxRef(rs[|rs| - 1])
  }

  function TrapRefs(ts: seq<Trap>): Refs {
    if ts == [] then multiset{} else TrapRefs(ts[..|ts| - 1]) + multiset{Lam(ts[|ts| - 1].fn)}
  }

  function HeldBy(x: Exec): Refs {
    SlotRefs(x.ps) + multiset{Lam(x.fn)} + FrameRefs(x.rs) + TrapRefs(x.ts)
  }

  lemma SlotRefsPush(ps: seq<Slot>, s: Slot)
    ensures SlotRefs(ps + [s]) == SlotRefs(ps) + SlotRef(s)
  {
    assert (ps + [s])[..|ps|] == ps;
  }

  lemma {:induction false} SlotRefsConcat(ps: seq<Slot>, qs: seq<Slot>)
    ensures SlotRefs(ps + qs) == SlotRefs(ps) + SlotRefs(qs)
    decreases |qs|
  {
    if qs == [] {
      assert ps + qs == ps;
    } else {
      var n := |qs| - 1;
      assert ps + qs == (ps + qs[..n]) + [qs[n]];
      SlotRefsPush(ps + qs[..n], qs[n]);
      SlotRefsConcat(ps, qs[..n]);
    }
  }

  /** Storing into a slot exchanges one reference for another. */
  lemma SlotRefsStore(ps: seq<Slot>, i: nat, s: Slot)
    requires i < |ps|
    ensures SlotRefs(ps[i := s]) + SlotRef(ps[i]) == SlotRefs(ps) + SlotRef(s)
  {
    var a, b := ps[..i], ps[i + 1..];
    assert ps == a + [ps[i]] + b && ps[i := s] == a + [s] + b;
    SlotRefsConcat(a + [ps[i]], b);
    SlotRefsConcat(a + [s], b);
    SlotRefsPush(a, ps[i]);
    SlotRefsPush(a, s);
  }

  lemma {:induction false} UnsetsHoldNothing(n: int)
    ensures SlotRefs(Unsets(n)) == multiset{}
    decreases n
  {
    if n > 0 {
      UnsetsHoldNothing(n - 1);
      assert Unsets(n)[..n - 1] == Unsets(n - 1);
    }
  }

  lemma {:induction false} AsSlotsHold(vs: seq<Value>)
    ensures SlotRefs(AsSlots(vs)) == multiset(vs)
    decreases |vs|
  {
    if vs != [] {
      var n := |vs| - 1;
      AsSlotsHold(vs[..n]);
      assert AsSlots(vs)[..n] == AsSlots(vs[..n]);
      assert vs == vs[..n] + [vs[n]];
    }
  }

  lemma FrameRefsPush(rs: seq<Ctx>, c: Ctx)
    ensures FrameRefs(rs + [c]) == FrameRefs(rs) + CtxRef(c)
  {
    assert (rs + [c])[..|rs|] == rs;
  }

  lemma TrapRefsPush(ts: seq<Trap>, t: Trap)
    ensures TrapRefs(ts + [t]) == TrapRefs(ts) + multiset{Lam(t.fn)}
  {
    assert (ts + [t])[..|ts|] == ts;
  }

  lemma PopSlot(x: Exec)
    requires x.ps != []
    ensures var n := |x.ps| - 1; HeldBy(x) == HeldBy(x.(ps := x.ps[..n])) + SlotRef(x.ps[n])
  {
    var n := |x.ps| - 1;
    var a, f, c, t, s := SlotRefs(x.ps[..n]), multiset{Lam(x.fn)}, FrameRefs(x.rs), TrapRefs(x.ts), SlotRef(x.ps[n]);
    assert (a + s) + f + c + t == (a + f + c + t) + s;
  }

  lemma PushSlot(x: Exec, s: Slot)
    ensures HeldBy(x.(ps := x.ps + [s])) == HeldBy(x) + SlotRef(s)
  {
    SlotRefsPush(x.ps, s);
    var a, f, c, t := SlotRefs(x.ps), multiset{Lam(x.fn)}, FrameRefs(x.rs), TrapRefs(x.ts);
    assert (a + SlotRef(s)) + f + c + t == (a + f + c + t) + SlotRef(s);
  }

  lemma PopCtx(x: Exec)
    requires x.rs != []
    ensures var n := |x.rs| - 1; HeldBy(x) == HeldBy(x.(rs := x.rs[..n])) + CtxRef(x.rs[n])
  {
    var n := |x.rs| - 1;
    var a, f, t, c := SlotRefs(x.ps), multiset{Lam(x.fn)}, TrapRefs(x.ts), CtxRef(x.rs[n]);
    assert a + f + (FrameRefs(x.rs[..n]) + c) + t == (a + f + FrameRefs(x.rs[..n]) + t) + c;
  }

  lemma PushCtx(x: Exec, c: Ctx)
    ensures HeldBy(x.(rs := x.rs + [c])) == HeldBy(x) + CtxRef(c)
  {
    FrameRefsPush(x.rs, c);
    var a, f, t := SlotRefs(x.ps), multiset{Lam(x.fn)}, TrapRefs(x.ts);
    assert a + f + (FrameRefs(x.rs) + CtxRef(c)) + t == (a + f + FrameRefs(x.rs) + t) + CtxRef(c);
  }

  lemma PopTrapRef(x: Exec)
    requires x.ts != []
    ensures var n := |x.ts| - 1; HeldBy(x) == HeldBy(x.(ts := x.ts[..n])) + multiset{Lam(x.ts[n].fn)}
  {
  }

  lemma PushTrapRef(x: Exec, t: Trap)
    ensures HeldBy(x.(ts := x.ts + [t])) == HeldBy(x) + multiset{Lam(t.fn)}
  {
    TrapRefsPush(x.ts, t);
  }

  /** Held references come into the hand. */
  lemma TakeOut(owned: Refs, h: Refs, h1: Refs, r: Refs, hand: Refs, leaked: Refs)
    requires owned == h + hand + leaked && h == h1 + r
    ensures owned == h1 + (r + hand) + leaked
  {
  }

  /** References newly taken are held at once. */
  lemma TakeIn(owned: Refs, h: Refs, h1: Refs, r: Refs, hand: Refs, leaked: Refs)
    requires owned == h + hand + leaked && h1 == h + r
    ensures owned + r == h1 + hand + leaked
  {
  }

  /** Held references are given back. */
  lemma GiveBack(owned: Refs, h: Refs, h1: Refs, r: Refs, hand: Refs, leaked: Refs)
    requires owned == h + hand + leaked && h == h1 + r
    ensures r <= owned && owned - r == h1 + hand + leaked
  {
    assert owned == (h1 + hand + leaked) + r;
  }

  lemma TakeOne(owned: Refs, h: Refs, h1: Refs, vs: seq<Value>, v: Value, leaked: Refs)
    requires owned == h + multiset(vs) + leaked && h == h1 + multiset{v}
    ensures owned == h1 + multiset(vs + [v]) + leaked
  {
    assert multiset(vs + [v]) == multiset(vs) + multiset{v};
  }

  lemma LastInHand(vs: seq<Value>)
    requires vs != []
    ensures var n := |vs| - 1; multiset(vs) == multiset(vs[..n]) + multiset{vs[n]}
  {
    assert vs == vs[..|vs| - 1] + [vs[|vs| - 1]];
  }

  lemma GiveFirst(owned: Refs, h: Refs, vs: seq<Value>, hand: Refs, leaked: Refs)
    requires vs != [] && owned == h + (multiset(vs) + hand) + leaked
    ensures vs[0] in owned && owned - multiset{vs[0]} == h + (multiset(vs[1..]) + hand) + leaked
  {
    assert vs == [vs[0]] + vs[1..];
    assert multiset(vs) == multiset{vs[0]} + multiset(vs[1..]);
    assert owned == (h + (multiset(vs[1..]) + hand) + leaked) + multiset{vs[0]};
  }

  lemma StoreSlot(x: Exec, i: nat, s: Slot)
    requires i < |x.ps|
    ensures HeldBy(x.(ps := x.ps[i := s])) + SlotRef(x.ps[i]) == HeldBy(x) + SlotRef(s)
  {
    var y := x.(ps := x.ps[i := s]);
    SlotRefsStore(x.ps, i, s);
    AddRest(SlotRefs(y.ps), SlotRef(x.ps[i]), SlotRefs(x.ps), SlotRef(s), multiset{Lam(x.fn)}, FrameRefs(x.rs), TrapRefs(x.ts));
    hide SlotRefs, FrameRefs, TrapRefs, SlotRef;
  }

  /** Two ways of counting the same references, with the rest added. */
  lemma AddRest(a: Refs, r: Refs, b: Refs, s: Refs, f: Refs, c: Refs, t: Refs)
    requires a + r == b + s
    ensures a + f + c + t + r == b + f + c + t + s
  {
    forall v: Value ensures (a + f + c + t + r)[v] == (b + f + c + t + s)[v] {
      assert (a + r)[v] == (b + s)[v];
    }
  }

  lemma Cancel(a: Refs, b: Refs, c: Refs)
    requires a + c == b + c
    ensures a == b
  {
    forall v: Value ensures a[v] == b[v] {
      assert (a + c)[v] == (b + c)[v];
    }
  }

  lemma SwitchFn(x: Exec, y: Exec)
    requires x.ps == y.ps && x.rs == y.rs && x.ts == y.ts
    ensures HeldBy(y) + multiset{Lam(x.fn)} == HeldBy(x) + multiset{Lam(y.fn)}
  {
  }

  lemma OnlyFn(x: Exec)
    requires x.ps == [] && x.rs == [] && x.ts == []
    ensures HeldBy(x) == multiset{Lam(x.fn)}
  {
  }

  /** Exchanging a held reference for one in hand. */
  lemma Exchange(owned: Refs, h1: Refs, h2: Refs, a: Value, b: Value, hand: Refs, leaked: Refs)
    requires owned == h1 + (multiset{b} + hand) + leaked && h2 + multiset{a} == h1 + multiset{b}
    ensures a in owned && owned - multiset{a} == h2 + hand + leaked
  {
    var l, r := owned - multiset{a}, h2 + hand + leaked;
    forall v: Value ensures owned[v] == (r + multiset{a})[v] {
      assert (h2 + multiset{a})[v] == (h1 + multiset{b})[v];
    }
    assert owned == r + multiset{a};
  }

  lemma PoppedNext(ps: seq<Slot>, k: nat)
    requires k < |ps| && forall i :: |ps| - (k + 1) <= i < |ps| ==> ps[i].Holds?
    ensures Popped(ps, k + 1) == Popped(ps, k) + [ps[|ps| - 1 - k].v]
  {
  }

  /** A reference in hand moves in, and the one it replaces is held elsewhere. */
  lemma Transfer(owned: Refs, h: Refs, h1: Refs, h2: Refs, a: Value, b: Value, hand: Refs, leaked: Refs)
    requires owned == h + (multiset{b} + hand) + leaked && h1 == h + multiset{a} && h2 + multiset{a} == h1 + multiset{b}
    ensures owned == h2 + hand + leaked
  {
    assert h2 + multiset{a} == (h + multiset{b}) + multiset{a};
    Cancel(h2, h + multiset{b}, multiset{a});
  }

  /** One of the references in hand moves in. */
  lemma MoveIn(owned: Refs, h: Refs, h1: Refs, vs: seq<Value>, hand: Refs, leaked: Refs)
    requires vs != [] && owned == h + (multiset(vs) + hand) + leaked && h1 == h + multiset{vs[0]}
    ensures owned == h1 + (multiset(vs[1..]) + hand) + leaked
  {
    assert vs == [vs[0]] + vs[1..];
    assert multiset(vs) == multiset{vs[0]} + multiset(vs[1..]);
  }

  lemma AsSlotsNext(vs: seq<Value>, k: nat)
    requires k < |vs|
    ensures AsSlots(vs[..k + 1]) == AsSlots(vs[..k]) + [Holds(vs[k])] && vs[k..][0] == vs[k] && vs[k..][1..] == vs[k + 1..]
  {
  }

  lemma SameRefs(x: Exec, y: Exec)
    requires x.ps == y.ps && x.rs == y.rs && x.ts == y.ts && x.fn == y.fn
    ensures HeldBy(x) == HeldBy(y)
  {
  }

  lemma SwapCancels(h0: Refs, h1: Refs, h2: Refs, a: Refs, b: Refs)
    requires h1 + a == h0 + b && h2 + b == h1 + a
    ensures h2 == h0
  {
    Cancel(h2, h0, b);
  }

  lemma EntryHolds(x: Exec, vs: seq<Value>)
    requires x.rs == [] && x.ts == [] && |vs| <= x.nLocals && x.ps == AsSlots(vs) + Unsets(x.nLocals - |vs|)
    ensures HeldBy(x) == multiset(vs) + multiset{Lam(x.fn)}
  {
    SlotRefsConcat(AsSlots(vs), Unsets(x.nLocals - |vs|));
    AsSlotsHold(vs);
    UnsetsHoldNothing(x.nLocals - |vs|);
  }
}
