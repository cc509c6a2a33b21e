/** The slots of the selector table during `ray_poll_destroy`: the sweep empties
    them one by one, while close callbacks may take, leave and add others. */
module Sweep {

  /** A deregistration, and what happens until its close callback returns. */
  datatype Teardown = Teardown(id: nat, during: seq<Incident>)

  datatype Incident =
    | Posts(k: nat)                   // the kernel posts one of the completions it owes
    | Registers                       // the callback registers a selector
    | Closes(t: Teardown)             // the callback deregisters one

  /** Which slots are taken, and those of them that were taken at or behind the
      place the sweep had reached, and have not been left since. */
  datatype Slots = Slots(taken: seq<bool>, behind: set<nat>)

  function FirstFree(taken: seq<bool>, i: nat): (r: nat)
    requires i <= |taken|
    ensures i <= r <= |taken| && (r < |taken| ==> !taken[r]) && forall j :: i <= j < r ==> taken[j]
    decreases |taken| - i
  {
    if i < |taken| && taken[i] then FirstFree(taken, i + 1) else i
  }

  function Filled(s: Slots, cursor: nat): Slots {
    var id := FirstFree(s.taken, 0);
    Slots(if id < |s.taken| then s.taken[id := true] else s.taken + [true],
          if id <= cursor then s.behind + {id} else s.behind)
  }

  function Emptied(s: Slots, id: nat): Slots
    requires id < |s.taken|
  {
    Slots(s.taken[id := false], s.behind - {id})
  }

  function TornDown(s: Slots, t: Teardown, cursor: nat): (r: Slots)
    ensures t.during == [] ==> |r.taken| == |s.taken|
    decreases t, |t.during| + 1
  {
    if t.id < |s.taken| && s.taken[t.id] then Happened(Emptied(s, t.id), t, 0, cursor) else s
  }

  /** What happens during `t`, from the `k`-th incident on. */
  function Happened(s: Slots, t: Teardown, k: nat, cursor: nat): Slots
    requires k <= |t.during|
    decreases t, |t.during| - k
  {
    if k == |t.during| then s else Happened(After(s, t.during[k], cursor), t, k + 1, cursor)
  }

  function After(s: Slots, e: Incident, cursor: nat): Slots
    decreases e, 0
  {
    match e
    case Posts(_) => s
    case Registers => Filled(s, cursor)
    case Closes(u) => TornDown(s, u, cursor)
  }

  /** The teardown of slot `i`; `closing` says what happens during it. */
  function Closing(closing: seq<seq<Incident>>, i: nat): Teardown {
    Teardown(i, if i < |closing| then closing[i] else [])
  }

  /** The sweep from slot `i` on. */
  function Swept(s: Slots, closing: seq<seq<Incident>>, i: nat): Slots
    decreases if i < |closing| then |closing| - i else 0, |s.taken| - i
  {
    if i >= |s.taken| then s else Swept(TornDown(s, Closing(closing, i), i), closing, i + 1)
  }

  /** The slots that are taken behind the back of the sweep, for good. */
  function LeftBehind(taken: seq<bool>, closing: seq<seq<Incident>>): set<nat> {
    Swept(Slots(taken, {}), closing, 0).behind
  }

  /** Below `n` the slots taken are just those taken behind the sweep. */
  ghost predicate Settled(s: Slots, n: nat) {
    forall j: nat :: j in s.behind <==> j < n && j < |s.taken| && s.taken[j]
  }

  lemma {:induction false} AfterSettled(s: Slots, e: Incident, cursor: nat)
    requires Settled(s, cursor + 1)
    ensures Settled(After(s, e, cursor), cursor + 1)
    decreases e, 0
  {
    if e.Closes? && e.t.id < |s.taken| && s.taken[e.t.id] {
      HappenedSettled(Emptied(s, e.t.id), e.t, 0, cursor);
    }
  }

  lemma {:induction false} HappenedSettled(s: Slots, t: Teardown, k: nat, cursor: nat)
    requires k <= |t.during| && Settled(s, cursor + 1)
    ensures Settled(Happened(s, t, k, cursor), cursor + 1)
    decreases t, |t.during| - k
  {
    hide Settled;
    if k < |t.during| {
      AfterSettled(s, t.during[k], cursor);
      HappenedSettled(After(s, t.during[k], cursor), t, k + 1, cursor);
    }
  }

  lemma {:induction false} SweptSettled(s: Slots, closing: seq<seq<Incident>>, i: nat)
    requires Settled(s, i)
    ensures var r := Swept(s, closing, i); Settled(r, |r.taken|)
    decreases if i < |closing| then |closing| - i else 0, |s.taken| - i
  {
    if i < |s.taken| {
      var t := Closing(closing, i);
      if s.taken[i] {
        HappenedSettled(Emptied(s, i), t, 0, i);
      }
      SweptSettled(TornDown(s, t, i), closing, i + 1);
    }
  }

  /** Whatever happens during the teardowns: a slot is taken at the end if and only
      if it was taken at or behind the sweep and has not been left since. */
  lemma LeftIsBehind(taken: seq<bool>, closing: seq<seq<Incident>>)
    ensures var end := Swept(Slots(taken, {}), closing, 0).taken;
            forall j: nat :: j < |end| && end[j] <==> j in LeftBehind(taken, closing)
  {
    SweptSettled(Slots(taken, {}), closing, 0);
  }

  /** Nothing is registered during the teardown, at any depth. */
  predicate Quiet(t: Teardown) {
    forall k :: 0 <= k < |t.during| ==> !t.during[k].Registers? && (t.during[k].Closes? ==> Quiet(t.during[k].t))
  }

  /** No slot is taken or added. */
  predicate NoMore(s: Slots, r: Slots) {
    |r.taken| == |s.taken| && r.behind <= s.behind && forall j :: 0 <= j < |s.taken| && r.taken[j] ==> s.taken[j]
  }

  lemma {:induction false} QuietTornDown(s: Slots, t: Teardown, cursor: nat)
    requires Quiet(t)
    ensures NoMore(s, TornDown(s, t, cursor))
    decreases t, |t.during| + 1
  {
    if t.id < |s.taken| && s.taken[t.id] {
      QuietHappened(Emptied(s, t.id), t, 0, cursor);
    }
  }

  lemma {:induction false} QuietHappened(s: Slots, t: Teardown, k: nat, cursor: nat)
    requires Quiet(t) && k <= |t.during|
    ensures NoMore(s, Happened(s, t, k, cursor))
    decreases t, |t.during| - k
  {
    if k < |t.during| {
      if t.during[k].Closes? {
        QuietTornDown(s, t.during[k].t, cursor);
      }
      QuietHappened(After(s, t.during[k], cursor), t, k + 1, cursor);
    }
  }

  lemma {:induction false} QuietSwept(s: Slots, closing: seq<seq<Incident>>, i: nat)
    requires s.behind == {}
    requires forall k :: i <= k < |s.taken| && s.taken[k] ==> Quiet(Closing(closing, k))
    ensures Swept(s, closing, i).behind == {}
    decreases if i < |closing| then |closing| - i else 0, |s.taken| - i
  {
    if i < |s.taken| {
      var t := Closing(closing, i);
      if s.taken[i] {
        QuietTornDown(s, t, i);
      }
      QuietSwept(TornDown(s, t, i), closing, i + 1);
    }
  }

  /** Unless a close callback of a selector in the table registers something,
      itself or in a teardown nested in it, nothing is left. */
  lemma QuietLeavesNothing(taken: seq<bool>, closing: seq<seq<Incident>>)
    requires forall k :: 0 <= k < |taken| && taken[k] ==> Quiet(Closing(closing, k))
    ensures LeftBehind(taken, closing) == {}
  {
    QuietSwept(Slots(taken, {}), closing, 0);
  }

  /** Nothing is deregistered during the teardown of any slot. */
  predicate OpensOnly(closing: seq<seq<Incident>>) {
    forall i, k :: 0 <= i < |closing| && 0 <= k < |closing[i]| ==> !closing[i][k].Closes?
  }

  /** Something is registered during the teardown of slot `i`. */
  predicate Registering(closing: seq<seq<Incident>>, i: nat) {
    i < |closing| && Registers in closing[i]
  }

  /** The first selector registered while slot `cursor` is torn down finds a slot
      there or before, and nobody takes it out again. */
  lemma {:induction false} OpensHappened(s: Slots, t: Teardown, k: nat, cursor: nat)
    requires k <= |t.during| && forall j :: 0 <= j < |t.during| ==> !t.during[j].Closes?
    ensures var r := Happened(s, t, k, cursor);
            && s.behind <= r.behind && (forall j :: j in r.behind ==> j in s.behind || j <= cursor)
            && (Registers in t.during[k..] && FirstFree(s.taken, 0) <= cursor ==> r.behind != {})
            && (Registers !in t.during[k..] ==> r == s)
    decreases |t.during| - k
  {
    if k < |t.during| {
      assert t.during[k..] == [t.during[k]] + t.during[k + 1..];
      var s1 := After(s, t.during[k], cursor);
      OpensHappened(s1, t, k + 1, cursor);
      assert t.during[k].Registers? && FirstFree(s.taken, 0) <= cursor ==> FirstFree(s.taken, 0) in s1.behind;
    }
  }

  lemma {:induction false} OpensSwept(s: Slots, closing: seq<seq<Incident>>, i: nat)
    requires OpensOnly(closing) && forall j :: j in s.behind ==> j < i
    ensures Swept(s, closing, i).behind != {} <==>
            s.behind != {} || exists k :: i <= k < |s.taken| && s.taken[k] && Registering(closing, k)
    decreases if i < |closing| then |closing| - i else 0, |s.taken| - i
  {
    if i < |s.taken| {
      var t := Closing(closing, i);
      var s1 := TornDown(s, t, i);
      if s.taken[i] {
        var s0 := Emptied(s, i);
        assert !s0.taken[i] && s0.behind == s.behind;
        OpensHappened(s0, t, 0, i);
        assert t.during[0..] == t.during;
      }
      OpensSwept(s1, closing, i + 1);
      assert s.behind <= s1.behind;
      if !(s.taken[i] && Registering(closing, i)) {
        assert s1.behind == s.behind && |s1.taken| == |s.taken|;
        assert forall k :: i < k < |s.taken| ==> s1.taken[k] == s.taken[k];
      }
    }
  }

  /** When close callbacks deregister nothing, something is left if and only if
      that of a selector in the table registers something. */
  lemma OpensLeaves(taken: seq<bool>, closing: seq<seq<Incident>>)
    requires OpensOnly(closing)
    ensures LeftBehind(taken, closing) != {} <==>
            exists k :: 0 <= k < |taken| && taken[k] && Registering(closing, k)
  {
    OpensSwept(Slots(taken, {}), closing, 0);
  }
}
