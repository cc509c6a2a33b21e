/** Deferred replies on one connection: each synchronous request runs as a
    frame, frames nest, a frame may defer its reply, and the reply owed is sent
    later by handle. */
module Deferral {

  datatype Op =
    | BeginSync                // a request frame starts
    | BeginAsync               // a frame that expects no reply starts
    | Defer                    // `-30!(::)` inside the innermost frame
    | SendDeferred             // `-30!(handle;..)` from anywhere
    | End                      // the innermost frame ends and, if need be, replies

  /** `syncSeq`, `curSyncSeq`, `deferSeq` and `deferReplied` are the fields of the
      connection; `stack` are the sequence numbers of the running frames, the
      innermost last (0: not a request); `replies` counts by sequence number. */
  datatype Conn = Conn(syncSeq: nat, deferSeq: nat, deferReplied: bool, stack: seq<nat>, replies: seq<nat>)

  function Init(): Conn {
    Conn(0, 0, false, [], [0])
  }

  function Cur(c: Conn): nat {
    if c.stack == [] then 0 else c.stack[|c.stack| - 1]
  }

  function Answer(c: Conn, s: nat): Conn {
    if s < |c.replies| then c.(replies := c.replies[s := c.replies[s] + 1]) else c
  }

  function Step(c: Conn, op: Op): Conn {
    match op
    case BeginSync =>
      c.(syncSeq := c.syncSeq + 1, stack := c.stack + [c.syncSeq + 1], replies := c.replies + [0])
    case BeginAsync => c.(stack := c.stack + [0])
    case Defer =>
      if Cur(c) == 0 || c.deferSeq == Cur(c) || (c.deferSeq != 0 && !c.deferReplied) then c
      else c.(deferSeq := Cur(c), deferReplied := false)
    case SendDeferred =>
      if c.deferSeq == 0 || c.deferReplied then c
      else Answer(c, c.deferSeq).(deferReplied := true)
    case End =>
      if c.stack == [] then c
      else
        var s := Cur(c);
        var c1 := c.(stack := c.stack[..|c.stack| - 1]);
        if s == 0 then c1
        else if c.deferSeq != s then Answer(c1, s)
        else if c.deferReplied then c1.(deferSeq := 0)
        else c1
  }

  function Run(c: Conn, ops: seq<Op>): Conn
    decreases |ops|
  {
    if ops == [] then c else Run(Step(c, ops[0]), ops[1..])
  }

  /** The `Defer` that goes wrong: it takes the place of a deferral that has been
      answered already while the frame it belongs to is still running. */
  predicate Overwrites(c: Conn, op: Op) {
    && op.Defer? && Step(c, op) != c
    && c.deferSeq != 0 && c.deferSeq in c.stack
  }

  predicate Clean(c: Conn, ops: seq<Op>)
    decreases |ops|
  {
    ops == [] || (!Overwrites(c, ops[0]) && Clean(Step(c, ops[0]), ops[1..]))
  }

  /** A reply is still owed to `s`. */
  predicate Owed(c: Conn, s: nat) {
    c.deferSeq == s && !c.deferReplied
  }

  /** Replies sent and replies promised. */
  function Settled(c: Conn, s: nat): nat
    requires s < |c.replies|
  {
    c.replies[s] + if s != 0 && Owed(c, s) then 1 else 0
  }

  /** Each request that has finished has been answered, or will be by its deferral: exactly once. */
  ghost predicate ExactlyOnce(c: Conn) {
    forall s :: 0 < s < |c.replies| && s !in c.stack ==> Settled(c, s) == 1
  }

  /** Structure kept by every step. */
  ghost predicate Shape(c: Conn) {
    && |c.replies| == c.syncSeq + 1 && c.replies[0] == 0 && c.deferSeq <= c.syncSeq
    && (forall i :: 0 <= i < |c.stack| ==> c.stack[i] <= c.syncSeq)
    && (forall i, j :: 0 <= i < j < |c.stack| && c.stack[i] != 0 && c.stack[j] != 0 ==> c.stack[i] < c.stack[j])
  }

  /** Kept as long as no deferral is overwritten: a running request has been
      answered or promised an answer only by its own current deferral. */
  ghost predicate Sound(c: Conn) {
    && Shape(c)
    && ExactlyOnce(c)
    && (forall s :: 0 < s < |c.replies| && s in c.stack ==> Settled(c, s) == if c.deferSeq == s then 1 else 0)
  }

  /** Once overwritten, a request that was answered is on its way to a second answer. */
  ghost predicate Spoilt(c: Conn, s: nat) {
    && Shape(c) && 0 < s < |c.replies|
    && c.replies[s] >= 1
    && (s !in c.stack ==> Settled(c, s) >= 2)
    && (s in c.stack && c.deferSeq == s ==> Settled(c, s) >= 2)
  }

  lemma StepShape(c: Conn, op: Op)
    requires Shape(c)
    ensures Shape(Step(c, op)) && |Step(c, op).replies| >= |c.replies|
  {
  }

  lemma StepSoundAt(c: Conn, op: Op, s: nat)
    requires Sound(c) && !Overwrites(c, op) && Shape(Step(c, op))
    requires 0 < s < |Step(c, op).replies|
    ensures Settled(Step(c, op), s) == if s in Step(c, op).stack && Step(c, op).deferSeq != s then 0 else 1
  {
    if op.End? {
      EndSoundAt(c, s);
    } else if op.Defer? {
      DeferSoundAt(c, s);
    }
  }

  lemma EndSoundAt(c: Conn, s: nat)
    requires Sound(c) && Shape(Step(c, End)) && 0 < s < |c.replies|
    ensures Settled(Step(c, End), s) == if s in Step(c, End).stack && Step(c, End).deferSeq != s then 0 else 1
  {
    if c.stack != [] {
      StackTop(c, s);
    }
  }

  /** The innermost frame, and those around it. */
  lemma StackTop(c: Conn, s: nat)
    requires Shape(c) && c.stack != []
    ensures var rest := c.stack[..|c.stack| - 1];
            && (s in c.stack <==> s in rest || s == Cur(c))
            && (s == Cur(c) && s != 0 ==> s !in rest)
  {
    var n := |c.stack| - 1;
    assert c.stack == c.stack[..n] + [Cur(c)];
    assert Cur(c) != 0 ==> forall i :: 0 <= i < n ==> c.stack[i] != c.stack[n];
  }

  lemma DeferSoundAt(c: Conn, s: nat)
    requires Sound(c) && !Overwrites(c, Defer) && 0 < s < |c.replies|
    ensures Settled(Step(c, Defer), s) == if s in Step(c, Defer).stack && Step(c, Defer).deferSeq != s then 0 else 1
  {
  }

  lemma StepSound(c: Conn, op: Op)
    requires Sound(c) && !Overwrites(c, op)
    ensures Sound(Step(c, op))
  {
    StepShape(c, op);
    var d := Step(c, op);
    forall s: nat | 0 < s < |d.replies|
      ensures Settled(d, s) == if s in d.stack && d.deferSeq != s then 0 else 1
    {
      StepSoundAt(c, op, s);
    }
    hide Step, Shape;
  }

  lemma OverwriteSpoils(c: Conn, op: Op)
    requires Sound(c) && Overwrites(c, op)
    ensures Spoilt(Step(c, op), c.deferSeq)
  {
  }

  lemma StepSpoilt(c: Conn, op: Op, s: nat)
    requires Spoilt(c, s)
    ensures Spoilt(Step(c, op), s)
  {
    StepShape(c, op);
    if op.End? {
      EndSpoilt(c, s);
    }
    hide Shape;
  }

  lemma EndSpoilt(c: Conn, s: nat)
    requires Spoilt(c, s) && Shape(Step(c, End))
    ensures Spoilt(Step(c, End), s)
  {
    if c.stack != [] {
      StackTop(c, s);
    }
    hide Shape;
  }

  lemma {:induction false} RunShape(c: Conn, ops: seq<Op>)
    requires Shape(c)
    ensures Shape(Run(c, ops))
    decreases |ops|
  {
    if ops != [] {
      StepShape(c, ops[0]);
      RunShape(Step(c, ops[0]), ops[1..]);
    }
  }

  lemma {:induction false} CleanRuns(c: Conn, ops: seq<Op>)
    requires Sound(c) && Clean(c, ops)
    ensures Sound(Run(c, ops))
    decreases |ops|
  {
    hide Sound, Step;
    if ops != [] {
      StepSound(c, ops[0]);
      CleanRuns(Step(c, ops[0]), ops[1..]);
    }
  }

  lemma {:induction false} SpoiltRuns(c: Conn, ops: seq<Op>, s: nat)
    requires Spoilt(c, s)
    ensures Spoilt(Run(c, ops), s)
    decreases |ops|
  {
    hide Spoilt, Step;
    if ops != [] {
      StepSpoilt(c, ops[0], s);
      SpoiltRuns(Step(c, ops[0]), ops[1..], s);
    }
  }

  lemma {:induction false} DirtyRuns(c: Conn, ops: seq<Op>) returns (s: nat)
    requires Sound(c) && !Clean(c, ops)
    ensures Spoilt(Run(c, ops), s)
    decreases |ops|
  {
    hide Sound, Spoilt, Step;
    if Overwrites(c, ops[0]) {
      s := c.deferSeq;
      OverwriteSpoils(c, ops[0]);
      SpoiltRuns(Step(c, ops[0]), ops[1..], s);
    } else {
      StepSound(c, ops[0]);
      s := DirtyRuns(Step(c, ops[0]), ops[1..]);
    }
  }

  /** As long as no deferral is overwritten, no request is answered twice, and
      each finished one is answered or still owed its one reply. */
  lemma RepliesAtMostOnce(ops: seq<Op>, s: nat)
    requires Clean(Init(), ops) && 0 < s < |Run(Init(), ops).replies|
    ensures var c := Run(Init(), ops);
            c.replies[s] <= 1 && ExactlyOnce(c)
  {
    CleanRuns(Init(), ops);
    assert Settled(Run(Init(), ops), s) <= 1;
  }

  /** Exactly once, exactly when: over any run whose frames have all ended, every
      request gets one reply in all if and only if no `Defer` overwrote the
      answered deferral of a frame that was still running. */
  lemma ExactlyOnceIffClean(ops: seq<Op>)
    requires Run(Init(), ops).stack == []
    ensures ExactlyOnce(Run(Init(), ops)) <==> Clean(Init(), ops)
  {
    if Clean(Init(), ops) {
      CleanRuns(Init(), ops);
    } else {
      var s := DirtyRuns(Init(), ops);
    }
  }

  /** The failing family has members: a request that defers, is answered, and
      then lets a nested request defer is answered again when it ends. */
  lemma AnsweredTwice()
    ensures var ops := [BeginSync, Defer, SendDeferred, BeginSync, Defer, End, End];
            !Clean(Init(), ops) && Run(Init(), ops).stack == [] && Run(Init(), ops).replies == [0, 2, 0]
  {
    var ops := [BeginSync, Defer, SendDeferred, BeginSync, Defer, End, End];
    var cs := [
      Init(), Conn(1, 0, false, [1], [0, 0]), Conn(1, 1, false, [1], [0, 0]), Conn(1, 1, true, [1], [0, 1]),
      Conn(2, 1, true, [1, 2], [0, 1, 0]), Conn(2, 2, false, [1, 2], [0, 1, 0]), Conn(2, 2, false, [1], [0, 1, 0]),
      Conn(2, 2, false, [], [0, 2, 0])];
    hide Step, Overwrites, Run, Clean;
    FirstDeferral();
    SecondDeferral();
    BothEnd();
    assert Overwrites(cs[4], ops[4]);
    RunThrough(cs, ops);
  }

  lemma FirstDeferral()
    ensures Step(Init(), BeginSync) == Conn(1, 0, false, [1], [0, 0])
    ensures Step(Conn(1, 0, false, [1], [0, 0]), Defer) == Conn(1, 1, false, [1], [0, 0])
    ensures Step(Conn(1, 1, false, [1], [0, 0]), SendDeferred) == Conn(1, 1, true, [1], [0, 1])
  {
  }

  lemma SecondDeferral()
    ensures Step(Conn(1, 1, true, [1], [0, 1]), BeginSync) == Conn(2, 1, true, [1, 2], [0, 1, 0])
    ensures Step(Conn(2, 1, true, [1, 2], [0, 1, 0]), Defer) == Conn(2, 2, false, [1, 2], [0, 1, 0])
    ensures Overwrites(Conn(2, 1, true, [1, 2], [0, 1, 0]), Defer)
  {
    var stack: seq<nat> := [1, 2];
    assert stack[0] == 1 && 1 in stack;
  }

  lemma BothEnd()
    ensures Step(Conn(2, 2, false, [1, 2], [0, 1, 0]), End) == Conn(2, 2, false, [1], [0, 1, 0])
    ensures Step(Conn(2, 2, false, [1], [0, 1, 0]), End) == Conn(2, 2, false, [], [0, 2, 0])
  {
    var stack: seq<nat> := [1, 2];
    assert stack[..1] == [1];
  }

  /** A run by its states. */
  lemma {:induction false} RunThrough(cs: seq<Conn>, ops: seq<Op>)
    requires |cs| == |ops| + 1 && forall i :: 0 <= i < |ops| ==> Step(cs[i], ops[i]) == cs[i + 1]
    ensures Run(cs[0], ops) == cs[|ops|]
    ensures Clean(cs[0], ops) <==> forall i :: 0 <= i < |ops| ==> !Overwrites(cs[i], ops[i])
    decreases |ops|
  {
    hide Step, Overwrites;
    if ops != [] {
      RunThrough(cs[1..], ops[1..]);
      assert forall i :: 0 <= i < |ops| - 1 ==> cs[1..][i] == cs[i + 1] && ops[1..][i] == ops[i + 1];
    }
  }

  lemma {:induction false} RunAppend(c: Conn, a: seq<Op>, b: seq<Op>)
    ensures Run(c, a + b) == Run(Run(c, a), b)
    decreases |a|
  {
    if a == [] {
      assert a + b == b;
    } else {
      RunAppend(Step(c, a[0]), a[1..], b);
      assert (a + b)[0] == a[0] && (a + b)[1..] == a[1..] + b;
    }
  }

  /** A request that neither defers nor nests is answered when it ends, and only then. */
  lemma PlainIsAnsweredAtEnd(c: Conn)
    requires Shape(c)
    ensures var s, begun := c.syncSeq + 1, Step(c, BeginSync);
            begun.replies == c.replies + [0] && Step(begun, End) == c.(syncSeq := s, replies := c.replies + [1])
  {
    assert (c.stack + [c.syncSeq + 1])[..|c.stack|] == c.stack;
    assert (c.replies + [0])[c.syncSeq + 1 := 1] == c.replies + [1];
  }

  /** A request that defers is not answered when it ends, but by the deferred reply. */
  lemma DeferredIsAnsweredLater(c: Conn)
    requires Shape(c) && (c.deferSeq == 0 || c.deferReplied)
    ensures var s, ended := c.syncSeq + 1, Step(Step(Step(c, BeginSync), Defer), End);
            && ended == Conn(s, s, false, c.stack, c.replies + [0])
            && Step(ended, SendDeferred) == Conn(s, s, true, c.stack, c.replies + [1])
  {
    var s := c.syncSeq + 1;
    assert Step(c, BeginSync) == Conn(s, c.deferSeq, c.deferReplied, c.stack + [s], c.replies + [0]);
    assert Step(Step(c, BeginSync), Defer) == Conn(s, s, false, c.stack + [s], c.replies + [0]);
    assert (c.stack + [s])[..|c.stack|] == c.stack;
    assert (c.replies + [0])[s := 1] == c.replies + [1];
  }

  /** A frame that expects no reply gets none, also when it asks to defer. */
  lemma AsyncIsNotAnswered(c: Conn)
    ensures Step(Step(Step(c, BeginAsync), Defer), End) == c
  {
    assert (c.stack + [0])[..|c.stack|] == c.stack;
  }

  // ----- the connection object -----

  /** What the evaluation of a frame does to its connection. */
  datatype Act = DeferIt | SendIt | Frame(sync: bool, body: seq<Act>)

  function Ops(a: Act): seq<Op>
    decreases a, 1
  {
    match a
    case DeferIt => [Defer]
    case SendIt => [SendDeferred]
    case Frame(sync, body) => [if sync then BeginSync else BeginAsync] + OpsAll(body) + [End]
  }

  function OpsAll(acts: seq<Act>): seq<Op>
    decreases acts, 0
  {
    if acts == [] then [] else OpsAll(acts[..|acts| - 1]) + Ops(acts[|acts| - 1])
  }

  class ConnData {
    var syncSeq: nat
    var curSyncSeq: nat
    var deferSeq: nat
    var deferReplied: bool
    ghost var frames: seq<nat>
    ghost var replies: seq<nat>

    ghost function State(): Conn
      reads this
    {
      Conn(syncSeq, deferSeq, deferReplied, frames, replies)
    }

    ghost predicate Valid()
      reads this
    {
      curSyncSeq == Cur(State())
    }

    constructor ()
      ensures Valid() && State() == Init()
    {
      syncSeq, curSyncSeq, deferSeq, deferReplied := 0, 0, 0, false;
      frames, replies := [], [0];
    }

    /** `ray_ipc_defer_response`; the result says whether the request may go without a reply. */
    method DeferResponse() returns (ok: bool)
      requires Valid()
      modifies this`deferSeq, this`deferReplied
      ensures Valid() && State() == Step(old(State()), Defer)
      ensures ok <==> curSyncSeq != 0 && deferSeq == curSyncSeq
    {
      var seqNo := curSyncSeq;
      if seqNo == 0 {
        return false;
      }
      if deferSeq == seqNo {
        return true;
      }
      if deferSeq != 0 && !deferReplied {
        return false;
      }
      deferSeq, deferReplied := seqNo, false;
      return true;
    }

    /** `ray_ipc_send_deferred`. */
    method SendDeferredReply() returns (ok: bool)
      requires Valid()
      modifies this`deferReplied, this`replies
      ensures Valid() && State() == Step(old(State()), SendDeferred)
      ensures ok <==> old(deferSeq != 0 && !deferReplied)
    {
      if deferSeq == 0 || deferReplied {
        return false;
      }
      replies := Answer(State(), deferSeq).replies;
      deferReplied := true;
      return true;
    }

    /** `ipc_read_payload` up to the evaluation of the frame. */
    method BeginFrame(sync: bool) returns (prev: nat, seqNo: nat)
      requires Valid()
      modifies this
      ensures Valid() && State() == Step(old(State()), if sync then BeginSync else BeginAsync)
      ensures prev == old(curSyncSeq) && seqNo == curSyncSeq && frames == old(frames) + [seqNo] && (sync <==> seqNo != 0)
    {
      prev, seqNo := curSyncSeq, 0;
      if sync {
        syncSeq := syncSeq + 1;
        seqNo := syncSeq;
        replies := replies + [0];
      }
      frames := frames + [seqNo];
      curSyncSeq := seqNo;
    }

    /** `ipc_read_payload` after it: reply, unless the frame deferred its reply. */
    method EndFrame(sync: bool, prev: nat, seqNo: nat)
      requires Valid() && frames != [] && seqNo == curSyncSeq && (sync <==> seqNo != 0)
      requires prev == Cur(State().(stack := frames[..|frames| - 1]))
      modifies this
      ensures Valid() && State() == Step(old(State()), End)
    {
      curSyncSeq := prev;
      frames := frames[..|frames| - 1];
      if sync {
        if deferSeq != seqNo {
          replies := Answer(State(), seqNo).replies;
        } else if deferReplied {
          deferSeq := 0;
        }
      }
    }

    /** Whatever a frame does, frames inside it included. */
    method Perform(a: Act)
      requires Valid()
      modifies this
      ensures Valid() && State() == Run(old(State()), Ops(a))
      decreases a, 0
    {
      match a
      case DeferIt =>
        var _ := DeferResponse();
      case SendIt =>
        var _ := SendDeferredReply();
      case Frame(sync, body) =>
        ghost var c0 := State();
        var prev, seqNo := BeginFrame(sync);
        ghost var c1 := State();
        PerformAll(body);
        BodyKeepsStack(c1, body);
        EndFrame(sync, prev, seqNo);
        FrameRuns(c0, sync, body);
    }

    method PerformAll(acts: seq<Act>)
      requires Valid()
      modifies this
      ensures Valid() && State() == Run(old(State()), OpsAll(acts))
      decreases acts, 1
    {
      ghost var c := State();
      for i := 0 to |acts|
        invariant Valid() && State() == Run(c, OpsAll(acts[..i]))
      {
        Perform(acts[i]);
        assert acts[..i + 1][..i] == acts[..i];
        RunAppend(c, OpsAll(acts[..i]), Ops(acts[i]));
      }
      assert acts[..|acts|] == acts;
    }
  }

  lemma FrameRuns(c: Conn, sync: bool, body: seq<Act>)
    ensures Run(c, Ops(Frame(sync, body))) ==
            Step(Run(Step(c, if sync then BeginSync else BeginAsync), OpsAll(body)), End)
  {
    hide Step;
    var begin := if sync then BeginSync else BeginAsync;
    RunAppend(c, [begin] + OpsAll(body), [End]);
    RunAppend(c, [begin], OpsAll(body));
    assert Run(c, [begin]) == Step(c, begin);
    var c2 := Run(Step(c, begin), OpsAll(body));
    assert Run(c2, [End]) == Step(c2, End);
  }

  /** Frames nest: what a frame does leaves the frames around it running. */
  lemma {:induction false} BodyKeepsStack(c: Conn, acts: seq<Act>)
    ensures Run(c, OpsAll(acts)).stack == c.stack
    decreases acts, 0
  {
    if acts != [] {
      var n := |acts| - 1;
      BodyKeepsStack(c, acts[..n]);
      ActKeepsStack(Run(c, OpsAll(acts[..n])), acts[n]);
      RunAppend(c, OpsAll(acts[..n]), Ops(acts[n]));
    }
  }

  lemma {:induction false} ActKeepsStack(c: Conn, a: Act)
    ensures Run(c, Ops(a)).stack == c.stack
    decreases a, 1
  {
    match a
    case DeferIt =>
      assert Run(c, [Defer]) == Step(c, Defer);
    case SendIt =>
      assert Run(c, [SendDeferred]) == Step(c, SendDeferred);
    case Frame(sync, body) =>
      var c1 := Step(c, if sync then BeginSync else BeginAsync);
      FrameRuns(c, sync, body);
      BodyKeepsStack(c1, body);
      assert c1.stack[..|c.stack|] == c.stack;
  }
}
