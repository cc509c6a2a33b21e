/** The completion-port reactor on values: which containers the table, the kernel,
    the port, the batch and the zombie list hold, and what every event makes of them. */
module Reactor {
  import opened Sweep

  class Container {
    var inFlight: bool
    var zombie: bool
    var nextZombie: Container?

    constructor ()
      ensures !inFlight && !zombie && nextZombie == null
    {
      inFlight, zombie, nextZombie := false, false, null;
    }
  }

  /** One wait of the final drain: what the kernel posts meanwhile, and how many
      packets come off the port (none: the wait timed out). */
  datatype Round = Round(posts: seq<nat>, n: nat)

  /** What can happen to the reactor, in any order. */
  datatype Event =
    | Register
    | Arm(id: nat, accepted: bool)    // `accepted`: the overlapped read was queued
    | Complete(k: nat)                // the kernel posts one of the completions it owes
    | Dequeue(n: nat)                 // the reactor takes up to `n` packets off the port
    | Process                         // the reactor handles the next packet of its batch
    | Deregister(t: Teardown)         // from a callback, or from outside

  /** `regs` is how many selectors have been registered. */
  datatype Snapshot = Snapshot(
    sels: seq<Container?>, kernel: seq<Container>, port: seq<Container>, batch: seq<Container>,
    zombies: seq<Container>, live: set<Container>, freed: set<Container>, regs: nat)

  predicate Distinct(s: seq<Container>) {
    forall i, j :: 0 <= i < j < |s| ==> s[i] != s[j]
  }

  /** Some completion names the container. */
  predicate NamedIn(s: Snapshot, c: Container) {
    c in s.kernel || c in s.port || c in s.batch
  }

  function TakenIn(sels: seq<Container?>): (r: seq<bool>)
    ensures |r| == |sels|
  {
    seq(|sels|, i requires 0 <= i < |sels| => sels[i] != null)
  }

  function Without(s: seq<Container>, k: nat): (r: seq<Container>)
    requires k < |s|
    ensures |r| == |s| - 1
  {
    s[..k] + s[k + 1..]
  }

  /** The list once `c` is unlinked. */
  function Minus(s: seq<Container>, c: Container): seq<Container> {
    if s == [] then [] else if s[0] == c then s[1..] else [s[0]] + Minus(s[1..], c)
  }

  // One operation each.  The `n`-th selector registered is `made[n]`.

  function Registered(s: Snapshot, made: seq<Container>): Snapshot {
    if s.regs >= |made| then s.(regs := s.regs + 1)
    else
      var c, id := made[s.regs], FirstFree(TakenIn(s.sels), 0);
      s.(sels := if id < |s.sels| then s.sels[id := c] else s.sels + [c], live := s.live + {c}, regs := s.regs + 1)
  }

  /** A probe for a selector that has none under way. */
  function Armed(s: Snapshot, id: nat, accepted: bool): Snapshot {
    if id < |s.sels| && s.sels[id] != null && accepted && !NamedIn(s, s.sels[id]) then s.(kernel := s.kernel + [s.sels[id]])
    else s
  }

  function Posted(s: Snapshot, k: nat): Snapshot {
    if k < |s.kernel| then s.(kernel := Without(s.kernel, k), port := s.port + [s.kernel[k]]) else s
  }

  function Dequeued(s: Snapshot, n: nat): Snapshot {
    if s.batch != [] then s
    else if n < |s.port| then s.(batch := s.port[..n], port := s.port[n..])
    else s.(batch := s.port, port := [])
  }

  function Processed(s: Snapshot): Snapshot {
    if s.batch == [] then s
    else
      var c, s1 := s.batch[0], s.(batch := s.batch[1..]);
      if c in s.zombies then s1.(zombies := Minus(s.zombies, c), live := s.live - {c}, freed := s.freed + {c}) else s1
  }

  function Detached(s: Snapshot, id: nat): Snapshot
    requires id < |s.sels|
  {
    s.(sels := s.sels[id := null])
  }

  function Finished(s: Snapshot, c: Container): Snapshot {
    if NamedIn(s, c) then s.(zombies := [c] + s.zombies) else s.(live := s.live - {c}, freed := s.freed + {c})
  }

  function TornDown(s: Snapshot, t: Teardown, made: seq<Container>): Snapshot
    decreases t, |t.during| + 1
  {
    if t.id < |s.sels| && s.sels[t.id] != null then Finished(Through(s, t, |t.during|, made), s.sels[t.id]) else s
  }

  /** Out of the table, and the first `k` incidents over. */
  function Through(s: Snapshot, t: Teardown, k: nat, made: seq<Container>): Snapshot
    requires t.id < |s.sels| && k <= |t.during|
    decreases t, k
  {
    if k == 0 then Detached(s, t.id) else Underwent(Through(s, t, k - 1, made), t.during[k - 1], made)
  }

  function Underwent(s: Snapshot, e: Incident, made: seq<Container>): Snapshot
    decreases e, 0
  {
    match e
    case Posts(k) => Posted(s, k)
    case Registers => Registered(s, made)
    case Closes(u) => TornDown(s, u, made)
  }

  function Performed(s: Snapshot, e: Event, made: seq<Container>): Snapshot {
    match e
    case Register => Registered(s, made)
    case Arm(id, accepted) => Armed(s, id, accepted)
    case Complete(k) => Posted(s, k)
    case Dequeue(n) => Dequeued(s, n)
    case Process => Processed(s)
    case Deregister(t) => TornDown(s, t, made)
  }

  function RunOf(s: Snapshot, events: seq<Event>, made: seq<Container>): Snapshot {
    if events == [] then s
    else Performed(RunOf(s, events[..|events| - 1], made), events[|events| - 1], made)
  }

  // Teardown of the reactor.

  /** The sweep over the first `i` slots. */
  function SweepOf(s: Snapshot, closing: seq<seq<Incident>>, i: nat, made: seq<Container>): Snapshot {
    if i == 0 then s else TornDown(SweepOf(s, closing, i - 1, made), Closing(closing, i - 1), made)
  }

  /** The whole batch. */
  function AllProcessed(s: Snapshot): (r: Snapshot)
    ensures r.batch == [] && r.kernel == s.kernel && r.port == s.port && r.sels == s.sels
    decreases |s.batch|
  {
    if s.batch == [] then s else AllProcessed(Processed(s))
  }

  function AllPosted(s: Snapshot, posts: seq<nat>): Snapshot {
    if posts == [] then s else Posted(AllPosted(s, posts[..|posts| - 1]), posts[|posts| - 1])
  }

  function Waited(s: Snapshot, r: Round): Snapshot {
    AllProcessed(Dequeued(AllPosted(s, r.posts), r.n))
  }

  function Drained(s: Snapshot, rounds: seq<Round>): Snapshot
    decreases |rounds|
  {
    if s.zombies == [] || rounds == [] then s else Drained(Waited(s, rounds[0]), rounds[1..])
  }

  // What the operations that follow one another come to.

  lemma {:induction false} MinusAt(s: seq<Container>, c: Container, i: nat)
    requires i < |s| && s[i] == c && forall j :: 0 <= j < i ==> s[j] != c
    ensures Minus(s, c) == Without(s, i)
  {
    if i > 0 {
      MinusAt(s[1..], c, i - 1);
      assert [s[0]] + Without(s[1..], i - 1) == Without(s, i);
    }
  }

  lemma {:induction false} MinusAbsent(s: seq<Container>, c: Container)
    requires c !in s
    ensures Minus(s, c) == s
  {
    if s != [] {
      MinusAbsent(s[1..], c);
    }
  }

  /** One element less. */
  lemma WithoutMembers(s: seq<Container>, k: nat)
    requires Distinct(s) && k < |s|
    ensures Distinct(Without(s, k)) && forall d :: d in Without(s, k) <==> d in s && d != s[k]
  {
    var r := Without(s, k);
    forall d | d in s && d != s[k]
      ensures d in r
    {
      var j :| 0 <= j < |s| && s[j] == d;
      assert r[if j < k then j else j - 1] == d;
    }
  }

  lemma MinusMembers(s: seq<Container>, c: Container)
    requires Distinct(s)
    ensures Distinct(Minus(s, c)) && forall d {:trigger d in Minus(s, c)} :: d in Minus(s, c) ==> d in s && d != c
    ensures forall d {:trigger d in s} :: d in s && d != c ==> d in Minus(s, c)
  {
    if c in s {
      var i :| 0 <= i < |s| && s[i] == c;
      MinusAt(s, c, i);
      WithoutMembers(s, i);
    } else {
      MinusAbsent(s, c);
    }
  }

  /** The selectors registered later do not matter. */
  lemma {:induction false} MadeLater(s: Snapshot, t: Teardown, made: seq<Container>, more: seq<Container>)
    requires made <= more && TornDown(s, t, made).regs <= |made|
    ensures TornDown(s, t, more) == TornDown(s, t, made)
    decreases t, |t.during| + 1
  {
    if t.id < |s.sels| && s.sels[t.id] != null {
      ThroughLater(s, t, |t.during|, made, more);
    }
  }

  lemma {:induction false} ThroughLater(s: Snapshot, t: Teardown, k: nat, made: seq<Container>, more: seq<Container>)
    requires t.id < |s.sels| && k <= |t.during| && made <= more && Through(s, t, k, made).regs <= |made|
    ensures Through(s, t, k, more) == Through(s, t, k, made)
    decreases t, k
  {
    if k > 0 {
      UnderwentLater(Through(s, t, k - 1, made), t.during[k - 1], made, more);
      ThroughLater(s, t, k - 1, made, more);
    }
  }

  lemma {:induction false} UnderwentLater(s: Snapshot, e: Incident, made: seq<Container>, more: seq<Container>)
    requires made <= more && Underwent(s, e, made).regs <= |made|
    ensures s.regs <= |made| && Underwent(s, e, more) == Underwent(s, e, made)
    decreases e, 0
  {
    UnderwentGrows(s, e, made);
    if e.Closes? {
      MadeLater(s, e.t, made, more);
    }
  }

  lemma {:induction false} UnderwentGrows(s: Snapshot, e: Incident, made: seq<Container>)
    ensures Underwent(s, e, made).regs >= s.regs
    decreases e, 0
  {
    if e.Closes? && e.t.id < |s.sels| {
      ThroughGrows(s, e.t, |e.t.during|, made);
    }
  }

  lemma {:induction false} ThroughGrows(s: Snapshot, t: Teardown, k: nat, made: seq<Container>)
    requires t.id < |s.sels| && k <= |t.during|
    ensures Through(s, t, k, made).regs >= s.regs
    decreases t, k
  {
    if k > 0 {
      ThroughGrows(s, t, k - 1, made);
      UnderwentGrows(Through(s, t, k - 1, made), t.during[k - 1], made);
    }
  }

  lemma PerformedLater(s: Snapshot, e: Event, made: seq<Container>, more: seq<Container>)
    requires made <= more && Performed(s, e, made).regs <= |made|
    ensures s.regs <= |made| && Performed(s, e, more) == Performed(s, e, made)
  {
    if e.Deregister? {
      UnderwentLater(s, Closes(e.t), made, more);
    }
  }

  lemma {:induction false} RunLater(s: Snapshot, events: seq<Event>, made: seq<Container>, more: seq<Container>)
    requires made <= more && RunOf(s, events, made).regs <= |made|
    ensures RunOf(s, events, more) == RunOf(s, events, made)
  {
    if events != [] {
      var n := |events| - 1;
      PerformedLater(RunOf(s, events[..n], made), events[n], made, more);
      RunLater(s, events[..n], made, more);
    }
  }

  lemma {:induction false} SweepLater(s: Snapshot, closing: seq<seq<Incident>>, i: nat, made: seq<Container>, more: seq<Container>)
    requires made <= more && SweepOf(s, closing, i, made).regs <= |made|
    ensures SweepOf(s, closing, i, more) == SweepOf(s, closing, i, made)
  {
    if i > 0 {
      UnderwentLater(SweepOf(s, closing, i - 1, made), Closes(Closing(closing, i - 1)), made, more);
      SweepLater(s, closing, i - 1, made, more);
    }
  }

  // Progress.

  /** Each zombie is in the list once, and a completion names it. */
  ghost predicate Tidy(s: Snapshot) {
    Distinct(s.zombies) && forall c :: c in s.zombies ==> NamedIn(s, c)
  }

  function Names(s: Snapshot): set<Container> {
    set c | c in s.kernel + s.port + s.batch
  }

  /** The same containers are named, and nothing else has changed but who holds the completions. */
  ghost predicate Moved(s: Snapshot, r: Snapshot) {
    && r == s.(kernel := r.kernel, port := r.port, batch := r.batch)
    && Names(r) == Names(s)
  }

  lemma PostedMoves(s: Snapshot, k: nat)
    ensures var r := Posted(s, k);
            && Moved(s, r) && |r.kernel| + |r.port| == |s.kernel| + |s.port| && |r.port| >= |s.port|
            && (k < |s.kernel| ==> |r.port| > |s.port|) && r.batch == s.batch
  {
    if k < |s.kernel| {
      assert s.kernel == s.kernel[..k] + [s.kernel[k]] + s.kernel[k + 1..];
    }
  }

  lemma {:induction false} AllPostedMoves(s: Snapshot, posts: seq<nat>)
    ensures var r := AllPosted(s, posts);
            && Moved(s, r) && |r.kernel| + |r.port| == |s.kernel| + |s.port| && |r.port| >= |s.port|
            && (0 in posts && |s.kernel| > 0 ==> |r.port| > 0) && r.batch == s.batch
  {
    if posts != [] {
      var n := |posts| - 1;
      AllPostedMoves(s, posts[..n]);
      PostedMoves(AllPosted(s, posts[..n]), posts[n]);
      assert posts == posts[..n] + [posts[n]];
      hide Posted, Moved;
      assert Moved(s, AllPosted(s, posts)) by {
        MovedOn(s, AllPosted(s, posts[..n]), AllPosted(s, posts));
      }
    }
  }

  lemma MovedOn(s: Snapshot, r: Snapshot, t: Snapshot)
    requires Moved(s, r) && Moved(r, t)
    ensures Moved(s, t)
  {
  }

  lemma DequeuedMoves(s: Snapshot, n: nat)
    ensures Moved(s, Dequeued(s, n))
  {
    if s.batch == [] && n < |s.port| {
      assert s.port == s.port[..n] + s.port[n..];
    }
  }

  lemma TidyMoves(s: Snapshot, r: Snapshot)
    requires Tidy(s) && Moved(s, r)
    ensures Tidy(r)
  {
    forall c | c in r.zombies ensures NamedIn(r, c) {
      assert c in Names(s);
    }
  }

  lemma ProcessedTidy(s: Snapshot)
    requires Tidy(s) && s.batch != []
    ensures var r, c := Processed(s), s.batch[0];
            && Tidy(r) && (forall d :: d in r.zombies <==> d in s.zombies && d != c)
            && (forall d :: d in s.batch <==> d == c || d in r.batch)
  {
    MinusMembers(s.zombies, s.batch[0]);
    MinusAbsentOr(s.zombies, s.batch[0]);
    forall d | d in s.batch && d != s.batch[0] ensures d in s.batch[1..] {
      var j :| 0 <= j < |s.batch| && s.batch[j] == d;
      assert s.batch[1..][j - 1] == d;
    }
    forall d | d in s.batch[1..] ensures d in s.batch {
      var j :| 0 <= j < |s.batch[1..]| && s.batch[1..][j] == d;
      assert s.batch[j + 1] == d;
    }
    var r := Processed(s);
    assert Tidy(r) by {
      forall d | d in r.zombies ensures NamedIn(r, d) {
        assert NamedIn(s, d) && d != s.batch[0];
      }
    }
  }

  lemma MinusAbsentOr(s: seq<Container>, c: Container)
    ensures c in s || Minus(s, c) == s
  {
    if c !in s {
      MinusAbsent(s, c);
    }
  }

  /** The packets of a batch free the zombies among their containers and no others. */
  lemma {:induction false} BatchEnds(s: Snapshot)
    requires Tidy(s)
    ensures var r := AllProcessed(s);
            && Tidy(r) && s.freed <= r.freed
            && (forall c :: c in r.zombies <==> c in s.zombies && c !in s.batch)
            && (forall c :: c in s.zombies && c in s.batch ==> c in r.freed)
    decreases |s.batch|
  {
    if s.batch != [] {
      ProcessedTidy(s);
      BatchEnds(Processed(s));
    }
  }

  lemma WaitProgress(s: Snapshot, r: Round)
    requires Tidy(s) && s.batch == [] && 0 in r.posts && r.n > 0
    ensures var t := Waited(s, r);
            && Tidy(t) && t.batch == []
            && (|s.kernel| + |s.port| > 0 ==> |t.kernel| + |t.port| < |s.kernel| + |s.port|)
  {
    var p := AllPosted(s, r.posts);
    AllPostedMoves(s, r.posts);
    TidyMoves(s, p);
    DequeuedMoves(p, r.n);
    TidyMoves(p, Dequeued(p, r.n));
    BatchEnds(Dequeued(p, r.n));
  }

  /** Every wait sees a completion posted if the kernel owes any, and takes a packet
      off the port if there is one. */
  predicate Patient(rounds: seq<Round>) {
    forall i :: 0 <= i < |rounds| ==> 0 in rounds[i].posts && rounds[i].n > 0
  }

  /** As many such waits as there are completions outstanding leave no zombie. */
  lemma {:induction false} PatienceDrains(s: Snapshot, rounds: seq<Round>)
    requires Tidy(s) && s.batch == [] && Patient(rounds) && |rounds| >= |s.kernel| + |s.port|
    ensures Drained(s, rounds).zombies == []
    decreases |rounds|
  {
    if s.zombies != [] {
      assert NamedIn(s, s.zombies[0]);
      WaitProgress(s, rounds[0]);
      hide Waited, Tidy, Patient;
      assert Patient(rounds[1..]) by {
        PatientRest(rounds);
      }
      PatienceDrains(Waited(s, rounds[0]), rounds[1..]);
    }
  }

  lemma PatientRest(rounds: seq<Round>)
    requires Patient(rounds) && rounds != []
    ensures Patient(rounds[1..])
  {
  }

  /** A teardown arms no probe and ends none: as many completions are outstanding as before. */
  lemma {:induction false} TornDownOwes(s: Snapshot, t: Teardown, made: seq<Container>)
    ensures var r := TornDown(s, t, made); |r.kernel| + |r.port| == |s.kernel| + |s.port| && r.batch == s.batch
    decreases t, |t.during| + 1
  {
    if t.id < |s.sels| && s.sels[t.id] != null {
      ThroughOwes(s, t, |t.during|, made);
    }
  }

  lemma {:induction false} ThroughOwes(s: Snapshot, t: Teardown, k: nat, made: seq<Container>)
    requires t.id < |s.sels| && k <= |t.during|
    ensures var r := Through(s, t, k, made); |r.kernel| + |r.port| == |s.kernel| + |s.port| && r.batch == s.batch
    decreases t, k
  {
    if k > 0 {
      var r, e := Through(s, t, k - 1, made), t.during[k - 1];
      ThroughOwes(s, t, k - 1, made);
      if e.Closes? {
        TornDownOwes(r, e.t, made);
      } else if e.Posts? {
        PostedMoves(r, e.k);
      }
    }
  }

  lemma {:induction false} SweepOwes(s: Snapshot, closing: seq<seq<Incident>>, i: nat, made: seq<Container>)
    ensures var r := SweepOf(s, closing, i, made); |r.kernel| + |r.port| == |s.kernel| + |s.port| && r.batch == s.batch
  {
    if i > 0 {
      SweepOwes(s, closing, i - 1, made);
      TornDownOwes(SweepOf(s, closing, i - 1, made), Closing(closing, i - 1), made);
    }
  }

  function Packets(n: nat): (r: seq<Event>)
    ensures |r| == n
  {
    seq(n, _ => Process)
  }

  lemma {:induction false} PacketsProcess(s: Snapshot, n: nat, made: seq<Container>)
    requires n >= |s.batch|
    ensures RunOf(s, Packets(n), made) == AllProcessed(s)
    decreases |s.batch|, n
  {
    if n > 0 {
      FirstEvent(s, Packets(n), made);
      assert Packets(n)[1..] == Packets(n - 1);
      PacketsProcess(Processed(s), n - 1, made);
    }
  }

  lemma {:induction false} FirstEvent(s: Snapshot, events: seq<Event>, made: seq<Container>)
    requires events != []
    ensures RunOf(s, events, made) == RunOf(Performed(s, events[0], made), events[1..], made)
    decreases |events|
  {
    var n := |events| - 1;
    hide Performed;
    if n > 0 {
      FirstEvent(s, events[..n], made);
      assert events[..n][1..] == events[1..][..n - 1];
      assert events[1..][n - 1] == events[n];
    } else {
      assert events[..0] == [];
      assert RunOf(s, events[..0], made) == s;
    }
  }

  /** A completion that is posted, taken off the port with all those before it, and
      processed ends its probe: no completion names the container any more, and
      it is freed if it is a zombie. */
  lemma ProbeEnds(s: Snapshot, k: nat, n: nat, m: nat, made: seq<Container>)
    requires Tidy(s) && s.batch == [] && k < |s.kernel| && n > |s.port| && m > |s.port|
    requires Distinct(s.kernel)
    ensures var c, r := s.kernel[k], RunOf(s, [Complete(k), Dequeue(n)] + Packets(m), made);
            !NamedIn(r, c) && c !in r.zombies && (c in s.zombies ==> c in r.freed)
  {
    var c, p := s.kernel[k], Posted(s, k);
    var d := Dequeued(p, n);
    var events := [Complete(k), Dequeue(n)] + Packets(m);
    FirstEvent(s, events, made);
    assert events[1..] == [Dequeue(n)] + Packets(m);
    FirstEvent(p, events[1..], made);
    assert events[1..][1..] == Packets(m);
    PacketsProcess(d, m, made);
    PostedMoves(s, k);
    TidyMoves(s, p);
    DequeuedMoves(p, n);
    TidyMoves(p, d);
    BatchEnds(d);
    WithoutMembers(s.kernel, k);
    assert c in d.batch by {
      assert p.port[|s.port|] == c;
    }
  }

  function Fresh(): Snapshot {
    Snapshot([], [], [], [], [], {}, {}, 0)
  }

  /** Registered, armed, and torn down while its probe is out. */
  function AsZombie(c: Container): Snapshot {
    Snapshot([null], [c], [], [], [c], {c}, {}, 1)
  }

  lemma BecomesZombie(c: Container)
    ensures RunOf(Fresh(), [Register, Arm(0, true), Deregister(Teardown(0, []))], [c]) == AsZombie(c)
  {
    var s1, t := Snapshot([c], [], [], [], [], {c}, {}, 1), Teardown(0, []);
    var s2 := s1.(kernel := [c]);
    assert Performed(Fresh(), Register, [c]) == s1;
    assert Performed(s1, Arm(0, true), [c]) == s2;
    assert Through(s2, t, 0, [c]) == s2.(sels := [null]);
    assert Performed(s2, Deregister(t), [c]) == AsZombie(c);
    hide Performed;
    var events := [Register, Arm(0, true), Deregister(t)];
    assert events[..2] == [Register, Arm(0, true)] && events[..2][..1] == [Register];
    assert RunOf(Fresh(), [Register], [c]) == s1;
    assert RunOf(Fresh(), events[..2], [c]) == s2;
  }

  /** The container of a selector that is torn down with its probe out is freed once
      the completion has come. */
  lemma ZombieIsFreed(c: Container)
    ensures var r := RunOf(AsZombie(c), [Complete(0), Dequeue(1)] + Packets(1), [c]);
            c in r.freed && c !in r.zombies && !NamedIn(r, c)
  {
    ProbeEnds(AsZombie(c), 0, 1, 1, [c]);
  }
}
