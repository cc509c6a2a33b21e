/** The lifetime of the completion-port reactor's selector containers.  A
    container may be freed only when no completion can still name it; the
    kernel, the completion port and the batch being drained each may. */
module Iocp {
  import opened Sweep
  import opened Reactor

  lemma TakenWith(sels: seq<Container?>, i: nat, c: Container?)
    requires i <= |sels|
    ensures i < |sels| ==> TakenIn(sels[i := c]) == TakenIn(sels)[i := c != null]
    ensures TakenIn(sels + [c]) == TakenIn(sels) + [c != null]
  {
  }

  /** How the two specifications of a teardown begin, go on and end. */
  lemma TeardownBegins(s: Slots, r: Snapshot, t: Teardown, cursor: nat, made: seq<Container>)
    requires s.taken == TakenIn(r.sels)
    ensures if t.id < |r.sels| && r.sels[t.id] != null then
              && Sweep.TornDown(s, t, cursor) == Happened(Emptied(s, t.id), t, 0, cursor)
              && Through(r, t, 0, made) == Detached(r, t.id)
              && Reactor.TornDown(r, t, made) == Finished(Through(r, t, |t.during|, made), r.sels[t.id])
            else Sweep.TornDown(s, t, cursor) == s && Reactor.TornDown(r, t, made) == r
  {
    hide Happened, Finished, Emptied;
  }

  lemma TeardownGoesOn(s: Slots, r: Snapshot, t: Teardown, k: nat, cursor: nat, made: seq<Container>)
    requires t.id < |r.sels| && k <= |t.during|
    ensures if k == |t.during| then Happened(s, t, k, cursor) == s
            else
              && Happened(s, t, k, cursor) == Happened(After(s, t.during[k], cursor), t, k + 1, cursor)
              && Through(r, t, k + 1, made) == Underwent(Through(r, t, k, made), t.during[k], made)
  {
    hide After, Underwent;
  }

  lemma SweepGoesOn(s: Slots, r: Snapshot, closing: seq<seq<Incident>>, i: nat, made: seq<Container>)
    ensures Swept(s, closing, i) == if i < |s.taken| then Swept(Sweep.TornDown(s, Closing(closing, i), i), closing, i + 1) else s
    ensures SweepOf(r, closing, i + 1, made) == Reactor.TornDown(SweepOf(r, closing, i, made), Closing(closing, i), made)
    ensures SweepOf(r, closing, 0, made) == r
    ensures i >= |closing| ==> |Sweep.TornDown(s, Closing(closing, i), i).taken| == |s.taken|
  {
    hide Reactor.TornDown;
  }

  /** The list at `head` is `s`. */
  ghost predicate Linked(head: Container?, s: seq<Container>)
    reads s
  {
    && (s == [] ==> head == null)
    && (s != [] ==> head == s[0] && s[|s| - 1].nextZombie == null)
    && (forall i {:trigger s[i].nextZombie} :: 0 <= i < |s| - 1 ==> s[i].nextZombie == s[i + 1])
  }

  lemma UpdateMembers<T>(s: seq<T>, i: nat, v: T)
    requires i < |s|
    ensures forall d :: d in s ==> d in s[i := v] || d == s[i]
    ensures forall d :: d in s[i := v] ==> d in s || d == v
  {
    forall d | d in s && d != s[i]
      ensures d in s[i := v]
    {
      var j :| 0 <= j < |s| && s[j] == d;
      assert s[i := v][j] == d;
    }
  }

  class IocpPoll {
    var sels: seq<Container?>
    var zombies: Container?
    var batch: seq<Container>

    /** The environment: probes the kernel holds, packets queued in the port. */
    var kernel: seq<Container>
    var port: seq<Container>

    /** Allocated containers, freed ones, the zombie list, and containers whose
        teardown has begun and not ended. */
    ghost var live: set<Container>
    ghost var freed: set<Container>
    ghost var zlist: seq<Container>
    ghost var limbo: set<Container>

    /** Where the sweep of `Destroy` stands, and the slots taken there or before
        and not left since. */
    ghost var cursor: nat
    ghost var behind: set<nat>

    /** Every selector registered, in order. */
    ghost var made: seq<Container>

    ghost function Now(): Snapshot
      reads this`sels, this`kernel, this`port, this`batch, this`zlist, this`live, this`freed, this`made
    {
      Snapshot(sels, kernel, port, batch, zlist, live, freed, |made|)
    }

    ghost function View(): Slots
      reads this`sels, this`behind
    {
      Slots(TakenIn(sels), behind)
    }

    /** Some completion still names the container. */
    predicate Named(c: Container)
      reads this`kernel, this`port, this`batch
    {
      c in kernel || c in port || c in batch
    }

    /** The table: allocated containers that nobody is tearing down, each once. */
    ghost predicate TableOk()
      reads this`sels, this`live, this`freed, this`zlist, this`limbo, live
    {
      && live !! freed && limbo <= live
      && (forall i :: 0 <= i < |sels| && sels[i] != null ==>
            sels[i] in live && sels[i] !in limbo && sels[i] !in zlist && !sels[i].zombie)
      && (forall i, j :: 0 <= i < j < |sels| && sels[i] != null ==> sels[i] != sels[j])
      && (forall c :: c in live ==> c in sels || c in zlist || c in limbo)
      && (forall c :: c in limbo ==> !c.zombie)
    }

    /** The zombie list: containers that are torn down with a completion outstanding. */
    ghost predicate ZombiesOk()
      reads this`zombies, this`live, this`zlist, this`limbo, live
    {
      && (forall c :: c in zlist ==> c in live && c !in limbo && c.zombie && c.inFlight)
      && Distinct(zlist) && Linked(zombies, zlist)
    }

    /** Completions: each names an allocated container, no two the same one. */
    ghost predicate NamesOk()
      reads this`kernel, this`port, this`batch, this`live, live
    {
      && Distinct(kernel) && Distinct(port) && Distinct(batch)
      && (forall c :: c in port ==> c !in kernel && c !in batch)
      && (forall c :: c in batch ==> c !in kernel)
      && (forall c :: c in kernel ==> c in live)
      && (forall c :: c in port ==> c in live)
      && (forall c :: c in batch ==> c in live)
      && (forall c :: c in live ==> (c.inFlight <==> Named(c)))
    }

    /** The container invariant: a probe is in flight exactly when a completion
        names the container, none names a freed one, and the zombie list is
        exactly the torn-down containers with a completion outstanding. */
    ghost predicate Valid()
      reads this`sels, this`zombies, this`batch, this`kernel, this`port, live
      reads this`live, this`freed, this`zlist, this`limbo
    {
      TableOk() && ZombiesOk() && NamesOk()
    }

    constructor ()
      ensures Valid() && fresh(live) && sels == [] && zombies == null
      ensures kernel == [] && port == [] && batch == [] && freed == {} && limbo == {} && live == {} && made == []
    {
      sels, zombies, batch, kernel, port := [], null, [], [], [];
      live, freed, zlist, limbo, cursor, behind, made := {}, {}, [], {}, 0, {}, [];
    }

    /** Give the memory back.  The precondition is what the reactor must never
        violate: the container is allocated and no completion names it. */
    ghost method Free(c: Container)
      requires c in live && !Named(c)
      modifies this`live, this`freed
      ensures live == old(live) - {c} && freed == old(freed) + {c}
    {
      live, freed := live - {c}, freed + {c};
    }

    method FindFree() returns (id: nat)
      ensures id == FirstFree(TakenIn(sels), 0)
    {
      id := 0;
      while id < |sels| && sels[id] != null
        invariant id <= |sels| && FirstFree(TakenIn(sels), id) == FirstFree(TakenIn(sels), 0)
      {
        id := id + 1;
      }
    }

    lemma FreeSlot(id: nat)
      requires id == FirstFree(TakenIn(sels), 0)
      ensures id <= |sels| && (if id < |sels| then sels[id] == null else null !in sels)
    {
      var taken := TakenIn(sels);
      assert forall j :: 0 <= j < id ==> taken[j] == (sels[j] != null);
      assert id < |sels| ==> taken[id] == (sels[id] != null);
    }

    /** A new container goes into a free slot, or behind the last one. */
    method Place(id: nat, c: Container)
      requires Valid() && c !in live && c !in freed && !Named(c) && !c.inFlight && !c.zombie && c !in zlist
      requires id <= |sels| && c !in sels && (id < |sels| ==> sels[id] == null)
      modifies this`sels, this`live
      ensures Valid() && live == old(live) + {c}
      ensures sels == if id < old(|sels|) then old(sels)[id := c] else old(sels) + [c]
    {
      ghost var was := sels;
      if id < |sels| {
        UpdateMembers(sels, id, c);
        sels := sels[id := c];
      } else {
        sels := sels + [c];
        assert forall d :: d in was ==> d in sels;
      }
      assert sels[id] == c;
      live := live + {c};
    }

    /** `ray_poll_register`: the first free slot, or a new one. */
    method RegisterSelector() returns (id: nat)
      requires Valid()
      modifies this`sels, this`live, this`behind, this`made
      ensures Valid() && View() == Filled(old(View()), cursor)
      ensures old(made) <= made && Now() == Registered(old(Now()), made)
      ensures id < |sels| && sels[id] != null && fresh(sels[id]) && !sels[id].inFlight && live == old(live) + {sels[id]}
      ensures if id < old(|sels|) then old(sels)[id] == null && sels == old(sels)[id := sels[id]]
              else null !in old(sels) && sels == old(sels) + [sels[id]]
    {
      hide FirstFree, TakenIn, TableOk, ZombiesOk, NamesOk;
      id := FindFree();
      FreeSlot(id);
      var c := new Container();
      TakenWith(sels, id, c);
      Place(id, c);
      made := made + [c];
      if id <= cursor {
        behind := behind + {id};
      }
    }

    /** One zero-byte read on a data socket with none in flight. */
    method ArmProbe(id: nat, accepted: bool)
      requires Valid()
      modifies this`kernel, live
      ensures Valid() && Now() == Armed(old(Now()), id, accepted)
      ensures kernel == old(kernel) ||
              (id < |sels| && sels[id] != null && kernel == old(kernel) + [sels[id]] && !old(sels[id].inFlight))
      ensures id < |sels| && sels[id] != null && accepted ==> sels[id].inFlight
    {
      if id < |sels| && sels[id] != null {
        var c := sels[id];
        if !c.inFlight && !c.zombie && accepted {
          c.inFlight := true;
          kernel := kernel + [c];
        }
      }
    }

    /** The kernel posts a completion to the port. */
    method KernelCompletes(k: nat)
      requires Valid()
      modifies this`kernel, this`port
      ensures Valid() && Now() == Posted(old(Now()), k)
      ensures forall c :: c in live ==> Named(c) == old(Named(c))
    {
      if k < |kernel| {
        var c := kernel[k];
        ghost var kernel0, port0 := kernel, port;
        WithoutMembers(kernel, k);
        kernel := kernel[..k] + kernel[k + 1..];
        port := port + [c];
        assert c in kernel0 && c !in kernel && c !in port0;
        assert port[|port| - 1] == c && forall d :: d in port0 ==> d in port by {
          assert forall j :: 0 <= j < |port0| ==> port[j] == port0[j];
        }
        assert Distinct(port);
      }
    }

    /** `GetQueuedCompletionStatusEx`, once the last batch is done. */
    method DequeueBatch(n: nat)
      requires Valid()
      modifies this`port, this`batch
      ensures Valid() && Now() == Dequeued(old(Now()), n)
      ensures forall c :: c in live ==> Named(c) == old(Named(c))
    {
      if batch == [] {
        var m := if n <= |port| then n else |port|;
        assert port == port[..m] + port[m..];
        batch, port := port[..m], port[m..];
      }
    }

    /** `iocp_zombie_remove`: unlink one element of the list. */
    method ZombieRemove(target: Container)
      requires Distinct(zlist) && Linked(zombies, zlist)
      modifies this`zombies, this`zlist, zlist
      ensures Distinct(zlist) && Linked(zombies, zlist)
      ensures zlist == Minus(old(zlist), target)
      ensures forall c :: c in old(zlist) ==> c.inFlight == old(c.inFlight) && c.zombie == old(c.zombie)
    {
      hide Minus;
      var prev: Container?, cur := null, zombies;
      ghost var i := 0;
      while cur != null
        invariant 0 <= i <= |zlist| && (cur == null <==> i == |zlist|) && (cur != null ==> cur == zlist[i])
        invariant prev == (if i == 0 then null else zlist[i - 1])
        invariant forall j :: 0 <= j < i ==> zlist[j] != target
        decreases |zlist| - i
      {
        if cur == target {
          if prev == null {
            zombies := cur.nextZombie;
          } else {
            prev.nextZombie := cur.nextZombie;
          }
          WithoutMembers(zlist, i);
          MinusAt(zlist, target, i);
          zlist := zlist[..i] + zlist[i + 1..];
          return;
        }
        prev, cur, i := cur, cur.nextZombie, i + 1;
      }
      MinusAbsent(zlist, target);
    }

    /** Unlink and free a zombie whose probe is over. */
    method FreeZombie(c: Container)
      requires TableOk() && NamesOk() && Distinct(zlist) && Linked(zombies, zlist)
      requires c in zlist && c in live && c !in limbo && !Named(c)
      requires forall d :: d in zlist && d != c ==> d in live && d !in limbo && d.zombie && d.inFlight
      modifies this`zombies, this`zlist, this`live, this`freed, live
      ensures Valid() && freed == old(freed) + {c} && live == old(live) - {c} && zlist == Minus(old(zlist), c)
    {
      MinusMembers(zlist, c);
      ZombieRemove(c);
      Free(c);
    }

    /** One packet of the batch: the probe is over, and a zombie can go now. */
    method ProcessEntry()
      requires Valid()
      modifies this`batch, this`zombies, this`zlist, this`live, this`freed, live
      ensures Valid() && Now() == Processed(old(Now()))
      ensures old(batch) == [] ==> batch == [] && live == old(live) && freed == old(freed)
      ensures old(batch) != [] ==>
              var c := old(batch[0]);
              && batch == old(batch)[1..]
              && (old(c.zombie) ==> freed == old(freed) + {c} && live == old(live) - {c})
              && (!old(c.zombie) ==> freed == old(freed) && live == old(live) && !c.inFlight)
    {
      if batch != [] {
        var c := batch[0];
        WithoutMembers(batch, 0);
        assert batch[..0] + batch[1..] == batch[1..];
        batch := batch[1..];
        c.inFlight := false;
        assert NamesOk() && !Named(c);
        if c.zombie {
          FreeZombie(c);
        } else {
          assert c !in zlist;
        }
      }
    }

    /** Out of the table, before anything else can look there. */
    method Detach(id: nat) returns (c: Container)
      requires Valid() && id < |sels| && sels[id] != null
      modifies this`sels, this`limbo, this`behind
      ensures Valid() && View() == Emptied(old(View()), id) && Now() == Detached(old(Now()), id) && c == old(sels[id]) && c in live && c !in old(limbo)
      ensures sels == old(sels)[id := null] && limbo == old(limbo) + {c}
    {
      c := sels[id];
      UpdateMembers(sels, id, null);
      sels := sels[id := null];
      behind := behind - {id};
      limbo := limbo + {c};
    }

    /** Free the container, or let it join the zombies when a completion is outstanding. */
    method Finish(c: Container)
      requires Valid() && c in limbo
      modifies this`zombies, this`zlist, this`live, this`freed, this`limbo, live
      ensures Valid() && limbo == old(limbo) - {c} && Now() == Finished(old(Now()), c)
      ensures forall d :: d in old(live) ==> d.inFlight == old(d.inFlight)
      ensures if old(Named(c)) then zlist == [c] + old(zlist) && live == old(live) && freed == old(freed)
              else zlist == old(zlist) && live == old(live) - {c} && freed == old(freed) + {c}
    {
      limbo := limbo - {c};
      if c.inFlight {
        c.zombie := true;
        c.nextZombie := zombies;
        zombies := c;
        zlist := [c] + zlist;
      } else {
        Free(c);
      }
    }

    /** `ray_poll_deregister`: leave the table, close, and then finish. */
    method DeregisterSelector(t: Teardown)
      requires Valid()
      modifies this`sels, this`kernel, this`port, this`zombies, this`zlist, this`live, this`freed, this`limbo, this`behind, this`made, live
      ensures old(made) <= made && Now() == Reactor.TornDown(old(Now()), t, made)
      ensures Valid() && limbo == old(limbo) && fresh(live - old(live)) && old(freed) <= freed && batch == old(batch)
      ensures View() == Sweep.TornDown(old(View()), t, cursor) && (Quiet(t) ==> live <= old(live))
      ensures forall c :: c in old(live) ==> c in live || c in freed
      ensures forall c :: c in old(live) ==> c.inFlight == old(c.inFlight)
      ensures forall c :: c in live && c !in old(live) ==> !c.inFlight
      ensures |sels| >= old(|sels|) && forall i :: 0 <= i < |sels| ==>
                sels[i] == null || fresh(sels[i]) || (i < old(|sels|) && sels[i] == old(sels)[i])
      ensures t.id < old(|sels|) ==> (sels[t.id] == null || fresh(sels[t.id]))
      decreases t, 0
    {
      hide TableOk, ZombiesOk, NamesOk, Happened, After, Through, Underwent, Sweep.TornDown, Reactor.TornDown, Emptied, TakenIn;
      ghost var s0, r0 := View(), Now();
      TeardownBegins(s0, r0, t, cursor, made);
      if t.id < |sels| && sels[t.id] != null {
        var c := Detach(t.id);
        for i := 0 to |t.during|
          invariant Valid() && limbo == old(limbo) + {c} && fresh(live - old(live)) && old(freed) <= freed && batch == old(batch)
          invariant Happened(View(), t, i, cursor) == Sweep.TornDown(old(View()), t, cursor) && (Quiet(t) ==> live <= old(live))
          invariant old(made) <= made && Now() == Through(old(Now()), t, i, made)
          invariant forall d :: d in old(live) ==> d in live || d in freed
          invariant forall d :: d in old(live) ==> d.inFlight == old(d.inFlight)
          invariant forall d :: d in live && d !in old(live) ==> !d.inFlight
          invariant |sels| >= old(|sels|)
          invariant forall j :: 0 <= j < |sels| ==>
                      sels[j] == null || fresh(sels[j]) || (j < old(|sels|) && j != t.id && sels[j] == old(sels)[j])
        {
          ghost var s, was := View(), made;
          Undergo(t.during[i]);
          ThroughLater(r0, t, i, was, made);
          TeardownGoesOn(s, r0, t, i, cursor, made);
        }
        TeardownGoesOn(View(), r0, t, |t.during|, cursor, made);
        TeardownBegins(s0, r0, t, cursor, made);
        Finish(c);
      }
    }

    /** One incident of a teardown. */
    method Undergo(e: Incident)
      requires Valid()
      modifies this`sels, this`kernel, this`port, this`zombies, this`zlist, this`live, this`freed, this`limbo, this`behind, this`made, live
      ensures Valid() && limbo == old(limbo) && fresh(live - old(live)) && old(freed) <= freed && batch == old(batch)
      ensures old(made) <= made && Now() == Underwent(old(Now()), e, made)
      ensures View() == After(old(View()), e, cursor)
      ensures !e.Registers? && (e.Closes? ==> Quiet(e.t)) ==> live <= old(live)
      ensures forall c :: c in old(live) ==> c in live || c in freed
      ensures forall c :: c in old(live) ==> c.inFlight == old(c.inFlight)
      ensures forall c :: c in live && c !in old(live) ==> !c.inFlight
      ensures |sels| >= old(|sels|) && forall i :: 0 <= i < |sels| ==>
                sels[i] == null || fresh(sels[i]) || (i < old(|sels|) && sels[i] == old(sels)[i])
      decreases e, 0
    {
      hide TableOk, ZombiesOk, NamesOk, FirstFree, TakenIn;
      match e
      case Posts(k) => KernelCompletes(k);
      case Registers =>
        var _ := RegisterSelector();
      case Closes(u) => DeregisterSelector(u);
    }

    /** Any event; one that does not apply is ignored. */
    method Perform(e: Event)
      requires Valid() && limbo == {}
      modifies this, live
      ensures Valid() && limbo == {} && fresh(live - old(live)) && old(freed) <= freed
      ensures old(made) <= made && Now() == Performed(old(Now()), e, made)
    {
      match e
      case Register =>
        var _ := RegisterSelector();
      case Arm(id, accepted) => ArmProbe(id, accepted);
      case Complete(k) => KernelCompletes(k);
      case Dequeue(n) => DequeueBatch(n);
      case Process => ProcessEntry();
      case Deregister(t) => DeregisterSelector(t);
    }

    /** Every interleaving of these events: at its end, and so at any time, the
        container invariant holds, and nothing was freed while a completion
        named it or freed twice, since each step met the precondition of `Free`. */
    method Run(events: seq<Event>)
      requires Valid() && limbo == {}
      modifies this, live
      ensures Valid() && limbo == {} && fresh(live - old(live))
      ensures forall c :: c in old(freed) ==> c in freed
      ensures old(made) <= made && Now() == RunOf(old(Now()), events, made)
    {
      hide TableOk, ZombiesOk, NamesOk, Performed;
      for i := 0 to |events|
        invariant Valid() && limbo == {} && fresh(live - old(live)) && old(freed) <= freed
        invariant old(made) <= made && Now() == RunOf(old(Now()), events[..i], made)
      {
        ghost var was := made;
        Perform(events[i]);
        RunLater(old(Now()), events[..i], was, made);
        assert events[..i + 1][..i] == events[..i];
      }
      assert events[..|events|] == events;
    }

    /** At rest, the zombie list is exactly the containers that have left the
        table while a completion names them, and no completion names freed memory. */
    lemma ZombieListIsExact()
      requires Valid() && limbo == {}
      ensures forall c :: c in zlist <==> c in live && c !in sels && Named(c)
      ensures forall c :: c in freed ==> !Named(c)
      ensures forall c :: c in live && c !in sels ==> c in zlist
    {
      assert forall c, i :: c in zlist && 0 <= i < |sels| ==> sels[i] != c;
    }

    /** Handle every packet of the batch. */
    method DrainBatch()
      requires Valid() && limbo == {}
      modifies this`batch, this`zombies, this`zlist, this`live, this`freed, live
      ensures Valid() && batch == [] && live <= old(live) && old(freed) <= freed && Now() == AllProcessed(old(Now()))
      ensures forall c :: c in old(live) ==> c in live || c in freed
      ensures forall c :: c in old(live) && c in live && Named(c) ==> old(Named(c))
    {
      while batch != []
        invariant AllProcessed(Now()) == AllProcessed(old(Now()))
        invariant Valid() && live <= old(live) && old(freed) <= freed
        invariant forall c :: c in old(live) ==> c in live || c in freed
        invariant forall c :: c in old(live) && c in live && Named(c) ==> old(Named(c))
        decreases |batch|
      {
        ProcessEntry();
      }
    }

    /** One wait of the drain. */
    method DrainRound(round: Round)
      requires Valid() && limbo == {} && batch == []
      modifies this`batch, this`kernel, this`port, this`zombies, this`zlist, this`live, this`freed, live
      ensures Valid() && batch == [] && live <= old(live) && old(freed) <= freed && Now() == Waited(old(Now()), round)
      ensures forall c :: c in old(live) ==> c in live || c in freed
      ensures forall c :: c in old(live) && c in live && Named(c) ==> old(Named(c))
    {
      hide TableOk, ZombiesOk, NamesOk, Posted, Dequeued, AllProcessed;
      for k := 0 to |round.posts|
        invariant Valid() && batch == [] && live == old(live) && freed == old(freed)
        invariant Now() == AllPosted(old(Now()), round.posts[..k])
        invariant forall c :: c in old(live) && c in live && Named(c) ==> old(Named(c))
      {
        KernelCompletes(round.posts[k]);
        assert round.posts[..k + 1][..k] == round.posts[..k];
      }
      assert round.posts[..|round.posts|] == round.posts;
      DequeueBatch(round.n);
      DrainBatch();
    }

    /** Tear down every selector, whatever the close callbacks do. */
    method TearDownAll(closing: seq<seq<Incident>>)
      requires Valid() && limbo == {} && behind == {}
      modifies this, live
      ensures Valid() && limbo == {} && batch == old(batch) && fresh(live - old(live)) && old(freed) <= freed
      ensures View() == Swept(old(View()), closing, 0)
      ensures old(made) <= made && Now() == SweepOf(old(Now()), closing, |sels|, made)
      ensures |kernel| + |port| == old(|kernel| + |port|)
      ensures forall c :: c in old(live) ==> c in live || c in freed
      ensures forall c :: c in live && c !in old(live) ==> !c.inFlight
      ensures forall j :: 0 <= j < |sels| ==> sels[j] == null || fresh(sels[j])
    {
      hide TableOk, ZombiesOk, NamesOk, Swept, SweepOf, Sweep.TornDown, Reactor.TornDown, TakenIn;
      var i := 0;
      SweepGoesOn(View(), Now(), closing, 0, made);
      while i < |sels|
        invariant Valid() && limbo == {} && batch == old(batch) && fresh(live - old(live)) && old(freed) <= freed && i <= |sels|
        invariant Swept(View(), closing, i) == Swept(old(View()), closing, 0)
        invariant old(made) <= made && Now() == SweepOf(old(Now()), closing, i, made)
        invariant forall j :: 0 <= j < i ==> sels[j] == null || fresh(sels[j])
        invariant forall c :: c in old(live) ==> c in live || c in freed
        invariant forall c :: c in live && c !in old(live) ==> !c.inFlight
        decreases if i < |closing| then |closing| - i else 0, |sels| - i
      {
        cursor := i;
        ghost var s, was := View(), made;
        DeregisterSelector(Closing(closing, i));
        SweepLater(old(Now()), closing, i, was, made);
        SweepGoesOn(s, old(Now()), closing, i, made);
        i := i + 1;
      }
      SweepGoesOn(View(), Now(), closing, i, made);
      SweepOwes(old(Now()), closing, i, made);
    }

    /** Take completions off the port until no zombie is left, or until patience runs out. */
    method Drain(rounds: seq<Round>)
      requires Valid() && limbo == {} && batch == []
      modifies this`batch, this`kernel, this`port, this`zombies, this`zlist, this`live, this`freed, live
      ensures Valid() && batch == [] && live <= old(live) && old(freed) <= freed && Now() == Drained(old(Now()), rounds)
      ensures Patient(rounds) && |rounds| >= old(|kernel| + |port|) ==> zlist == []
      ensures forall c :: c in old(live) ==> c in live || c in freed
      ensures forall c :: c in old(live) && c in live && Named(c) ==> old(Named(c))
    {
      hide TableOk, ZombiesOk, NamesOk, Waited;
      var r := 0;
      NoZombies();
      IsTidy();
      if Patient(rounds) && |rounds| >= |kernel| + |port| {
        PatienceDrains(Now(), rounds);
      }
      while zombies != null && r < |rounds|
        invariant Valid() && batch == [] && live <= old(live) && old(freed) <= freed && r <= |rounds|
        invariant (zombies == null <==> zlist == []) && Drained(Now(), rounds[r..]) == Drained(old(Now()), rounds)
        invariant forall c :: c in old(live) ==> c in live || c in freed
        invariant forall c :: c in old(live) && c in live && Named(c) ==> old(Named(c))
      {
        DrainRound(rounds[r]);
        assert rounds[r..][1..] == rounds[r + 1..];
        r := r + 1;
        NoZombies();
      }
    }

    lemma NoZombies()
      requires Valid()
      ensures zombies == null <==> zlist == []
    {
    }

    lemma IsTidy()
      requires Valid()
      ensures Tidy(Now()) && Distinct(kernel)
    {
    }

    lemma NamedInFlight()
      requires Valid()
      ensures forall c :: c in live ==> (c.inFlight <==> Named(c))
    {
    }

    /** What is left of the containers found at the start is named, what is left
        of the others is in the table. */
    lemma Leftovers(found: set<Container>)
      requires Valid() && limbo == {} && (forall c :: c in live && c !in found ==> !Named(c))
      requires forall j :: 0 <= j < |sels| ==> sels[j] == null || sels[j] !in found
      ensures live !! freed && forall c :: c in freed ==> !Named(c)
      ensures forall c :: c in live ==> (Named(c) <==> c in found) && (Named(c) <==> c !in sels)
      ensures (exists c :: c in live && !Named(c)) <==> exists j :: 0 <= j < |sels| && sels[j] != null
    {
      ZombieListIsExact();
      forall j | 0 <= j < |sels| && sels[j] != null ensures sels[j] in live && !Named(sels[j]) {}
    }

    /** `ray_poll_destroy`: tear down every selector, then drain the port.  Of the
        containers still allocated at the end, those found at the start are named
        by a completion, which may yet write to them, and there are none if the drain
        is patient enough; the others are the selectors that close callbacks have
        registered behind the sweep, in the very slots `LeftBehind` says. */
    method Destroy(closing: seq<seq<Incident>>, rounds: seq<Round>)
      requires Valid() && limbo == {} && batch == []
      modifies this, live
      ensures old(freed) <= freed && live !! freed && zombies == null
      ensures forall c :: c in old(live) ==> (c in live && Named(c)) || (c in freed && !Named(c))
      ensures forall c :: c in live ==> (Named(c) <==> c in old(live)) && (Named(c) <==> c !in sels)
      ensures forall i: nat :: i < |sels| && sels[i] != null <==> i in LeftBehind(old(TakenIn(sels)), closing)
      ensures (exists c :: c in live && !Named(c)) <==> LeftBehind(old(TakenIn(sels)), closing) != {}
      ensures Patient(rounds) && |rounds| >= old(|kernel| + |port|) ==> old(live) <= freed
      ensures Now() == Drained(SweepOf(old(Now()), closing, |sels|, made), rounds).(zombies := [])
    {
      hide Swept, TableOk, ZombiesOk, NamesOk, Drained, SweepOf;
      behind := {};
      ghost var taken, found := TakenIn(sels), live;
      TearDownAll(closing);
      LeftIsBehind(taken, closing);
      NamedInFlight();
      Drain(rounds);
      ZombieListIsExact();
      Leftovers(found);
      zombies, zlist := null, [];
    }
  }

  /** One selector whose close callback registers another: that one is left, with
      no completion to name it. */
  method LeakedByCallback() returns (p: IocpPoll)
    ensures fresh(p) && exists c :: c in p.live && !p.Named(c)
  {
    p := new IocpPoll();
    var id := p.RegisterSelector();
    var closing := [[Registers]];
    assert TakenIn(p.sels) == [true];
    OpensLeaves([true], closing);
    assert Registering(closing, 0);
    p.Destroy(closing, []);
  }
}
