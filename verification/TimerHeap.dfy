/** The timer heap: what each timer will do, and the heap that drives it. */
module TimerHeap {
  import opened Options
  import opened Arithmetic

  /** `num` is how often the timer still fires, 0 for ever; `fn` names its callback. */
  datatype Timer = Timer(id: nat, tic: int, exp: int, num: int, fn: nat)

  /** Deadlines first, ids to break ties. */
  predicate Before(a: (int, int), b: (int, int)) {
    a.0 < b.0 || (a.0 == b.0 && a.1 < b.1)
  }

  function Key(t: Timer): (int, int) {
    (t.exp, t.id)
  }

  predicate Less(a: Timer, b: Timer) {
    Before(Key(a), Key(b))
  }

  /** How often a timer fires if the clock stands at `now`. */
  function Fires(t: Timer, now: int): nat
    requires t.tic > 0
  {
    if t.exp > now then 0
    else
      var due := (now - t.exp) / t.tic + 1;
      if t.num == 0 then due
      else if t.num <= 1 then 1
      else if due < t.num then due
      else t.num
  }

  function Deadline(t: Timer, j: nat): (int, int) {
    (t.exp + j * t.tic, t.id)
  }

  /** What is left of a timer after it has fired `k` times. */
  function After(t: Timer, k: nat): Option<Timer> {
    if k == 0 then Some(t)
    else if t.num == 0 then Some(t.(exp := t.exp + k * t.tic))
    else if t.num > k then Some(t.(exp := t.exp + k * t.tic, num := t.num - k))
    else None
  }

  ghost predicate Positive(m: set<Timer>) {
    forall t :: t in m ==> t.tic > 0
  }

  ghost predicate UniqueIds(m: set<Timer>) {
    forall t, u :: t in m && u in m && t.id == u.id ==> t == u
  }

  /** The deadlines up to `now` of one timer, as often as it may fire. */
  ghost function Schedule(t: Timer, now: int): set<(int, int)>
    requires t.tic > 0
  {
    set j | 0 <= j < Fires(t, now) :: Deadline(t, j)
  }

  /** Those of all the timers. */
  ghost function Pending(m: set<Timer>, now: int): set<(int, int)>
    requires Positive(m)
  {
    set t, p | t in m && p in Schedule(t, now) :: p
  }

  /** The timers left once all of that has fired. */
  ghost function Left(m: set<Timer>, now: int): set<Timer>
    requires Positive(m)
  {
    set t | t in m && After(t, Fires(t, now)).Some? :: After(t, Fires(t, now)).value
  }

  lemma DivStep(a: int, b: int)
    requires b > 0
    ensures (a - b) / b == a / b - 1
  {
    var q, r := a / b, a % b;
    assert a - b == (q - 1) * b + r;
    DivUnique(a - b, b, q - 1, r);
  }

  /** `Fires` counts exactly the deadlines that have passed, up to the timer's own limit. */
  lemma DueDeadlines(t: Timer, now: int, j: nat)
    requires t.tic > 0
    ensures j < Fires(t, now) <==> Deadline(t, j).0 <= now && (t.num == 0 || j == 0 || j < t.num)
  {
    assert j * t.tic >= 0;
    if t.exp <= now {
      var q, r := (now - t.exp) / t.tic, (now - t.exp) % t.tic;
      assert now - t.exp == q * t.tic + r;
      if j <= q {
        assert (q - j) * t.tic >= 0;
      } else {
        Grows(j, q, t.tic);
      }
    }
  }

  lemma {:induction false} DistinctDeadlines(t: Timer, k: nat)
    requires t.tic > 0
    ensures |(set j | 0 <= j < k :: Deadline(t, j))| == k
  {
    if k > 0 {
      DistinctDeadlines(t, k - 1);
      forall j: nat | j < k - 1 ensures Deadline(t, j) != Deadline(t, k - 1) {
        Grows(k - 1, j, t.tic);
      }
      OneMoreDeadline(t, k);
      hide Deadline;
    }
  }

  lemma OneMoreDeadline(t: Timer, k: nat)
    requires k > 0
    ensures (set j | 0 <= j < k :: Deadline(t, j)) == (set j | 0 <= j < k - 1 :: Deadline(t, j)) + {Deadline(t, k - 1)}
  {
    hide Deadline;
  }

  /** Each timer has as many firings among all of them as it is due for. */
  lemma FiresEach(m: set<Timer>, t: Timer, now: int)
    requires Positive(m) && UniqueIds(m) && t in m
    ensures |(set p | p in Pending(m, now) && p.1 == t.id)| == Fires(t, now)
  {
    DistinctDeadlines(t, Fires(t, now));
    assert (set p | p in Pending(m, now) && p.1 == t.id) == Schedule(t, now);
  }

  /** One fire of a due timer takes one off its count and leaves the rest of its schedule as it was. */
  lemma FireOnce(t: Timer, now: int)
    requires t.tic > 0 && t.exp <= now
    ensures After(t, 1).None? ==> Fires(t, now) == 1
    ensures After(t, 1).Some? ==> Fires(t, now) == 1 + Fires(After(t, 1).value, now)
  {
    DivStep(now - t.exp, t.tic);
    if now - t.exp < t.tic {
      DivUnique(now - t.exp, t.tic, 0, now - t.exp);
    } else {
      assert (now - t.exp - t.tic) / t.tic >= 0;
    }
  }

  lemma AfterAfter(t: Timer, k: nat)
    requires After(t, 1).Some?
    ensures After(After(t, 1).value, k) == After(t, 1 + k)
  {
    assert (1 + k) * t.tic == t.tic + k * t.tic;
  }

  lemma LaterDeadline(t: Timer, j: nat)
    requires After(t, 1).Some?
    ensures Deadline(After(t, 1).value, j) == Deadline(t, 1 + j)
  {
    assert (1 + j) * t.tic == t.tic + j * t.tic;
  }

  /** The timers once `t` has fired: without it, or with what is left of it. */
  ghost function Fired(m: set<Timer>, t: Timer): set<Timer> {
    match After(t, 1)
    case None => m - {t}
    case Some(u) => m - {t} + {u}
  }

  /** `t` is due and comes first. */
  ghost predicate Next(m: set<Timer>, t: Timer, now: int) {
    t in m && t.exp <= now && forall u :: u in m ==> !Less(u, t)
  }

  lemma FiredKeeps(m: set<Timer>, t: Timer)
    requires Positive(m) && UniqueIds(m) && t in m
    ensures Positive(Fired(m, t)) && UniqueIds(Fired(m, t))
    ensures forall u :: u in Fired(m, t) <==> (u in m && u != t) || (After(t, 1) == Some(u))
    ensures forall u :: u in Fired(m, t) ==> exists v :: v in m && v.id == u.id
  {
  }

  lemma ScheduleStep(t: Timer, now: int)
    requires t.tic > 0 && t.exp <= now
    ensures Schedule(t, now) == {Key(t)} + if After(t, 1).Some? then Schedule(After(t, 1).value, now) else {}
  {
    FireOnce(t, now);
    assert Key(t) == Deadline(t, 0);
    hide Fires, After, Deadline;
    if After(t, 1).Some? {
      var v := After(t, 1).value;
      forall j: nat | j < Fires(v, now) ensures Deadline(v, j) in Schedule(t, now) {
        LaterDeadline(t, j);
      }
      forall j: nat | 0 < j < Fires(t, now) ensures Deadline(t, j) in Schedule(v, now) {
        LaterDeadline(t, j - 1);
      }
    }
  }

  /** What was pending is what has just fired and what is pending now. */
  lemma PendingStep(m: set<Timer>, t: Timer, now: int)
    requires Positive(m) && UniqueIds(m) && Next(m, t, now)
    ensures Positive(Fired(m, t))
    ensures Pending(m, now) == {Key(t)} + Pending(Fired(m, t), now)
  {
    FiredKeeps(m, t);
    ScheduleStep(t, now);
    hide Schedule, After, Fired, UniqueIds, Next;
    var f := Fired(m, t);
    if After(t, 1).Some? {
      assert After(t, 1).value in f;
    }
    forall u, p | u in m && p in Schedule(u, now) && u != t ensures p in Pending(f, now) {
      assert u in f;
    }
  }

  lemma NotEarlier(t: Timer, u: Timer, j: nat)
    requires u.tic > 0 && Less(t, u)
    ensures Before(Key(t), Deadline(u, j))
  {
    assert j * u.tic >= 0;
  }

  /** Everything still pending comes strictly after what has just fired. */
  lemma PendingLater(m: set<Timer>, t: Timer, now: int)
    requires Positive(m) && UniqueIds(m) && Next(m, t, now)
    ensures Positive(Fired(m, t))
    ensures forall p :: p in Pending(Fired(m, t), now) ==> Before(Key(t), p)
  {
    FiredKeeps(m, t);
    if After(t, 1).Some? {
      assert After(t, 1).value.exp == t.exp + 1 * t.tic;
    }
    hide Fired, Fires, After, Deadline;
    forall u, j: nat | u in Fired(m, t) && j < Fires(u, now)
      ensures Before(Key(t), Deadline(u, j))
    {
      assert Less(t, u);
      NotEarlier(t, u, j);
    }
  }

  /** How a timer ends up does not depend on whether one of its fires has happened already. */
  lemma EndsAlike(t: Timer, now: int)
    requires t.tic > 0 && t.exp <= now
    ensures After(t, 1).None? ==> After(t, Fires(t, now)).None?
    ensures After(t, 1).Some? ==>
      After(After(t, 1).value, Fires(After(t, 1).value, now)) == After(t, Fires(t, now))
  {
    FireOnce(t, now);
    hide Fires;
    if After(t, 1).Some? {
      AfterAfter(t, Fires(After(t, 1).value, now));
    }
  }

  lemma LeftStep(m: set<Timer>, t: Timer, now: int)
    requires Positive(m) && UniqueIds(m) && Next(m, t, now)
    ensures Positive(Fired(m, t))
    ensures Left(m, now) == Left(Fired(m, t), now)
  {
    FiredKeeps(m, t);
    EndsAlike(t, now);
    hide Fires, Fired, After, UniqueIds, Next;
    var f := Fired(m, t);
    forall u | u in m && After(u, Fires(u, now)).Some?
      ensures After(u, Fires(u, now)).value in Left(f, now)
    {
      if u == t {
        assert After(t, 1).value in f;
      } else {
        assert u in f;
      }
    }
    forall u | u in f && After(u, Fires(u, now)).Some?
      ensures After(u, Fires(u, now)).value in Left(m, now)
    {
      assert u in m || After(t, 1) == Some(u);
    }
  }

  lemma NothingDue(m: set<Timer>, now: int)
    requires Positive(m) && forall u :: u in m ==> u.exp > now
    ensures Pending(m, now) == {} && Left(m, now) == m
  {
    forall u | u in m ensures After(u, Fires(u, now)) == Some(u) {
    }
  }

  ghost predicate Ascending(s: seq<(int, int)>) {
    forall i, j :: 0 <= i < j < |s| ==> Before(s[i], s[j])
  }

  ghost function Firings(s: seq<(int, int)>): set<(int, int)> {
    set p | p in s
  }

  ghost predicate AllBefore(s: seq<(int, int)>, rest: set<(int, int)>) {
    forall p, q :: p in s && q in rest ==> Before(p, q)
  }

  lemma FireNext(s: seq<(int, int)>, k: (int, int), rest: set<(int, int)>)
    requires Ascending(s) && AllBefore(s, {k} + rest) && forall q :: q in rest ==> Before(k, q)
    ensures Ascending(s + [k]) && AllBefore(s + [k], rest)
    ensures Firings(s + [k]) + rest == Firings(s) + ({k} + rest) && rest < {k} + rest
  {
    assert !Before(k, k);
    forall i | 0 <= i < |s| ensures Before(s[i], k) {
      assert s[i] in s && k in {k} + rest;
    }
  }

  /** Every timer of `m` is one of `was`, with its id, interval and callback. */
  ghost predicate From(m: set<Timer>, was: set<Timer>) {
    forall u :: u in m ==> exists t :: t in was && SameTimer(t, u)
  }

  predicate SameTimer(t: Timer, u: Timer) {
    t.id == u.id && t.tic == u.tic && t.fn == u.fn
  }

  lemma FiredFrom(m: set<Timer>, t: Timer, was: set<Timer>)
    requires From(m, was) && t in m
    ensures From(Fired(m, t), was)
  {
    var o :| o in was && SameTimer(o, t);
    forall u | u in Fired(m, t) ensures exists v :: v in was && SameTimer(v, u) {
      if u !in m {
        assert SameTimer(o, u);
      }
    }
  }

  /** What is left of a timer is the same timer, its interval and callback included. */
  lemma LeftFrom(m: set<Timer>, now: int)
    requires Positive(m)
    ensures From(Left(m, now), m)
  {
    forall u | u in Left(m, now) ensures exists t :: t in m && SameTimer(t, u) {
      var t :| t in m && After(t, Fires(t, now)) == Some(u);
      assert SameTimer(t, u);
    }
  }

  /** Each of the calls was made for a timer of `was`, to the callback that timer came with. */
  ghost predicate CallsOf(was: set<Timer>, fired: seq<(int, int)>, called: seq<nat>) {
    |called| == |fired| && forall i :: 0 <= i < |fired| ==> CallFor(was, fired[i].1, called[i])
  }

  lemma NoneFired(was: set<Timer>, rest: set<(int, int)>)
    ensures CallsOf(was, [], []) && Ascending([]) && AllBefore([], rest) && Firings([]) + rest == rest
  {
  }

  lemma OneMoreCall(was: set<Timer>, fired: seq<(int, int)>, called: seq<nat>, k: (int, int), fn: nat)
    requires CallsOf(was, fired, called) && CallFor(was, k.1, fn)
    ensures CallsOf(was, fired + [k], called + [fn])
  {
    hide CallFor;
  }

  lemma AllFrom(m: set<Timer>)
    ensures From(m, m)
  {
    forall u | u in m ensures SameTimer(u, u) {
    }
  }

  lemma CalledFor(m: set<Timer>, t: Timer, was: set<Timer>, now: int)
    requires From(m, was) && Next(m, t, now)
    ensures t in m && CallFor(was, t.id, t.fn)
  {
    var o :| o in was && SameTimer(o, t);
  }

  ghost predicate CallFor(was: set<Timer>, id: int, fn: nat) {
    exists t :: t in was && t.id == id && t.fn == fn
  }

  /** What has been fired so far, of the timers `all`, when `m` are left. */
  ghost predicate Progress(all: set<Timer>, now: int, m: set<Timer>, fired: seq<(int, int)>, called: seq<nat>)
    requires Positive(all)
  {
    && Positive(m) && From(m, all) && CallsOf(all, fired, called)
    && Ascending(fired) && AllBefore(fired, Pending(m, now))
    && Firings(fired) + Pending(m, now) == Pending(all, now)
    && Left(m, now) == Left(all, now)
  }

  lemma ProgressBegins(all: set<Timer>, now: int)
    requires Positive(all)
    ensures Progress(all, now, all, [], [])
  {
    AllFrom(all);
    NoneFired(all, Pending(all, now));
    hide Pending, Left, From, CallsOf, Ascending, AllBefore, Firings;
  }

  lemma ProgressStep(all: set<Timer>, now: int, m: set<Timer>, t: Timer, fired: seq<(int, int)>, called: seq<nat>)
    requires Positive(all) && Progress(all, now, m, fired, called) && UniqueIds(m) && Next(m, t, now)
    ensures Positive(Fired(m, t)) && Progress(all, now, Fired(m, t), fired + [Key(t)], called + [t.fn])
    ensures Pending(Fired(m, t), now) < Pending(m, now)
  {
    hide Pending, Left, From, CallsOf, Ascending, AllBefore, Firings, Fired, Next, UniqueIds, Positive, SameTimer, CallFor, Before;
    PendingStep(m, t, now);
    PendingLater(m, t, now);
    LeftStep(m, t, now);
    CalledFor(m, t, all, now);
    FiredFrom(m, t, all);
    OneMoreCall(all, fired, called, Key(t), t.fn);
    FireNext(fired, Key(t), Pending(Fired(m, t), now));
  }

  lemma ProgressEnds(all: set<Timer>, now: int, m: set<Timer>, fired: seq<(int, int)>, called: seq<nat>)
    requires Positive(all) && Progress(all, now, m, fired, called) && forall u :: u in m ==> u.exp > now
    ensures m == Left(all, now) && Firings(fired) == Pending(all, now)
    ensures Ascending(fired) && CallsOf(all, fired, called) && Positive(m)
  {
    hide Pending, Left, From, CallsOf, Ascending, AllBefore, Firings;
    NothingDue(m, now);
    assert Firings(fired) + {} == Firings(fired);
  }

  // The array behind it.

  function Parent(k: nat): nat
    requires k > 0
  {
    (k - 1) / 2
  }

  ghost function Elems(h: seq<Timer>): set<Timer> {
    set t | t in h
  }

  ghost predicate DistinctIds(h: seq<Timer>) {
    forall i, j :: 0 <= i < j < |h| ==> h[i].id != h[j].id
  }

  /** No entry comes before its parent. */
  ghost predicate Ordered(h: seq<Timer>) {
    forall k :: 0 < k < |h| ==> !Less(h[k], h[Parent(k)])
  }

  /** In order except that entry `i` may come before its parent. */
  ghost predicate Rising(h: seq<Timer>, i: nat) {
    && (forall k :: 0 < k < |h| && k != i ==> !Less(h[k], h[Parent(k)]))
    && (forall k :: 0 < k < |h| && Parent(k) == i > 0 ==> !Less(h[k], h[Parent(i)]))
  }

  /** An entry put in at `i` has come down to `j`; if it is still at `i`, it may also have to rise. */
  ghost predicate Sinking(h: seq<Timer>, i: nat, j: nat) {
    && (forall k :: 0 < k < |h| && k != i && Parent(k) != j ==> !Less(h[k], h[Parent(k)]))
    && (forall k :: 0 < k < |h| && Parent(k) == j > 0 ==> !Less(h[k], h[Parent(j)]))
    && (j != i ==> i < j && (0 < i < |h| ==> !Less(h[i], h[Parent(i)])))
  }

  function Swapped(h: seq<Timer>, i: nat, j: nat): seq<Timer>
    requires i < |h| && j < |h|
  {
    h[i := h[j]][j := h[i]]
  }

  ghost predicate Rearranged(a: seq<Timer>, b: seq<Timer>) {
    |a| == |b| && Elems(a) == Elems(b) && (DistinctIds(a) ==> DistinctIds(b))
  }

  lemma SwapRearranges(h: seq<Timer>, i: nat, j: nat)
    requires i < |h| && j < |h|
    ensures Rearranged(h, Swapped(h, i, j))
  {
    var g := Swapped(h, i, j);
    forall t | t in h ensures t in g {
      var k :| 0 <= k < |h| && h[k] == t;
      assert g[if k == i then j else if k == j then i else k] == t;
    }
  }

  lemma RiseStep(h: seq<Timer>, i: nat)
    requires 0 < i < |h| && Rising(h, i) && Less(h[i], h[Parent(i)])
    ensures Rising(Swapped(h, i, Parent(i)), Parent(i))
  {
    var p := Parent(i);
    var g := Swapped(h, i, p);
    forall k | 0 < k < |h| && k != p ensures !Less(g[k], g[Parent(k)]) {
      if k != i && Parent(k) == p {
        assert !Less(h[k], h[p]);
      }
    }
    forall k | 0 < k < |h| && Parent(k) == p > 0 ensures !Less(g[k], g[Parent(p)]) {
      assert !Less(h[p], h[Parent(p)]) && (k != i ==> !Less(h[k], h[p]));
    }
  }

  lemma RiseEnd(h: seq<Timer>, i: nat)
    requires Rising(h, i) && (0 < i < |h| ==> !Less(h[i], h[Parent(i)]))
    ensures Ordered(h)
  {
  }

  lemma SinkStep(h: seq<Timer>, i: nat, j: nat, best: nat)
    requires i <= j && 0 < best < |h| && Parent(best) == j && Sinking(h, i, j) && Less(h[best], h[j])
    requires forall k :: 0 < k < |h| && Parent(k) == j ==> !Less(h[k], h[best])
    ensures Sinking(Swapped(h, j, best), i, best)
  {
  }

  lemma SinkEnd(h: seq<Timer>, i: nat, j: nat)
    requires Sinking(h, i, j) && i <= j < |h|
    requires forall k :: 0 < k < |h| && Parent(k) == j ==> !Less(h[k], h[j])
    ensures Rising(h, i)
  {
  }

  /** Removing entry `i` by putting the last one in its place. */
  lemma RemoveAt(h: seq<Timer>, i: nat)
    requires i < |h| && Ordered(h) && DistinctIds(h)
    ensures
      var g := h[i := h[|h| - 1]][..|h| - 1];
      Sinking(g, i, i) && DistinctIds(g) && Elems(g) == Elems(h) - {h[i]} && (i == |g| ==> Ordered(g))
  {
    var n := |h| - 1;
    var g := h[i := h[n]][..n];
    forall t | t in h && t != h[i] ensures t in g {
      var k :| 0 <= k < |h| && h[k] == t;
      assert g[if k == n then i else k] == t;
    }
    forall k | 0 < k < |g| && Parent(k) == i > 0 ensures !Less(g[k], g[Parent(i)]) {
      assert !Less(h[k], h[i]) && !Less(h[i], h[Parent(i)]);
    }
  }

  lemma Append(h: seq<Timer>, t: Timer)
    requires Ordered(h) && DistinctIds(h) && forall u :: u in Elems(h) ==> u.id != t.id
    ensures Rising(h + [t], |h|) && DistinctIds(h + [t]) && Elems(h + [t]) == Elems(h) + {t}
  {
    forall i | 0 <= i < |h| ensures h[i].id != t.id {
      assert h[i] in Elems(h);
    }
  }

  lemma {:induction false} RootIsFirst(h: seq<Timer>, k: nat)
    requires Ordered(h) && k < |h|
    ensures !Less(h[k], h[0])
  {
    if k > 0 {
      RootIsFirst(h, Parent(k));
    }
  }

  lemma RootIsNext(h: seq<Timer>)
    requires Ordered(h) && |h| > 0
    ensures h[0] in Elems(h) && forall u :: u in Elems(h) ==> !Less(u, h[0])
  {
    forall u | u in Elems(h) ensures !Less(u, h[0]) {
      var k :| 0 <= k < |h| && h[k] == u;
      RootIsFirst(h, k);
    }
  }

  method HeapSwap(heap: array<Timer>, i: nat, j: nat, ghost n: nat)
    requires i < n && j < n && n <= heap.Length
    modifies heap
    ensures heap[..n] == Swapped(old(heap[..n]), i, j)
    ensures Rearranged(old(heap[..n]), heap[..n])
    ensures heap[n..] == old(heap[n..])
  {
    SwapRearranges(heap[..n], i, j);
    hide Rearranged;
    heap[i], heap[j] := heap[j], heap[i];
    assert heap[..n] == Swapped(old(heap[..n]), i, j);
  }

  method HeapUp(heap: array<Timer>, start: nat, ghost n: nat)
    requires start < n <= heap.Length && Rising(heap[..n], start)
    modifies heap
    ensures Ordered(heap[..n]) && Rearranged(old(heap[..n]), heap[..n])
    ensures heap[n..] == old(heap[n..])
  {
    hide Rising, Ordered, DistinctIds, Elems;
    var i: nat := start;
    while i > 0
      invariant i < n && Rising(heap[..n], i)
      invariant Rearranged(old(heap[..n]), heap[..n])
      invariant heap[n..] == old(heap[n..])
    {
      var parent := Parent(i);
      if !Less(heap[i], heap[parent]) {
        break;
      }
      RiseStep(heap[..n], i);
      HeapSwap(heap, i, parent, n);
      i := parent;
    }
    RiseEnd(heap[..n], i);
  }

  method HeapDown(heap: array<Timer>, n: nat, start: nat)
    requires start < n <= heap.Length && Sinking(heap[..n], start, start)
    modifies heap
    ensures Rising(heap[..n], start) && Rearranged(old(heap[..n]), heap[..n])
    ensures heap[n..] == old(heap[n..])
  {
    hide Sinking, Rising, DistinctIds, Elems;
    var i := start;
    while true
      invariant start <= i < n && Sinking(heap[..n], start, i)
      invariant Rearranged(old(heap[..n]), heap[..n])
      invariant heap[n..] == old(heap[n..])
      decreases n - i
    {
      var l, r, best := 2 * i + 1, 2 * i + 2, i;
      if l < n && Less(heap[l], heap[best]) {
        best := l;
      }
      if r < n && Less(heap[r], heap[best]) {
        best := r;
      }
      assert forall k :: 0 < k < n && Parent(k) == i ==> k == l || k == r;
      if best == i {
        SinkEnd(heap[..n], start, i);
        break;
      }
      SinkStep(heap[..n], start, i, best);
      HeapSwap(heap, i, best, n);
      i := best;
    }
  }

  class Timers {
    var heap: array<Timer>
    var n: nat
    var nextId: nat

    ghost predicate Valid()
      reads this, heap
    {
      && 0 < heap.Length && n <= heap.Length
      && Ordered(heap[..n]) && DistinctIds(heap[..n])
      && forall t :: t in Elems(heap[..n]) ==> t.id < nextId
    }

    ghost function Live(): set<Timer>
      requires n <= heap.Length
      reads this, heap
    {
      Elems(heap[..n])
    }

    constructor (initialCap: int)
      ensures Valid() && fresh(heap) && Live() == {} && nextId == 0
    {
      heap := new Timer[if initialCap < 1 then 1 else initialCap](_ => Timer(0, 0, 0, 0, 0));
      n, nextId := 0, 0;
    }

    method HeapGrow()
      requires Valid()
      modifies this`heap
      ensures Valid() && fresh(heap) && heap.Length == 2 * old(heap.Length)
      ensures heap[..n] == old(heap[..n])
    {
      var was := heap;
      var wider := new Timer[2 * was.Length](_ => Timer(0, 0, 0, 0, 0));
      forall i | 0 <= i < n {
        wider[i] := was[i];
      }
      heap := wider;
      assert heap[..n] == old(heap[..n]);
    }

    /** Puts `t` at the end and lets it rise. */
    method Push(t: Timer)
      requires Valid() && n < heap.Length && t.id < nextId && forall u :: u in Live() ==> u.id != t.id
      modifies this`n, heap
      ensures Valid() && heap == old(heap) && n == old(n) + 1 && Live() == old(Live()) + {t}
    {
      Append(heap[..n], t);
      heap[n] := t;
      assert heap[..n + 1] == old(heap[..n]) + [t];
      HeapUp(heap, n, n + 1);
      n := n + 1;
    }

    method Add(tic: int, num: int, fn: nat, now: int) returns (id: nat)
      requires Valid()
      modifies this, heap
      ensures Valid() && (heap == old(heap) || fresh(heap))
      ensures id == old(nextId) && nextId == id + 1
      ensures Live() == old(Live()) + {Timer(id, tic, now + tic, num, fn)}
    {
      if n >= heap.Length {
        HeapGrow();
      }
      id := nextId;
      nextId := nextId + 1;
      Push(Timer(id, tic, now + tic, num, fn));
    }

    /** Takes out entry `i`, which leaves the heap in order except around `i`. */
    method Remove(i: nat)
      requires Valid() && i < n
      modifies this`n, heap
      ensures Valid() && heap == old(heap) && n == old(n) - 1
      ensures Live() == old(Live()) - {old(heap[i])}
    {
      RemoveAt(heap[..n], i);
      hide Sinking, Rising, Ordered, DistinctIds, Elems;
      ghost var was := heap[..n];
      n := n - 1;
      if i < n {
        heap[i] := heap[n];
        assert heap[..n] == was[i := was[n]][..n];
        HeapDown(heap, n, i);
        HeapUp(heap, i, n);
      } else {
        assert heap[..n] == was[i := was[n]][..n];
      }
    }

    method Del(id: int) returns (ok: bool)
      requires Valid()
      modifies this`n, heap
      ensures Valid() && heap == old(heap)
      ensures ok <==> exists t :: t in old(Live()) && t.id == id
      ensures Live() == set t | t in old(Live()) && t.id != id
    {
      for i := 0 to n
        invariant Valid() && heap == old(heap) && n == old(n) && heap[..n] == old(heap[..n])
        invariant forall j :: 0 <= j < i ==> heap[j].id != id
      {
        if heap[i].id == id {
          ghost var t := heap[i];
          assert t == heap[..n][i] && t in Live();
          Remove(i);
          assert forall u :: u in old(Live()) && u.id == id ==> u == t;
          return true;
        }
      }
      ok := false;
    }

    method NextDeadline() returns (d: Option<int>)
      requires Valid()
      ensures d.None? <==> Live() == {}
      ensures d.Some? ==> (exists t :: t in Live() && t.exp == d.value) && forall t :: t in Live() ==> d.value <= t.exp
    {
      if n == 0 {
        return None;
      }
      RootIsNext(heap[..n]);
      assert heap[..n][0] == heap[0];
      d := Some(heap[0].exp);
    }

    lemma HeadIsNext(now: int)
      requires Valid() && n > 0 && heap[0].exp <= now
      ensures Next(Live(), heap[0], now)
    {
      RootIsNext(heap[..n]);
      assert heap[..n][0] == heap[0];
    }

    lemma NoneIsDue(now: int)
      requires Valid() && (n > 0 ==> heap[0].exp > now)
      ensures forall u :: u in Live() ==> u.exp > now
    {
      if n > 0 {
        RootIsNext(heap[..n]);
        assert heap[..n][0] == heap[0];
      }
    }

    lemma LiveIsUnique()
      requires Valid()
      ensures UniqueIds(Live())
    {
    }

    /** Takes the head out, calls it and, if it is to fire again, puts it back. */
    method FireHead(now: int) returns (t: Timer)
      requires Valid() && n > 0 && heap[0].exp <= now
      modifies this`n, heap
      ensures Valid() && heap == old(heap)
      ensures Next(old(Live()), t, now) && Live() == Fired(old(Live()), t)
    {
      HeadIsNext(now);
      LiveIsUnique();
      t := heap[0];
      Remove(0);
      if t.num == 0 {
        Push(t.(exp := t.exp + t.tic));
      } else if t.num > 1 {
        Push(t.(exp := t.exp + t.tic, num := t.num - 1));
      }
    }

    /** Fires whatever is due at `now`, soonest first, each timer as often as
        deadlines have passed; `fired` are the deadlines in the order of the calls,
        `called` the callbacks. */
    method FireExpired(now: int) returns (fired: seq<(int, int)>, called: seq<nat>)
      requires Valid() && Positive(Live())
      modifies this`n, heap
      ensures Valid() && heap == old(heap) && Positive(Live())
      ensures Ascending(fired) && Firings(fired) == Pending(old(Live()), now)
      ensures Live() == Left(old(Live()), now) && CallsOf(old(Live()), fired, called)
    {
      hide Ordered, DistinctIds, Elems, Positive, UniqueIds, Pending, Left, Next, Fired, Progress, Ascending, Firings, CallsOf, Key;
      fired, called := [], [];
      ghost var all := Live();
      ProgressBegins(all, now);
      while n > 0 && heap[0].exp <= now
        invariant Valid() && heap == old(heap) && Positive(Live())
        invariant Progress(all, now, Live(), fired, called)
        decreases Pending(Live(), now)
      {
        ghost var was := Live();
        LiveIsUnique();
        var t := FireHead(now);
        ProgressStep(all, now, was, t, fired, called);
        fired, called := fired + [Key(t)], called + [t.fn];
      }
      NoneIsDue(now);
      ProgressEnds(all, now, Live(), fired, called);
    }
  }
}
