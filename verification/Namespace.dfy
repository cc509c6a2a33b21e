/** Global bindings and namespaces: dotted names are paths through nested dictionaries. */
module Namespace {
  import opened Options

  type Sym = int

  /** A name by its segments; more than one of them make it dotted. */
  type Name = seq<Sym>

  datatype Err = Ok | ErrType | ErrOom | ErrReserved

  datatype Value = Leaf(id: int) | Table(cols: map<Sym, Value>) | Dict(entries: map<Sym, Value>)

  // Paths through values.

  function Probe(v: Value, k: Sym): Option<Value> {
    match v
    case Leaf(_) => None
    case Table(m) => if k in m then Some(m[k]) else None
    case Dict(m) => if k in m then Some(m[k]) else None
  }

  function Walk(v: Option<Value>, path: seq<Sym>): Option<Value>
    decreases |path|
  {
    if v.None? || path == [] then v else Walk(Probe(v.value, path[0]), path[1..])
  }

  /** Whatever exists along the path, short of its end, is a dictionary. */
  predicate DictsAlong(v: Option<Value>, path: seq<Sym>)
    decreases |path|
  {
    v.None? || path == [] || (v.value.Dict? && DictsAlong(Probe(v.value, path[0]), path[1..]))
  }

  function Entries(v: Option<Value>): map<Sym, Value> {
    if v.Some? && v.value.Dict? then v.value.entries else map[]
  }

  /** `x` put at the end of the path, dictionaries made where there are none. */
  function Put(v: Option<Value>, path: seq<Sym>, x: Value): Value
    decreases |path|
  {
    if path == [] then x
    else
      var m := Entries(v);
      var child := if path[0] in m then Some(m[path[0]]) else None;
      Dict(m[path[0] := Put(child, path[1..], x)])
  }

  const EMPTY: Value := Dict(map[])

  /** The end of the path taken out, and every dictionary that leaves empty with it. */
  function Cut(v: Value, path: seq<Sym>): Value
    requires path != [] && DictsAlong(Some(v), path) && Walk(Some(v), path).Some?
    ensures Cut(v, path).Dict?
    decreases |path|
  {
    var k := path[0];
    if |path| == 1 then Dict(v.entries - {k})
    else
      WalkNone(path[1..]);
      var c := Cut(v.entries[k], path[1..]);
      if c == EMPTY then Dict(v.entries - {k}) else Dict(v.entries[k := c])
  }

  predicate Prefix(a: seq<Sym>, b: seq<Sym>) {
    |a| <= |b| && b[..|a|] == a
  }

  predicate Related(a: seq<Sym>, b: seq<Sym>) {
    Prefix(a, b) || Prefix(b, a)
  }

  lemma PrefixTail(a: seq<Sym>, b: seq<Sym>)
    requires a != [] && b != [] && a[0] == b[0]
    ensures Prefix(a[1..], b[1..]) == Prefix(a, b)
  {
    if |a| <= |b| {
      assert b[..|a|] == [b[0]] + b[1..][..|a| - 1];
      assert a == [a[0]] + a[1..];
    }
  }

  lemma {:induction false} WalkPut(v: Option<Value>, path: seq<Sym>, x: Value)
    ensures Walk(Some(Put(v, path, x)), path) == Some(x)
    decreases |path|
  {
    if path != [] {
      var m := Entries(v);
      WalkPut(if path[0] in m then Some(m[path[0]]) else None, path[1..], x);
    }
  }

  lemma {:induction false} WalkPutOther(v: Option<Value>, path: seq<Sym>, x: Value, q: seq<Sym>)
    requires DictsAlong(v, path) && !Related(path, q)
    ensures Walk(Some(Put(v, path, x)), q) == Walk(v, q)
    decreases |path|
  {
    assert path != [] && q != [];
    if path[0] == q[0] {
      PrefixTail(path, q);
      PrefixTail(q, path);
      var m := Entries(v);
      WalkPutOther(if path[0] in m then Some(m[path[0]]) else None, path[1..], x, q[1..]);
      WalkNone(q[1..]);
    }
  }

  lemma WalkNone(q: seq<Sym>)
    ensures Walk(None, q) == None
  {
  }

  lemma {:induction false} WalkCut(v: Value, path: seq<Sym>)
    requires path != [] && DictsAlong(Some(v), path) && Walk(Some(v), path).Some?
    ensures Walk(Some(Cut(v, path)), path) == None
    decreases |path|
  {
    WalkNone(path[1..]);
    if |path| > 1 {
      WalkCut(v.entries[path[0]], path[1..]);
    }
  }

  lemma {:induction false} WalkCutOther(v: Value, path: seq<Sym>, q: seq<Sym>)
    requires path != [] && DictsAlong(Some(v), path) && Walk(Some(v), path).Some? && !Related(path, q)
    ensures Walk(Some(Cut(v, path)), q) == Walk(Some(v), q)
    decreases |path|
  {
    assert q != [];
    if path[0] == q[0] {
      PrefixTail(path, q);
      PrefixTail(q, path);
      assert |path| > 1;
      WalkCutOther(v.entries[path[0]], path[1..], q[1..]);
      assert q[1..] != [] && Walk(Some(EMPTY), q[1..]) == None by {
        WalkNone(q[1..][1..]);
      }
      WalkNone(q[1..]);
    }
  }

  /** Along the path of a deletion no dictionary is left empty, except perhaps the first. */
  lemma {:induction false} CutLeavesNoEmpty(v: Value, path: seq<Sym>, i: nat)
    requires DictsAlong(Some(v), path) && Walk(Some(v), path).Some? && 0 < i < |path|
    ensures Walk(Some(Cut(v, path)), path[..i]) != Some(EMPTY)
    decreases |path|
  {
    var k := path[0];
    var c := Cut(v.entries[k], path[1..]);
    assert path[..i][0] == k && path[..i][1..] == path[1..][..i - 1];
    WalkNone(path[..i][1..]);
    if c != EMPTY && i > 1 {
      CutLeavesNoEmpty(v.entries[k], path[1..], i - 1);
    }
  }

  // The bindings, and what the operations do to them.

  const CAP: nat := 8192

  /** A global, and whether user code has written it since it was bound. */
  datatype Binding = Binding(value: Value, user: bool)

  type Store = map<Name, Binding>

  datatype Frame = Frame(keys: seq<Name>, vals: seq<Value>, barrier: bool)

  function Global(st: Store, k: Name): Option<Value> {
    if k in st then Some(st[k].value) else None
  }

  /** The first binding of `k` in a frame from slot `i` on. */
  function InFrame(f: Frame, k: Name, i: nat): Option<Value>
    requires |f.keys| == |f.vals| && i <= |f.keys|
    decreases |f.keys| - i
  {
    if i == |f.keys| then None else if f.keys[i] == k then Some(f.vals[i]) else InFrame(f, k, i + 1)
  }

  predicate FramesOk(frames: seq<Frame>) {
    forall i :: 0 <= i < |frames| ==> |frames[i].keys| == |frames[i].vals|
  }

  /** The binding of `k` in the frames below `d`, from the top down to the first barrier. */
  function InFrames(frames: seq<Frame>, k: Name, d: nat): Option<Value>
    requires FramesOk(frames) && d <= |frames|
  {
    if d == 0 then None
    else
      var r := InFrame(frames[d - 1], k, 0);
      if r.Some? || frames[d - 1].barrier then r else InFrames(frames, k, d - 1)
  }

  function Flat(frames: seq<Frame>, st: Store, k: Name): Option<Value>
    requires FramesOk(frames)
  {
    var r := InFrames(frames, k, |frames|);
    if r.Some? then r else Global(st, k)
  }

  /** What a name stands for: its own binding, or the path through its first segment's. */
  function Get(frames: seq<Frame>, st: Store, name: Name): Option<Value>
    requires FramesOk(frames)
  {
    var flat := Flat(frames, st, name);
    if flat.Some? || |name| < 2 then flat
    else Walk(Flat(frames, st, [name[0]]), name[1..])
  }

  /** Binding one key, or dropping it. A builtin binding turns into a user's, never back. */
  function Bound(st: Store, k: Name, val: Option<Value>, user: bool): (Store, Err) {
    if k in st then
      if val.None? then (st - {k}, Ok) else (st[k := Binding(val.value, user || st[k].user)], Ok)
    else if val.None? then (st, Ok)
    else if |st| >= CAP then (st, ErrOom)
    else (st[k := Binding(val.value, user)], Ok)
  }

  /** Writing through a path, or deleting at its end. */
  function BoundDotted(st: Store, name: Name, val: Option<Value>, user: bool): (Store, Err)
    requires |name| >= 2
  {
    var root, path := Global(st, [name[0]]), name[1..];
    if !DictsAlong(root, path) then (st, ErrType)
    else if val.Some? then Bound(st, [name[0]], Some(Put(root, path, val.value)), user)
    else if Walk(root, path).None? then (st, Ok)
    else
      WalkNone(path);
      var c := Cut(root.value, path);
      Bound(st, [name[0]], if c == EMPTY then None else Some(c), user)
  }

  function Stored(st: Store, name: Name, val: Option<Value>, user: bool): (Store, Err)
    requires name != []
  {
    if |name| >= 2 then BoundDotted(st, name, val, user) else Bound(st, name, val, user)
  }

  /** No frame in view binds the name or its first segment. */
  predicate Unshadowed(frames: seq<Frame>, name: Name)
    requires FramesOk(frames) && name != []
  {
    InFrames(frames, name, |frames|).None? && InFrames(frames, [name[0]], |frames|).None?
  }

  lemma OneSegment(name: Name)
    requires |name| == 1
    ensures name == [name[0]] && name[1..] == []
  {
  }

  /** After setting a name, getting it yields the value. */
  lemma GetAfterSet(frames: seq<Frame>, st: Store, name: Name, x: Value, user: bool)
    requires FramesOk(frames) && name != [] && Unshadowed(frames, name)
    requires |name| >= 2 ==> name !in st
    requires Stored(st, name, Some(x), user).1 == Ok
    ensures Get(frames, Stored(st, name, Some(x), user).0, name) == Some(x)
  {
    if |name| >= 2 {
      WalkPut(Global(st, [name[0]]), name[1..], x);
      assert [name[0]] != name;
      hide Put, Walk, InFrames;
    }
  }

  lemma Apart(name: Name, q: Name)
    requires name != [] && q != [] && !Related(name, q)
    ensures q != name && q != [name[0]] && (|name| == 1 ==> name[0] != q[0])
    ensures name[0] == q[0] ==> |name| > 1 && |q| > 1 && !Related(name[1..], q[1..])
  {
    if name[0] == q[0] {
      PrefixTail(name, q);
      PrefixTail(q, name);
      assert Prefix([name[0]], q) && Prefix([q[0]], name);
      if |name| == 1 {
        OneSegment(name);
      }
      if |q| == 1 {
        OneSegment(q);
      }
    }
  }

  /** Setting a name changes no name that is not above or below it. */
  lemma GetOtherAfterSet(frames: seq<Frame>, st: Store, name: Name, x: Value, user: bool, q: Name)
    requires FramesOk(frames) && name != [] && q != [] && !Related(name, q)
    ensures Get(frames, Stored(st, name, Some(x), user).0, q) == Get(frames, st, q)
  {
    Apart(name, q);
    var st1 := Stored(st, name, Some(x), user).0;
    assert Flat(frames, st1, q) == Flat(frames, st, q);
    if |name| >= 2 && name[0] == q[0] {
      if DictsAlong(Global(st, [name[0]]), name[1..]) {
        WalkPutOther(Global(st, [name[0]]), name[1..], x, q[1..]);
      }
    } else {
      assert Flat(frames, st1, [q[0]]) == Flat(frames, st, [q[0]]);
    }
    hide Put, Walk, InFrames, Related;
  }

  /** After deleting a name there is nothing under it. */
  lemma GetAfterDelete(frames: seq<Frame>, st: Store, name: Name, user: bool)
    requires FramesOk(frames) && name != [] && Unshadowed(frames, name)
    requires |name| >= 2 ==> name !in st
    requires Stored(st, name, None, user).1 == Ok
    ensures Get(frames, Stored(st, name, None, user).0, name) == None
  {
    if |name| >= 2 {
      var root := Global(st, [name[0]]);
      assert [name[0]] != name;
      WalkNone(name[1..]);
      if Walk(root, name[1..]).Some? {
        WalkCut(root.value, name[1..]);
      }
      hide Cut, Walk, InFrames;
    }
  }

  /** Deleting a name removes no name that is not above or below it. */
  lemma GetOtherAfterDelete(frames: seq<Frame>, st: Store, name: Name, user: bool, q: Name)
    requires FramesOk(frames) && name != [] && q != [] && !Related(name, q)
    ensures Get(frames, Stored(st, name, None, user).0, q) == Get(frames, st, q)
  {
    Apart(name, q);
    var st1 := Stored(st, name, None, user).0;
    assert Flat(frames, st1, q) == Flat(frames, st, q);
    if |name| >= 2 && name[0] == q[0] {
      var root := Global(st, [name[0]]);
      WalkNone(name[1..]);
      WalkNone(q[1..]);
      if DictsAlong(root, name[1..]) && Walk(root, name[1..]).Some? {
        WalkCutOther(root.value, name[1..], q[1..]);
        EmptyHasNothing(q[1..]);
      }
    } else {
      assert Flat(frames, st1, [q[0]]) == Flat(frames, st, [q[0]]);
    }
    hide Cut, Walk, InFrames, Related;
  }

  lemma EmptyHasNothing(q: seq<Sym>)
    ensures q != [] ==> Walk(Some(EMPTY), q) == None
  {
    if q != [] {
      WalkNone(q[1..]);
    }
  }

  lemma BoundGlobal(st: Store, k: Name, val: Option<Value>, user: bool, q: Name)
    requires Bound(st, k, val, user).1 == Ok
    ensures Global(Bound(st, k, val, user).0, q) == if q == k then val else Global(st, q)
  {
  }

  /** No dictionary above a deleted name is left empty: it goes too. */
  lemma DeleteLeavesNoEmpty(frames: seq<Frame>, st: Store, name: Name, user: bool, i: nat)
    requires FramesOk(frames) && |name| >= 2 && 0 < i < |name|
    requires InFrames(frames, name[..i], |frames|).None? && InFrames(frames, [name[0]], |frames|).None?
    requires i > 1 ==> name[..i] !in st
    requires BoundDotted(st, name, None, user).1 == Ok && Walk(Global(st, [name[0]]), name[1..]).Some?
    ensures Get(frames, BoundDotted(st, name, None, user).0, name[..i]) != Some(EMPTY)
  {
    hide Cut, Walk, InFrames, DictsAlong, Bound;
    var root, path := Global(st, [name[0]]), name[1..];
    WalkNone(path);
    var c := Cut(root.value, path);
    var val := if c == EMPTY then None else Some(c);
    BoundGlobal(st, [name[0]], val, user, [name[0]]);
    if i == 1 {
      assert name[..1] == [name[0]];
    } else {
      assert name[..i][0] == name[0] && name[..i][1..] == path[..i - 1];
      BoundGlobal(st, [name[0]], val, user, name[..i]);
      CutLeavesNoEmpty(root.value, path, i - 1);
      WalkNone(path[..i - 1]);
    }
  }

  /** The topmost frame that binds the name or is a barrier decides what is found in the frames. */
  lemma {:induction false} TopmostFrame(frames: seq<Frame>, k: Name, n: nat, d: nat)
    requires FramesOk(frames) && d < n <= |frames|
    requires InFrame(frames[d], k, 0).Some? || frames[d].barrier
    requires forall e :: d < e < n ==> InFrame(frames[e], k, 0).None? && !frames[e].barrier
    ensures InFrames(frames, k, n) == InFrame(frames[d], k, 0)
    decreases n
  {
    if d < n - 1 {
      TopmostFrame(frames, k, n - 1, d);
    }
  }

  /** So a binding below a barrier is not seen: the global is. */
  lemma BarrierHides(frames: seq<Frame>, st: Store, k: Name, d: nat)
    requires FramesOk(frames) && d < |frames| && frames[d].barrier
    requires forall e :: d <= e < |frames| ==> InFrame(frames[e], k, 0).None?
    requires forall e :: d < e < |frames| ==> !frames[e].barrier
    ensures Flat(frames, st, k) == Global(st, k)
  {
    TopmostFrame(frames, k, |frames|, d);
  }

  /** Once a user's, always a user's, until it is removed; the system marks nothing. */
  lemma MarksStay(st: Store, name: Name, val: Option<Value>, user: bool, k: Name)
    requires name != [] && k in Stored(st, name, val, user).0
    ensures var st1, key := Stored(st, name, val, user).0, [name[0]];
            && (k in st && st[k].user ==> st1[k].user)
            && (st1[k].user && !(k in st && st[k].user) ==> user && k == key)
            && (user && val.Some? && k == key && Stored(st, name, val, user).1 == Ok ==> st1[k].user)
  {
    hide Put, Cut;
    if |name| == 1 {
      OneSegment(name);
    } else if DictsAlong(Global(st, [name[0]]), name[1..]) && Walk(Global(st, [name[0]]), name[1..]).None? {
      WalkNone(name[1..]);
    }
  }

  // What a name stands for, frame by frame.

  /** Slot `i` of frame `d` is where `k` is found: the first of its frame to bind it,
      with neither a binding nor a barrier above. */
  ghost predicate FoundAt(frames: seq<Frame>, k: Name, d: nat, i: nat)
    requires FramesOk(frames)
  {
    && d < |frames| && i < |frames[d].keys| && frames[d].keys[i] == k && k !in frames[d].keys[..i]
    && forall e :: d < e < |frames| ==> k !in frames[e].keys && !frames[e].barrier
  }

  /** No frame in view binds `k`: none at all, or none down to the nearest barrier. */
  ghost predicate NotFound(frames: seq<Frame>, k: Name)
    requires FramesOk(frames)
  {
    exists d: nat :: UnboundFrom(frames, k, d)
  }

  ghost predicate UnboundFrom(frames: seq<Frame>, k: Name, d: nat) {
    && d <= |frames| && (d > 0 ==> frames[d - 1].barrier && k !in frames[d - 1].keys)
    && forall e :: d <= e < |frames| ==> k !in frames[e].keys
  }

  lemma {:induction false} FirstInFrame(f: Frame, k: Name, i: nat, from: nat)
    requires |f.keys| == |f.vals| && from <= i < |f.keys| && f.keys[i] == k && k !in f.keys[..i]
    ensures InFrame(f, k, from) == Some(f.vals[i])
    decreases i - from
  {
    if from < i {
      assert f.keys[..i][from] == f.keys[from];
      FirstInFrame(f, k, i, from + 1);
    }
  }

  lemma {:induction false} NotInFrame(f: Frame, k: Name, from: nat)
    requires |f.keys| == |f.vals| && from <= |f.keys| && k !in f.keys
    ensures InFrame(f, k, from) == None
    decreases |f.keys| - from
  {
    if from < |f.keys| {
      NotInFrame(f, k, from + 1);
    }
  }

  lemma FoundInFrames(frames: seq<Frame>, k: Name, d: nat, i: nat)
    requires FramesOk(frames) && FoundAt(frames, k, d, i)
    ensures InFrames(frames, k, |frames|) == Some(frames[d].vals[i])
  {
    FirstInFrame(frames[d], k, i, 0);
    forall e | d < e < |frames| ensures InFrame(frames[e], k, 0) == None {
      NotInFrame(frames[e], k, 0);
    }
    TopmostFrame(frames, k, |frames|, d);
  }

  lemma {:induction false} NoneFrom(frames: seq<Frame>, k: Name, d: nat, n: nat)
    requires FramesOk(frames) && d <= n <= |frames| && (d > 0 ==> frames[d - 1].barrier && k !in frames[d - 1].keys)
    requires forall e :: d <= e < n ==> k !in frames[e].keys
    ensures InFrames(frames, k, n) == None
    decreases n
  {
    if n > 0 {
      NotInFrame(frames[n - 1], k, 0);
      if n > d {
        NoneFrom(frames, k, d, n - 1);
      }
    }
  }

  /** A local is found, whatever the globals. */
  lemma LocalIsFound(frames: seq<Frame>, st: Store, name: Name, d: nat, i: nat)
    requires FramesOk(frames) && FoundAt(frames, name, d, i)
    ensures Get(frames, st, name) == Some(frames[d].vals[i])
  {
    FoundInFrames(frames, name, d, i);
  }

  /** Otherwise the global is; below a barrier nothing counts. */
  lemma GlobalIsFound(frames: seq<Frame>, st: Store, name: Name)
    requires FramesOk(frames) && NotFound(frames, name) && name in st
    ensures Get(frames, st, name) == Some(st[name].value)
  {
    var d: nat :| UnboundFrom(frames, name, d);
    NoneFrom(frames, name, d, |frames|);
  }

  /** A name of one segment that is bound nowhere stands for nothing; a dotted one for
      the end of the path through the local or the global its first segment is. */
  lemma PathIsFollowed(frames: seq<Frame>, st: Store, name: Name, d: nat, i: nat)
    requires FramesOk(frames) && name != [] && NotFound(frames, name) && name !in st
    ensures |name| == 1 ==> Get(frames, st, name) == None
    ensures |name| > 1 && FoundAt(frames, name[..1], d, i) ==>
            Get(frames, st, name) == Walk(Some(frames[d].vals[i]), name[1..])
    ensures |name| > 1 && NotFound(frames, name[..1]) ==>
            Get(frames, st, name) == if name[..1] in st then Walk(Some(st[name[..1]].value), name[1..]) else None
  {
    NotFoundAnywhere(frames, name);
    assert name[..1] == [name[0]];
    if |name| > 1 && FoundAt(frames, name[..1], d, i) {
      FoundInFrames(frames, name[..1], d, i);
    }
    if |name| > 1 && NotFound(frames, name[..1]) {
      NotFoundAnywhere(frames, name[..1]);
      WalkNone(name[1..]);
    }
    hide InFrames, Walk;
  }

  lemma NotFoundAnywhere(frames: seq<Frame>, k: Name)
    requires FramesOk(frames) && NotFound(frames, k)
    ensures InFrames(frames, k, |frames|) == None
  {
    var d: nat :| UnboundFrom(frames, k, d);
    NoneFrom(frames, k, d, |frames|);
  }

  // When a write is refused.

  /** The 8193rd global is refused and changes nothing. */
  lemma FullStoreRefuses(st: Store, k: Name, x: Value, user: bool)
    ensures k !in st && |st| >= 8192 ==> Bound(st, k, Some(x), user) == (st, ErrOom)
    ensures k in st || |st| < 8192 ==> Bound(st, k, Some(x), user).1 == Ok
  {
  }

  lemma {:induction false} DictsBefore(v: Option<Value>, path: seq<Sym>)
    ensures DictsAlong(v, path) <==>
            forall i :: 0 <= i < |path| ==> Walk(v, path[..i]).None? || Walk(v, path[..i]).value.Dict?
    decreases |path|
  {
    if v.Some? && path != [] {
      assert path[..0] == [];
      if v.value.Dict? {
        var w := Probe(v.value, path[0]);
        DictsBefore(w, path[1..]);
        forall i | 0 < i < |path| ensures Walk(v, path[..i]) == Walk(w, path[1..][..i - 1]) {
          assert path[..i][0] == path[0] && path[..i][1..] == path[1..][..i - 1];
        }
        assert forall i :: 0 <= i < |path| - 1 ==> Walk(v, path[..i + 1]) == Walk(w, path[1..][..i]);
      } else {
        assert Walk(v, path[..0]) == v;
      }
    } else {
      forall i | 0 <= i < |path| ensures Walk(v, path[..i]).None? {
        WalkNone(path[..i]);
      }
    }
  }

  /** A dotted write fails on its way if and only if something short of the end is
      there and no dictionary; then nothing changes. */
  lemma ObstacleRefuses(st: Store, name: Name, val: Option<Value>, user: bool)
    requires |name| >= 2
    ensures var root, path := Global(st, name[..1]), name[1..];
            (exists i :: 0 <= i < |path| && Walk(root, path[..i]).Some? && !Walk(root, path[..i]).value.Dict?)
            <==> BoundDotted(st, name, val, user) == (st, ErrType)
  {
    assert name[..1] == [name[0]];
    DictsBefore(Global(st, [name[0]]), name[1..]);
    hide Walk, DictsAlong, Put, Cut;
  }
}
