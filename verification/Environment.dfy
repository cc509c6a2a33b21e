/** The environment: parallel arrays of keys, values and flags, written in place. */
module Environment {
  import opened Options
  import opened Namespace

  /** The arrays hold exactly the bindings, each once. */
  ghost predicate Holds(ks: seq<Name>, vs: seq<Value>, us: seq<bool>, st: Store) {
    && |ks| == |vs| == |us| == |st|
    && (forall i, j :: 0 <= i < j < |ks| ==> ks[i] != ks[j])
    && (forall i :: 0 <= i < |ks| ==> ks[i] in st && st[ks[i]] == Binding(vs[i], us[i]))
    && (forall k :: k in st ==> k in ks)
  }

  lemma HoldsAbsent(ks: seq<Name>, vs: seq<Value>, us: seq<bool>, st: Store, k: Name, v: Value, u: bool)
    requires Holds(ks, vs, us, st) && k !in st
    ensures Holds(ks + [k], vs + [v], us + [u], st[k := Binding(v, u)])
  {
  }

  lemma HoldsReplaced(ks: seq<Name>, vs: seq<Value>, us: seq<bool>, st: Store, i: nat, v: Value, u: bool)
    requires Holds(ks, vs, us, st) && i < |ks|
    ensures Holds(ks, vs[i := v], us[i := u], st[ks[i] := Binding(v, u)])
  {
    assert st[ks[i] := Binding(v, u)].Keys == st.Keys;
  }

  /** The sequence without its element `i`. */
  function Without<T>(s: seq<T>, i: nat): seq<T>
    requires i < |s|
  {
    seq(|s| - 1, j requires 0 <= j < |s| - 1 => s[if j < i then j else j + 1])
  }

  lemma HoldsRemoved(ks: seq<Name>, vs: seq<Value>, us: seq<bool>, st: Store, i: nat)
    requires Holds(ks, vs, us, st) && i < |ks|
    ensures Holds(Without(ks, i), Without(vs, i), Without(us, i), st - {ks[i]})
  {
    var st1, ws := st - {ks[i]}, Without(ks, i);
    assert st1.Keys == st.Keys - {ks[i]};
    forall j, l | 0 <= j < l < |ws| ensures ws[j] != ws[l] {
    }
    forall j | 0 <= j < |ws| ensures ws[j] in st1 && st1[ws[j]] == st[ws[j]] {
    }
    forall k | k in st1 ensures k in ws {
      var j :| 0 <= j < |ks| && ks[j] == k;
      assert ws[if j < i then j else j - 1] == k;
    }
  }

  /** Moves everything after `i` down by one. */
  method ShiftDown<T>(a: array<T>, i: nat, count: nat)
    requires i < count <= a.Length
    modifies a
    ensures a[..count - 1] == Without(old(a[..count]), i)
  {
    ghost var was := a[..count];
    for j := i to count - 1
      invariant forall k :: 0 <= k < j ==> a[k] == was[if k < i then k else k + 1]
      invariant forall k :: j <= k < count ==> a[k] == was[k]
    {
      a[j] := a[j + 1];
    }
  }

  method PutAt<T>(a: array<T>, count: nat, x: T)
    requires count < a.Length
    modifies a
    ensures a[..count + 1] == old(a[..count]) + [x]
  {
    a[count] := x;
  }

  class Env {
    const keys: array<Name>
    const vals: array<Value>
    const user: array<bool>
    var count: nat
    const reserved: set<Sym>
    var frames: seq<Frame>
    ghost var store: Store

    ghost predicate Valid()
      reads this, keys, vals, user
    {
      && keys.Length == vals.Length == user.Length == CAP && count <= CAP
      && Holds(keys[..count], vals[..count], user[..count], store)
      && FramesOk(frames)
    }

    constructor (roots: set<Sym>)
      ensures Valid() && store == map[] && frames == [] && reserved == roots
      ensures fresh(keys) && fresh(vals) && fresh(user)
    {
      keys := new Name[CAP](_ => []);
      vals := new Value[CAP](_ => Leaf(0));
      user := new bool[CAP](_ => false);
      count, reserved, frames, store := 0, roots, [], map[];
    }

    method LookupGlobal(k: Name) returns (r: Option<Value>)
      requires Valid()
      ensures r == Global(store, k)
    {
      for i := 0 to count
        invariant forall j :: 0 <= j < i ==> keys[j] != k
      {
        if keys[i] == k {
          assert keys[..count][i] == k && vals[..count][i] == vals[i];
          return Some(vals[i]);
        }
      }
      assert k !in keys[..count];
      r := None;
    }

    method LookupFlat(k: Name) returns (r: Option<Value>)
      requires Valid()
      ensures r == Flat(frames, store, k)
    {
      var d := |frames|;
      while d > 0
        invariant 0 <= d <= |frames| && InFrames(frames, k, |frames|) == InFrames(frames, k, d)
      {
        d := d - 1;
        var f := frames[d];
        for i := 0 to |f.keys|
          invariant InFrame(f, k, 0) == InFrame(f, k, i)
        {
          if f.keys[i] == k {
            return Some(f.vals[i]);
          }
        }
        if f.barrier {
          break;
        }
      }
      r := LookupGlobal(k);
    }

    method EnvGet(name: Name) returns (r: Option<Value>)
      requires Valid()
      ensures r == Get(frames, store, name)
    {
      r := LookupFlat(name);
      if r.Some? || |name| < 2 {
        return;
      }
      r := LookupFlat([name[0]]);
      var i := 1;
      assert name[1..] == name[1..];
      while r.Some? && i < |name|
        invariant 1 <= i <= |name|
        invariant Walk(r, name[i..]) == Walk(Flat(frames, store, [name[0]]), name[1..])
        decreases |name| - i
      {
        assert name[i..][1..] == name[i + 1..];
        r := Probe(r.value, name[i]);
        i := i + 1;
      }
    }

    /** Takes slot `i` out. */
    method DropSlot(i: nat)
      requires Valid() && i < count
      modifies this`count, this`store, keys, vals, user
      ensures Valid() && store == old(store) - {old(keys[i])}
    {
      hide Holds, Without, FramesOk;
      HoldsRemoved(keys[..count], vals[..count], user[..count], store, i);
      assert keys[..count][i] == keys[i];
      ghost var k := keys[i];
      ShiftDown(keys, i, count);
      ShiftDown(vals, i, count);
      ShiftDown(user, i, count);
      count := count - 1;
      store := store - {k};
    }

    /** Overwrites slot `i`; a user's write marks it. */
    method WriteSlot(i: nat, v: Value, isUser: bool)
      requires Valid() && i < count && keys[i] in store
      modifies this`store, vals, user
      ensures Valid() && store == old(store)[keys[i] := Binding(v, isUser || old(user[i]))]
    {
      hide Holds, FramesOk;
      HoldsReplaced(keys[..count], vals[..count], user[..count], store, i, v, isUser || user[i]);
      ghost var vs, us := vals[..count], user[..count];
      store := store[keys[i] := Binding(v, isUser || user[i])];
      vals[i] := v;
      if isUser {
        user[i] := true;
      }
      assert vals[..count] == vs[i := v] && user[..count] == us[i := isUser || us[i]];
    }

    /** Adds a slot at the end. */
    method AddSlot(k: Name, v: Value, isUser: bool)
      requires Valid() && count < CAP && k !in store
      modifies this`count, this`store, keys, vals, user
      ensures Valid() && store == old(store)[k := Binding(v, isUser)]
    {
      hide Holds, FramesOk;
      HoldsAbsent(keys[..count], vals[..count], user[..count], store, k, v, isUser);
      PutAt(keys, count, k);
      PutAt(vals, count, v);
      PutAt(user, count, isUser);
      store := store[k := Binding(v, isUser)];
      count := count + 1;
    }

    lemma SlotOf(i: nat)
      requires Valid() && i < count
      ensures keys[i] in store && store[keys[i]] == Binding(vals[i], user[i])
    {
      assert keys[..count][i] == keys[i] && vals[..count][i] == vals[i] && user[..count][i] == user[i];
    }

    lemma NoSlot(k: Name)
      requires Valid() && forall i :: 0 <= i < count ==> keys[i] != k
      ensures k !in store && |store| == count
    {
      assert k !in keys[..count];
    }

    method BindGlobal(k: Name, val: Option<Value>, isUser: bool) returns (err: Err)
      requires Valid()
      modifies this`count, this`store, keys, vals, user
      ensures Valid()
      ensures (store, err) == Bound(old(store), k, val, isUser)
    {
      hide Holds;
      for i := 0 to count
        invariant unchanged(this) && unchanged(keys, vals, user)
        invariant forall j :: 0 <= j < i ==> keys[j] != k
      {
        if keys[i] == k {
          SlotOf(i);
          if val.None? {
            DropSlot(i);
          } else {
            WriteSlot(i, val.value, isUser);
          }
          return Ok;
        }
      }
      NoSlot(k);
      if val.None? {
        return Ok;
      }
      if count >= CAP {
        return ErrOom;
      }
      AddSlot(k, val.value, isUser);
      err := Ok;
    }

    /** Writes through a dotted name, or deletes at its end and cascades: the
        chain of dictionaries is walked down and rebuilt from the bottom up. */
    method SetDotted(name: Name, val: Option<Value>, isUser: bool) returns (err: Err)
      requires Valid() && |name| >= 2
      modifies this`count, this`store, keys, vals, user
      ensures Valid()
      ensures (store, err) == BoundDotted(old(store), name, val, isUser)
    {
      var root := LookupGlobal([name[0]]);
      var path := name[1..];
      var ok, parents := Parents(root, path);
      if !ok {
        return ErrType;
      }
      var toBind: Option<Value>;
      if val.None? {
        var present, cur := RebuildWithout(root, path, parents);
        if !present {
          return Ok;
        }
        toBind := if cur == EMPTY then None else Some(cur);
      } else {
        var cur := Rebuild(root, path, parents, val.value);
        toBind := Some(cur);
      }
      err := BindGlobal([name[0]], toBind, isUser);
    }

    /** A write by the system itself. */
    method Bind(name: Name, val: Option<Value>) returns (err: Err)
      requires Valid() && name != []
      modifies this`count, this`store, keys, vals, user
      ensures Valid()
      ensures (store, err) == Stored(old(store), name, val, false)
    {
      if |name| >= 2 {
        err := SetDotted(name, val, false);
      } else {
        err := BindGlobal(name, val, false);
      }
    }

    /** A write by user code: the system's own namespaces refuse it. */
    method Set(name: Name, val: Option<Value>) returns (err: Err)
      requires Valid() && name != []
      modifies this`count, this`store, keys, vals, user
      ensures Valid()
      ensures (store, err) == if name[0] in reserved then (old(store), ErrReserved) else Stored(old(store), name, val, true)
    {
      if name[0] in reserved {
        return ErrReserved;
      }
      if |name| >= 2 {
        err := SetDotted(name, val, true);
      } else {
        err := BindGlobal(name, val, true);
      }
    }
  }

  lemma {:induction false} WalkSnoc(v: Option<Value>, path: seq<Sym>, i: nat)
    requires 0 < i <= |path|
    ensures Walk(v, path[..i]) ==
      var w := Walk(v, path[..i - 1]); if w.None? then None else Probe(w.value, path[i - 1])
    decreases |path|
  {
    WalkNone(path[..i]);
    if v.Some? {
      var rest := path[1..];
      assert path[..i][1..] == rest[..i - 1];
      WalkNone(rest[..i - 1]);
      if i > 1 {
        assert path[..i - 1][1..] == rest[..i - 2];
        WalkSnoc(Probe(v.value, path[0]), rest, i - 1);
      }
    }
  }

  /** The dictionaries along the path, root first; an error if something else is in the way. */
  method Parents(root: Option<Value>, path: seq<Sym>) returns (ok: bool, parents: array<Option<Value>>)
    requires path != []
    ensures ok == DictsAlong(root, path) && fresh(parents) && parents.Length == |path|
    ensures ok ==> forall i :: 0 <= i < |path| ==> parents[i] == Walk(root, path[..i])
  {
    parents := new Option<Value>[|path|](_ => None);
    parents[0] := root;
    assert path[..0] == [] && path[0..] == path;
    if root.Some? && !root.value.Dict? {
      return false, parents;
    }
    for i := 1 to |path|
      invariant forall j :: 0 <= j < i ==> parents[j] == Walk(root, path[..j])
      invariant parents[i - 1].None? || parents[i - 1].value.Dict?
      invariant DictsAlong(root, path) == DictsAlong(parents[i - 1], path[i - 1..])
    {
      WalkSnoc(root, path, i);
      assert path[i - 1..][1..] == path[i..];
      if parents[i - 1].None? {
        parents[i] := None;
      } else {
        var child := Probe(parents[i - 1].value, path[i - 1]);
        if child.Some? && !child.value.Dict? {
          return false, parents;
        }
        parents[i] := child;
      }
    }
    assert path[|path| - 1..][1..] == [];
    ok := true;
  }

  /** Walking part of the way and then the rest. */
  lemma {:induction false} AlongFrom(v: Option<Value>, path: seq<Sym>, i: nat)
    requires DictsAlong(v, path) && i <= |path|
    ensures DictsAlong(Walk(v, path[..i]), path[i..])
    ensures Walk(Walk(v, path[..i]), path[i..]) == Walk(v, path)
    decreases |path|
  {
    assert path[..0] == [] && path[0..] == path;
    WalkNone(path);
    WalkNone(path[..i]);
    WalkNone(path[i..]);
    if v.Some? && i > 0 {
      assert path[..i][1..] == path[1..][..i - 1] && path[i..] == path[1..][i - 1..];
      AlongFrom(Probe(v.value, path[0]), path[1..], i - 1);
    }
  }

  lemma PutStep(v: Option<Value>, path: seq<Sym>, x: Value, w: Option<Value>)
    requires path != [] && DictsAlong(v, path)
    requires path[1..] == [] || w == if v.None? then None else Probe(v.value, path[0])
    ensures Put(v, path, x) == Dict(Entries(v)[path[0] := Put(w, path[1..], x)])
  {
  }

  /** The chain with `x` at its end. */
  method Rebuild(root: Option<Value>, path: seq<Sym>, parents: array<Option<Value>>, x: Value) returns (cur: Value)
    requires path != [] && DictsAlong(root, path) && parents.Length == |path|
    requires forall i :: 0 <= i < |path| ==> parents[i] == Walk(root, path[..i])
    ensures cur == Put(root, path, x)
  {
    cur := x;
    var i := |path|;
    assert path[|path|..] == [];
    while i > 0
      invariant 0 <= i <= |path|
      invariant cur == Put(Walk(root, path[..i]), path[i..], x)
    {
      WalkSnoc(root, path, i);
      AlongFrom(root, path, i - 1);
      assert path[i - 1..][1..] == path[i..];
      PutStep(parents[i - 1], path[i - 1..], x, Walk(root, path[..i]));
      cur := Dict(Entries(parents[i - 1])[path[i - 1] := cur]);
      i := i - 1;
    }
    assert path[..0] == [] && path[0..] == path;
  }

  ghost predicate IsCut(v: Option<Value>, path: seq<Sym>, cur: Value) {
    v.Some? && path != [] && DictsAlong(v, path) && Walk(v, path).Some? && cur == Cut(v.value, path)
  }

  lemma CutStep(v: Option<Value>, path: seq<Sym>, c: Value)
    requires |path| > 1 && v.Some? && DictsAlong(v, path) && Walk(v, path).Some?
    requires IsCut(Probe(v.value, path[0]), path[1..], c)
    ensures
      var m := Entries(v);
      IsCut(v, path, if c == EMPTY then Dict(m - {path[0]}) else Dict(m[path[0] := c]))
  {
  }

  /** The chain without its end, emptied dictionaries going with it. */
  method RebuildWithout(root: Option<Value>, path: seq<Sym>, parents: array<Option<Value>>)
    returns (present: bool, cur: Value)
    requires path != [] && DictsAlong(root, path) && parents.Length == |path|
    requires forall i :: 0 <= i < |path| ==> parents[i] == Walk(root, path[..i])
    ensures present == Walk(root, path).Some?
    ensures present ==> root.Some? && cur == Cut(root.value, path)
  {
    cur := EMPTY;
    var i := |path| - 1;
    WalkSnoc(root, path, |path|);
    AlongFrom(root, path, i);
    assert path[..|path|] == path && path[i..] == [path[i]];
    var leafParent := parents[i];
    if leafParent.None? || Probe(leafParent.value, path[i]).None? {
      return false, cur;
    }
    present := true;
    cur := Dict(Entries(leafParent) - {path[i]});
    while i > 0
      invariant 0 <= i < |path|
      invariant IsCut(Walk(root, path[..i]), path[i..], cur)
    {
      WalkSnoc(root, path, i);
      AlongFrom(root, path, i - 1);
      assert path[i - 1..][1..] == path[i..];
      CutStep(parents[i - 1], path[i - 1..], cur);
      var m := Entries(parents[i - 1]);
      cur := if cur == EMPTY then Dict(m - {path[i - 1]}) else Dict(m[path[i - 1] := cur]);
      i := i - 1;
    }
    assert path[..0] == [] && path[0..] == path;
  }
}
