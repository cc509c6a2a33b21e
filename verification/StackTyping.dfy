/** Every compiled expression has a table: it leaves one operand more than it
    found, its branches join at equal heights, and its jumps land on
    instructions of its own. */
module StackTyping {
  import opened Lang
  import opened Bytes
  import opened Bytecode
  import opened CodeGen
  import opened GenForms
  import opened Scope
  import opened StackTypes

  function Up(s: St): St {
    s.(h := s.h + 1)
  }

  function UpBy(s: St, n: nat): St {
    s.(h := s.h + n)
  }

  lemma RootedUp(s: St, n: nat)
    requires Rooted(s)
    ensures Rooted(UpBy(s, n)) && Floor(s.marks) <= s.h && UpBy(s, n).marks == s.marks
  {
  }

  lemma Apart(t: Typing, u: Typing, mid: nat)
    requires forall pc :: pc in t ==> pc < mid
    requires forall pc :: pc in u ==> mid <= pc
    ensures Within(t, t + u) && Within(u, t + u)
  {
  }

  lemma CheckAt(c: Compiled, u: Typing, pc: nat, s: St, i: Instr, next: nat)
    requires Has(u, pc, s) && Fetch(c.code, pc) == Fetched(i, next) && Allows(c, u, s, i, next)
    ensures Checks(c, u, pc)
  {
    hide Fetch, Allows;
  }

  lemma IfJumps(c: Compiled, u: Typing, a: nat, b: nat, end: nat, s: St)
    requires Rooted(s) && a + 3 <= b && b + 3 <= end
    requires Has(u, a, Up(s)) && Has(u, a + 3, s) && Has(u, b + 3, s) && Has(u, b, Up(s)) && Has(u, end, Up(s))
    requires Fetch(c.code, a) == Fetched(IJmpF(b - a), a + 3)
    requires Fetch(c.code, b) == Fetched(IJmp(end - (b + 3)), b + 3)
    ensures Checks(c, u, a) && Checks(c, u, b)
  {
    hide Fetch, Checks;
    RootedUp(s, 1);
    CheckAt(c, u, a, Up(s), IJmpF(b - a), a + 3);
    CheckAt(c, u, b, Up(s), IJmp(end - (b + 3)), b + 3);
  }

  /** Two arms that start and end at equal heights. */
  lemma IfBlock(c: Compiled, tc: Typing, tt: Typing, tf: Typing, lo: nat, a: nat, b: nat, end: nat, s: St)
    requires Rooted(s) && lo <= a && a + 3 <= b && b + 3 <= end
    requires Block(c, tc, lo, a, s, Up(s)) && Block(c, tt, a + 3, b, s, Up(s)) && Block(c, tf, b + 3, end, s, Up(s))
    requires Fetch(c.code, a) == Fetched(IJmpF(b - a), a + 3)
    requires Fetch(c.code, b) == Fetched(IJmp(end - (b + 3)), b + 3)
    ensures Block(c, tc + tt + tf, lo, end, s, Up(s))
  {
    hide Fetch, Sound, Checks;
    Apart(tc, tt, a + 1);
    Apart(tc + tt, tf, b + 1);
    var u := tc + tt + tf;
    assert Within(tc, u) && Within(tt, u);
    IfJumps(c, u, a, b, end, s);
    BlockCovered(c, u, tc, lo, a, s, Up(s));
    BlockCovered(c, u, tt, a + 3, b, s, Up(s));
    BlockCovered(c, u, tf, b + 3, end, s, Up(s));
    hide Within;
    forall pc | pc in u
      ensures lo <= pc <= end && Sound(u, s.marks, u[pc]) && (pc < end ==> Checks(c, u, pc))
    {
      assert pc in tc || pc in tt || pc in tf;
    }
  }

  /** Inside a `try` one more trap is armed, and its handler is in place. */
  lemma SoundInner(t: Typing, u: Typing, marks: seq<Mark>, m: Mark, s: St)
    requires Within(t, u) && Sound(t, marks + [m], s) && Has(u, m.handler, St(m.height + 1, marks))
    ensures Sound(u, marks, s)
  {
    forall i | |marks| <= i < |s.marks|
      ensures Has(u, s.marks[i].handler, St(s.marks[i].height + 1, s.marks[..i]))
    {
      if i == |marks| {
        assert s.marks[..i] == marks && s.marks[i] == (marks + [m])[i];
      } else {
        HasWithin(t, u, s.marks[i].handler, St(s.marks[i].height + 1, s.marks[..i]));
      }
    }
    if |s.marks| <= |marks| {
      assert s.marks <= marks + [m];
      assert s.marks <= marks;
    }
  }

  lemma SoundPlain(u: Typing, s: St, n: nat)
    requires Rooted(s)
    ensures Sound(u, s.marks, UpBy(s, n))
  {
  }

  /** The table of a `try`, `p` behind its body and `q` behind its handler. */
  ghost function TryTable(tb: Typing, th: Typing, lo: nat, p: nat, q: nat, s: St): Typing {
    map[lo := s] + tb + map[p + 1 := Up(s), p + 4 := Up(s)] + th + map[q + 2 := UpBy(s, 2), q + 3 := Up(s)]
  }

  ghost predicate TryParts(c: Compiled, tb: Typing, th: Typing, lo: nat, p: nat, q: nat, s: St) {
    var inner := s.(marks := s.marks + [Mark(p + 4, s.h)]);
    && Rooted(s) && lo + 3 <= p && p + 6 <= q
    && Block(c, tb, lo + 3, p, inner, Up(inner)) && Block(c, th, p + 6, q, s, Up(s))
  }

  lemma TryWithin(c: Compiled, tb: Typing, th: Typing, lo: nat, p: nat, q: nat, s: St)
    requires TryParts(c, tb, th, lo, p, q, s)
    ensures
      var u := TryTable(tb, th, lo, p, q, s);
      && Within(tb, u) && Within(th, u)
      && Has(u, lo, s) && Has(u, p + 1, Up(s)) && Has(u, p + 4, Up(s)) && Has(u, q + 2, UpBy(s, 2)) && Has(u, q + 3, Up(s))
  {
    hide Sound, Checks;
  }

  /** The six instructions around the two parts of a `try`. */
  lemma TryChecks(c: Compiled, u: Typing, lo: nat, p: nat, q: nat, s: St, slot: nat)
    requires Rooted(s) && lo + 3 <= p && p + 6 <= q && slot < c.nLocals
    requires var inner := s.(marks := s.marks + [Mark(p + 4, s.h)]);
             Has(u, lo, s) && Has(u, lo + 3, inner) && Has(u, p, Up(inner))
    requires Has(u, p + 1, Up(s)) && Has(u, p + 4, Up(s)) && Has(u, p + 6, s)
    requires Has(u, q, Up(s)) && Has(u, q + 2, UpBy(s, 2)) && Has(u, q + 3, Up(s))
    requires Fetch(c.code, lo) == Fetched(ITrap(p + 1 - lo), lo + 3)
    requires Fetch(c.code, p) == Fetched(ITrapEnd, p + 1)
    requires Fetch(c.code, p + 1) == Fetched(IJmp(q - p - 1), p + 4)
    requires Fetch(c.code, p + 4) == Fetched(IStoreEnv(slot), p + 6)
    requires Fetch(c.code, q) == Fetched(ILoadEnv(slot), q + 2)
    requires Fetch(c.code, q + 2) == Fetched(ITryH, q + 3)
    ensures Checks(c, u, lo) && Checks(c, u, p) && Checks(c, u, p + 1)
    ensures Checks(c, u, p + 4) && Checks(c, u, q) && Checks(c, u, q + 2)
  {
    hide Fetch, Checks;
    var inner := s.(marks := s.marks + [Mark(p + 4, s.h)]);
    RootedUp(s, 1);
    assert inner.marks[..|s.marks|] == s.marks;
    CheckAt(c, u, lo, s, ITrap(p + 1 - lo), lo + 3);
    CheckAt(c, u, p, Up(inner), ITrapEnd, p + 1);
    CheckAt(c, u, p + 1, Up(s), IJmp(q - p - 1), p + 4);
    CheckAt(c, u, p + 4, Up(s), IStoreEnv(slot), p + 6);
    CheckAt(c, u, q, Up(s), ILoadEnv(slot), q + 2);
    CheckAt(c, u, q + 2, UpBy(s, 2), ITryH, q + 3);
  }

  lemma TryBlock(c: Compiled, tb: Typing, th: Typing, lo: nat, p: nat, q: nat, s: St, slot: nat)
    requires TryParts(c, tb, th, lo, p, q, s) && slot < c.nLocals
    requires Fetch(c.code, lo) == Fetched(ITrap(p + 1 - lo), lo + 3)
    requires Fetch(c.code, p) == Fetched(ITrapEnd, p + 1)
    requires Fetch(c.code, p + 1) == Fetched(IJmp(q - p - 1), p + 4)
    requires Fetch(c.code, p + 4) == Fetched(IStoreEnv(slot), p + 6)
    requires Fetch(c.code, q) == Fetched(ILoadEnv(slot), q + 2)
    requires Fetch(c.code, q + 2) == Fetched(ITryH, q + 3)
    ensures Block(c, TryTable(tb, th, lo, p, q, s), lo, q + 3, s, Up(s))
  {
    hide Fetch, Sound, Checks;
    var u := TryTable(tb, th, lo, p, q, s);
    var m := Mark(p + 4, s.h);
    var inner := s.(marks := s.marks + [m]);
    TryWithin(c, tb, th, lo, p, q, s);
    TryChecks(c, u, lo, p, q, s, slot);
    BlockCovered(c, u, tb, lo + 3, p, inner, Up(inner));
    BlockCovered(c, u, th, p + 6, q, s, Up(s));
    SoundPlain(u, s, 0);
    SoundPlain(u, s, 1);
    SoundPlain(u, s, 2);
    forall pc | pc in tb ensures Sound(u, s.marks, u[pc]) {
      SoundInner(tb, u, s.marks, m, tb[pc]);
    }
    TryKeys(tb, th, lo, p, q, s);
    hide Within, TryTable;
    forall pc | pc in u
      ensures lo <= pc <= q + 3 && Sound(u, s.marks, u[pc]) && (pc < q + 3 ==> Checks(c, u, pc))
    {
      assert pc == lo || pc in tb || pc == p + 1 || pc == p + 4 || pc in th || pc == q + 2 || pc == q + 3;
    }
  }

  lemma TryKeys(tb: Typing, th: Typing, lo: nat, p: nat, q: nat, s: St)
    ensures forall pc :: pc in TryTable(tb, th, lo, p, q, s) ==>
      pc == lo || pc in tb || pc == p + 1 || pc == p + 4 || pc in th || pc == q + 2 || pc == q + 3
  {
  }

  /** After removing the traps armed since `lo`, one for each byte. */
  function Peeled(s: St, lo: nat, pc: nat): St
    requires lo <= pc <= lo + |s.marks|
  {
    St(s.h, s.marks[..|s.marks| - (pc - lo)])
  }

  /** The traps a `return` removes, and the return itself. */
  ghost function ReturnTable(lo: nat, s: St): Typing {
    (map pc: nat | lo <= pc <= lo + |s.marks| :: Peeled(s, lo, pc)) + map[lo + |s.marks| + 1 := s]
  }

  lemma ReturnStep(c: Compiled, u: Typing, lo: nat, s: St, pc: nat)
    requires lo <= pc < lo + |s.marks| && Has(u, pc, Peeled(s, lo, pc)) && Has(u, pc + 1, Peeled(s, lo, pc + 1))
    requires Fetch(c.code, pc) == Fetched(ITrapEnd, pc + 1)
    ensures Checks(c, u, pc)
  {
    hide Fetch;
    var k := |s.marks| - (pc - lo);
    assert s.marks[..k][..k - 1] == s.marks[..k - 1];
    CheckAt(c, u, pc, Peeled(s, lo, pc), ITrapEnd, pc + 1);
  }

  lemma SoundPeeled(u: Typing, s: St, lo: nat, pc: nat)
    requires Rooted(s) && lo <= pc <= lo + |s.marks|
    ensures Sound(u, s.marks, Peeled(s, lo, pc))
  {
  }

  lemma ReturnBlock(c: Compiled, lo: nat, s: St)
    requires Rooted(s)
    requires forall j :: lo <= j < lo + |s.marks| ==> Fetch(c.code, j) == Fetched(ITrapEnd, j + 1)
    requires Fetch(c.code, lo + |s.marks|) == Fetched(IRet, lo + |s.marks| + 1)
    ensures Block(c, ReturnTable(lo, s), lo, lo + |s.marks| + 1, s, s)
  {
    hide Fetch, Checks, Sound;
    var u, n := ReturnTable(lo, s), |s.marks|;
    assert Peeled(s, lo, lo) == s;
    CheckAt(c, u, lo + n, Peeled(s, lo, lo + n), IRet, lo + n + 1);
    SoundPlain(u, s, 0);
    forall pc | pc in u
      ensures lo <= pc <= lo + n + 1 && Sound(u, s.marks, u[pc]) && (pc < lo + n + 1 ==> Checks(c, u, pc))
    {
      if pc <= lo + n {
        SoundPeeled(u, s, lo, pc);
      }
      if pc < lo + n {
        ReturnStep(c, u, lo, s, pc);
      }
    }
  }
}
