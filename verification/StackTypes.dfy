/** Operand heights and armed traps, instruction by instruction: what a table of
    them has to satisfy, and how tables of adjoining code are put together. */
module StackTypes {
  import opened Lang
  import opened Bytes
  import opened Bytecode
  import opened CodeGen

  /** An armed trap of the running frame: its handler, and the height it resumes at. */
  datatype Mark = Mark(handler: nat, height: nat)

  /** In front of an instruction: `h` operands above the locals, and the armed traps, innermost last. */
  datatype St = St(h: nat, marks: seq<Mark>)

  type Typing = map<nat, St>

  predicate Has(t: Typing, pc: int, s: St) {
    pc >= 0 && pc in t && t[pc] == s
  }

  /** Operands below this belong to what surrounds the innermost `try`. */
  function Floor(marks: seq<Mark>): nat {
    if marks == [] then 0 else marks[|marks| - 1].height
  }

  /** At least `n` operands are there above the innermost `try`. */
  predicate Pops(s: St, n: nat) {
    Floor(s.marks) + n <= s.h
  }

  predicate NameAt(c: Compiled, k: nat) {
    k < |c.consts| && c.consts[k].Symbol?
  }

  /** The instruction finds what it needs, and where control goes next the table says what it leaves. */
  predicate Allows(c: Compiled, t: Typing, s: St, i: Instr, next: nat) {
    match i
    case IRet => s.marks == []
    case IJmp(off) => Has(t, next + off, s)
    case IJmpF(off) => Pops(s, 1) && Has(t, next, s.(h := s.h - 1)) && Has(t, next + off, s.(h := s.h - 1))
    case ILoadConst(k) => k < |c.consts| && Has(t, next, s.(h := s.h + 1))
    case ILoadEnv(l) => l < c.nLocals && Has(t, next, s.(h := s.h + 1))
    case IStoreEnv(l) => l < c.nLocals && Pops(s, 1) && Has(t, next, s.(h := s.h - 1))
    case IPop => Pops(s, 1) && Has(t, next, s.(h := s.h - 1))
    case IResolve(k) => NameAt(c, k) && Has(t, next, s.(h := s.h + 1))
    case ICall1 => Pops(s, 2) && Has(t, next, s.(h := s.h - 1))
    case ICall2 => Pops(s, 3) && Has(t, next, s.(h := s.h - 2))
    case ICallN(n) => Pops(s, n + 1) && Has(t, next, s.(h := s.h - n))
    case ICallF(n) => Pops(s, n + 1) && Has(t, next, s.(h := s.h - n))
    case ICallS(n) => n <= c.nLocals && Pops(s, n) && Has(t, next, s.(h := s.h - n + 1))
    case IDup => Pops(s, 1) && Has(t, next, s.(h := s.h + 1))
    case ITrap(off) =>
      && next + off >= 0
      && Has(t, next, s.(marks := s.marks + [Mark(next + off, s.h)]))
    case ITrapEnd => s.marks != [] && Has(t, next, s.(marks := s.marks[..|s.marks| - 1]))
    case IStoreGlobal(k) => NameAt(c, k) && Pops(s, 1) && Has(t, next, s)
    case ITryH => Pops(s, 2) && Has(t, next, s.(h := s.h - 1))
    case IForce => Pops(s, 1) && Has(t, next, s)
  }

  predicate Checks(c: Compiled, t: Typing, pc: nat)
    requires pc in t
  {
    match Fetch(c.code, pc)
    case NoInstr => false
    case Fetched(i, next) => Allows(c, t, t[pc], i, next)
  }

  /** No trap resumes above the operands there are, and inner traps resume no lower than outer ones. */
  ghost predicate Rooted(s: St) {
    && (forall i :: 0 <= i < |s.marks| ==> s.marks[i].height <= s.h)
    && (forall i, j :: 0 <= i < j < |s.marks| ==> s.marks[i].height <= s.marks[j].height)
  }

  /** Each trap armed beyond the first `base` resumes in front of a handler that
      expects one operand more and the traps armed before it. */
  ghost predicate Handled(t: Typing, base: nat, s: St) {
    forall i :: base <= i < |s.marks| ==> Has(t, s.marks[i].handler, St(s.marks[i].height + 1, s.marks[..i]))
  }

  /** The traps of `s` and those around it agree as far as both go. */
  predicate Nested(around: seq<Mark>, s: St) {
    s.marks <= around || around <= s.marks
  }

  ghost predicate Sound(t: Typing, around: seq<Mark>, s: St) {
    Rooted(s) && Nested(around, s) && Handled(t, |around|, s)
  }

  /** The table of a whole lambda. */
  ghost predicate WellTyped(c: Compiled, t: Typing) {
    && Has(t, 0, St(0, []))
    && forall pc :: pc in t ==> Checks(c, t, pc) && Sound(t, [], t[pc])
  }

  /** The table of the code in `[lo, hi)` together with the state behind it. */
  ghost predicate Block(c: Compiled, t: Typing, lo: nat, hi: nat, a: St, b: St) {
    && Has(t, lo, a) && Has(t, hi, b)
    && forall pc :: pc in t ==> lo <= pc <= hi && Sound(t, a.marks, t[pc]) && (pc < hi ==> Checks(c, t, pc))
  }

  predicate Within(t: Typing, u: Typing) {
    forall pc :: pc in t ==> pc in u && u[pc] == t[pc]
  }

  lemma HasWithin(t: Typing, u: Typing, pc: int, s: St)
    requires Within(t, u) && Has(t, pc, s)
    ensures Has(u, pc, s)
  {
  }

  lemma ChecksWithin(c: Compiled, t: Typing, u: Typing, pc: nat)
    requires Within(t, u) && pc in t && Checks(c, t, pc)
    ensures Checks(c, u, pc)
  {
    hide Fetch;
  }

  lemma SoundWithin(t: Typing, u: Typing, around: seq<Mark>, s: St)
    requires Within(t, u) && Sound(t, around, s)
    ensures Sound(u, around, s)
  {
    forall i | |around| <= i < |s.marks|
      ensures Has(u, s.marks[i].handler, St(s.marks[i].height + 1, s.marks[..i]))
    {
      HasWithin(t, u, s.marks[i].handler, St(s.marks[i].height + 1, s.marks[..i]));
    }
  }

  /** `u` covers the block. */
  ghost predicate Covers(c: Compiled, u: Typing, t: Typing, hi: nat, around: seq<Mark>) {
    Within(t, u) && forall pc :: pc in t ==> Sound(u, around, u[pc]) && (pc < hi ==> Checks(c, u, pc))
  }

  lemma BlockCovered(c: Compiled, u: Typing, t: Typing, lo: nat, hi: nat, a: St, b: St)
    requires Block(c, t, lo, hi, a, b) && Within(t, u)
    ensures Covers(c, u, t, hi, a.marks)
  {
    forall pc | pc in t
      ensures Sound(u, a.marks, u[pc]) && (pc < hi ==> Checks(c, u, pc))
    {
      SoundWithin(t, u, a.marks, t[pc]);
      if pc < hi {
        ChecksWithin(c, t, u, pc);
      }
    }
    hide Sound, Checks;
  }

  lemma Overlap(t: Typing, u: Typing, mid: nat)
    requires mid in t && mid in u && t[mid] == u[mid]
    requires forall pc :: pc in t ==> pc <= mid
    requires forall pc :: pc in u ==> mid <= pc
    ensures Within(t, t + u) && Within(u, t + u)
  {
    forall pc | pc in t ensures pc in t + u && (t + u)[pc] == t[pc] {
      if pc in u {
        assert pc == mid;
      }
    }
  }

  /** Two blocks, the second behind the first. */
  lemma Append(c: Compiled, t: Typing, u: Typing, lo: nat, mid: nat, hi: nat, a: St, b: St, d: St)
    requires Block(c, t, lo, mid, a, b) && Block(c, u, mid, hi, b, d) && a.marks == b.marks
    ensures Block(c, t + u, lo, hi, a, d)
  {
    hide Sound, Checks;
    Overlap(t, u, mid);
    var w := t + u;
    BlockCovered(c, w, t, lo, mid, a, b);
    BlockCovered(c, w, u, mid, hi, b, d);
    forall pc | pc in w
      ensures lo <= pc <= hi && Sound(w, a.marks, w[pc]) && (pc < hi ==> Checks(c, w, pc))
    {
      if pc in u {
        assert pc < hi ==> Checks(c, w, pc);
      } else {
        assert pc in t && pc < mid;
      }
    }
  }

  /** No code at all. */
  lemma Nothing(c: Compiled, lo: nat, a: St)
    requires Rooted(a)
    ensures Block(c, map[lo := a], lo, lo, a, a)
  {
  }

  /** A single instruction. */
  lemma One(c: Compiled, lo: nat, hi: nat, a: St, b: St, i: Instr)
    requires lo < hi && Fetch(c.code, lo) == Fetched(i, hi)
    requires Allows(c, map[lo := a, hi := b], a, i, hi)
    requires Rooted(a) && Rooted(b) && a.marks == b.marks
    ensures Block(c, map[lo := a, hi := b], lo, hi, a, b)
  {
  }
}
