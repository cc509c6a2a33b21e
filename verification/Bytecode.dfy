/** The instruction set as bytes: one opcode byte, then a one-byte operand, a
    two-byte constant index or a two-byte signed jump offset. */
module Bytecode {
  import opened Bytes

  const RET := 0
  const JMP := 1
  const JMPF := 2
  const LOADCONST := 3
  const LOADENV := 4
  const STOREENV := 5
  const POP := 6
  const RESOLVE := 7
  const CALL1 := 8
  const CALL2 := 9
  const CALLN := 10
  const CALLF := 11
  const CALLS := 12
  const DUP := 14
  const LOADCONST_W := 15
  const RESOLVE_W := 16
  const TRAP := 17
  const TRAP_END := 18
  const STOREGLOBAL := 19
  const STOREGLOBAL_W := 20
  const TRYH := 23
  const FORCE := 24

  datatype Instr =
    | IRet
    | IJmp(off: int)
    | IJmpF(off: int)
    | ILoadConst(idx: nat)
    | ILoadEnv(slot: nat)
    | IStoreEnv(slot: nat)
    | IPop
    | IResolve(idx: nat)
    | ICall1
    | ICall2
    | ICallN(n: nat)
    | ICallF(n: nat)
    | ICallS(n: nat)
    | IDup
    | ITrap(off: int)
    | ITrapEnd
    | IStoreGlobal(idx: nat)
    | ITryH
    | IForce

  function Wide(hi: byte, lo: byte): nat {
    var h: int, l: int := hi, lo;
    h * 256 + l
  }

  /** `(int16_t)((hi << 8) | lo)`. */
  function Signed16(hi: byte, lo: byte): int {
    var u := Wide(hi, lo);
    if u < 32768 then u else u - 65536
  }

  /** The instruction at `ip` and the address after it. */
  datatype Fetched = NoInstr | Fetched(instr: Instr, next: nat)

  function Fetch(code: seq<byte>, ip: nat): Fetched {
    if ip >= |code| then NoInstr
    else
      var op := code[ip];
      if op == RET then Fetched(IRet, ip + 1)
      else if op == POP then Fetched(IPop, ip + 1)
      else if op == CALL1 then Fetched(ICall1, ip + 1)
      else if op == CALL2 then Fetched(ICall2, ip + 1)
      else if op == DUP then Fetched(IDup, ip + 1)
      else if op == TRAP_END then Fetched(ITrapEnd, ip + 1)
      else if op == TRYH then Fetched(ITryH, ip + 1)
      else if op == FORCE then Fetched(IForce, ip + 1)
      else if ip + 1 >= |code| then NoInstr
      else
        var a := code[ip + 1];
        if op == LOADCONST then Fetched(ILoadConst(a), ip + 2)
        else if op == RESOLVE then Fetched(IResolve(a), ip + 2)
        else if op == STOREGLOBAL then Fetched(IStoreGlobal(a), ip + 2)
        else if op == LOADENV then Fetched(ILoadEnv(a), ip + 2)
        else if op == STOREENV then Fetched(IStoreEnv(a), ip + 2)
        else if op == CALLN then Fetched(ICallN(a), ip + 2)
        else if op == CALLF then Fetched(ICallF(a), ip + 2)
        else if op == CALLS then Fetched(ICallS(a), ip + 2)
        else if ip + 2 >= |code| then NoInstr
        else
          var b := code[ip + 2];
          if op == JMP then Fetched(IJmp(Signed16(a, b)), ip + 3)
          else if op == JMPF then Fetched(IJmpF(Signed16(a, b)), ip + 3)
          else if op == TRAP then Fetched(ITrap(Signed16(a, b)), ip + 3)
          else if op == LOADCONST_W then Fetched(ILoadConst(Wide(a, b)), ip + 3)
          else if op == RESOLVE_W then Fetched(IResolve(Wide(a, b)), ip + 3)
          else if op == STOREGLOBAL_W then Fetched(IStoreGlobal(Wide(a, b)), ip + 3)
          else NoInstr
  }

  /** `code` holds `part` at address `ip`. */
  predicate At(code: seq<byte>, ip: nat, part: seq<byte>) {
    ip + |part| <= |code| && code[ip..ip + |part|] == part
  }

  lemma AtSplit(code: seq<byte>, ip: nat, a: seq<byte>, b: seq<byte>)
    requires At(code, ip, a + b)
    ensures At(code, ip, a) && At(code, ip + |a|, b)
  {
    var ab := a + b;
    assert ab[..|a|] == a && ab[|a|..] == b;
    assert code[ip..ip + |a|] == ab[..|a|];
    assert code[ip + |a|..ip + |ab|] == ab[|a|..];
  }

  lemma AtSplit3(code: seq<byte>, ip: nat, a: seq<byte>, b: seq<byte>, c: seq<byte>)
    requires At(code, ip, a + b + c)
    ensures At(code, ip, a) && At(code, ip + |a|, b) && At(code, ip + |a| + |b|, c)
  {
    AtSplit(code, ip, a + b, c);
    AtSplit(code, ip, a, b);
  }

  lemma AtSplit4(code: seq<byte>, ip: nat, a: seq<byte>, b: seq<byte>, c: seq<byte>, d: seq<byte>)
    requires At(code, ip, a + b + c + d)
    ensures At(code, ip, a) && At(code, ip + |a|, b)
    ensures At(code, ip + |a| + |b|, c) && At(code, ip + |a| + |b| + |c|, d)
  {
    AtSplit(code, ip, a + b + c, d);
    AtSplit3(code, ip, a, b, c);
  }

  /** An instruction with a constant index uses its wide form from 256 up. */
  function Indexed(narrow: byte, wide: byte, idx: nat): seq<byte> {
    if idx < 256 then [narrow, idx] else [wide, idx / 256 % 256, idx % 256]
  }

  /** A forward jump whose target lies `off` bytes past its operand. */
  function Jump(op: byte, off: nat): seq<byte>
    requires off <= 32767
  {
    [op, off / 256, off % 256]
  }

  /** Reading an emitted instruction gives it back: the encodings of the
      compiler and the decoding of the executor agree. */
  lemma FetchByte(code: seq<byte>, ip: nat, op: byte)
    requires At(code, ip, [op])
    ensures op == RET ==> Fetch(code, ip) == Fetched(IRet, ip + 1)
    ensures op == POP ==> Fetch(code, ip) == Fetched(IPop, ip + 1)
    ensures op == CALL1 ==> Fetch(code, ip) == Fetched(ICall1, ip + 1)
    ensures op == CALL2 ==> Fetch(code, ip) == Fetched(ICall2, ip + 1)
    ensures op == DUP ==> Fetch(code, ip) == Fetched(IDup, ip + 1)
    ensures op == TRAP_END ==> Fetch(code, ip) == Fetched(ITrapEnd, ip + 1)
    ensures op == TRYH ==> Fetch(code, ip) == Fetched(ITryH, ip + 1)
    ensures op == FORCE ==> Fetch(code, ip) == Fetched(IForce, ip + 1)
  {
    assert code[ip..ip + 1][0] == op;
  }

  lemma FetchOperand(code: seq<byte>, ip: nat, op: byte, a: byte)
    requires At(code, ip, [op, a])
    ensures op == LOADENV ==> Fetch(code, ip) == Fetched(ILoadEnv(a), ip + 2)
    ensures op == STOREENV ==> Fetch(code, ip) == Fetched(IStoreEnv(a), ip + 2)
    ensures op == CALLN ==> Fetch(code, ip) == Fetched(ICallN(a), ip + 2)
    ensures op == CALLF ==> Fetch(code, ip) == Fetched(ICallF(a), ip + 2)
    ensures op == CALLS ==> Fetch(code, ip) == Fetched(ICallS(a), ip + 2)
    ensures op == LOADCONST ==> Fetch(code, ip) == Fetched(ILoadConst(a), ip + 2)
    ensures op == RESOLVE ==> Fetch(code, ip) == Fetched(IResolve(a), ip + 2)
    ensures op == STOREGLOBAL ==> Fetch(code, ip) == Fetched(IStoreGlobal(a), ip + 2)
  {
    var s := code[ip..ip + 2];
    assert s[0] == op && s[1] == a;
  }

  lemma FetchWide(code: seq<byte>, ip: nat, op: byte, a: byte, b: byte)
    requires At(code, ip, [op, a, b])
    ensures op == LOADCONST_W ==> Fetch(code, ip) == Fetched(ILoadConst(Wide(a, b)), ip + 3)
    ensures op == RESOLVE_W ==> Fetch(code, ip) == Fetched(IResolve(Wide(a, b)), ip + 3)
    ensures op == STOREGLOBAL_W ==> Fetch(code, ip) == Fetched(IStoreGlobal(Wide(a, b)), ip + 3)
    ensures op == JMP ==> Fetch(code, ip) == Fetched(IJmp(Signed16(a, b)), ip + 3)
    ensures op == JMPF ==> Fetch(code, ip) == Fetched(IJmpF(Signed16(a, b)), ip + 3)
    ensures op == TRAP ==> Fetch(code, ip) == Fetched(ITrap(Signed16(a, b)), ip + 3)
  {
    var s := code[ip..ip + 3];
    assert s[0] == op && s[1] == a && s[2] == b;
  }

  lemma FetchIndexed(code: seq<byte>, ip: nat, narrow: byte, wide: byte, idx: nat)
    requires idx < 65536
    requires At(code, ip, Indexed(narrow, wide, idx))
    requires (narrow, wide) in {(LOADCONST, LOADCONST_W), (RESOLVE, RESOLVE_W), (STOREGLOBAL, STOREGLOBAL_W)}
    ensures var next := ip + |Indexed(narrow, wide, idx)|;
            Fetch(code, ip) == Fetched(if narrow == LOADCONST then ILoadConst(idx)
                                       else if narrow == RESOLVE then IResolve(idx)
                                       else IStoreGlobal(idx), next)
  {
    if idx < 256 {
      FetchOperand(code, ip, narrow, idx);
    } else {
      assert idx / 256 % 256 == idx / 256;
      FetchWide(code, ip, wide, idx / 256 % 256, idx % 256);
    }
  }

  lemma FetchJump(code: seq<byte>, ip: nat, op: byte, off: nat)
    requires off <= 32767
    requires At(code, ip, Jump(op, off))
    requires op in {JMP, JMPF, TRAP}
    ensures Fetch(code, ip) ==
            Fetched(if op == JMP then IJmp(off) else if op == JMPF then IJmpF(off) else ITrap(off), ip + 3)
  {
    FetchWide(code, ip, op, off / 256, off % 256);
  }
}
