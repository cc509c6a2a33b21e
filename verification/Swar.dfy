/** Eight digits at a time: tests and folds on whole 64-bit words, and what they
    mean digit by digit. */
module Swar {
  import opened Arithmetic
  import opened Bytes

  const WORD: int := 0x1_0000_0000_0000_0000

  // Bitwise operations on natural numbers.

  function And(a: nat, b: nat): nat {
    if a == 0 || b == 0 then 0 else 2 * And(a / 2, b / 2) + (a % 2) * (b % 2)
  }

  function Or(a: nat, b: nat): nat
    decreases a + b
  {
    if a == 0 && b == 0 then 0
    else 2 * Or(a / 2, b / 2) + if a % 2 == 1 || b % 2 == 1 then 1 else 0
  }

  function Pow2(k: nat): (p: nat)
    ensures p > 0
  {
    if k == 0 then 1 else 2 * Pow2(k - 1)
  }

  lemma AndStep(a: nat, b: nat)
    ensures And(a, b) == 2 * And(a / 2, b / 2) + (a % 2) * (b % 2)
  {
  }

  lemma OrStep(a: nat, b: nat)
    ensures Or(a, b) == 2 * Or(a / 2, b / 2) + if a % 2 == 1 || b % 2 == 1 then 1 else 0
  {
  }

  /** And works on the low `k` bits and on the rest separately. */
  lemma {:induction false} AndSplit(k: nat, a: nat, x: nat, b: nat, y: nat)
    requires a < Pow2(k) && b < Pow2(k)
    ensures And(a + Pow2(k) * x, b + Pow2(k) * y) == And(a, b) + Pow2(k) * And(x, y)
  {
    if k == 0 {
      assert And(0, 0) == 0;
    } else {
      hide And;
      var p := Pow2(k - 1);
      var c, d := a + Pow2(k) * x, b + Pow2(k) * y;
      Halve(a, p, x);
      Halve(b, p, y);
      AndStep(c, d);
      AndStep(a, b);
      AndSplit(k - 1, a / 2, x, b / 2, y);
      Twice(p, And(x, y));
    }
  }

  lemma {:induction false} OrSplit(k: nat, a: nat, x: nat, b: nat, y: nat)
    requires a < Pow2(k) && b < Pow2(k)
    ensures Or(a + Pow2(k) * x, b + Pow2(k) * y) == Or(a, b) + Pow2(k) * Or(x, y)
  {
    if k == 0 {
      assert Or(0, 0) == 0;
    } else {
      hide Or;
      var p := Pow2(k - 1);
      var c, d := a + Pow2(k) * x, b + Pow2(k) * y;
      Halve(a, p, x);
      Halve(b, p, y);
      OrStep(c, d);
      OrStep(a, b);
      OrSplit(k - 1, a / 2, x, b / 2, y);
      Twice(p, Or(x, y));
    }
  }

  lemma Twice(p: nat, z: nat)
    ensures 2 * p * z == 2 * (p * z)
  {
  }

  lemma Halve(a: nat, p: nat, x: nat)
    ensures (a + 2 * p * x) / 2 == a / 2 + p * x && (a + 2 * p * x) % 2 == a % 2
  {
    assert 2 * p * x == 2 * (p * x);
  }

  lemma {:induction false} OrBelow(k: nat, a: nat, b: nat)
    requires a < Pow2(k) && b < Pow2(k)
    ensures Or(a, b) < Pow2(k)
  {
    if k > 0 {
      OrStep(a, b);
      OrBelow(k - 1, a / 2, b / 2);
    }
  }

  /** A mask of ones keeps the low bits. */
  lemma {:induction false} AndLow(a: nat, k: nat)
    ensures And(a, Pow2(k) - 1) == a % Pow2(k)
  {
    if k > 0 {
      var p := Pow2(k - 1);
      AndStep(a, 2 * p - 1);
      assert (2 * p - 1) / 2 == p - 1 && (2 * p - 1) % 2 == 1;
      AndLow(a / 2, k - 1);
      ModHalf(a, p);
    }
  }

  lemma ModHalf(a: nat, p: nat)
    requires p > 0
    ensures a % (2 * p) == 2 * ((a / 2) % p) + a % 2
  {
    var q, r := (a / 2) / p, (a / 2) % p;
    assert a / 2 == q * p + r;
    assert a == q * (2 * p) + (2 * r + a % 2);
    DivUnique(a, 2 * p, q, 2 * r + a % 2);
  }

  // Words as lanes of bytes.

  predicate IsDigit(b: byte) {
    48 <= b <= 57
  }

  /** The little-endian load. */
  function Load(bs: seq<byte>): nat {
    if bs == [] then 0 else bs[0] + 256 * Load(bs[1..])
  }

  function Ones(n: nat): nat {
    if n == 0 then 0 else 1 + 256 * Ones(n - 1)
  }

  function Pow256(n: nat): (p: nat)
    ensures p > 0
  {
    if n == 0 then 1 else 256 * Pow256(n - 1)
  }

  /** The detector on `n` lanes. */
  function Suspicious(x: nat, n: nat): nat {
    And(Or((x - 0x30 * Ones(n)) % Pow256(n), (x + 0x46 * Ones(n)) % Pow256(n)), 0x80 * Ones(n))
  }

  lemma ModLane(y: int, z: int, n: nat)
    requires n > 0
    ensures (y + 256 * z) % Pow256(n) == y % 256 + 256 * ((z + y / 256) % Pow256(n - 1))
  {
    var p := Pow256(n - 1);
    var w := z + y / 256;
    assert y + 256 * z == y % 256 + 256 * w;
    assert w == w / p * p + w % p;
    assert y + 256 * z == w / p * (256 * p) + (y % 256 + 256 * (w % p));
    DivUnique(y + 256 * z, 256 * p, w / p, y % 256 + 256 * (w % p));
  }

  lemma TopBit(x: nat)
    requires x < 256
    ensures And(x, 0x80) == if x < 128 then 0 else 128
  {
    assert Pow2(7) == 128;
    AndSplit(7, x % 128, x / 128, 0, 1);
  }

  lemma OrTopBit(a: nat, b: nat)
    requires a < 256 && b < 256
    ensures Or(a, b) < 256 && (Or(a, b) < 128 <==> a < 128 && b < 128)
  {
    assert Pow2(7) == 128 && Pow2(8) == 256;
    OrBelow(8, a, b);
    OrBelow(7, a % 128, b % 128);
    OrSplit(7, a % 128, a / 128, b % 128, b / 128);
  }

  /** One lane decides by its top bits whether it is a digit, whatever the lanes above it do. */
  lemma LaneTest(b: byte, u: nat, o: nat, n: nat)
    requires n > 0
    ensures
      And(Or((b - 0x30) % 256 + 256 * u, (b + 0x46) % 256 + 256 * o), 0x80 * Ones(n))
      == (if IsDigit(b) then 0 else 128) + 256 * And(Or(u, o), 0x80 * Ones(n - 1))
  {
    hide And, Or, IsDigit;
    var lu, lo := (b - 0x30) % 256, (b + 0x46) % 256;
    assert Pow2(8) == 256;
    OrSplit(8, lu, u, lo, o);
    OrTopBit(lu, lo);
    AndSplit(8, Or(lu, lo), Or(u, o), 0x80, 0x80 * Ones(n - 1));
    TopBit(Or(lu, lo));
    DigitRange(b);
  }

  lemma DigitRange(b: byte)
    ensures IsDigit(b) <==> (b - 0x30) % 256 < 128 && (b + 0x46) % 256 < 128
  {
  }

  lemma SuspiciousStep(b: byte, x: nat, n: nat)
    requires n > 0
    ensures Suspicious(b + 256 * x, n) == 0 <==> IsDigit(b) && Suspicious(x, n - 1) == 0
  {
    hide And, Or, IsDigit, Ones, Pow256;
    var low: int, c, d, m := b, x - 0x30 * Ones(n - 1), x + 0x46 * Ones(n - 1), Pow256(n - 1);
    ModLane(low - 0x30, c, n);
    ModLane(low + 0x46, d, n);
    OnesStep(n);
    var u, o := (c + (low - 0x30) / 256) % m, (d + (low + 0x46) / 256) % m;
    var under := (b + 256 * x - 0x30 * Ones(n)) % Pow256(n);
    var over := (b + 256 * x + 0x46 * Ones(n)) % Pow256(n);
    assert under == (low - 0x30) % 256 + 256 * u;
    assert over == (low + 0x46) % 256 + 256 * o;
    LaneTest(b, u, o, n);
    NoCarry(b);
  }

  lemma OnesStep(n: nat)
    requires n > 0
    ensures Ones(n) == 1 + 256 * Ones(n - 1)
  {
  }

  lemma NoCarry(b: byte)
    ensures IsDigit(b) ==> (var low: int := b; (low - 0x30) / 256 == 0 && (low + 0x46) / 256 == 0)
  {
  }

  /** No byte is suspicious just when all are digits, in spite of borrows and carries between lanes. */
  lemma {:induction false} AllDigits(bs: seq<byte>)
    ensures Suspicious(Load(bs), |bs|) == 0 <==> forall i :: 0 <= i < |bs| ==> IsDigit(bs[i])
  {
    if bs == [] {
      assert And(0, 0) == 0;
    } else {
      hide Suspicious;
      SuspiciousStep(bs[0], Load(bs[1..]), |bs|);
      AllDigits(bs[1..]);
      assert forall i :: 0 < i < |bs| ==> bs[i] == bs[1..][i - 1];
      assert forall i :: 0 <= i < |bs| - 1 ==> bs[1..][i] == bs[i + 1];
    }
  }

  lemma EightLanes()
    ensures 0x30 * Ones(8) == 0x3030303030303030 && 0x46 * Ones(8) == 0x4646464646464646
    ensures 0x80 * Ones(8) == 0x8080808080808080 && Pow256(8) == WORD
  {
    assert Ones(4) == 0x01010101 && Pow256(4) == 0x1_0000_0000;
    assert Ones(6) == 0x010101010101 && Pow256(6) == 0x1_0000_0000_0000;
  }

  /** Whether all eight bytes are digits, without looking at any one of them. */
  function Is8Digits(bs: seq<byte>): (r: bool)
    requires |bs| == 8
    ensures r <==> forall i :: 0 <= i < 8 ==> IsDigit(bs[i])
  {
    var chunk := Load(bs);
    var under := (chunk - 0x3030303030303030) % WORD;
    var over := (chunk + 0x4646464646464646) % WORD;
    EightLanes();
    AllDigits(bs);
    And(Or(under, over), 0x8080808080808080) == 0
  }

  function Lanes2(a: nat, b: nat): nat {
    a + 0x1_0000_0000 * b
  }

  function Lanes4(a: nat, b: nat, c: nat, d: nat): nat {
    a + 0x1_0000 * (b + 0x1_0000 * (c + 0x1_0000 * d))
  }

  lemma Powers()
    ensures Pow2(4) == 0x10 && Pow2(8) == 0x100 && Pow2(16) == 0x1_0000 && Pow2(32) == 0x1_0000_0000
  {
    assert Pow2(8) == 0x100 && Pow2(12) == 0x1000 && Pow2(16) == 0x1_0000;
    assert Pow2(20) == 0x10_0000 && Pow2(24) == 0x100_0000 && Pow2(28) == 0x1000_0000;
  }

  lemma Mask4(a: nat, b: nat, c: nat, d: nat)
    requires a < 0x1_0000 && b < 0x1_0000 && c < 0x1_0000 && d < 0x1_0000
    ensures And(Lanes4(a, b, c, d), 0x000F000F000F000F) == Lanes4(a % 16, b % 16, c % 16, d % 16)
  {
    hide And, Pow2;
    Powers();
    AndSplit(16, c, d, 0xF, 0xF);
    AndSplit(16, b, c + 0x1_0000 * d, 0xF, 0x000F000F);
    AndSplit(16, a, b + 0x1_0000 * (c + 0x1_0000 * d), 0xF, 0x000F000F000F);
    AndLow(a, 4);
    AndLow(b, 4);
    AndLow(c, 4);
    AndLow(d, 4);
  }

  lemma Mask2(a: nat, b: nat)
    requires a < 0x1_0000_0000 && b < 0x1_0000_0000
    ensures And(Lanes2(a, b), 0x000000FF000000FF) == Lanes2(a % 256, b % 256)
  {
    hide And, Pow2;
    Powers();
    AndSplit(32, a, b, 0xFF, 0xFF);
    AndLow(a, 8);
    AndLow(b, 8);
  }

  // The three folds: digits to pairs, pairs to quads, quads to the number.

  function Pairs(chunk: nat): nat {
    (And(chunk, 0x000F000F000F000F) * 10 + And(chunk / 256, 0x000F000F000F000F)) % WORD
  }

  function Quads(pairs: nat): nat {
    (And(pairs, 0x000000FF000000FF) * 100 + And(pairs / 0x1_0000, 0x000000FF000000FF)) % WORD
  }

  function Parse8Digits(bs: seq<byte>): nat
    requires |bs| == 8
  {
    var quads := Quads(Pairs((Load(bs) - 0x3030303030303030) % WORD));
    (And(quads, 0xFFFFFFFF) * 10000 + quads / 0x1_0000_0000) % WORD
  }

  lemma LowNibble(d: nat, e: nat)
    requires d < 10
    ensures (d + 256 * e) % 16 == d
  {
  }

  lemma LowByte(p: nat, q: nat)
    requires p < 100
    ensures (p + 0x1_0000 * q) % 256 == p
  {
  }

  lemma ShiftByte(d0: nat, d1: nat, d2: nat, d3: nat, d4: nat, d5: nat, d6: nat, d7: nat)
    requires d0 < 10
    ensures Lanes4(d0 + 256 * d1, d2 + 256 * d3, d4 + 256 * d5, d6 + 256 * d7) / 256
         == Lanes4(d1 + 256 * d2, d3 + 256 * d4, d5 + 256 * d6, d7)
  {
    DivUnique(Lanes4(d0 + 256 * d1, d2 + 256 * d3, d4 + 256 * d5, d6 + 256 * d7), 256,
      Lanes4(d1 + 256 * d2, d3 + 256 * d4, d5 + 256 * d6, d7), d0);
  }

  lemma PairsAre(d0: nat, d1: nat, d2: nat, d3: nat, d4: nat, d5: nat, d6: nat, d7: nat)
    requires d0 < 10 && d1 < 10 && d2 < 10 && d3 < 10 && d4 < 10 && d5 < 10 && d6 < 10 && d7 < 10
    ensures Pairs(Lanes4(d0 + 256 * d1, d2 + 256 * d3, d4 + 256 * d5, d6 + 256 * d7))
         == Lanes4(d0 * 10 + d1, d2 * 10 + d3, d4 * 10 + d5, d6 * 10 + d7)
  {
    hide And, Lanes4;
    ShiftByte(d0, d1, d2, d3, d4, d5, d6, d7);
    Mask4(d0 + 256 * d1, d2 + 256 * d3, d4 + 256 * d5, d6 + 256 * d7);
    Mask4(d1 + 256 * d2, d3 + 256 * d4, d5 + 256 * d6, d7);
    LowNibble(d0, d1);
    LowNibble(d2, d3);
    LowNibble(d4, d5);
    LowNibble(d6, d7);
    LowNibble(d1, d2);
    LowNibble(d3, d4);
    LowNibble(d5, d6);
    LowNibble(d7, 0);
    Combine4(d0, d2, d4, d6, d1, d3, d5, d7);
  }

  lemma Combine4(a: nat, b: nat, c: nat, d: nat, e: nat, f: nat, g: nat, h: nat)
    requires a < 10 && b < 10 && c < 10 && d < 10 && e < 10 && f < 10 && g < 10 && h < 10
    ensures (Lanes4(a, b, c, d) * 10 + Lanes4(e, f, g, h)) % WORD == Lanes4(a * 10 + e, b * 10 + f, c * 10 + g, d * 10 + h)
  {
  }

  lemma ShiftWord(p0: nat, p1: nat, p2: nat, p3: nat)
    requires p0 < 100
    ensures Lanes4(p0, p1, p2, p3) == Lanes2(p0 + 0x1_0000 * p1, p2 + 0x1_0000 * p3)
    ensures Lanes4(p0, p1, p2, p3) / 0x1_0000 == Lanes2(p1 + 0x1_0000 * p2, p3)
  {
    DivUnique(Lanes4(p0, p1, p2, p3), 0x1_0000, Lanes2(p1 + 0x1_0000 * p2, p3), p0);
  }

  lemma QuadsAre(p0: nat, p1: nat, p2: nat, p3: nat)
    requires p0 < 100 && p1 < 100 && p2 < 100 && p3 < 100
    ensures Quads(Lanes4(p0, p1, p2, p3)) == Lanes2(p0 * 100 + p1, p2 * 100 + p3)
  {
    hide And, Lanes4, Lanes2;
    ShiftWord(p0, p1, p2, p3);
    Mask2(p0 + 0x1_0000 * p1, p2 + 0x1_0000 * p3);
    Mask2(p1 + 0x1_0000 * p2, p3);
    LowByte(p0, p1);
    LowByte(p2, p3);
    LowByte(p1, p2);
    LowByte(p3, 0);
    Combine2(p0, p2, p1, p3);
  }

  lemma Combine2(a: nat, b: nat, e: nat, f: nat)
    requires a < 100 && b < 100 && e < 100 && f < 100
    ensures (Lanes2(a, b) * 100 + Lanes2(e, f)) % WORD == Lanes2(a * 100 + e, b * 100 + f)
  {
  }

  lemma FoldQuads(a: nat, b: nat)
    requires a < 10000 && b < 10000
    ensures (And(Lanes2(a, b), 0xFFFFFFFF) * 10000 + Lanes2(a, b) / 0x1_0000_0000) % WORD == a * 10000 + b
  {
    hide And, Pow2;
    Powers();
    AndLow(Lanes2(a, b), 32);
    DivUnique(Lanes2(a, b), 0x1_0000_0000, b, a);
  }

  function At(s: seq<byte>, i: nat): int
    requires i < |s|
  {
    s[i]
  }

  lemma LoadEight(bs: seq<byte>)
    requires |bs| == 8
    ensures Load(bs) == Lanes4(At(bs, 0) + 256 * At(bs, 1), At(bs, 2) + 256 * At(bs, 3),
                               At(bs, 4) + 256 * At(bs, 5), At(bs, 6) + 256 * At(bs, 7))
  {
    assert Load(bs[8..]) == 0;
    LoadTail(bs, 7);
    LoadTail(bs, 6);
    LoadTail(bs, 5);
    LoadTail(bs, 4);
    LoadTail(bs, 3);
    LoadTail(bs, 2);
    LoadTail(bs, 1);
    LoadTail(bs, 0);
    assert bs[0..] == bs;
    hide Load;
  }

  lemma LoadTail(bs: seq<byte>, i: nat)
    requires i < |bs|
    ensures Load(bs[i..]) == At(bs, i) + 256 * Load(bs[i + 1..])
  {
    assert bs[i..][1..] == bs[i + 1..];
  }

  /** The number written by the digits in `s[a..b]`. */
  function ValueOf(s: seq<byte>, a: nat, b: nat): int
    requires b <= |s|
  {
    if a >= b then 0 else ValueOf(s, a, b - 1) * 10 + At(s, b - 1) - 48
  }

  lemma ValueEight(bs: seq<byte>, d0: nat, d1: nat, d2: nat, d3: nat, d4: nat, d5: nat, d6: nat, d7: nat)
    requires |bs| == 8 && At(bs, 0) == d0 + 48 && At(bs, 1) == d1 + 48 && At(bs, 2) == d2 + 48 && At(bs, 3) == d3 + 48
    requires At(bs, 4) == d4 + 48 && At(bs, 5) == d5 + 48 && At(bs, 6) == d6 + 48 && At(bs, 7) == d7 + 48
    ensures ValueOf(bs, 0, 8) ==
      ((d0 * 10 + d1) * 100 + (d2 * 10 + d3)) * 10000 + ((d4 * 10 + d5) * 100 + (d6 * 10 + d7))
  {
    hide At, ValueOf;
    ValueTwo(bs, 0, d0, d1);
    ValueTwo(bs, 2, d2, d3);
    ValueTwo(bs, 4, d4, d5);
    ValueTwo(bs, 6, d6, d7);
    assert ValueOf(bs, 0, 0) == 0 by {
      ValueNone(bs, 0);
    }
  }

  lemma ValueNone(s: seq<byte>, a: nat)
    requires a <= |s|
    ensures ValueOf(s, a, a) == 0
  {
  }

  lemma ValueTwo(s: seq<byte>, b: nat, d: nat, e: nat)
    requires b + 2 <= |s| && At(s, b) == d + 48 && At(s, b + 1) == e + 48
    ensures ValueOf(s, 0, b + 2) == ValueOf(s, 0, b) * 100 + (d * 10 + e)
  {
    hide At;
    assert ValueOf(s, 0, b + 1) == ValueOf(s, 0, b) * 10 + d;
  }

  lemma LoadDigits(bs: seq<byte>, d0: nat, d1: nat, d2: nat, d3: nat, d4: nat, d5: nat, d6: nat, d7: nat)
    requires |bs| == 8 && At(bs, 0) == d0 + 48 && At(bs, 1) == d1 + 48 && At(bs, 2) == d2 + 48 && At(bs, 3) == d3 + 48
    requires At(bs, 4) == d4 + 48 && At(bs, 5) == d5 + 48 && At(bs, 6) == d6 + 48 && At(bs, 7) == d7 + 48
    requires d0 < 10 && d1 < 10 && d2 < 10 && d3 < 10 && d4 < 10 && d5 < 10 && d6 < 10 && d7 < 10
    ensures (Load(bs) - 0x3030303030303030) % WORD
         == Lanes4(d0 + 256 * d1, d2 + 256 * d3, d4 + 256 * d5, d6 + 256 * d7)
  {
    hide Load, At;
    LoadEight(bs);
  }

  lemma DigitAt(bs: seq<byte>, i: nat) returns (d: nat)
    requires i < |bs| && IsDigit(bs[i])
    ensures d < 10 && At(bs, i) == d + 48
  {
    d := At(bs, i) - 48;
  }

  lemma FoldEight(bs: seq<byte>, d0: nat, d1: nat, d2: nat, d3: nat, d4: nat, d5: nat, d6: nat, d7: nat)
    requires |bs| == 8 && At(bs, 0) == d0 + 48 && At(bs, 1) == d1 + 48 && At(bs, 2) == d2 + 48 && At(bs, 3) == d3 + 48
    requires At(bs, 4) == d4 + 48 && At(bs, 5) == d5 + 48 && At(bs, 6) == d6 + 48 && At(bs, 7) == d7 + 48
    requires d0 < 10 && d1 < 10 && d2 < 10 && d3 < 10 && d4 < 10 && d5 < 10 && d6 < 10 && d7 < 10
    ensures Parse8Digits(bs) == ((d0 * 10 + d1) * 100 + (d2 * 10 + d3)) * 10000 + ((d4 * 10 + d5) * 100 + (d6 * 10 + d7))
  {
    hide And, Pairs, Quads, Load, Lanes2, Lanes4, At;
    LoadDigits(bs, d0, d1, d2, d3, d4, d5, d6, d7);
    PairsAre(d0, d1, d2, d3, d4, d5, d6, d7);
    QuadsAre(d0 * 10 + d1, d2 * 10 + d3, d4 * 10 + d5, d6 * 10 + d7);
    FoldQuads((d0 * 10 + d1) * 100 + (d2 * 10 + d3), (d4 * 10 + d5) * 100 + (d6 * 10 + d7));
  }

  /** What the fold of eight digits is: their number. */
  lemma EightDigits(bs: seq<byte>)
    requires |bs| == 8 && forall i :: 0 <= i < 8 ==> IsDigit(bs[i])
    ensures Parse8Digits(bs) == ValueOf(bs, 0, 8)
  {
    hide And, At, ValueOf, Parse8Digits;
    var d0 := DigitAt(bs, 0);
    var d1 := DigitAt(bs, 1);
    var d2 := DigitAt(bs, 2);
    var d3 := DigitAt(bs, 3);
    var d4 := DigitAt(bs, 4);
    var d5 := DigitAt(bs, 5);
    var d6 := DigitAt(bs, 6);
    var d7 := DigitAt(bs, 7);
    FoldEight(bs, d0, d1, d2, d3, d4, d5, d6, d7);
    ValueEight(bs, d0, d1, d2, d3, d4, d5, d6, d7);
  }
}
