/** Reading integers and the decimal part of floats. */
module NumParse {
  import opened Options
  import opened Arithmetic
  import opened Bytes
  import opened Swar

  const INT64_MAX: int := 0x7fff_ffff_ffff_ffff
  const MAX_SIGNIFICANT: nat := 18

  predicate DigitAtPos(s: seq<byte>, i: nat) {
    i < |s| && IsDigit(s[i])
  }

  /** Where the run of digits that starts at `i` ends. */
  function EndOfDigits(s: seq<byte>, i: nat): (e: nat)
    requires i <= |s|
    ensures i <= e <= |s| && !DigitAtPos(s, e)
    ensures forall j :: i <= j < e ==> DigitAtPos(s, j)
    decreases |s| - i
  {
    if DigitAtPos(s, i) then EndOfDigits(s, i + 1) else i
  }

  function Pow10(k: nat): (p: nat)
    ensures p > 0
  {
    if k == 0 then 1 else 10 * Pow10(k - 1)
  }

  ghost predicate Digits(s: seq<byte>, a: nat, b: nat) {
    b <= |s| && forall j :: a <= j < b ==> DigitAtPos(s, j)
  }

  lemma {:induction false} EndFrom(s: seq<byte>, i: nat, j: nat)
    requires i <= j && Digits(s, i, j)
    ensures j <= |s| && (i < j ==> j <= EndOfDigits(s, i)) && (i <= |s| ==> EndOfDigits(s, i) == EndOfDigits(s, j))
    decreases j - i
  {
    if i < j {
      assert DigitAtPos(s, i);
      EndFrom(s, i + 1, j);
    }
  }

  lemma {:induction false} ValueBounds(s: seq<byte>, a: nat, b: nat)
    requires a <= b && Digits(s, a, b)
    ensures 0 <= ValueOf(s, a, b) < Pow10(b - a)
    decreases b - a
  {
    if a < b {
      ValueBounds(s, a, b - 1);
      assert DigitAtPos(s, b - 1);
    }
  }

  lemma {:induction false} ValueConcat(s: seq<byte>, a: nat, b: nat, c: nat)
    requires a <= b <= c <= |s|
    ensures ValueOf(s, a, c) == ValueOf(s, a, b) * Pow10(c - b) + ValueOf(s, b, c)
    decreases c - b
  {
    if b < c {
      ValueConcat(s, a, b, c - 1);
      TimesTen(ValueOf(s, a, b), Pow10(c - 1 - b));
    } else {
      assert Pow10(0) == 1;
    }
  }

  lemma TimesTen(x: int, p: int)
    ensures x * (10 * p) == (x * p) * 10
  {
  }

  lemma {:induction false} ZerosCountNothing(s: seq<byte>, a: nat, b: nat)
    requires a <= b <= |s| && forall j :: a <= j < b ==> s[j] == 48
    ensures ValueOf(s, a, b) == 0
    decreases b - a
  {
    if a < b {
      ZerosCountNothing(s, a, b - 1);
    }
  }

  lemma {:induction false} ValueShift(s: seq<byte>, t: seq<byte>, i: nat, k: nat)
    requires i + k <= |s| && k <= |t| && forall j :: 0 <= j < k ==> t[j] == s[i + j]
    ensures ValueOf(s, i, i + k) == ValueOf(t, 0, k)
    decreases k
  {
    if k > 0 {
      ValueShift(s, t, i, k - 1);
    }
  }

  lemma {:induction false} Pow10Grows(j: nat, k: nat)
    requires j <= k
    ensures Pow10(j) <= Pow10(k)
    decreases k - j
  {
    if j < k {
      Pow10Grows(j, k - 1);
    }
  }

  lemma Powers10()
    ensures Pow10(8) == 100000000 && Pow10(16) == 10000000000000000
    ensures Pow10(18) == 1000000000000000000 && Pow10(19) == 10000000000000000000
  {
    assert Pow10(4) == 10000 && Pow10(12) == 1000000000000;
    assert Pow10(6) == 1000000 && Pow10(10) == 10000000000 && Pow10(14) == 100000000000000;
  }

  /** A number that does not start with zero is at least its leading power of ten. */
  lemma {:induction false} LeadingDigit(s: seq<byte>, a: nat, b: nat)
    requires a < b && Digits(s, a, b) && s[a] != 48
    ensures ValueOf(s, a, b) >= Pow10(b - a - 1)
    decreases b - a
  {
    assert DigitAtPos(s, b - 1);
    if a + 1 < b {
      LeadingDigit(s, a, b - 1);
    } else {
      assert ValueOf(s, a, a) == 0;
    }
  }

  /** The word at `i`, eight digits or not. */
  method EightAt(s: seq<byte>, i: nat) returns (ok: bool, v: nat)
    requires i + 8 <= |s|
    ensures ok <==> Digits(s, i, i + 8)
    ensures ok ==> v == ValueOf(s, i, i + 8) < 100000000
  {
    hide And, Or, Load, Parse8Digits, IsDigit;
    var bs := s[i..i + 8];
    ok := Is8Digits(bs);
    v := 0;
    SameDigits(s, i, bs);
    if ok {
      v := Parse8Digits(bs);
      EightDigits(bs);
      ValueShift(s, bs, i, 8);
      ValueBounds(s, i, i + 8);
      Powers10();
    }
  }

  lemma SameDigits(s: seq<byte>, i: nat, bs: seq<byte>)
    requires i + |bs| <= |s| && bs == s[i..i + |bs|]
    ensures (forall j :: 0 <= j < |bs| ==> IsDigit(bs[j])) <==> Digits(s, i, i + |bs|)
    ensures forall j :: 0 <= j < |bs| ==> bs[j] == s[i + j]
  {
    forall j | i <= j < i + |bs| ensures DigitAtPos(s, j) <==> IsDigit(bs[j - i]) {
    }
    forall j | 0 <= j < |bs| ensures IsDigit(bs[j]) <==> DigitAtPos(s, i + j) {
    }
  }

  function SignLength(s: seq<byte>): nat {
    if s != [] && (s[0] == 45 || s[0] == 43) then 1 else 0
  }

  /** The number the sign and the digits after it stand for. */
  function Written(s: seq<byte>): int {
    var v := ValueOf(s, SignLength(s), EndOfDigits(s, SignLength(s)));
    if s != [] && s[0] == 45 then -v else v
  }

  predicate IsI64(v: int) {
    -INT64_MAX - 1 <= v <= INT64_MAX
  }

  /** The first eight or sixteen digits, a word at a time. */
  method FirstWords(s: seq<byte>, start: nat) returns (i: nat, result: nat)
    requires start <= |s|
    ensures i in {start, start + 8, start + 16} && Digits(s, start, i)
    ensures result == ValueOf(s, start, i) < WORD
  {
    i, result := start, 0;
    if i + 8 <= |s| {
      var ok, v := EightAt(s, i);
      if ok {
        result, i := v, i + 8;
        if i + 8 <= |s| && result <= 922337203 {
          ok, v := EightAt(s, i);
          if ok {
            ValueConcat(s, start, i, i + 8);
            Powers10();
            result, i := (result * 100000000 + v) % WORD, i + 8;
          }
        }
      }
    }
  }

  /** Up to 19 digits fit a word. */
  lemma NineteenFit(s: seq<byte>, start: nat, i: nat)
    requires start <= i < start + 19 && Digits(s, start, i + 1)
    ensures 0 <= ValueOf(s, start, i) * 10 + (At(s, i) - 48) == ValueOf(s, start, i + 1) < Pow10(19) < WORD
  {
    ValueBounds(s, start, i + 1);
    Pow10Grows(i + 1 - start, 19);
    Powers10();
    hide Pow10;
  }

  /** The digits that are left, one by one; None once there are too many. */
  method Tail(s: seq<byte>, start: nat, from: nat, value: nat) returns (i: nat, result: Option<nat>)
    requires start <= from <= start + 16 && Digits(s, start, from) && value == ValueOf(s, start, from)
    ensures result.Some? ==> i == EndOfDigits(s, start) && result.value == ValueOf(s, start, i) < WORD
    ensures result.None? ==> EndOfDigits(s, start) >= start + 20
  {
    hide Pow10;
    i := from;
    var r: nat := value;
    EndFrom(s, start, from);
    ValueBounds(s, start, from);
    Powers10();
    Pow10Grows(from - start, 19);
    while i < |s| && IsDigit(s[i])
      invariant from <= i <= start + 19 && Digits(s, start, i)
      invariant r == ValueOf(s, start, i) < Pow10(19)
      decreases |s| - i
    {
      assert DigitAtPos(s, i);
      EndFrom(s, start, i + 1);
      if i - start >= 19 {
        return i, None;
      }
      NineteenFit(s, start, i);
      var prev := r;
      r := (r * 10 + (At(s, i) - 48)) % WORD;
      if r < prev {
        return i, None;
      }
      i := i + 1;
    }
    EndFrom(s, start, i);
    result := Some(r);
  }

  /** Skips zeros in front, which changes neither where the digits end nor their value. */
  method SkipZeros(s: seq<byte>, from: nat) returns (i: nat)
    requires from <= |s|
    ensures from <= i <= |s| && (i < |s| ==> s[i] != 48)
    ensures EndOfDigits(s, i) == EndOfDigits(s, from)
    ensures ValueOf(s, from, EndOfDigits(s, from)) == ValueOf(s, i, EndOfDigits(s, from))
  {
    i := from;
    while i < |s| && s[i] == 48
      invariant from <= i <= |s| && forall j :: from <= j < i ==> s[j] == 48
    {
      i := i + 1;
    }
    EndFrom(s, from, i);
    ValueConcat(s, from, i, EndOfDigits(s, i));
    ZerosCountNothing(s, from, i);
  }

  /** The signed number, if it is a 64-bit integer. */
  method Fit(neg: bool, v: nat) returns (r: Option<int>)
    requires v < WORD
    ensures var n: int := if neg then -(v as int) else v; r == if IsI64(n) then Some(n) else None
  {
    if neg {
      if v > INT64_MAX + 1 {
        return None;
      }
      var w: int := v;
      r := Some(ToSigned(-w % WORD));
    } else {
      if v > INT64_MAX {
        return None;
      }
      r := Some(v);
    }
  }

  /** A word read as a signed 64-bit integer. */
  function ToSigned(w: int): int
    requires 0 <= w < WORD
  {
    if w > INT64_MAX then w - WORD else w
  }

  lemma TooLong(s: seq<byte>, a: nat, e: nat)
    requires a + 20 <= e && Digits(s, a, e) && s[a] != 48
    ensures ValueOf(s, a, e) > INT64_MAX + 1
  {
    LeadingDigit(s, a, e);
    Pow10Grows(19, e - a - 1);
    Powers10();
  }

  /** The exact value of the sign and all the digits, or nothing if there is no
      digit or the value is no 64-bit integer. `consumed` is 0 in that case. */
  method ParseI64(s: seq<byte>) returns (consumed: nat, dst: Option<int>)
    ensures
      var e := EndOfDigits(s, SignLength(s));
      if e == SignLength(s) || !IsI64(Written(s)) then consumed == 0 && dst == None
      else consumed == e && dst == Some(Written(s))
  {
    hide ValueOf, IsDigit, Pow10;
    consumed, dst := 0, None;
    if s == [] {
      return;
    }
    var i: nat, neg := 0, false;
    if s[0] == 45 {
      neg, i := true, 1;
    } else if s[0] == 43 {
      i := 1;
    }
    if i == |s| {
      return;
    }
    var digitStart := i;
    var sigStart := SkipZeros(s, i);
    var result: nat;
    i, result := FirstWords(s, sigStart);
    var tail: Option<nat>;
    i, tail := Tail(s, sigStart, i, result);
    if tail == None {
      TooLong(s, sigStart, EndOfDigits(s, sigStart));
      return;
    }
    if i == digitStart {
      return;
    }
    dst := Fit(neg, tail.value);
    if dst.Some? {
      consumed := i;
    }
  }

  // The decimal part of a float.

  /** `m` with its last `k` digits dropped is what is kept of `w`: all of it, or 18 digits. */
  ghost predicate Kept(w: int, m: int, digits: nat, k: nat) {
    && digits <= MAX_SIGNIFICANT
    && m * Pow10(k) <= w < (m + 1) * Pow10(k)
    && 0 <= m < Pow10(digits)
    && (digits == 0 ==> w == 0)
    && (digits > 0 ==> m >= Pow10(digits - 1))
    && (k > 0 ==> digits == MAX_SIGNIFICANT)
  }

  lemma KeepDigit(w: int, m: int, digits: nat, d: nat)
    requires Kept(w, m, digits, 0) && digits < MAX_SIGNIFICANT && d < 10 && (digits == 0 ==> d > 0)
    ensures Kept(w * 10 + d, m * 10 + d, digits + 1, 0)
  {
    assert Pow10(0) == 1;
    if digits == 0 {
      assert Pow10(0) == 1 && Pow10(1) == 10;
    }
  }

  lemma DropDigit(w: int, m: int, digits: nat, k: nat, d: nat)
    requires Kept(w, m, digits, k) && digits == MAX_SIGNIFICANT && d < 10
    ensures Kept(w * 10 + d, m, digits, k + 1)
  {
    var p := Pow10(k);
    assert m * (10 * p) == 10 * (m * p) && (m + 1) * (10 * p) == 10 * ((m + 1) * p);
  }

  lemma KeepEight(w: int, m: int, digits: nat, v: nat)
    requires Kept(w, m, digits, 0) && digits + 8 <= MAX_SIGNIFICANT && v < 100000000
    requires digits == 0 ==> v >= 10000000
    ensures Kept(w * 100000000 + v, m * 100000000 + v, digits + 8, 0)
  {
    assert Pow10(0) == 1;
    PowEight(digits);
    if digits > 0 {
      PowEight(digits - 1);
    } else {
      PowEight(0);
      assert Pow10(7) == 10000000;
    }
    hide Pow10;
  }

  lemma PowEight(k: nat)
    ensures Pow10(k + 8) == Pow10(k) * 100000000
  {
    assert Pow10(k + 2) == Pow10(k) * 100;
    assert Pow10(k + 4) == Pow10(k + 2) * 100;
    assert Pow10(k + 6) == Pow10(k + 4) * 100;
    assert Pow10(k + 8) == Pow10(k + 6) * 100;
  }

  /** Integer digits up to `e1` and fraction digits from `f0` to `i`, read as one number. */
  function Joined(s: seq<byte>, i0: nat, e1: nat, f0: nat, i: nat): int
    requires e1 <= |s| && i <= |s| && f0 <= i
  {
    ValueOf(s, i0, e1) * Pow10(i - f0) + ValueOf(s, f0, i)
  }

  lemma JoinNext(s: seq<byte>, i0: nat, e1: nat, f0: nat, i: nat)
    requires e1 <= |s| && f0 <= i < |s|
    ensures Joined(s, i0, e1, f0, i + 1) == Joined(s, i0, e1, f0, i) * 10 + (At(s, i) - 48)
  {
    TimesTen(ValueOf(s, i0, e1), Pow10(i - f0));
  }

  lemma JoinEight(s: seq<byte>, i0: nat, e1: nat, f0: nat, i: nat)
    requires e1 <= |s| && f0 <= i && i + 8 <= |s|
    ensures Joined(s, i0, e1, f0, i + 8) == Joined(s, i0, e1, f0, i) * 100000000 + ValueOf(s, i, i + 8)
  {
    ValueConcat(s, f0, i, i + 8);
    Powers10();
    PowEight(i - f0);
    var x, p := ValueOf(s, i0, e1), Pow10(i - f0);
    assert x * (p * 100000000) == (x * p) * 100000000;
    hide Pow10, ValueOf;
  }

  /** What the scan has in hand: the mantissa, how many digits it holds, the
      power of ten to come, the position, and whether there was any digit. */
  datatype Scan = Scan(mantissa: nat, digits: nat, offset: int, i: nat, any: bool)

  /** In the integer part: the digits dropped so far are in the offset. */
  ghost predicate InInteger(s: seq<byte>, i0: nat, c: Scan) {
    && i0 <= c.i && Digits(s, i0, c.i) && c.offset >= 0
    && Kept(ValueOf(s, i0, c.i), c.mantissa, c.digits, c.offset)
    && (c.any <==> c.i > i0)
  }

  /** In the fraction: those dropped are the offset and the places after the point together. */
  ghost predicate InFraction(s: seq<byte>, i0: nat, e1: nat, c: Scan) {
    && i0 <= e1 < c.i && Digits(s, e1 + 1, c.i) && c.offset + (c.i - (e1 + 1)) >= 0
    && Kept(Joined(s, i0, e1, e1 + 1, c.i), c.mantissa, c.digits, c.offset + (c.i - (e1 + 1)))
    && (c.any <==> e1 > i0 || c.i > e1 + 1)
  }

  /** The next digit can begin a mantissa. */
  predicate Leads(s: seq<byte>, c: Scan) {
    c.digits == 0 && c.i < |s| ==> s[c.i] != 48
  }

  /** One digit more, kept if there is room. */
  function Take(c: Scan, d: nat, kept: int, dropped: int): Scan {
    if c.digits < MAX_SIGNIFICANT then
      Scan((c.mantissa * 10 + d) % WORD, c.digits + 1, c.offset + kept, c.i + 1, true)
    else
      Scan(c.mantissa, c.digits, c.offset + dropped, c.i + 1, true)
  }

  /** Eight more. */
  function TakeEight(c: Scan, v: nat, kept: int): Scan {
    Scan((c.mantissa * 100000000 + v) % WORD, c.digits + 8, c.offset + kept, c.i + 8, true)
  }

  /** As long as the number fits a word, nothing is lost. */
  lemma TakeIs(c: Scan, d: nat, kept: int, dropped: int)
    requires c.mantissa * 10 + d < WORD
    ensures Take(c, d, kept, dropped) ==
      if c.digits < MAX_SIGNIFICANT then Scan(c.mantissa * 10 + d, c.digits + 1, c.offset + kept, c.i + 1, true)
      else Scan(c.mantissa, c.digits, c.offset + dropped, c.i + 1, true)
  {
  }

  lemma TakeEightIs(c: Scan, v: nat, kept: int)
    requires c.mantissa * 100000000 + v < WORD
    ensures TakeEight(c, v, kept) == Scan(c.mantissa * 100000000 + v, c.digits + 8, c.offset + kept, c.i + 8, true)
  {
  }

  /** No kept mantissa comes near the width of a word. */
  lemma Fits(w: int, m: int, digits: nat, k: nat)
    requires Kept(w, m, digits, k)
    ensures m < 1000000000000000000 < WORD
  {
    Powers10();
    Pow10Grows(digits, 18);
  }

  lemma TakeInteger(s: seq<byte>, i0: nat, c: Scan)
    requires InInteger(s, i0, c) && DigitAtPos(s, c.i) && Leads(s, c)
    ensures InInteger(s, i0, Take(c, At(s, c.i) - 48, 0, 1))
  {
    hide Kept, Pow10, Take;
    var d, w := At(s, c.i) - 48, ValueOf(s, i0, c.i);
    assert ValueOf(s, i0, c.i + 1) == w * 10 + d;
    hide ValueOf;
    Fits(w, c.mantissa, c.digits, c.offset);
    TakeIs(c, d, 0, 1);
    if c.digits < MAX_SIGNIFICANT {
      KeptAll(w, c.mantissa, c.digits, c.offset);
      KeepDigit(w, c.mantissa, c.digits, d);
    } else {
      KeptMost(w, c.mantissa, c.digits, c.offset);
      DropDigit(w, c.mantissa, c.digits, c.offset, d);
    }
  }

  lemma KeptAll(w: int, m: int, digits: nat, k: nat)
    requires Kept(w, m, digits, k) && digits < MAX_SIGNIFICANT
    ensures k == 0
  {
  }

  lemma KeptMost(w: int, m: int, digits: nat, k: nat)
    requires Kept(w, m, digits, k)
    ensures digits <= MAX_SIGNIFICANT && (digits == 0 <==> m == 0)
  {
  }

  lemma DigitIsDigit(s: seq<byte>, i: nat)
    requires DigitAtPos(s, i)
    ensures 0 <= At(s, i) - 48 <= 9
  {
  }

  lemma TakeFraction(s: seq<byte>, i0: nat, e1: nat, c: Scan)
    requires InFraction(s, i0, e1, c) && DigitAtPos(s, c.i) && Leads(s, c)
    ensures InFraction(s, i0, e1, Take(c, At(s, c.i) - 48, -1, 0))
  {
    hide Kept, Pow10, Joined, Take, ValueOf, IsDigit;
    DigitIsDigit(s, c.i);
    var d, w, k := At(s, c.i) - 48, Joined(s, i0, e1, e1 + 1, c.i), c.offset + (c.i - (e1 + 1));
    JoinNext(s, i0, e1, e1 + 1, c.i);
    Fits(w, c.mantissa, c.digits, k);
    TakeIs(c, d, -1, 0);
    if c.digits < MAX_SIGNIFICANT {
      KeptAll(w, c.mantissa, c.digits, k);
      KeepDigit(w, c.mantissa, c.digits, d);
    } else {
      KeptMost(w, c.mantissa, c.digits, k);
      DropDigit(w, c.mantissa, c.digits, k, d);
    }
  }

  /** Eight digits that lead are a number of eight digits. */
  lemma LeadingEight(s: seq<byte>, c: Scan)
    requires Digits(s, c.i, c.i + 8) && Leads(s, c)
    ensures c.digits == 0 ==> ValueOf(s, c.i, c.i + 8) >= 10000000
    ensures 0 <= ValueOf(s, c.i, c.i + 8) < 100000000
  {
    ValueBounds(s, c.i, c.i + 8);
    Powers10();
    assert Pow10(7) == 10000000;
    if c.digits == 0 {
      assert DigitAtPos(s, c.i);
      LeadingDigit(s, c.i, c.i + 8);
    }
  }

  lemma TakeEightInteger(s: seq<byte>, i0: nat, c: Scan)
    requires InInteger(s, i0, c) && Digits(s, c.i, c.i + 8) && Leads(s, c) && c.digits + 8 <= MAX_SIGNIFICANT
    ensures ValueOf(s, c.i, c.i + 8) >= 0 && InInteger(s, i0, TakeEight(c, ValueOf(s, c.i, c.i + 8), 0))
  {
    hide Kept, Pow10, TakeEight;
    LeadingEight(s, c);
    ValueConcat(s, i0, c.i, c.i + 8);
    Powers10();
    var v, w := ValueOf(s, c.i, c.i + 8), ValueOf(s, i0, c.i);
    hide ValueOf;
    KeptAll(w, c.mantissa, c.digits, c.offset);
    KeepEight(w, c.mantissa, c.digits, v);
    Fits(w * 100000000 + v, c.mantissa * 100000000 + v, c.digits + 8, 0);
    TakeEightIs(c, v, 0);
  }

  lemma TakeEightFraction(s: seq<byte>, i0: nat, e1: nat, c: Scan)
    requires InFraction(s, i0, e1, c) && Digits(s, c.i, c.i + 8) && Leads(s, c) && c.digits + 8 <= MAX_SIGNIFICANT
    ensures ValueOf(s, c.i, c.i + 8) >= 0 && InFraction(s, i0, e1, TakeEight(c, ValueOf(s, c.i, c.i + 8), -8))
  {
    hide Kept, Pow10, Joined, ValueOf, TakeEight;
    LeadingEight(s, c);
    JoinEight(s, i0, e1, e1 + 1, c.i);
    var v, w, k := ValueOf(s, c.i, c.i + 8), Joined(s, i0, e1, e1 + 1, c.i), c.offset + (c.i - (e1 + 1));
    KeptAll(w, c.mantissa, c.digits, k);
    KeepEight(w, c.mantissa, c.digits, v);
    Fits(w * 100000000 + v, c.mantissa * 100000000 + v, c.digits + 8, 0);
    TakeEightIs(c, v, -8);
  }

  lemma NothingYet(s: seq<byte>, i0: nat, i: nat)
    requires i0 <= i <= |s| && forall j :: i0 <= j < i ==> s[j] == 48
    ensures InInteger(s, i0, Scan(0, 0, 0, i, i > i0))
  {
    ZerosCountNothing(s, i0, i);
    assert Pow10(0) == 1;
    forall j | i0 <= j < i ensures DigitAtPos(s, j) {
    }
  }

  method IntegerPart(s: seq<byte>, i0: nat) returns (c: Scan)
    requires i0 <= |s|
    ensures InInteger(s, i0, c) && c.i == EndOfDigits(s, i0)
  {
    c := Scan(0, 0, 0, i0, false);
    while c.i < |s| && s[c.i] == 48
      invariant i0 <= c.i <= |s| && c == Scan(0, 0, 0, c.i, c.i > i0)
      invariant forall j :: i0 <= j < c.i ==> s[j] == 48
      decreases |s| - c.i
    {
      c := c.(i := c.i + 1, any := true);
    }
    NothingYet(s, i0, c.i);
    hide Kept, ValueOf, Pow10;
    if c.i + 8 <= |s| {
      var ok, v := EightAt(s, c.i);
      if ok {
        TakeEightInteger(s, i0, c);
        c := TakeEight(c, v, 0);
        if c.i + 8 <= |s| {
          ok, v := EightAt(s, c.i);
          if ok {
            TakeEightInteger(s, i0, c);
            c := TakeEight(c, v, 0);
          }
        }
      }
    }
    while c.i < |s| && IsDigit(s[c.i])
      invariant c.i <= |s| && InInteger(s, i0, c) && Leads(s, c)
      decreases |s| - c.i
    {
      TakeInteger(s, i0, c);
      c := Take(c, At(s, c.i) - 48, 0, 1);
    }
    EndFrom(s, i0, c.i);
  }

  lemma PastPoint(s: seq<byte>, i0: nat, c: Scan)
    requires InInteger(s, i0, c) && c.i < |s|
    ensures InFraction(s, i0, c.i, c.(i := c.i + 1))
  {
    assert Pow10(0) == 1;
    ValueNone(s, c.i + 1);
    hide Kept, ValueOf;
  }

  /** A zero right after the point, nothing being kept yet, only moves the point. */
  lemma SkipFractionZero(s: seq<byte>, i0: nat, e1: nat, c: Scan)
    requires InFraction(s, i0, e1, c) && c.digits == 0 && c.i < |s| && s[c.i] == 48
    ensures InFraction(s, i0, e1, Scan(c.mantissa, c.digits, c.offset - 1, c.i + 1, true))
  {
    JoinNext(s, i0, e1, e1 + 1, c.i);
    hide Joined;
    assert DigitAtPos(s, c.i);
  }

  method FractionPart(s: seq<byte>, i0: nat, c0: Scan) returns (c: Scan)
    requires InInteger(s, i0, c0) && c0.i < |s|
    ensures InFraction(s, i0, c0.i, c) && c.i == EndOfDigits(s, c0.i + 1)
  {
    hide Kept, Pow10, Joined, ValueOf;
    ghost var e1 := c0.i;
    PastPoint(s, i0, c0);
    c := c0.(i := c0.i + 1);
    MantissaIsZero(s, i0, e1, c);
    if c.mantissa == 0 {
      while c.i < |s| && s[c.i] == 48
        invariant c.i <= |s| && InFraction(s, i0, e1, c) && c.digits == 0
        decreases |s| - c.i
      {
        SkipFractionZero(s, i0, e1, c);
        c := Scan(c.mantissa, c.digits, c.offset - 1, c.i + 1, true);
      }
    }
    if c.i + 8 <= |s| && c.digits + 8 <= MAX_SIGNIFICANT {
      var ok, v := EightAt(s, c.i);
      if ok {
        TakeEightFraction(s, i0, e1, c);
        c := TakeEight(c, v, -8);
      }
    }
    while c.i < |s| && IsDigit(s[c.i])
      invariant c.i <= |s| && InFraction(s, i0, e1, c) && Leads(s, c)
      decreases |s| - c.i
    {
      TakeFraction(s, i0, e1, c);
      c := Take(c, At(s, c.i) - 48, -1, 0);
    }
    EndFrom(s, e1 + 1, c.i);
  }

  lemma MantissaIsZero(s: seq<byte>, i0: nat, e1: nat, c: Scan)
    requires InFraction(s, i0, e1, c)
    ensures c.mantissa == 0 <==> c.digits == 0
  {
    hide Joined, Pow10;
    KeptMost(Joined(s, i0, e1, e1 + 1, c.i), c.mantissa, c.digits, c.offset + (c.i - (e1 + 1)));
  }

  predicate HasPoint(s: seq<byte>, i0: nat)
    requires i0 <= |s|
  {
    EndOfDigits(s, i0) < |s| && s[EndOfDigits(s, i0)] == 46
  }

  /** Where the decimal ends. */
  function EndOfDecimal(s: seq<byte>, i0: nat): nat
    requires i0 <= |s|
  {
    if HasPoint(s, i0) then EndOfDigits(s, EndOfDigits(s, i0) + 1) else EndOfDigits(s, i0)
  }

  /** How many digits follow the point. */
  function Places(s: seq<byte>, i0: nat): nat
    requires i0 <= |s|
  {
    if HasPoint(s, i0) then EndOfDecimal(s, i0) - (EndOfDigits(s, i0) + 1) else 0
  }

  /** All the digits of the decimal as one number: its value times ten to the places. */
  function AllDigitsOf(s: seq<byte>, i0: nat): int
    requires i0 <= |s|
  {
    var e1 := EndOfDigits(s, i0);
    if HasPoint(s, i0) then Joined(s, i0, e1, e1 + 1, EndOfDecimal(s, i0)) else ValueOf(s, i0, e1)
  }

  /** The scan of a decimal after its sign: what it keeps is all its digits or the first 18 that count. */
  method ScanDecimal(s: seq<byte>, i0: nat) returns (c: Scan)
    requires i0 <= |s|
    ensures c.i == EndOfDecimal(s, i0)
    ensures c.any <==> EndOfDigits(s, i0) > i0 || Places(s, i0) > 0
    ensures c.offset + Places(s, i0) >= 0
    ensures Kept(AllDigitsOf(s, i0), c.mantissa, c.digits, c.offset + Places(s, i0))
  {
    hide Kept, Joined, ValueOf;
    c := IntegerPart(s, i0);
    if c.i < |s| && s[c.i] == 46 {
      c := FractionPart(s, i0, c);
    }
  }

  /** What a kept mantissa is, in terms of the decimal `w / 10^places`: the
      mantissa times `10^(k - places)` is that decimal cut off after 18 digits,
      and the decimal itself if 18 digits are enough for it. */
  lemma KeptIsTruncated(w: nat, m: int, digits: nat, k: nat)
    requires Kept(w, m, digits, k)
    ensures m < Pow10(18) && m == w / Pow10(k)
    ensures w < Pow10(18) ==> k == 0 && m == w
    ensures w >= Pow10(18) ==> m >= Pow10(17)
  {
    assert Pow10(0) == 1;
    Pow10Grows(digits, 18);
    if k > 0 {
      assert Pow10(18) == Pow10(17) * 10;
      Pow10Grows(1, k);
      assert Pow10(1) == 10;
      MulGrows(m, Pow10(17), Pow10(k), 10);
    }
    var p := Pow10(k);
    hide Pow10;
    assert (m + 1) * p == m * p + p;
    DivUnique(w, p, m, w - m * p);
  }

  lemma MulGrows(m: int, a: int, p: int, b: int)
    requires m >= a >= 0 && p >= b >= 0
    ensures m * p >= a * b
  {
    assert (m - a) * p >= 0;
    assert a * (p - b) >= 0;
  }

  // Numbers written out and read back.

  /** `n` in decimal. */
  function Decimal(n: nat): (r: seq<byte>)
    ensures |r| > 0 && forall i :: 0 <= i < |r| ==> 48 <= r[i] <= 57
  {
    if n < 10 then [48 + n] else Decimal(n / 10) + [48 + n % 10]
  }

  /** Digits have the same value wherever they stand. */
  lemma {:induction false} DecimalValue(n: nat, s: seq<byte>, a: nat, b: nat)
    requires b == a + |Decimal(n)| <= |s| && s[a..b] == Decimal(n)
    ensures ValueOf(s, a, b) == n && Digits(s, a, b)
    decreases n
  {
    var t := Decimal(n);
    assert forall j :: a <= j < b ==> s[j] == s[a..b][j - a];
    if n >= 10 {
      assert s[a..b - 1] == t[..|t| - 1] == Decimal(n / 10);
      DecimalValue(n / 10, s, a, b - 1);
      assert s[b - 1] == 48 + n % 10;
    } else {
      assert s[a] == 48 + n && ValueOf(s, a, a) == 0;
    }
  }

  /** A number written in decimal, with a sign or, unless it is negative, without, is
      read as that number, up to the first byte that is no digit. */
  lemma ReadsBack(n: int, sign: seq<byte>, rest: seq<byte>)
    requires n >= 0
    requires sign == [] || sign == [43] || sign == [45]
    requires rest != [] ==> !IsDigit(rest[0])
    ensures var s, k := sign + Decimal(n) + rest, |sign|;
            SignLength(s) == k && EndOfDigits(s, k) == k + |Decimal(n)| && Written(s) == if sign == [45] then -n else n
  {
    var t, k := Decimal(n), |sign|;
    var s, e := sign + t + rest, |sign| + |t|;
    hide Decimal, ValueOf;
    assert s[k..e] == t;
    assert s[k] == t[0];
    DecimalValue(n, s, k, e);
    EndFrom(s, k, e);
    if rest != [] {
      assert s[e] == rest[0];
    }
  }

  /** So `parse_i64` undoes writing, on the 64-bit integers and only on those. */
  method ParseWritten(n: int, negative: bool, rest: seq<byte>) returns (consumed: nat, dst: Option<int>)
    requires n >= 0
    requires rest != [] ==> !IsDigit(rest[0])
    ensures var v := if negative then -n else n;
            if -0x8000_0000_0000_0000 <= v <= 0x7fff_ffff_ffff_ffff
            then dst == Some(v) && consumed == |Decimal(n)| + if negative then 1 else 0
            else dst == None && consumed == 0
  {
    var sign: seq<byte> := if negative then [45] else [];
    ReadsBack(n, sign, rest);
    consumed, dst := ParseI64(sign + Decimal(n) + rest);
  }

  predicate AllAreDigits(t: seq<byte>) {
    forall i :: 0 <= i < |t| ==> IsDigit(t[i])
  }

  lemma DecimalEnds(s: seq<byte>, e1: nat, i: nat)
    requires e1 < i <= |s| && Digits(s, 0, e1) && s[e1] == 46 && Digits(s, e1 + 1, i) && !DigitAtPos(s, i)
    ensures EndOfDigits(s, 0) == e1 && HasPoint(s, 0) && EndOfDecimal(s, 0) == i && Places(s, 0) == i - e1 - 1
  {
    PointIsNoDigit();
    hide IsDigit;
    EndFrom(s, 0, e1);
    EndFrom(s, e1 + 1, i);
  }

  lemma {:induction false} SliceValue(s: seq<byte>, a: nat, t: seq<byte>, k: nat)
    requires a + |t| <= |s| && s[a..a + |t|] == t && k <= |t|
    ensures ValueOf(s, a, a + k) == ValueOf(t, 0, k)
    decreases k
  {
    if k > 0 {
      assert s[a..a + |t|][k - 1] == t[k - 1];
      SliceValue(s, a, t, k - 1);
    }
  }

  lemma SliceDigits(s: seq<byte>, a: nat, t: seq<byte>)
    requires a + |t| <= |s| && s[a..a + |t|] == t && AllAreDigits(t)
    ensures Digits(s, a, a + |t|)
  {
    forall j | a <= j < a + |t| ensures DigitAtPos(s, j) {
      assert s[a..a + |t|][j - a] == t[j - a];
    }
  }

  lemma Halves(d: seq<byte>, f: seq<byte>)
    ensures (d + f)[0..|d|] == d && (d + f)[|d|..|d| + |f|] == f
  {
  }

  /** The value of `d` and `f` one behind the other. */
  lemma ValueOfBoth(d: seq<byte>, f: seq<byte>, v: int, w: int)
    requires v == ValueOf(d, 0, |d|) && w == ValueOf(f, 0, |f|)
    ensures ValueOf(d + f, 0, |d| + |f|) == v * Pow10(|f|) + w
  {
    hide ValueOf, Pow10;
    var t := d + f;
    Halves(d, f);
    SliceValue(t, 0, d, |d|);
    SliceValue(t, |d|, f, |f|);
    ValueConcat(t, 0, |d|, |d| + |f|);
    assert |d| + |f| - |d| == |f| && 0 + |d| == |d|;
  }

  lemma JoinedOf(s: seq<byte>, e1: nat, k: nat, v: int, w: int)
    requires e1 + 1 + k <= |s| && ValueOf(s, 0, e1) == v && ValueOf(s, e1 + 1, e1 + 1 + k) == w
    ensures Joined(s, 0, e1, e1 + 1, e1 + 1 + k) == v * Pow10(k) + w
  {
    hide ValueOf, Pow10;
  }

  /** Digits `d`, a point and digits `f` are read as all those digits, as many of them
      behind the point as are written there. */
  lemma DecimalReadsBack(s: seq<byte>, d: seq<byte>, f: seq<byte>)
    requires |d| + 1 + |f| <= |s| && AllAreDigits(d) && AllAreDigits(f)
    requires s[0..|d|] == d && s[|d|] == 46 && s[|d| + 1..|d| + 1 + |f|] == f && !DigitAtPos(s, |d| + 1 + |f|)
    ensures EndOfDecimal(s, 0) == |d| + 1 + |f| && Places(s, 0) == |f| && AllDigitsOf(s, 0) == ValueOf(d + f, 0, |d| + |f|)
  {
    hide ValueOf, Pow10, IsDigit, Joined, AllAreDigits, Digits;
    SliceDigits(s, 0, d);
    SliceDigits(s, |d| + 1, f);
    DecimalEnds(s, |d|, |d| + 1 + |f|);
    SliceValue(s, 0, d, |d|);
    SliceValue(s, |d| + 1, f, |f|);
    var v, w := ValueOf(d, 0, |d|), ValueOf(f, 0, |f|);
    JoinedOf(s, |d|, |f|, v, w);
    ValueOfBoth(d, f, v, w);
  }

  lemma PointIsNoDigit()
    ensures !IsDigit(46)
  {
  }
}
