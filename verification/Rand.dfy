/** Drawing below a bound from uniform 64-bit words. */
module Rand {
  import opened Options
  import opened Arithmetic

  const WORDS: nat := 0x1_0000_0000_0000_0000

  type u64 = x: int | 0 <= x < 0x1_0000_0000_0000_0000

  /** The high word of the product is the draw, its low word decides whether it stands. */
  function High(w: u64, m: u64): (r: int)
    ensures m > 0 ==> 0 <= r < m
  {
    Spread(w, m, WORDS);
    w * m / WORDS
  }

  function Low(w: u64, m: u64): u64 {
    w * m % WORDS
  }

  function Threshold(m: u64): u64
    requires m > 0
  {
    (WORDS - m) % m
  }

  predicate Accepted(w: u64, m: u64)
    requires m > 0
  {
    Low(w, m) >= Threshold(m)
  }

  /** The product of a word and a bound, as quotient and remainder. */
  lemma Spread(w: int, m: int, base: int)
    requires 0 <= w < base && 0 <= m
    ensures w * m == w * m / base * base + w * m % base
    ensures 0 <= w * m / base && (m > 0 ==> w * m / base < m)
  {
    assert w * m >= 0;
    if m > 0 {
      assert (base - w) * m > 0;
      MulLess(w * m / base, m, base);
    }
  }

  lemma MulLess(x: int, y: int, b: int)
    requires b > 0 && x * b < y * b
    ensures x < y
  {
    assert x >= y ==> (x - y) * b >= 0;
  }

  lemma ThresholdIs(m: u64)
    requires m > 0
    ensures Threshold(m) == WORDS % m < m && WORDS == WORDS / m * m + Threshold(m)
  {
    var q, r := (WORDS - m) / m, (WORDS - m) % m;
    assert WORDS == (q + 1) * m + r;
    DivUnique(WORDS, m, q + 1, r);
  }

  /** `w` is accepted for the draw `r` just when its product lies in one stretch of the products. */
  lemma AcceptedIff(w: u64, m: u64, r: nat)
    requires m > 0
    ensures (Accepted(w, m) && High(w, m) == r) <==> r * WORDS + Threshold(m) <= w * m < r * WORDS + WORDS
  {
    Spread(w, m, WORDS);
    if r * WORDS + Threshold(m) <= w * m < r * WORDS + WORDS {
      DivUnique(w * m, WORDS, r, w * m - r * WORDS);
    }
  }

  predicate Within(w: int, a: nat, n: nat) {
    a <= w < a + n
  }

  ghost function Interval(a: nat, n: nat): set<int> {
    set w: int | a <= w < a + n && Within(w, a, n)
  }

  lemma {:induction false} IntervalSize(a: nat, n: nat)
    ensures |Interval(a, n)| == n
  {
    if n > 0 {
      IntervalSize(a, n - 1);
      assert forall w: int :: Within(w, a, n) <==> Within(w, a, n - 1) || w == a + n - 1;
      assert Interval(a, n) == Interval(a, n - 1) + {a + n - 1};
    }
  }

  /** The words that are accepted and yield `r`. */
  ghost function WordsFor(m: u64, r: nat): set<int>
    requires m > 0
  {
    set w: int | 0 <= w < WORDS && Accepted(w, m) && High(w, m) == r
  }

  /** The least word whose product reaches the stretch for `r`. */
  function FirstWord(m: u64, r: nat): (w: nat)
    requires m > 0
    ensures r * WORDS + Threshold(m) <= w * m < r * WORDS + Threshold(m) + m
  {
    var a := r * WORDS + Threshold(m);
    var w := (a + m - 1) / m;
    assert a + m - 1 == w * m + (a + m - 1) % m;
    assert w >= 0;
    w
  }

  /** `q` consecutive multiples of `m` lie in a stretch of `q * m` numbers. */
  lemma Multiples(lo: int, m: int, f: int, q: int, w: int)
    requires m > 0 && q >= 0 && lo <= f * m < lo + m
    ensures lo <= w * m < lo + q * m <==> f <= w < f + q
  {
    if w < f {
      Grows(f, w, m);
    } else {
      assert (w - f) * m >= 0;
      if w < f + q {
        Grows(f + q, w, m);
        assert (f + q) * m == f * m + q * m;
      } else {
        assert (w - (f + q)) * m >= 0;
        assert (f + q) * m == f * m + q * m;
      }
    }
  }

  lemma InStretch(m: u64, r: nat, w: int)
    requires m > 0
    ensures
      var q := WORDS / m;
      r * WORDS + Threshold(m) <= w * m < r * WORDS + WORDS <==> Within(w, FirstWord(m, r), q)
  {
    ThresholdIs(m);
    Multiples(r * WORDS + Threshold(m), m, FirstWord(m, r), WORDS / m, w);
  }

  /** Every draw below the bound is yielded by the same number of accepted words. */
  lemma Unbiased(m: u64, r: nat)
    requires r < m
    ensures |WordsFor(m, r)| == WORDS / m
  {
    var f, q := FirstWord(m, r), WORDS / m;
    forall w: int ensures w in WordsFor(m, r) <==> w in Interval(f, q) {
      InStretch(m, r, w);
      if 0 <= w < WORDS {
        AcceptedIff(w, m, r);
      } else if w >= WORDS {
        Beyond(m, r, w);
      }
    }
    IntervalSize(f, q);
    assert WordsFor(m, r) == Interval(f, q);
  }

  lemma Beyond(m: u64, r: nat, w: int)
    requires r < m && w >= WORDS
    ensures w * m >= r * WORDS + WORDS
  {
    Grows(m, r, WORDS);
    assert (w - WORDS) * m >= 0;
  }

  ghost function WordsBelow(m: u64, n: nat): set<int>
    requires m > 0
  {
    set w: int | 0 <= w < WORDS && Accepted(w, m) && High(w, m) < n
  }

  lemma {:induction false} CountBelow(m: u64, n: nat)
    requires n <= m && m > 0
    ensures |WordsBelow(m, n)| == n * (WORDS / m)
  {
    hide Accepted, High;
    if n == 0 {
      HighNotNegative(m);
      assert WordsBelow(m, 0) == {};
    } else {
      CountBelow(m, n - 1);
      Unbiased(m, n - 1);
      assert WordsBelow(m, n) == WordsBelow(m, n - 1) + WordsFor(m, n - 1);
      assert n * (WORDS / m) == (n - 1) * (WORDS / m) + WORDS / m;
    }
  }

  lemma HighNotNegative(m: u64)
    requires m > 0
    ensures forall w: u64 :: High(w, m) >= 0
  {
  }

  /** No more words are thrown away than there must be: what is left over of 2^64. */
  lemma RejectedWords(m: u64)
    requires m > 0
    ensures |(set w: int | 0 <= w < WORDS && !Accepted(w, m))| == WORDS % m
  {
    var rejected := set w: int | 0 <= w < WORDS && !Accepted(w, m);
    CountBelow(m, m);
    IntervalSize(0, WORDS);
    ThresholdIs(m);
    EveryWord(m, rejected);
    Parts(Interval(0, WORDS), rejected, WordsBelow(m, m));
    hide Interval, WordsBelow, Accepted;
  }

  lemma EveryWord(m: u64, rejected: set<int>)
    requires m > 0 && rejected == set w: int | 0 <= w < WORDS && !Accepted(w, m)
    ensures forall w: int :: w in Interval(0, WORDS) <==> (w in rejected || w in WordsBelow(m, m))
    ensures rejected !! WordsBelow(m, m)
  {
    hide Accepted, High, Threshold;
    forall w: int ensures w in Interval(0, WORDS) <==> (w in rejected || w in WordsBelow(m, m)) {
      assert w in Interval(0, WORDS) <==> Within(w, 0, WORDS);
    }
  }

  lemma Parts(u: set<int>, a: set<int>, b: set<int>)
    requires a !! b
    requires forall x: int :: x in u <==> (x in a || x in b)
    ensures |u| == |a| + |b|
  {
    var v := a + b;
    forall x: int ensures x in u <==> x in v {
    }
    assert u == v;
  }

  /** The cheap test lets through only what the exact one accepts. */
  lemma PreTestSound(w: u64, m: u64)
    requires m > 0 && Low(w, m) >= m
    ensures Accepted(w, m)
  {
    ThresholdIs(m);
  }

  /** A thread's generator: the words it is going to produce. */
  class Generator {
    var words: seq<u64>

    constructor (stream: seq<u64>)
      ensures words == stream
    {
      words := stream;
    }

    method Next() returns (w: u64)
      requires words != []
      modifies this
      ensures w == old(words[0]) && words == old(words[1..])
    {
      w := words[0];
      words := words[1..];
    }

    /** The draw of the first accepted word; `used` words are consumed. None
        if the stream ends first. A bound of 0 takes one word and yields 0. */
    method Below(m: u64) returns (r: Option<int>, used: nat)
      modifies this
      ensures used <= old(|words|) && words == old(words[used..])
      ensures r.Some? ==> used > 0 && r.value == High(old(words)[used - 1], m)
      ensures m == 0 && r.Some? ==> r.value == 0 && used == 1
      ensures m > 0 ==> forall k :: 0 <= k < used ==> (Accepted(old(words)[k], m) <==> r.Some? && k == used - 1)
      ensures r.None? ==> used == old(|words|)
    {
      if words == [] {
        return None, 0;
      }
      var w := Next();
      used := 1;
      var lo := Low(w, m);
      if lo < m {
        var t := Threshold(m);
        while lo < t
          invariant 0 < used <= old(|words|) && words == old(words[used..])
          invariant w == old(words)[used - 1] && lo == Low(w, m) && t == Threshold(m)
          invariant forall k :: 0 <= k < used - 1 ==> !Accepted(old(words)[k], m)
          decreases |words|
        {
          if words == [] {
            return None, used;
          }
          w := Next();
          used := used + 1;
          lo := Low(w, m);
        }
      } else if m > 0 {
        PreTestSound(w, m);
      }
      r := Some(High(w, m));
    }
  }
}
