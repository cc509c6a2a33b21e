/** Matching brackets in the line editor: a scan forward from an opening one, a
    scan backward from a closing one. */
module Brackets {

  const BUF_SIZE: nat := 4096

  predicate IsOpen(c: char) {
    c == '(' || c == '[' || c == '{'
  }

  predicate IsClose(c: char) {
    c == ')' || c == ']' || c == '}'
  }

  function Opposite(c: char): char {
    match c
    case '(' => ')'
    case ')' => '('
    case '[' => ']'
    case ']' => '['
    case '{' => '}'
    case '}' => '{'
    case _ => '\0'
  }

  /** An odd number of backslashes comes right before `pos`. */
  predicate Escaped(buf: string, pos: nat)
    requires pos <= |buf|
  {
    pos > 0 && buf[pos - 1] == '\\' && !Escaped(buf, pos - 1)
  }

  predicate Quote(buf: string, i: nat)
    requires i < |buf|
  {
    buf[i] == '"' && !Escaped(buf, i)
  }

  /** Inside a string after the first `n` characters. */
  predicate InString(buf: string, n: nat)
    requires n <= |buf|
  {
    n > 0 && (InString(buf, n - 1) != Quote(buf, n - 1))
  }

  /** What position `i` contributes to the depth of brackets `(open, close)`: nothing inside strings. */
  function Weight(buf: string, open: char, close: char, i: nat): int
    requires i < |buf|
  {
    if InString(buf, i + 1) then 0
    else if buf[i] == open then 1
    else if buf[i] == close then -1
    else 0
  }

  /** The depth gained over `[a, b)`. */
  function Net(buf: string, open: char, close: char, a: nat, b: nat): int
    requires b <= |buf|
  {
    if a >= b then 0 else Net(buf, open, close, a, b - 1) + Weight(buf, open, close, b - 1)
  }

  lemma {:induction false} NetSplit(buf: string, open: char, close: char, a: nat, b: nat, c: nat)
    requires a <= b <= c <= |buf|
    ensures Net(buf, open, close, a, c) == Net(buf, open, close, a, b) + Net(buf, open, close, b, c)
    decreases c
  {
    if b < c {
      NetSplit(buf, open, close, a, b, c - 1);
    }
  }

  /** `i` opens what `j` closes: both outside strings, the depth back to nothing
      at `j` for the first time. */
  ghost predicate Pair(buf: string, i: nat, j: nat) {
    && i < j < |buf| && IsOpen(buf[i]) && buf[j] == Opposite(buf[i])
    && !InString(buf, i) && !InString(buf, j)
    && Net(buf, buf[i], buf[j], i, j + 1) == 0
    && forall k :: i < k <= j ==> Net(buf, buf[i], buf[j], i, k) >= 1
  }

  ghost predicate Partner(buf: string, i: nat, j: nat) {
    Pair(buf, i, j) || Pair(buf, j, i)
  }

  lemma BracketsDiffer(c: char)
    requires IsOpen(c) || IsClose(c)
    ensures Opposite(Opposite(c)) == c && Opposite(c) != c && c != '"'
    ensures IsOpen(Opposite(c)) == IsClose(c) && IsClose(Opposite(c)) == IsOpen(c)
  {
  }

  /** A position has at most one partner. */
  lemma OnePartner(buf: string, i: nat, j: nat, k: nat)
    requires Partner(buf, i, j) && Partner(buf, i, k)
    ensures j == k
  {
    BracketsDiffer(buf[i]);
    if IsOpen(buf[i]) {
      SameClosing(buf, i, j, k);
      SameClosing(buf, i, k, j);
    } else {
      SameOpening(buf, j, k, i);
      SameOpening(buf, k, j, i);
    }
  }

  /** Seen from the closing bracket, the depth is negative until its partner. */
  lemma FromTheRight(buf: string, i: nat, j: nat, k: nat)
    requires Pair(buf, i, j) && i < k <= j
    ensures Net(buf, buf[i], buf[j], k, j + 1) <= -1
  {
    NetSplit(buf, buf[i], buf[j], i, k, j + 1);
  }

  lemma StillOpen(buf: string, i: nat, j: nat, k: int)
    requires Pair(buf, i, j) && i < k <= j
    ensures Net(buf, buf[i], buf[j], i, k) >= 1
  {
  }

  lemma SameClosing(buf: string, i: nat, j: nat, k: nat)
    requires Pair(buf, i, j) && Pair(buf, i, k)
    ensures j >= k
  {
    if j < k {
      StillOpen(buf, i, k, j + 1);
    }
  }

  lemma SameOpening(buf: string, i: nat, k: nat, j: nat)
    requires Pair(buf, i, j) && Pair(buf, k, j)
    ensures i >= k
  {
    BracketsDiffer(buf[i]);
    BracketsDiffer(buf[k]);
    if i < k {
      FromTheRight(buf, i, j, k);
    }
  }

  /** Between partners the brackets of their kind balance. */
  lemma BalancedBetween(buf: string, i: nat, j: nat, k: nat)
    requires Pair(buf, i, j) && i < k <= j
    ensures Net(buf, buf[i], buf[j], i + 1, j) == 0
    ensures Net(buf, buf[i], buf[j], i + 1, k) >= 0
  {
    BracketsDiffer(buf[i]);
    NetSplit(buf, buf[i], buf[j], i, i + 1, k);
    NetSplit(buf, buf[i], buf[j], i, i + 1, j);
    assert Net(buf, buf[i], buf[j], i, i) == 0;
    assert Net(buf, buf[i], buf[j], i, i + 1) == Weight(buf, buf[i], buf[j], i) == 1;
  }

  method IsEscaped(buf: string, pos: nat) returns (r: bool)
    requires pos <= |buf|
    ensures r == Escaped(buf, pos)
  {
    var bs := 0;
    while pos - 1 - bs >= 0 && buf[pos - 1 - bs] == '\\'
      invariant bs <= pos
      invariant Escaped(buf, pos) == if bs % 2 == 0 then Escaped(buf, pos - bs) else !Escaped(buf, pos - bs)
    {
      bs := bs + 1;
    }
    r := bs % 2 != 0;
  }

  method InStringAt(buf: string, pos: nat) returns (r: bool)
    requires pos <= |buf|
    ensures r == InString(buf, pos)
  {
    r := false;
    for i := 0 to pos
      invariant r == InString(buf, i)
    {
      var esc := IsEscaped(buf, i);
      if buf[i] == '"' && !esc {
        r := !r;
      }
    }
  }

  method StringMap(buf: string, map_: array<bool>)
    requires |buf| <= map_.Length
    modifies map_
    ensures forall i :: 0 <= i < |buf| ==> map_[i] == InString(buf, i + 1)
  {
    var s := false;
    for i := 0 to |buf|
      invariant s == InString(buf, i)
      invariant forall j :: 0 <= j < i ==> map_[j] == InString(buf, j + 1)
    {
      var esc := IsEscaped(buf, i);
      if buf[i] == '"' && !esc {
        s := !s;
      }
      map_[i] := s;
    }
  }

  /** The closing partner of an opening bracket, or -1. */
  method ScanForward(buf: string, cursor: nat) returns (r: int)
    requires cursor < |buf| && IsOpen(buf[cursor]) && !InString(buf, cursor)
    ensures r >= 0 ==> Pair(buf, cursor, r)
    ensures r < 0 ==> r == -1 && forall j: nat :: !Pair(buf, cursor, j)
  {
    var c, target := buf[cursor], Opposite(buf[cursor]);
    BracketsDiffer(c);
    var depth, inStr := 0, false;
    for i := cursor to |buf|
      invariant inStr == InString(buf, i)
      invariant depth == Net(buf, c, target, cursor, i) && (i > cursor ==> depth >= 1)
      invariant forall k :: cursor < k <= i ==> Net(buf, c, target, cursor, k) >= 1
    {
      var esc := IsEscaped(buf, i);
      if buf[i] == '"' && !esc {
        if i > cursor {
          inStr := !inStr;
        }
      }
      if !inStr {
        if buf[i] == c {
          depth := depth + 1;
        } else if buf[i] == target {
          depth := depth - 1;
          if depth == 0 {
            return i;
          }
        }
      }
    }
    forall j: nat ensures !Pair(buf, cursor, j) {
      assert cursor < j < |buf| ==> Net(buf, c, target, cursor, j + 1) >= 1;
    }
    r := -1;
  }

  /** What has been seen from the right when a pair is complete. */
  lemma PairFromTheRight(buf: string, i: nat, j: nat, end: nat)
    requires end == j + 1 && i < j < |buf| && IsOpen(buf[i]) && buf[j] == Opposite(buf[i])
    requires !InString(buf, i) && !InString(buf, j)
    requires Net(buf, buf[i], buf[j], i, end) == 0
    requires forall k :: i < k <= j ==> Net(buf, buf[i], buf[j], k, end) <= -1
    ensures Pair(buf, i, j)
  {
    forall k | i < k <= j ensures Net(buf, buf[i], buf[j], i, k) >= 1 {
      NetSplit(buf, buf[i], buf[j], i, k, end);
    }
  }

  lemma NetFirst(buf: string, open: char, close: char, a: nat, b: nat)
    requires a < b <= |buf|
    ensures Net(buf, open, close, a, b) == Weight(buf, open, close, a) + Net(buf, open, close, a + 1, b)
  {
    NetSplit(buf, open, close, a, a + 1, b);
    assert Net(buf, open, close, a, a) == 0;
  }

  /** The opening partner of a closing bracket, or -1. */
  method ScanBackward(buf: string, cursor: nat) returns (r: int)
    requires cursor < |buf| <= BUF_SIZE && IsClose(buf[cursor]) && !InString(buf, cursor)
    ensures r >= 0 ==> Pair(buf, r, cursor)
    ensures r < 0 ==> r == -1 && forall i: nat :: !Pair(buf, i, cursor)
  {
    var c, target := buf[cursor], Opposite(buf[cursor]);
    BracketsDiffer(c);
    var strMap := new bool[BUF_SIZE](_ => false);
    StringMap(buf, strMap);
    var depth := 0;
    var i: int := cursor;
    ghost var end := cursor + 1;
    while i >= 0
      invariant -1 <= i <= cursor
      invariant forall k :: 0 <= k < |buf| ==> strMap[k] == InString(buf, k + 1)
      invariant depth == -Net(buf, target, c, i + 1, end) && (i < cursor ==> depth >= 1)
      invariant forall k :: i < k <= cursor ==> Net(buf, target, c, k, end) <= -1
    {
      NetFirst(buf, target, c, i, end);
      if !strMap[i] {
        if buf[i] == c {
          depth := depth + 1;
        } else if buf[i] == target {
          depth := depth - 1;
          if depth == 0 {
            BracketsDiffer(target);
            PairFromTheRight(buf, i, cursor, end);
            return i;
          }
        }
      }
      i := i - 1;
    }
    forall k: nat ensures !Pair(buf, k, cursor) {
      assert k < cursor ==> Net(buf, target, c, k, end) <= -1;
    }
    r := -1;
  }

  /** The partner of the bracket under the cursor, or -1 if it is no bracket,
      stands inside a string, or has none; a closing one has none to offer in a
      buffer longer than the scan can map. */
  method FindMatching(buf: string, cursor: int) returns (r: int)
    ensures r >= 0 ==> 0 <= cursor < |buf| && Partner(buf, cursor, r)
    ensures r < 0 ==> r == -1
    ensures r < 0 && cursor >= 0 ==> forall j: nat :: Partner(buf, cursor, j) ==> |buf| > BUF_SIZE && IsClose(buf[cursor])
    ensures |buf| > BUF_SIZE && 0 <= cursor < |buf| && IsClose(buf[cursor]) ==> r == -1
  {
    if cursor < 0 || cursor >= |buf| {
      return -1;
    }
    var c := buf[cursor];
    if !IsOpen(c) && !IsClose(c) {
      return -1;
    }
    BracketsDiffer(c);
    var inside := InStringAt(buf, cursor);
    if inside {
      return -1;
    }
    if IsOpen(c) {
      r := ScanForward(buf, cursor);
    } else {
      if |buf| > BUF_SIZE {
        return -1;
      }
      r := ScanBackward(buf, cursor);
    }
  }

  /** The two scans agree: from the partner of a bracket the way leads back
      to it, provided that the buffer fits the map, and only then. */
  method ThereAndBack(buf: string, cursor: int) returns (j: int, back: int)
    ensures j >= 0 ==> 0 <= cursor < |buf| && Partner(buf, cursor, j) && back == if |buf| <= BUF_SIZE then cursor else -1
    ensures j < 0 ==> back == -1
    ensures j < 0 <= cursor ==> forall k: nat :: Partner(buf, cursor, k) ==> |buf| > BUF_SIZE && IsClose(buf[cursor])
  {
    j := FindMatching(buf, cursor);
    back := -1;
    if j >= 0 {
      back := FindMatching(buf, j);
      assert Partner(buf, j, cursor);
      BracketsDiffer(buf[cursor]);
      if back >= 0 {
        OnePartner(buf, j, cursor, back);
      }
    }
  }

  /** A pair of brackets with `n` blanks between. */
  function Wide(open: char, n: nat): (buf: string)
    requires open in "([{"
    ensures |buf| == n + 2 && buf[0] == open && forall k :: 0 < k <= n ==> buf[k] == ' '
    ensures buf[n + 1] == if open == '(' then ')' else if open == '[' then ']' else '}'
  {
    [open] + seq(n, _ => ' ') + [if open == '(' then ')' else if open == '[' then ']' else '}']
  }

  lemma {:induction false} WideDepth(open: char, n: nat, k: nat)
    requires open in "([{" && k <= n + 2
    ensures var buf := Wide(open, n);
            !InString(buf, k) && Net(buf, open, buf[n + 1], 0, k) == if 1 <= k <= n + 1 then 1 else 0
  {
    if k > 0 {
      WideDepth(open, n, k - 1);
    }
  }

  lemma WidePair(open: char, n: nat)
    requires open in "([{"
    ensures Pair(Wide(open, n), 0, n + 1)
  {
    var buf := Wide(open, n);
    forall k: nat | k <= n + 2
      ensures !InString(buf, k) && Net(buf, open, buf[n + 1], 0, k) == if 1 <= k <= n + 1 then 1 else 0
    {
      WideDepth(open, n, k);
    }
  }

  /** However many blanks: the opening one finds the closing one, which finds the
      way back up to 4094 of them and nothing beyond. */
  method WideThereAndBack(open: char, n: nat) returns (j: int, back: int)
    requires open in "([{"
    ensures j == n + 1 && back == if n <= 4094 then 0 else -1
  {
    WidePair(open, n);
    j, back := ThereAndBack(Wide(open, n), 0);
    assert Partner(Wide(open, n), 0, n + 1);
    if j >= 0 {
      OnePartner(Wide(open, n), 0, j, n + 1);
    }
  }

  // Texts written out of plain and quoted parts.

  /** A character that stands for itself, or a backslash and what it escapes. */
  datatype Piece = Char(c: char) | Escape(c: char)

  datatype Part = Plain(text: string) | Quoted(content: seq<Piece>)

  predicate WellWritten(p: Part) {
    match p
    case Plain(text) => forall i :: 0 <= i < |text| ==> text[i] != '"' && text[i] != '\\'
    case Quoted(content) => forall i :: 0 <= i < |content| ==> content[i].Char? ==> content[i].c != '"' && content[i].c != '\\'
  }

  function Spelt(content: seq<Piece>): string {
    if content == [] then ""
    else (if content[0].Char? then [content[0].c] else ['\\', content[0].c]) + Spelt(content[1..])
  }

  function Written(p: Part): string {
    match p
    case Plain(text) => text
    case Quoted(content) => "\"" + Spelt(content) + "\""
  }

  function Text(parts: seq<Part>): string {
    if parts == [] then "" else Written(parts[0]) + Text(parts[1..])
  }

  /** Behind the opening quote of a quoted part and before its closing one has been passed. */
  predicate Within(parts: seq<Part>, n: int)
    decreases |parts|
  {
    parts != [] &&
    var len := |Written(parts[0])|;
    (parts[0].Quoted? && 0 < n < len) || (n > len && Within(parts[1..], n - len))
  }

  /** A part of the buffer. */
  predicate Stands(buf: string, a: nat, t: string) {
    a + |t| <= |buf| && buf[a..a + |t|] == t
  }

  lemma StandsSplit(buf: string, a: nat, t: string, u: string)
    requires Stands(buf, a, t + u)
    ensures Stands(buf, a, t) && Stands(buf, a + |t|, u)
  {
    var w := buf[a..a + |t + u|];
    assert buf[a..a + |t|] == w[..|t|] == t;
    assert buf[a + |t|..a + |t| + |u|] == w[|t|..] == u;
  }

  lemma {:induction false} PlainStaysOut(buf: string, a: nat, text: string)
    requires Stands(buf, a, text) && WellWritten(Plain(text)) && !InString(buf, a) && !Escaped(buf, a)
    ensures !Escaped(buf, a + |text|) && forall n :: a <= n <= a + |text| ==> !InString(buf, n)
    decreases |text|
  {
    if text != "" {
      assert buf[a] == buf[a..a + |text|][0] == text[0];
      assert buf[a + 1..a + |text|] == buf[a..a + |text|][1..];
      PlainStaysOut(buf, a + 1, text[1..]);
    }
  }

  lemma {:induction false} ContentStaysIn(buf: string, a: nat, content: seq<Piece>)
    requires Stands(buf, a, Spelt(content)) && WellWritten(Quoted(content)) && InString(buf, a) && !Escaped(buf, a)
    ensures !Escaped(buf, a + |Spelt(content)|)
    ensures forall n :: a <= n <= a + |Spelt(content)| ==> InString(buf, n)
    decreases |content|
  {
    if content != [] {
      var t := if content[0].Char? then [content[0].c] else ['\\', content[0].c];
      StandsSplit(buf, a, t, Spelt(content[1..]));
      assert buf[a] == buf[a..a + |t|][0] == t[0];
      assert InString(buf, a + 1);
      if content[0].Escape? {
        assert buf[a + 1] == buf[a..a + |t|][1] == t[1];
        assert Escaped(buf, a + 1) && InString(buf, a + 2);
      }
      ContentStaysIn(buf, a + |t|, content[1..]);
    }
  }

  lemma QuotedGoesInAndOut(buf: string, a: nat, content: seq<Piece>)
    requires Stands(buf, a, Written(Quoted(content))) && WellWritten(Quoted(content)) && !InString(buf, a) && !Escaped(buf, a)
    ensures var b := a + |Written(Quoted(content))|;
            !Escaped(buf, b) && forall n :: a <= n <= b ==> (InString(buf, n) <==> a < n < b)
  {
    var q, t := "\"", Spelt(content);
    StandsSplit(buf, a, q + t, q);
    StandsSplit(buf, a, q, t);
    assert buf[a] == buf[a..a + 1][0] == '"';
    ContentStaysIn(buf, a + 1, content);
    var e := a + 1 + |t|;
    assert buf[e] == buf[e..e + 1][0] == '"';
  }

  /** A place in such a text is inside a string if and only if it is within a quoted
      part, whatever quotes and backslashes its content escapes. */
  lemma {:induction false} InStringIsWithin(buf: string, a: nat, parts: seq<Part>, n: nat)
    requires Stands(buf, a, Text(parts)) && (forall i :: 0 <= i < |parts| ==> WellWritten(parts[i]))
    requires !InString(buf, a) && !Escaped(buf, a) && a <= n <= a + |Text(parts)|
    ensures InString(buf, n) <==> Within(parts, n - a)
    decreases |parts|
  {
    if parts != [] {
      var t := Written(parts[0]);
      StandsSplit(buf, a, t, Text(parts[1..]));
      if parts[0].Plain? {
        PlainStaysOut(buf, a, t);
      } else {
        QuotedGoesInAndOut(buf, a, parts[0].content);
      }
      if n > a + |t| {
        InStringIsWithin(buf, a + |t|, parts[1..], n);
      }
    }
  }

  /** Over the whole buffer. */
  lemma StringsAreQuotedParts(parts: seq<Part>, n: nat)
    requires (forall i :: 0 <= i < |parts| ==> WellWritten(parts[i])) && n <= |Text(parts)|
    ensures InString(Text(parts), n) <==> Within(parts, n)
  {
    assert Text(parts)[0..|Text(parts)|] == Text(parts);
    InStringIsWithin(Text(parts), 0, parts, n);
  }

  /** Brackets in a quoted part do not count. */
  lemma QuotedWeighsNothing(buf: string, open: char, close: char, a: nat, content: seq<Piece>, b: nat)
    requires Stands(buf, a, Written(Quoted(content))) && WellWritten(Quoted(content)) && !InString(buf, a) && !Escaped(buf, a)
    requires open != '"' && close != '"' && a <= b <= a + |Written(Quoted(content))|
    ensures Net(buf, open, close, a, b) == 0
    decreases b
  {
    QuotedGoesInAndOut(buf, a, content);
    if b > a {
      QuotedWeighsNothing(buf, open, close, a, content, b - 1);
      var t := Written(Quoted(content));
      if b == a + |t| {
        assert buf[b - 1] == buf[a..a + |t|][|t| - 1] == '"';
      }
    }
  }
}
