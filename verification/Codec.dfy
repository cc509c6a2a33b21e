/** The delta and run-length codec of IPC payloads. */
module Codec {
  import opened Options
  import opened Bytes

  const THRESHOLD: nat := 2000
  const MAX_RUN: nat := 127
  const MAX_LITERAL: nat := 128

  function Sub8(a: byte, b: byte): byte {
    var x: int, y: int := a, b;
    (x - y) % 256
  }

  function Add8(a: byte, b: byte): byte {
    var x: int, y: int := a, b;
    (x + y) % 256
  }

  function DeltaAt(s: seq<byte>, i: nat): byte
    requires i < |s|
  {
    if i == 0 then s[0] else Sub8(s[i], s[i - 1])
  }

  /** Each byte less the one before it. */
  function Delta(s: seq<byte>): seq<byte> {
    seq(|s|, i requires 0 <= i < |s| => DeltaAt(s, i))
  }

  function SumAt(d: seq<byte>, i: nat): byte
    requires i < |d|
  {
    if i == 0 then d[0] else Add8(d[i], SumAt(d, i - 1))
  }

  /** The differences summed up again. */
  function Undelta(d: seq<byte>): seq<byte> {
    seq(|d|, i requires 0 <= i < |d| => SumAt(d, i))
  }

  lemma SubThenAdd(a: byte, b: byte)
    ensures Add8(Sub8(a, b), b) == a
  {
  }

  lemma {:induction false} SumRestores(s: seq<byte>, i: nat)
    requires i < |s|
    ensures SumAt(Delta(s), i) == s[i]
  {
    if i > 0 {
      SumRestores(s, i - 1);
      SubThenAdd(s[i], s[i - 1]);
      hide Add8, Sub8;
    }
  }

  lemma UndeltaRestores(s: seq<byte>)
    ensures Undelta(Delta(s)) == s
  {
    forall i: nat | i < |s| ensures SumAt(Delta(s), i) == s[i] {
      SumRestores(s, i);
    }
  }

  function Repeat(v: byte, n: nat): seq<byte> {
    seq(n, _ => v)
  }

  /** How many bytes a literal's count byte announces: minus the count, read as signed. */
  function LiteralLength(count: byte): nat {
    if count == 0 then 0 else 256 - count
  }

  /** What a decoder with `room` bytes makes of `c` from `si` on, `out` being done already. */
  function Expand(c: seq<byte>, si: nat, room: nat, out: seq<byte>): Option<seq<byte>>
    requires si <= |c|
    decreases |c| - si
  {
    if si == |c| || |out| >= room then Some(out)
    else if 0 < c[si] <= 127 then
      if si + 1 >= |c| || |out| + c[si] > room then None
      else Expand(c, si + 2, room, out + Repeat(c[si + 1], c[si]))
    else
      var n := LiteralLength(c[si]);
      if si + 1 + n > |c| || |out| + n > room then None
      else Expand(c, si + 1 + n, room, out + c[si + 1..si + 1 + n])
  }

  predicate PairAt(d: seq<byte>, i: nat) {
    i + 1 < |d| && d[i] == d[i + 1]
  }

  /** How far equal bytes reach from `si`, up to what one count byte can say. */
  function RunLength(d: seq<byte>, si: nat, run: nat): (r: nat)
    requires 1 <= run <= MAX_RUN && si + run <= |d| && forall j :: si <= j < si + run ==> d[j] == d[si]
    ensures run <= r <= MAX_RUN && si + r <= |d| && forall j :: si <= j < si + r ==> d[j] == d[si]
    ensures r == MAX_RUN || si + r == |d| || d[si + r] != d[si]
    decreases MAX_RUN - run
  {
    if si + run < |d| && d[si + run] == d[si] && run < MAX_RUN then RunLength(d, si, run + 1) else run
  }

  /** How many bytes from `si` on come before the next pair of equal ones, likewise. */
  function LiteralRun(d: seq<byte>, si: nat, llen: nat): (r: nat)
    requires llen <= MAX_LITERAL && si + llen <= |d|
    requires forall j :: si <= j < si + llen ==> !PairAt(d, j)
    ensures llen <= r <= MAX_LITERAL && si + r <= |d| && forall j :: si <= j < si + r ==> !PairAt(d, j)
    ensures r == MAX_LITERAL || si + r == |d| || PairAt(d, si + r)
    decreases MAX_LITERAL - llen
  {
    if si + llen < |d| && llen < MAX_LITERAL && !PairAt(d, si + llen) then LiteralRun(d, si, llen + 1) else llen
  }

  /** How many bytes of `d` the piece at `si` stands for: pairs start runs, everything else is literal. */
  function Span(d: seq<byte>, si: nat): (n: nat)
    requires si < |d|
    ensures 0 < n && si + n <= |d|
  {
    if PairAt(d, si) then RunLength(d, si, 1) else LiteralRun(d, si, 0)
  }

  /** A run is its length and its byte, a literal minus its length and its bytes. */
  function Piece(d: seq<byte>, si: nat): (p: seq<byte>)
    requires si < |d|
    ensures |p| == if PairAt(d, si) then 2 else 1 + Span(d, si)
  {
    var n := Span(d, si);
    if PairAt(d, si) then [n, d[si]] else [LiteralCount(n)] + d[si..si + n]
  }

  function LiteralCount(n: nat): byte
    requires 0 < n <= MAX_LITERAL
  {
    256 - n
  }

  /** The packed form of `d` from `si` on. */
  function Packed(d: seq<byte>, si: nat): seq<byte>
    requires si <= |d|
    decreases |d| - si
  {
    if si == |d| then [] else Piece(d, si) + Packed(d, si + Span(d, si))
  }

  lemma ExpandRun(c: seq<byte>, i: nat, room: nat, out: seq<byte>, run: byte, v: byte)
    requires i + 2 <= |c| && c[i..i + 2] == [run, v] && 0 < run <= MAX_RUN && |out| + run <= room
    ensures Expand(c, i, room, out) == Expand(c, i + 2, room, out + Repeat(v, run))
  {
    assert c[i] == c[i..i + 2][0] && c[i + 1] == c[i..i + 2][1];
  }

  lemma ExpandLiteral(c: seq<byte>, i: nat, room: nat, out: seq<byte>, bs: seq<byte>)
    requires 0 < |bs| <= MAX_LITERAL && |out| + |bs| <= room
    requires i + 1 + |bs| <= |c| && c[i..i + 1 + |bs|] == [LiteralCount(|bs|)] + bs
    ensures Expand(c, i, room, out) == Expand(c, i + 1 + |bs|, room, out + bs)
  {
    var p := c[i..i + 1 + |bs|];
    assert c[i] == p[0];
    assert c[i + 1..i + 1 + |bs|] == p[1..] == bs;
  }

  lemma RunIsRepeat(d: seq<byte>, si: nat, n: nat)
    requires si < |d| && si + n <= |d| && forall j :: si <= j < si + n ==> d[j] == d[si]
    ensures d[..si + n] == d[..si] + Repeat(d[si], n)
  {
    var run := d[si..si + n];
    assert run == Repeat(d[si], n) by {
      assert forall j :: 0 <= j < n ==> run[j] == d[si + j];
    }
    assert d[..si + n] == d[..si] + run;
  }

  /** A decoder with room for it reads a piece back as the bytes it stands for. */
  lemma ExpandPiece(c: seq<byte>, i: nat, room: nat, d: seq<byte>, si: nat)
    requires si < |d| && i + |Piece(d, si)| <= |c| && c[i..i + |Piece(d, si)|] == Piece(d, si)
    requires si + Span(d, si) <= room
    ensures Expand(c, i, room, d[..si]) == Expand(c, i + |Piece(d, si)|, room, d[..si + Span(d, si)])
  {
    hide Expand, Repeat;
    var n := Span(d, si);
    if PairAt(d, si) {
      RunIsRepeat(d, si, n);
      ExpandRun(c, i, room, d[..si], n, d[si]);
    } else {
      ExpandLiteral(c, i, room, d[..si], d[si..si + n]);
      assert d[..si + n] == d[..si] + d[si..si + n];
    }
  }

  /** A piece that no longer fits is refused. */
  lemma PieceTooLong(c: seq<byte>, i: nat, room: nat, d: seq<byte>, si: nat)
    requires si < |d| && i + |Piece(d, si)| <= |c| && c[i..i + |Piece(d, si)|] == Piece(d, si)
    requires si < room < si + Span(d, si)
    ensures Expand(c, i, room, d[..si]) == None
  {
    var p := c[i..i + |Piece(d, si)|];
    assert c[i] == p[0];
  }

  /** What a decoder with `room` bytes may make of the bytes `d`: all of them if
      they fit, else nothing, or as many as there is room for. */
  predicate FitsAsFarAs(d: seq<byte>, room: nat, r: Option<seq<byte>>) {
    if |d| <= room then r == Some(d) else r == None || r == Some(d[..room])
  }

  /** Decoding what was packed from `si` on yields the rest, as far as there is room. */
  lemma {:induction false} ExpandPacked(c: seq<byte>, i: nat, room: nat, d: seq<byte>, si: nat)
    requires i <= |c| && si <= |d| && si <= room && c[i..] == Packed(d, si)
    ensures FitsAsFarAs(d, room, Expand(c, i, room, d[..si]))
    decreases |d| - si
  {
    hide Piece, Span;
    if si == |d| {
      assert d[..|d|] == d;
    } else if si < room {
      Cut(c, i, Piece(d, si), Packed(d, si + Span(d, si)));
      if si + Span(d, si) <= room {
        hide Expand;
        ExpandPiece(c, i, room, d, si);
        ExpandPacked(c, i + |Piece(d, si)|, room, d, si + Span(d, si));
      } else {
        PieceTooLong(c, i, room, d, si);
      }
    }
  }

  lemma Cut(c: seq<byte>, i: nat, p: seq<byte>, rest: seq<byte>)
    requires i <= |c| && c[i..] == p + rest
    ensures i + |p| <= |c| && c[i..i + |p|] == p && c[i + |p|..] == rest
  {
    assert c[i..i + |p|] == c[i..][..|p|];
    assert c[i + |p|..] == c[i..][|p|..];
  }

  method DeltaEncode(src: seq<byte>) returns (delta: array<byte>)
    requires |src| > 0
    ensures fresh(delta) && delta[..] == Delta(src)
  {
    delta := new byte[|src|];
    delta[0] := src[0];
    for i := 1 to |src|
      invariant forall j :: 0 <= j < i ==> delta[j] == DeltaAt(src, j)
    {
      delta[i] := Sub8(src[i], src[i - 1]);
    }
  }

  method MeasureRun(d: seq<byte>, si: nat) returns (run: nat)
    requires PairAt(d, si)
    ensures run == Span(d, si) <= MAX_RUN
  {
    run := 1;
    while si + run < |d| && d[si + run] == d[si] && run < MAX_RUN
      invariant 1 <= run <= MAX_RUN && si + run <= |d| && forall j :: si <= j < si + run ==> d[j] == d[si]
      invariant RunLength(d, si, run) == RunLength(d, si, 1)
    {
      run := run + 1;
    }
  }

  method MeasureLiteral(d: seq<byte>, si: nat) returns (llen: nat)
    requires si < |d| && !PairAt(d, si)
    ensures llen == Span(d, si) <= MAX_LITERAL
  {
    llen := 0;
    while si + llen < |d| && llen < MAX_LITERAL
      invariant llen <= MAX_LITERAL && si + llen <= |d| && forall j :: si <= j < si + llen ==> !PairAt(d, j)
      invariant LiteralRun(d, si, llen) == LiteralRun(d, si, 0)
    {
      if PairAt(d, si + llen) {
        break;
      }
      llen := llen + 1;
    }
  }

  /** `memcpy` of `n` bytes of `c` to `dst` at `di`. */
  method CopyBytes(dst: array<byte>, di: nat, c: seq<byte>, si: nat, n: nat)
    requires di + n <= dst.Length && si + n <= |c|
    modifies dst
    ensures dst[..di + n] == old(dst[..di]) + c[si..si + n]
  {
    forall j | 0 <= j < n {
      dst[di + j] := c[si + j];
    }
    assert dst[..di] == old(dst[..di]);
    ghost var copy := dst[di..di + n];
    assert copy == c[si..si + n] by {
      assert forall j :: 0 <= j < n ==> copy[j] == dst[di + j] == c[si..si + n][j];
    }
    assert dst[..di + n] == dst[..di] + copy;
  }

  method PutByte(dst: array<byte>, di: nat, v: byte)
    requires di < dst.Length
    modifies dst
    ensures dst[..di + 1] == old(dst[..di]) + [v]
  {
    dst[di] := v;
  }

  /** `memset` of `n` bytes at `di`. */
  method FillBytes(dst: array<byte>, di: nat, v: byte, n: nat)
    requires di + n <= dst.Length
    modifies dst
    ensures dst[..di + n] == old(dst[..di]) + Repeat(v, n)
  {
    forall j | di <= j < di + n {
      dst[j] := v;
    }
    assert dst[..di] == old(dst[..di]);
    ghost var filled := dst[di..di + n];
    assert filled == Repeat(v, n) by {
      assert forall j :: 0 <= j < n ==> filled[j] == dst[di + j] == v;
    }
    assert dst[..di + n] == dst[..di] + filled;
  }

  method EmitRun(dst: array<byte>, di: nat, d: seq<byte>, si: nat, run: nat)
    requires PairAt(d, si) && run == Span(d, si) && di + 2 <= dst.Length
    modifies dst
    ensures |Piece(d, si)| == 2 && dst[..di + 2] == old(dst[..di]) + Piece(d, si)
  {
    dst[di] := run;
    dst[di + 1] := d[si];
  }

  method EmitLiteral(dst: array<byte>, di: nat, d: seq<byte>, si: nat, llen: nat)
    requires si < |d| && !PairAt(d, si) && llen == Span(d, si) && di + 1 + llen <= dst.Length
    modifies dst
    ensures |Piece(d, si)| == 1 + llen && dst[..di + 1 + llen] == old(dst[..di]) + Piece(d, si)
  {
    hide Piece, Span, PairAt;
    ghost var done := dst[..di];
    LiteralPiece(d, si, done);
    PutByte(dst, di, LiteralCount(llen));
    CopyBytes(dst, di + 1, d, si, llen);
  }

  lemma LiteralPiece(d: seq<byte>, si: nat, done: seq<byte>)
    requires si < |d| && !PairAt(d, si)
    ensures var n := Span(d, si);
            n <= MAX_LITERAL && |Piece(d, si)| == 1 + n
            && done + Piece(d, si) == done + [LiteralCount(n)] + d[si..si + n]
  {
  }

  lemma PackStep(d: seq<byte>, si: nat, done: seq<byte>)
    requires si < |d|
    ensures done + Packed(d, si) == (done + Piece(d, si)) + Packed(d, si + Span(d, si))
  {
  }

  lemma NothingLeft(d: seq<byte>)
    ensures Packed(d, |d|) == []
  {
  }

  /** The packed differences if they are worth it and fit, otherwise nothing. */
  method Compress(src: seq<byte>, dst: array<byte>) returns (k: nat)
    modifies dst
    ensures
      var p := Packed(Delta(src), 0);
      if |src| <= THRESHOLD || |p| > dst.Length || |p| >= |src| then k == 0
      else k == |p| <= dst.Length && dst[..k] == p
  {
    hide Packed, Piece, Span, Delta;
    if |src| <= THRESHOLD {
      return 0;
    }
    var delta := DeltaEncode(src);
    var d := delta[..];
    var di: nat, si: nat := 0, 0;
    while si < |d|
      invariant si <= |d| && di <= dst.Length
      invariant d == Delta(src)
      invariant Packed(d, 0) == dst[..di] + Packed(d, si)
      decreases |d| - si
    {
      PackStep(d, si, dst[..di]);
      if PairAt(d, si) {
        var run := MeasureRun(d, si);
        if di + 2 > dst.Length {
          return 0;
        }
        EmitRun(dst, di, d, si, run);
        di, si := di + 2, si + run;
      } else {
        var llen := MeasureLiteral(d, si);
        if di + 1 + llen > dst.Length {
          return 0;
        }
        EmitLiteral(dst, di, d, si, llen);
        di, si := di + 1 + llen, si + llen;
      }
    }
    NothingLeft(d);
    k := if di >= |src| then 0 else di;
  }

  /** What decompression into `room` bytes yields; nothing for a malformed or empty stream. */
  function Decoded(c: seq<byte>, room: nat): seq<byte> {
    match Expand(c, 0, room, [])
    case None => []
    case Some(d) => Undelta(d)
  }

  /** Expands `c` into `decoded`, which has the room there is. */
  method ExpandInto(c: seq<byte>, decoded: array<byte>) returns (ok: bool, di: nat)
    modifies decoded
    ensures di <= decoded.Length
    ensures Expand(c, 0, decoded.Length, []) == if ok then Some(decoded[..di]) else None
  {
    var si := 0;
    di := 0;
    while si < |c| && di < decoded.Length
      invariant si <= |c| && di <= decoded.Length
      invariant Expand(c, 0, decoded.Length, []) == Expand(c, si, decoded.Length, decoded[..di])
      decreases |c| - si
    {
      var count := c[si];
      si := si + 1;
      if 0 < count <= 127 {
        if si >= |c| {
          return false, di;
        }
        var val := c[si];
        si := si + 1;
        if di + count > decoded.Length {
          return false, di;
        }
        FillBytes(decoded, di, val, count);
        di := di + count;
      } else {
        var n := LiteralLength(count);
        if si + n > |c| || di + n > decoded.Length {
          return false, di;
        }
        CopyBytes(decoded, di, c, si, n);
        si, di := si + n, di + n;
      }
    }
    ok := true;
  }

  method Decompress(c: seq<byte>, dst: array<byte>) returns (k: nat)
    modifies dst
    ensures k == |Decoded(c, dst.Length)| <= dst.Length
    ensures dst[..k] == Decoded(c, dst.Length) && dst[k..] == old(dst[k..])
  {
    var decoded := new byte[dst.Length];
    var ok, di := ExpandInto(c, decoded);
    if !ok || di == 0 {
      return 0;
    }
    ghost var d := decoded[..di];
    dst[0] := decoded[0];
    for i := 1 to di
      invariant decoded[..di] == d
      invariant forall j {:trigger dst[j]} :: 0 <= j < i ==> dst[j] == SumAt(d, j)
      invariant forall j :: di <= j < dst.Length ==> dst[j] == old(dst[j])
    {
      assert decoded[i] == d[i] && dst[i - 1] == SumAt(d, i - 1);
      hide Add8;
      dst[i] := Add8(decoded[i], dst[i - 1]);
    }
    k := di;
    assert dst[..k] == Undelta(d);
  }

  lemma UndeltaPrefix(d: seq<byte>, n: nat)
    requires n <= |d|
    ensures Undelta(d[..n]) == Undelta(d)[..n]
  {
    forall i: nat | i < n ensures SumAt(d[..n], i) == SumAt(d, i) {
      SumPrefix(d, n, i);
    }
  }

  lemma {:induction false} SumPrefix(d: seq<byte>, n: nat, i: nat)
    requires i < n <= |d|
    ensures SumAt(d[..n], i) == SumAt(d, i)
  {
    if i > 0 {
      SumPrefix(d, n, i - 1);
    }
  }

  /** Decompressing what the differences of `src` pack to restores `src` if there
      is room for it; else it yields nothing, or the beginning of `src`. */
  lemma PackedDecodes(src: seq<byte>, room: nat)
    ensures
      var r := Decoded(Packed(Delta(src), 0), room);
      if |src| <= room then r == src else r == [] || r == src[..room]
  {
    var d := Delta(src);
    var c := Packed(d, 0);
    assert c[0..] == c && d[..0] == [];
    ExpandPacked(c, 0, room, d, 0);
    UndeltaRestores(src);
    if room < |src| {
      UndeltaPrefix(d, room);
    }
  }

  /** Whenever compression yields anything, it is shorter, and decompression with
      room for the original restores it, byte for byte and with nothing written
      behind it; with less room it yields nothing, or fills the room with what
      the original begins with. */
  method RoundTrip(src: seq<byte>, dst: array<byte>, back: array<byte>) returns (k: nat, n: nat)
    requires back != dst
    modifies dst, back
    ensures n <= back.Length && back[n..] == old(back[n..])
    ensures k > 0 ==> k < |src| && back[..n] <= src
    ensures k > 0 ==> if |src| <= back.Length then n == |src| else n == 0 || n == back.Length
  {
    k := Compress(src, dst);
    n := 0;
    if k > 0 {
      PackedDecodes(src, back.Length);
      n := Decompress(dst[..k], back);
    }
  }

  /** A positive count repeats the byte behind it, a negative one announces so many
      bytes as they are; the sum of the differences runs on over both. */
  lemma KnownStream()
    ensures Expand([3, 7, 254, 1, 2], 0, 5, []) == Some([7, 7, 7, 1, 2])
    ensures Undelta([7, 7, 7, 1, 250]) == [7, 14, 21, 22, 16]
    ensures Expand([3], 0, 5, []) == None && Expand([254, 1], 0, 5, []) == None && Expand([6, 7], 0, 5, []) == None
  {
    var c: seq<byte> := [3, 7, 254, 1, 2];
    var three: seq<byte> := [] + Repeat(7, 3);
    assert three == [7, 7, 7];
    assert c[3..5] == [1, 2] && LiteralLength(254) == 2;
    assert Expand(c, 0, 5, []) == Expand(c, 2, 5, three);
    assert three + [1, 2] == [7, 7, 7, 1, 2];
    assert Expand(c, 2, 5, three) == Expand(c, 5, 5, three + [1, 2]);
    assert SumAt([7, 7, 7, 1, 250], 1) == 14;
    assert SumAt([7, 7, 7, 1, 250], 2) == 21;
    assert SumAt([7, 7, 7, 1, 250], 3) == 22;
    assert SumAt([7, 7, 7, 1, 250], 4) == 16;
  }

  // What is worth packing.

  /** Equal bytes pack to two bytes for every 127 of them. */
  lemma {:induction false} EqualBytesPack(d: seq<byte>, si: nat)
    requires si <= |d| && forall j :: si <= j < |d| ==> d[j] == d[si]
    ensures |Packed(d, si)| == 2 * ((|d| - si + 126) / 127)
    decreases |d| - si
  {
    if si < |d| {
      var n := Span(d, si);
      EqualSpan(d, si);
      PackedLength(d, si);
      hide Packed, Piece, Span;
      EqualBytesPack(d, si + n);
      By127(|d| - si);
    } else {
      NothingLeft(d);
    }
  }

  lemma PackedLength(d: seq<byte>, si: nat)
    requires si < |d|
    ensures |Packed(d, si)| == |Piece(d, si)| + |Packed(d, si + Span(d, si))|
  {
  }

  lemma By127(n: nat)
    ensures n > 127 ==> (n + 126) / 127 == 1 + (n - 127 + 126) / 127
    ensures 0 < n <= 127 ==> (n + 126) / 127 == 1
  {
  }

  /** Each piece takes all that is left, or 127 bytes of it. */
  lemma EqualSpan(d: seq<byte>, si: nat)
    requires si < |d| && forall j :: si <= j < |d| ==> d[j] == d[si]
    ensures |Piece(d, si)| == 2 && Span(d, si) == if |d| - si < 127 then |d| - si else 127
  {
    if PairAt(d, si) {
      var n := RunLength(d, si, 1);
      assert si + n < |d| ==> d[si + n] == d[si];
    } else {
      assert si + 1 == |d|;
    }
  }

  /** The differences of a byte repeated are that byte and zeros. */
  lemma RepeatedPacks(v: byte, n: nat)
    requires n > 2
    ensures |Packed(Delta(Repeat(v, n)), 0)| <= 2 + 2 * ((n + 125) / 127)
  {
    var d := Delta(Repeat(v, n));
    assert forall j :: 1 <= j < n ==> d[j] == 0;
    if v == 0 {
      EqualBytesPack(d, 0);
    } else {
      assert !PairAt(d, 0) && PairAt(d, 1);
      assert Span(d, 0) == 1;
      EqualBytesPack(d, 1);
    }
  }

  /** A byte repeated more than 2000 times is compressed, whatever byte it is and as
      long as it fits; up to 2000 bytes never are. */
  method CompressRepeated(v: byte, n: nat, dst: array<byte>) returns (k: nat)
    modifies dst
    ensures n > 2000 && dst.Length >= 2 + 2 * ((n + 125) / 127) ==> 0 < k <= 2 + 2 * ((n + 125) / 127) < n
    ensures n <= 2000 ==> k == 0
  {
    if n > 2 {
      RepeatedPacks(v, n);
    }
    k := Compress(Repeat(v, n), dst);
    if k == 0 && n > 2000 && dst.Length >= 2 + 2 * ((n + 125) / 127) {
      NotEmpty(Delta(Repeat(v, n)));
    }
  }

  lemma NotEmpty(d: seq<byte>)
    ensures d != [] ==> |Packed(d, 0)| > 0
  {
  }
}
