/** The receiving side of an IPC connection: the credentials line, then frames
    of an eight-byte header and a payload. */
module Framing {
  import opened Bytes

  const KDB_HDR_LEN: nat := 8
  const KDB_HS_MAX: nat := 512
  const MSG_MAX: nat := 0x7fff_ffff

  datatype Frame = Frame(msgtype: nat, bigEndian: bool, zip: bool, payload: seq<byte>)

  /** What the connection hands to the rest of the process. */
  datatype Event = Credentials(user: seq<byte>) | Dispatch(f: Frame)

  /** The verdicts of code that is not modelled: whether a prefix of the line
      is an HTTP request, whether credentials are accepted, and whether a
      dispatched frame makes the connection close. */
  datatype Peer = Peer(http: seq<byte> -> bool, accepts: seq<byte> -> bool, fatal: Frame -> bool)

  datatype Header = BadHeader | Header(msgtype: nat, bigEndian: bool, zip: bool, plen: nat)

  function Big32(b: seq<byte>): nat
    requires |b| == 4
  {
    ((b[0] * 256 + b[1] as int) * 256 + b[2] as int) * 256 + b[3] as int
  }

  /** `kdb_hdr_parse`. */
  function ParseHeader(h: seq<byte>): Header
    requires |h| == KDB_HDR_LEN
  {
    if h[0] > 1 || h[1] > 2 || h[2] > 1 || h[3] != 0 then BadHeader
    else
      var n := if h[0] == 0 then Big32(h[4..8]) else Big32([h[7], h[6], h[5], h[4]]);
      if n < KDB_HDR_LEN + 1 || n > MSG_MAX then BadHeader
      else Header(h[1], h[0] == 0, h[2] == 1, n - KDB_HDR_LEN)
  }

  // ----- the stream as a whole -----

  /** What is left over: an unfinished credentials line, header or payload, a
      closed connection, or one handed over to the HTTP reader. */
  datatype Rest =
    | Line(hs: seq<byte>)
    | Head(got: seq<byte>)
    | Body(h: Header, got: seq<byte>)
    | Closed
    | Handed(prefix: seq<byte>)

  datatype Outcome = Outcome(events: seq<Event>, rest: Rest)

  function Then(es: seq<Event>, o: Outcome): Outcome {
    Outcome(es + o.events, o.rest)
  }

  function FrameOf(h: Header, payload: seq<byte>): Frame
    requires h.Header?
  {
    Frame(h.msgtype, h.bigEndian, h.zip, payload)
  }

  function ParseLine(p: Peer, hs: seq<byte>, s: seq<byte>): Outcome
    decreases |s|
  {
    if s == [] then Outcome([], Line(hs))
    else if s[0] == 0 then
      if p.accepts(hs) then Then([Credentials(hs)], ParseFrames(p, s[1..])) else Outcome([], Closed)
    else if |hs| >= KDB_HS_MAX then Outcome([], Closed)
    else if p.http(hs + [s[0]]) then Outcome([], Handed(hs + [s[0]]))
    else ParseLine(p, hs + [s[0]], s[1..])
  }

  function ParseFrames(p: Peer, s: seq<byte>): Outcome
    decreases |s|, 1
  {
    if |s| < KDB_HDR_LEN then Outcome([], Head(s))
    else
      var h := ParseHeader(s[..KDB_HDR_LEN]);
      if h.BadHeader? then Outcome([], Closed) else ParseBody(p, h, s[KDB_HDR_LEN..])
  }

  /** A payload, and the frames behind it. */
  function ParseBody(p: Peer, h: Header, s: seq<byte>): Outcome
    requires h.Header?
    decreases |s|, 2
  {
    if |s| < h.plen then Outcome([], Body(h, s))
    else
      var f := FrameOf(h, s[..h.plen]);
      if p.fatal(f) then Outcome([Dispatch(f)], Closed)
      else Then([Dispatch(f)], ParseFrames(p, s[h.plen..]))
  }

  /** What becomes of `s` when it arrives after `r`. */
  function Feed(p: Peer, r: Rest, s: seq<byte>): Outcome {
    match r
    case Line(hs) => ParseLine(p, hs, s)
    case Head(got) => ParseFrames(p, got + s)
    case Body(h, got) => if h.Header? then ParseBody(p, h, got + s) else Outcome([], r)
    case _ => Outcome([], r)
  }

  /** A rest that can be: nothing in it is complete. */
  predicate Proper(r: Rest) {
    match r
    case Head(got) => |got| < KDB_HDR_LEN
    case Body(h, got) => h.Header? && |got| < h.plen
    case _ => true
  }

  lemma {:induction false} FramesSplit(p: Peer, a: seq<byte>, b: seq<byte>)
    ensures var o := ParseFrames(p, a);
            Proper(o.rest) && ParseFrames(p, a + b) == Then(o.events, Feed(p, o.rest, b))
    decreases |a|, 1
  {
    hide ParseBody;
    if |a| >= KDB_HDR_LEN {
      var h := ParseHeader(a[..KDB_HDR_LEN]);
      assert (a + b)[..KDB_HDR_LEN] == a[..KDB_HDR_LEN];
      assert (a + b)[KDB_HDR_LEN..] == a[KDB_HDR_LEN..] + b;
      if h.Header? {
        BodySplit(p, h, a[KDB_HDR_LEN..], b);
      }
    }
  }

  lemma {:induction false} BodySplit(p: Peer, h: Header, a: seq<byte>, b: seq<byte>)
    requires h.Header?
    ensures var o := ParseBody(p, h, a);
            Proper(o.rest) && ParseBody(p, h, a + b) == Then(o.events, Feed(p, o.rest, b))
    decreases |a|, 2
  {
    hide ParseFrames;
    if |a| >= h.plen {
      assert (a + b)[..h.plen] == a[..h.plen] && (a + b)[h.plen..] == a[h.plen..] + b;
      var f := FrameOf(h, a[..h.plen]);
      if !p.fatal(f) {
        FramesSplit(p, a[h.plen..], b);
      }
    }
  }

  lemma {:induction false} LineSplit(p: Peer, hs: seq<byte>, a: seq<byte>, b: seq<byte>)
    ensures var o := ParseLine(p, hs, a);
            Proper(o.rest) && ParseLine(p, hs, a + b) == Then(o.events, Feed(p, o.rest, b))
    decreases |a|
  {
    if a == [] {
      assert a + b == b;
    } else {
      assert (a + b)[0] == a[0] && (a + b)[1..] == a[1..] + b;
      if a[0] == 0 {
        if p.accepts(hs) {
          FramesSplit(p, a[1..], b);
          var o := ParseFrames(p, a[1..]);
          assert [Credentials(hs)] + (o.events + Feed(p, o.rest, b).events) == [Credentials(hs)] + o.events + Feed(p, o.rest, b).events;
        }
      } else if |hs| < KDB_HS_MAX && !p.http(hs + [a[0]]) {
        LineSplit(p, hs + [a[0]], a[1..], b);
      }
    }
  }

  /** Chunking independence: bytes that arrive in two pieces have the effect of
      the same bytes arriving in one. */
  lemma FeedSplit(p: Peer, r: Rest, a: seq<byte>, b: seq<byte>)
    requires Proper(r)
    ensures var o := Feed(p, r, a);
            Proper(o.rest) && Feed(p, r, a + b) == Then(o.events, Feed(p, o.rest, b))
  {
    hide ParseFrames, ParseBody, ParseLine;
    match r
    case Line(hs) => LineSplit(p, hs, a, b);
    case Head(got) =>
      FramesSplit(p, got + a, b);
      assert got + (a + b) == got + a + b;
    case Body(h, got) =>
      BodySplit(p, h, got + a, b);
      assert got + (a + b) == got + a + b;
    case _ =>
  }

  function Flatten(chunks: seq<seq<byte>>): seq<byte> {
    if chunks == [] then [] else chunks[0] + Flatten(chunks[1..])
  }

  function FeedAll(p: Peer, r: Rest, chunks: seq<seq<byte>>): Outcome
    decreases |chunks|
  {
    if chunks == [] then Outcome([], r)
    else
      var o := Feed(p, r, chunks[0]);
      Then(o.events, FeedAll(p, o.rest, chunks[1..]))
  }

  /** However a stream is cut into chunks, the events and the rest are those of
      the stream as a whole. */
  lemma {:induction false} ChunksDoNotMatter(p: Peer, r: Rest, chunks: seq<seq<byte>>)
    requires Proper(r)
    ensures FeedAll(p, r, chunks) == Feed(p, r, Flatten(chunks))
    decreases |chunks|
  {
    if chunks == [] {
      FeedNothing(p, r);
    } else {
      FeedSplit(p, r, chunks[0], Flatten(chunks[1..]));
      ChunksDoNotMatter(p, Feed(p, r, chunks[0]).rest, chunks[1..]);
    }
  }

  lemma FeedNothing(p: Peer, r: Rest)
    requires Proper(r)
    ensures Feed(p, r, []) == Outcome([], r)
  {
    match r
    case Head(got) => assert got + [] == got;
    case Body(h, got) => assert got + [] == got;
    case _ =>
  }

  // ----- the stream a client sends -----

  function Encode32(n: nat, bigEndian: bool): (r: seq<byte>)
    requires n <= MSG_MAX
    ensures |r| == 4
  {
    var b0, b1, b2, b3 := n / 0x100_0000, n / 0x1_0000 % 256, n / 256 % 256, n % 256;
    if bigEndian then [b0, b1, b2, b3] else [b3, b2, b1, b0]
  }

  predicate Sendable(f: Frame) {
    f.msgtype <= 2 && 1 <= |f.payload| <= MSG_MAX - KDB_HDR_LEN
  }

  function EncodeHeader(f: Frame): (r: seq<byte>)
    requires Sendable(f)
    ensures |r| == KDB_HDR_LEN
  {
    [if f.bigEndian then 0 else 1, f.msgtype, if f.zip then 1 else 0, 0] +
    Encode32(KDB_HDR_LEN + |f.payload|, f.bigEndian)
  }

  function EncodeFrames(fs: seq<Frame>): seq<byte>
    requires forall f :: f in fs ==> Sendable(f)
  {
    if fs == [] then [] else EncodeHeader(fs[0]) + fs[0].payload + EncodeFrames(fs[1..])
  }

  function Dispatches(fs: seq<Frame>): (r: seq<Event>)
    ensures |r| == |fs|
  {
    seq(|fs|, i requires 0 <= i < |fs| => Dispatch(fs[i]))
  }

  lemma Digits256(n: nat)
    requires n <= MSG_MAX
    ensures ((n / 0x100_0000 * 256 + n / 0x1_0000 % 256) * 256 + n / 256 % 256) * 256 + n % 256 == n
  {
    assert n / 0x1_0000 == n / 256 / 256 && n / 0x100_0000 == n / 0x1_0000 / 256;
  }

  lemma HeaderRoundTrip(f: Frame)
    requires Sendable(f)
    ensures ParseHeader(EncodeHeader(f)) == Header(f.msgtype, f.bigEndian, f.zip, |f.payload|)
  {
    var n := KDB_HDR_LEN + |f.payload|;
    Digits256(n);
    var h, e := EncodeHeader(f), Encode32(n, f.bigEndian);
    assert h[4] == e[0] && h[5] == e[1] && h[6] == e[2] && h[7] == e[3];
    assert h[4..8] == e;
  }

  /** The frames sent are the frames dispatched, up to the first that makes the
      connection close. */
  lemma {:induction false} FramesRoundTrip(p: Peer, fs: seq<Frame>)
    requires forall f :: f in fs ==> Sendable(f) && !p.fatal(f)
    ensures ParseFrames(p, EncodeFrames(fs)) == Outcome(Dispatches(fs), Head([]))
    decreases |fs|
  {
    if fs != [] {
      var f, s := fs[0], EncodeFrames(fs);
      HeaderRoundTrip(f);
      FramesRoundTrip(p, fs[1..]);
      assert s[..KDB_HDR_LEN] == EncodeHeader(f);
      assert s[KDB_HDR_LEN..][..|f.payload|] == f.payload && s[KDB_HDR_LEN..][|f.payload|..] == EncodeFrames(fs[1..]);
      assert Dispatches(fs) == [Dispatch(f)] + Dispatches(fs[1..]);
    }
  }

  /** A line the handshake reads to its end. */
  predicate PlainLine(p: Peer, user: seq<byte>) {
    && |user| <= KDB_HS_MAX
    && (forall i :: 0 <= i < |user| ==> user[i] != 0)
    && (forall i :: 0 < i <= |user| ==> !p.http(user[..i]))
  }

  lemma {:induction false} LineRoundTrip(p: Peer, user: seq<byte>, n: nat, s: seq<byte>)
    requires PlainLine(p, user) && n <= |user| && p.accepts(user)
    ensures ParseLine(p, user[..n], user[n..] + [0] + s) == Then([Credentials(user)], ParseFrames(p, s))
    decreases |user| - n
  {
    var t := user[n..] + [0] + s;
    if n == |user| {
      assert t == [0] + s && t[1..] == s && user[..n] == user;
    } else {
      assert t[0] == user[n] && t[1..] == user[n + 1..] + [0] + s;
      assert user[..n] + [user[n]] == user[..n + 1];
      LineRoundTrip(p, user, n + 1, s);
    }
  }

  /** End to end: whatever a client sends, and however the network cuts it up,
      the server sees the credentials and then exactly the frames sent. */
  lemma Delivered(p: Peer, user: seq<byte>, fs: seq<Frame>, chunks: seq<seq<byte>>)
    requires PlainLine(p, user) && p.accepts(user)
    requires forall f :: f in fs ==> Sendable(f) && !p.fatal(f)
    requires Flatten(chunks) == user + [0] + EncodeFrames(fs)
    ensures FeedAll(p, Line([]), chunks) == Outcome([Credentials(user)] + Dispatches(fs), Head([]))
  {
    ChunksDoNotMatter(p, Line([]), chunks);
    assert user[0..] == user && user[..0] == [];
    LineRoundTrip(p, user, 0, EncodeFrames(fs));
    FramesRoundTrip(p, fs);
  }

  // What is turned away.

  /** Credentials that are refused close the connection, whatever follows them. */
  lemma {:induction false} RefusedCloses(p: Peer, user: seq<byte>, n: nat, s: seq<byte>)
    requires PlainLine(p, user) && n <= |user| && !p.accepts(user)
    ensures ParseLine(p, user[..n], user[n..] + [0] + s) == Outcome([], Closed)
    decreases |user| - n
  {
    var t := user[n..] + [0] + s;
    if n == |user| {
      assert user[..n] == user;
    } else {
      assert t[0] == user[n] && t[1..] == user[n + 1..] + [0] + s;
      assert user[..n] + [user[n]] == user[..n + 1];
      RefusedCloses(p, user, n + 1, s);
    }
  }

  /** So does a line of more than 512 bytes. */
  lemma {:induction false} LongLineCloses(p: Peer, line: seq<byte>, n: nat, s: seq<byte>)
    requires PlainLine(p, line) && |line| == 512 && n <= 512 && s != [] && s[0] != 0
    ensures ParseLine(p, line[..n], line[n..] + s) == Outcome([], Closed)
    decreases 512 - n
  {
    var t := line[n..] + s;
    if n < 512 {
      assert t[0] == line[n] && t[1..] == line[n + 1..] + s;
      assert line[..n] + [line[n]] == line[..n + 1];
      LongLineCloses(p, line, n + 1, s);
    } else {
      assert t == s;
    }
  }

  /** A line that begins like an HTTP request is handed over with all that was read. */
  lemma {:induction false} RequestIsHanded(p: Peer, line: seq<byte>, n: nat, s: seq<byte>)
    requires n < |line| <= 512 && p.http(line) && forall i :: 0 < i < |line| ==> !p.http(line[..i])
    requires forall i :: 0 <= i < |line| ==> line[i] != 0
    ensures ParseLine(p, line[..n], line[n..] + s) == Outcome([], Handed(line))
    decreases |line| - n
  {
    var t := line[n..] + s;
    assert t[0] == line[n] && t[1..] == line[n + 1..] + s;
    assert line[..n] + [line[n]] == line[..n + 1];
    if n + 1 == |line| {
      assert line[..n + 1] == line;
    } else {
      RequestIsHanded(p, line, n + 1, s);
    }
  }

  predicate OnlyFrames(events: seq<Event>) {
    forall i :: 0 <= i < |events| ==> events[i].Dispatch?
  }

  lemma {:induction false} FramesOnly(p: Peer, s: seq<byte>)
    ensures OnlyFrames(ParseFrames(p, s).events)
    decreases |s|
  {
    if |s| >= KDB_HDR_LEN {
      var h, t := ParseHeader(s[..KDB_HDR_LEN]), s[KDB_HDR_LEN..];
      if h.Header? && |t| >= h.plen {
        FramesOnly(p, t[h.plen..]);
      }
    }
  }

  /** The events begin with credentials that were accepted and that the stream
      spells out up to its first zero byte. */
  ghost predicate Authenticated(p: Peer, hs: seq<byte>, s: seq<byte>, events: seq<Event>) {
    events != [] ==>
      && events[0].Credentials? && p.accepts(events[0].user) && OnlyFrames(events[1..])
      && (exists k :: 0 <= k < |s| && s[k] == 0 && 0 !in s[..k] && events[0].user == hs + s[..k])
  }

  lemma {:induction false} LineAuthenticates(p: Peer, hs: seq<byte>, s: seq<byte>)
    ensures Authenticated(p, hs, s, ParseLine(p, hs, s).events)
    decreases |s|
  {
    if s != [] {
      if s[0] == 0 {
        FramesOnly(p, s[1..]);
        assert hs + s[..0] == hs;
        var events := ParseLine(p, hs, s).events;
        assert events != [] ==> events[1..] == ParseFrames(p, s[1..]).events;
      } else {
        LineAuthenticates(p, hs + [s[0]], s[1..]);
        forall k | 0 <= k < |s[1..]| && s[1..][k] == 0 && 0 !in s[1..][..k]
          ensures s[k + 1] == 0 && 0 !in s[..k + 1] && hs + [s[0]] + s[1..][..k] == hs + s[..k + 1]
        {
          assert s[..k + 1] == [s[0]] + s[1..][..k];
        }
      }
    }
  }

  /** Nothing is dispatched for a client that has not shown accepted credentials,
      in however many pieces its bytes arrive. */
  lemma NoFrameBeforeCredentials(p: Peer, chunks: seq<seq<byte>>)
    ensures Authenticated(p, [], Flatten(chunks), FeedAll(p, Line([]), chunks).events)
  {
    ChunksDoNotMatter(p, Line([]), chunks);
    LineAuthenticates(p, [], Flatten(chunks));
  }

  /** The length is in the order the first byte announces: 0 for the highest byte
      first, 1 for the lowest. */
  lemma KnownHeaders()
    ensures ParseHeader([1, 2, 0, 0, 14, 1, 0, 0]) == Header(2, false, false, 262)
    ensures ParseHeader([0, 1, 1, 0, 0, 0, 1, 14]) == Header(1, true, true, 262)
    ensures ParseHeader([1, 0, 0, 0, 8, 0, 0, 0]) == BadHeader && ParseHeader([2, 0, 0, 0, 14, 0, 0, 0]) == BadHeader
    ensures ParseHeader([1, 3, 0, 0, 14, 0, 0, 0]) == BadHeader && ParseHeader([1, 0, 0, 1, 14, 0, 0, 0]) == BadHeader
    ensures ParseHeader([1, 0, 0, 0, 0, 0, 0, 128]) == BadHeader
  {
    var h: seq<byte> := [0, 1, 1, 0, 0, 0, 1, 14];
    assert h[4..8] == [0, 0, 1, 14];
  }

  /** A header is accepted only if some frame has it. */
  lemma HeaderIsExact(h: seq<byte>, payload: seq<byte>)
    requires |h| == 8 && ParseHeader(h).Header? && |payload| == ParseHeader(h).plen
    ensures var r := ParseHeader(h);
            var f := Frame(r.msgtype, r.bigEndian, r.zip, payload);
            Sendable(f) && EncodeHeader(f) == h
  {
    var r := ParseHeader(h);
    var n := 8 + |payload|;
    if h[0] == 0 {
      DigitsBack(h[4], h[5], h[6], h[7]);
    } else {
      DigitsBack(h[7], h[6], h[5], h[4]);
    }
  }

  lemma DigitsBack(b0: byte, b1: byte, b2: byte, b3: byte)
    ensures var n := ((b0 * 256 + b1 as int) * 256 + b2 as int) * 256 + b3 as int;
            n / 0x100_0000 == b0 && n / 0x1_0000 % 256 == b1 && n / 256 % 256 == b2 && n % 256 == b3
  {
    var n := ((b0 * 256 + b1 as int) * 256 + b2 as int) * 256 + b3 as int;
    assert n / 256 == (b0 * 256 + b1 as int) * 256 + b2 as int;
    assert n / 0x1_0000 == n / 256 / 256 && n / 0x100_0000 == n / 256 / 256 / 256;
  }

  lemma FrameParsed(p: Peer, f: Frame, s: seq<byte>)
    requires Sendable(f)
    ensures ParseFrames(p, EncodeHeader(f) + f.payload + s) ==
            if p.fatal(f) then Outcome([Dispatch(f)], Closed) else Then([Dispatch(f)], ParseFrames(p, s))
  {
    var t := EncodeHeader(f) + f.payload + s;
    HeaderRoundTrip(f);
    assert t[..8] == EncodeHeader(f);
    assert t[8..][..|f.payload|] == f.payload && t[8..][|f.payload|..] == s;
    hide EncodeHeader, ParseHeader;
  }

  lemma Regroup<T>(a: seq<T>, b: seq<T>, c: seq<T>, d: seq<T>)
    ensures a + b + c + d == a + b + (c + d)
  {
  }

  /** Frames that are handled without closing leave the rest of the stream to be read. */
  lemma {:induction false} FramesThen(p: Peer, fs: seq<Frame>, s: seq<byte>)
    requires forall f :: f in fs ==> Sendable(f) && !p.fatal(f)
    ensures ParseFrames(p, EncodeFrames(fs) + s) == Then(Dispatches(fs), ParseFrames(p, s))
    decreases |fs|
  {
    hide EncodeHeader, ParseFrames;
    if fs == [] {
      assert [] + s == s;
    } else {
      var f, rest := fs[0], EncodeFrames(fs[1..]);
      FramesThen(p, fs[1..], s);
      FrameParsed(p, f, rest + s);
      Regroup(EncodeHeader(f), f.payload, rest, s);
      assert Dispatches(fs) == [Dispatch(f)] + Dispatches(fs[1..]);
    }
  }

  /** Behind good frames, a header that no frame has closes the connection. */
  lemma BadHeaderCloses(p: Peer, fs: seq<Frame>, h: seq<byte>, s: seq<byte>)
    requires forall f :: f in fs ==> Sendable(f) && !p.fatal(f)
    requires |h| == 8 && ParseHeader(h).BadHeader?
    ensures ParseFrames(p, EncodeFrames(fs) + (h + s)) == Outcome(Dispatches(fs), Closed)
  {
    FramesThen(p, fs, h + s);
    assert (h + s)[..8] == h;
    hide ParseHeader, EncodeFrames;
  }

  /** A frame whose handling asks for it closes the connection: it is the last. */
  lemma FatalCloses(p: Peer, fs: seq<Frame>, f: Frame, s: seq<byte>)
    requires forall g :: g in fs ==> Sendable(g) && !p.fatal(g)
    requires Sendable(f) && p.fatal(f)
    ensures ParseFrames(p, EncodeFrames(fs) + (EncodeHeader(f) + f.payload + s)) == Outcome(Dispatches(fs + [f]), Closed)
  {
    FramesThen(p, fs, EncodeHeader(f) + f.payload + s);
    FrameParsed(p, f, s);
    hide EncodeHeader, EncodeFrames, ParseFrames;
    assert Dispatches(fs + [f]) == Dispatches(fs) + [Dispatch(f)];
  }
}
