/** One connection's receive state machine, driven by the readable-drain loop of
    the poll backends: fill the requested buffer, advance the phase, repeat. */
module Connection {
  import opened Bytes
  import opened Framing

  const RESP: nat := 2

  /** A frame that a waiting sender takes as its answer. */
  predicate IsAnswer(e: Event) {
    e.Dispatch? && e.f.msgtype == RESP
  }

  datatype Phase = Handshake | HeaderPhase | Payload | Http

  class Conn {
    const peer: Peer
    var open: bool
    var phase: Phase
    var hs: seq<byte>
    var hdr: Header
    var data: array<byte>
    var size: nat
    var offset: nat
    var out: seq<Event>

    ghost predicate Valid()
      reads this
    {
      open && phase != Http ==>
        && offset < size <= data.Length
        && match phase
           case Handshake => size == 1
           case HeaderPhase => size == KDB_HDR_LEN
           case Payload => hdr.Header? && size == hdr.plen
           case Http => true
    }

    /** What has been received and not been used up. */
    ghost function Rest(): Rest
      requires Valid()
      reads this, data
    {
      if !open then Closed
      else
        match phase
        case Http => Handed(hs)
        case Handshake => Line(hs)
        case HeaderPhase => Head(data[..offset])
        case Payload => Body(hdr, data[..offset])
    }

    /** What the connection will make of the bytes in its buffer and of `s` behind them. */
    ghost function Ahead(s: seq<byte>): Outcome
      requires offset <= data.Length
      reads this, data
    {
      if !open then Outcome([], Closed)
      else
        match phase
        case Http => Outcome([], Handed(hs))
        case Handshake => ParseLine(peer, hs, data[..offset] + s)
        case HeaderPhase => ParseFrames(peer, data[..offset] + s)
        case Payload => if hdr.Header? then ParseBody(peer, hdr, data[..offset] + s) else Outcome([], Closed)
    }

    constructor (peer: Peer)
      ensures Valid() && Rest() == Line([]) && out == [] && this.peer == peer && fresh(data)
    {
      this.peer := peer;
      open, phase, hs, hdr, out := true, Handshake, [], BadHeader, [];
      data := new byte[1](_ => 0);
      size, offset := 1, 0;
    }

    /** `ray_poll_rx_request`: reuse the buffer when it is large enough. */
    method RxRequest(n: nat)
      requires size <= data.Length
      modifies this`data, this`size, this`offset
      ensures offset == 0 && size == n <= data.Length && (data == old(data) || fresh(data))
    {
      if size < n {
        data := new byte[n](_ => 0);
      }
      size, offset := n, 0;
    }

    /** `ipc_read_handshake`, with its one byte in the buffer. */
    method ReadHandshake(ghost s: seq<byte>)
      requires open && phase == Handshake && offset == size == 1 <= data.Length
      modifies this
      ensures Valid() && offset <= data.Length && (data == old(data) || fresh(data))
      ensures old(out) <= out && old(Ahead(s)) == Then(out[|old(out)|..], Ahead(s)) && |out| <= |old(out)| + 1
    {
      var b := data[0];
      ghost var t := data[..1] + s;
      assert t[0] == b && t[1..] == s;
      if b != 0 {
        if |hs| >= KDB_HS_MAX {
          open := false;
          return;
        }
        hs := hs + [b];
        if peer.http(hs) {
          phase := Http;
        }
        RxRequest(1);
        assert data[..0] + s == s;
      } else if !peer.accepts(hs) {
        open := false;
      } else {
        out := out + [Credentials(hs)];
        phase := HeaderPhase;
        RxRequest(KDB_HDR_LEN);
        assert data[..0] + s == s;
      }
    }

    /** `ipc_read_header`, with a whole header in the buffer. */
    method ReadHeader(ghost s: seq<byte>)
      requires open && phase == HeaderPhase && offset == size == KDB_HDR_LEN <= data.Length
      modifies this
      ensures Valid() && offset <= data.Length && (data == old(data) || fresh(data))
      ensures out == old(out) && old(Ahead(s)) == Ahead(s)
    {
      var h := ParseHeader(data[..KDB_HDR_LEN]);
      ghost var t := data[..KDB_HDR_LEN] + s;
      assert t[..KDB_HDR_LEN] == data[..KDB_HDR_LEN] && t[KDB_HDR_LEN..] == s;
      if h.BadHeader? {
        open := false;
        return;
      }
      hdr := h;
      phase := Payload;
      RxRequest(h.plen);
      assert data[..0] + s == s;
    }

    /** `ipc_read_payload`: the machine is back at a header before the frame is dispatched. */
    method ReadPayload(ghost s: seq<byte>)
      requires open && phase == Payload && hdr.Header? && offset == size == hdr.plen <= data.Length
      modifies this
      ensures Valid() && offset <= data.Length && (data == old(data) || fresh(data))
      ensures old(out) <= out && old(Ahead(s)) == Then(out[|old(out)|..], Ahead(s)) && |out| <= |old(out)| + 1
    {
      var payload := data[..hdr.plen];
      ghost var t := data[..hdr.plen] + s;
      assert t[..hdr.plen] == payload && t[hdr.plen..] == s;
      size := 0;
      phase := HeaderPhase;
      RxRequest(KDB_HDR_LEN);
      assert data[..0] + s == s;
      var f := FrameOf(hdr, payload);
      out := out + [Dispatch(f)];
      if peer.fatal(f) {
        open := false;
      }
    }

    method ReadFn(ghost s: seq<byte>)
      requires open && phase != Http && 0 < offset == size <= data.Length
      requires phase == Handshake ==> size == 1
      requires phase == HeaderPhase ==> size == KDB_HDR_LEN
      requires phase == Payload ==> hdr.Header? && size == hdr.plen
      modifies this
      ensures Valid() && offset <= data.Length && (data == old(data) || fresh(data))
      ensures old(out) <= out && old(Ahead(s)) == Then(out[|old(out)|..], Ahead(s)) && |out| <= |old(out)| + 1
    {
      match phase
      case Handshake => ReadHandshake(s);
      case HeaderPhase => ReadHeader(s);
      case Payload => ReadPayload(s);
      case Http =>
    }

    /** One `recv`: some of the bytes that are there, as many as it likes. */
    method Recv(s: seq<byte>) returns (rest: seq<byte>)
      requires s != [] && offset < size <= data.Length
      modifies this`offset, data
      ensures old(offset) < offset <= size && |rest| < |s|
      ensures data[..offset] + rest == old(data[..offset]) + s
    {
      var most := if |s| <= size - offset then |s| else size - offset;
      var nr: nat :| 1 <= nr <= most;
      forall i | 0 <= i < nr {
        data[offset + i] := s[i];
      }
      rest := s[nr..];
      offset := offset + nr;
      assert s == s[..nr] + rest;
      assert data[..offset] == old(data[..offset]) + s[..nr];
    }

    /** Fill the requested buffer as far as the bytes go. */
    method Fill(s: seq<byte>) returns (rest: seq<byte>)
      requires offset < size <= data.Length
      modifies this`offset, data
      ensures old(offset) <= offset <= size && data[..offset] + rest == old(data[..offset]) + s
      ensures (rest == [] || offset == size) && (s != [] ==> |rest| < |s|) && (s == [] ==> rest == [] && offset < size)
    {
      rest := s;
      while offset < size && rest != []
        invariant old(offset) <= offset <= size && |rest| <= |s|
        invariant data[..offset] + rest == old(data[..offset]) + s
        invariant rest == s ==> offset == old(offset)
        invariant rest != s ==> |rest| < |s|
        decreases |rest|
      {
        rest := Recv(rest);
      }
    }

    /** Fill the buffer and, once it is full, take the next phase on. */
    method Advance(s: seq<byte>) returns (full: bool, rest: seq<byte>)
      requires Valid() && offset <= data.Length && open && phase != Http
      modifies this, data
      ensures Valid() && offset <= data.Length && (data == old(data) || fresh(data))
      ensures old(out) <= out && |out| <= |old(out)| + 1
      ensures old(Ahead(s)) == Then(out[|old(out)|..], Ahead(rest))
      ensures if full then |rest| < |s| else rest == [] && open && phase != Http && out == old(out)
    {
      rest := Fill(s);
      full := offset == size;
      if full {
        ReadFn(rest);
      }
    }

    lemma AheadIsFeed(s: seq<byte>)
      requires Valid() && offset <= data.Length
      ensures Ahead(s) == Feed(peer, Rest(), s)
    {
      assert open && phase == Handshake ==> data[..offset] + s == s;
    }

    /** One readable event: the events handed out and the state left behind are
        those the stream specification gives for the bytes that arrived. */
    method Receive(chunk: seq<byte>)
      requires Valid()
      modifies this, data
      ensures Valid() && (data == old(data) || fresh(data))
      ensures var o := Feed(peer, old(Rest()), chunk);
              out == old(out) + o.events && Rest() == o.rest
    {
      if !open || phase == Http {
        return;
      }
      hide Feed, ParseLine, ParseFrames, ParseBody;
      AheadIsFeed(chunk);
      ghost var all := Ahead(chunk);
      var full, rest := true, chunk;
      while full && open && phase != Http
        invariant Valid() && offset <= data.Length && (data == old(data) || fresh(data))
        invariant old(out) <= out && all == Then(out[|old(out)|..], Ahead(rest))
        invariant !full ==> rest == []
        decreases |rest|, full
      {
        ghost var out0 := out;
        full, rest := Advance(rest);
        ThenThen(out0[|old(out)|..], out[|out0|..], Ahead(rest));
        assert out[|old(out)|..] == out0[|old(out)|..] + out[|out0|..];
      }
      NothingAhead(rest);
    }

    lemma NothingAhead(rest: seq<byte>)
      requires Valid() && offset <= data.Length && (open && phase != Http ==> rest == [])
      ensures Ahead(rest) == Outcome([], Rest())
    {
      if open && phase != Http {
        assert data[..offset] + [] == data[..offset];
      }
    }

    /** `conn_pump`: the same loop for a sender that waits for its answer. It stops
        behind the first answer and leaves the rest of the bytes in the socket;
        nothing is lost or taken twice by that. */
    method Pump(chunk: seq<byte>) returns (ready: bool, rest: seq<byte>)
      requires Valid() && offset <= data.Length
      modifies this, data
      ensures Valid() && offset <= data.Length && (data == old(data) || fresh(data)) && old(out) <= out
      ensures Feed(peer, old(Rest()), chunk) == Then(out[|old(out)|..], Feed(peer, Rest(), rest))
      ensures ready ==> |out| > |old(out)| && IsAnswer(out[|out| - 1])
      ensures ready ==> forall i :: |old(out)| <= i < |out| - 1 ==> !IsAnswer(out[i])
      ensures !ready ==> rest == [] || !open || phase == Http
      ensures !ready ==> forall i :: |old(out)| <= i < |out| ==> !IsAnswer(out[i])
    {
      hide Feed, ParseLine, ParseFrames, ParseBody;
      AheadIsFeed(chunk);
      ghost var all := Ahead(chunk);
      var full := true;
      ready, rest := false, chunk;
      while full && !ready && open && phase != Http
        invariant Valid() && offset <= data.Length && (data == old(data) || fresh(data))
        invariant old(out) <= out && all == Then(out[|old(out)|..], Ahead(rest))
        invariant ready ==> |out| > |old(out)| && IsAnswer(out[|out| - 1])
        invariant forall i :: |old(out)| <= i < (if ready then |out| - 1 else |out|) ==> !IsAnswer(out[i])
        invariant !full ==> rest == []
        decreases |rest|, full
      {
        ghost var out0 := out;
        var seen := |out|;
        full, rest := Advance(rest);
        ThenThen(out0[|old(out)|..], out[|out0|..], Ahead(rest));
        assert out[|old(out)|..] == out0[|old(out)|..] + out[|out0|..];
        ready := |out| > seen && IsAnswer(out[seen]);
      }
      AheadIsFeed(rest);
    }
  }

  lemma ThenThen(a: seq<Event>, b: seq<Event>, o: Outcome)
    ensures Then(a, Then(b, o)) == Then(a + b, o)
  {
    assert a + (b + o.events) == a + b + o.events;
  }
}
