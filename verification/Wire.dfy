/**
 Whole frames: the grammar of the wire format (README.md:279-325), the bytes a message is
 written as, and the fact that frames can be told apart.
 */
module Wire {
  import opened Bytes
  import opened Hex
  import opened Protocol

  /** A header with the payload that follows it. */
  datatype Message = Message(h: Header, payload: seq<byte>)

  /** c is one message of the grammar, and m is what it says. */
  predicate IsFrame(c: seq<byte>, m: Message) {
    && Spells(c, m.h)
    && c[HeaderSize(m.h)..] == m.payload
    && |m.payload| == (if HasPayload(m.h.t) then m.h.size else 0)
  }

  /** The grammar is unambiguous and prefix-free: a frame is never the beginning of another one. */
  lemma FramesAreDistinct(c: seq<byte>, d: seq<byte>, m: Message, k: Message)
    requires IsFrame(c, m) && IsFrame(d, k) && c <= d
    ensures c == d && m == k
  {
    SpellsUniquely(c, d, m.h, k.h);
    assert |c| == |d|;
  }

  // ----- Writing ------------------------------------------------------------------------------

  predicate IsHeartbeat(h: Header) {
    h == Header(HEARTBEAT, [], [], h.wait, h.size) && h.wait < 0x1_0000 && h.size < TWO_32
  }

  predicate IsProtocolError(h: Header) {
    h == Header(PROTOCOL_ERROR, [], [], 0, h.size) && h.size < TWO_32
  }

  /** The messages a socket writes: writeMsg, SendHeartbeat and CloseError (sock.go:240-253, 666-675, 838-848). */
  predicate Sendable(m: Message) {
    if m.h.t == HEARTBEAT then IsHeartbeat(m.h) && m.payload == []
    else if m.h.t == PROTOCOL_ERROR then IsProtocolError(m.h) && m.payload == []
    else WellFormed(m.h) && |m.payload| == m.h.size
  }

  function HeaderBytes(m: Message): (s: seq<byte>)
    requires Sendable(m)
    ensures |s| >= 9
  {
    if m.h.t == HEARTBEAT then EncodeHeartbeat(m.h.wait, m.h.size) else Encode(m.h)
  }

  function FrameBytes(m: Message): (s: seq<byte>)
    requires Sendable(m)
    ensures |s| >= 9
  {
    HeaderBytes(m) + m.payload
  }

  /** The byte stream made of the given messages in order. */
  function Stream(ms: seq<Message>): seq<byte>
    requires forall m :: m in ms ==> Sendable(m)
  {
    if ms == [] then [] else FrameBytes(ms[0]) + Stream(ms[1..])
  }

  lemma {:induction false} StreamAppend(ms: seq<Message>, m: Message)
    requires (forall k :: k in ms ==> Sendable(k)) && Sendable(m)
    ensures Stream(ms + [m]) == Stream(ms) + FrameBytes(m)
  {
    if ms == [] {
      assert Stream([m]) == FrameBytes(m) + Stream([]);
    } else {
      assert (ms + [m])[1..] == ms[1..] + [m];
      StreamAppend(ms[1..], m);
    }
  }

  /** Everything a socket writes is a frame of the grammar. */
  lemma WrittenIsFrame(m: Message)
    requires Sendable(m)
    ensures IsFrame(FrameBytes(m), m)
  {
    var c := HeaderBytes(m);
    if m.h.t == HEARTBEAT {
      HeartbeatSpells(m.h.wait, m.h.size);
    } else if m.h.t == PROTOCOL_ERROR {
      ProtocolErrorSpells(m.h.size);
    } else {
      EncodeSpells(m.h);
    }
    SpellsExtends(c, FrameBytes(m), m.h);
  }

  lemma SplitStreams(c: seq<byte>, x: seq<byte>, d: seq<byte>, y: seq<byte>)
    requires c + x == d + y && |c| <= |d|
    ensures c <= d
    ensures |c| == |d| ==> x == y
  {
    assert c == (c + x)[..|c|] == (d + y)[..|c|];
    if |c| == |d| {
      assert x == (c + x)[|c|..] == (d + y)[|d|..];
    }
  }

  /** A byte stream of written messages comes from one message sequence only. */
  lemma {:induction false} StreamsDecodeUniquely(ms: seq<Message>, ks: seq<Message>)
    requires (forall m :: m in ms ==> Sendable(m)) && (forall k :: k in ks ==> Sendable(k))
    requires Stream(ms) == Stream(ks)
    ensures ms == ks
  {
    if ms != [] && ks != [] {
      var c, d := FrameBytes(ms[0]), FrameBytes(ks[0]);
      WrittenIsFrame(ms[0]);
      WrittenIsFrame(ks[0]);
      if |c| <= |d| {
        SplitStreams(c, Stream(ms[1..]), d, Stream(ks[1..]));
        FramesAreDistinct(c, d, ms[0], ks[0]);
      } else {
        SplitStreams(d, Stream(ks[1..]), c, Stream(ms[1..]));
        FramesAreDistinct(d, c, ks[0], ms[0]);
      }
      StreamsDecodeUniquely(ms[1..], ks[1..]);
    }
  }
}
