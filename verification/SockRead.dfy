/** Sock.Read and the methods it calls, step by step on a connection (sock.go:365-600, 689-823). */
module SockRead {
  import opened Bytes
  import opened Protocol
  import opened Wire
  import opened ReadLoop
  import opened Codec
  import H = Handlers

  /** Reads the declared payload, which is what every branch does with it before anything else. */
  method ReadPayload(s: Conn, a: Action, behind: Option<Reason>, h: Header)
    returns (ev: Option<Event>, stop: Option<Reason>)
    requires s.Valid()
    modifies s`pos
    ensures s.Valid() && s.pos >= old(s.pos)
    ensures Turn(ev, s.pos - old(s.pos), stop) == TakePayload(a, behind, h, old(s.Remaining()), s.end)
  {
    ev, stop := None, None;
    var b := new byte[h.size](i => 0);
    var p, err := Readn(s, b, 0, h.size);
    if err.Some? {
      stop := Some(StreamEnd(err.value));
    } else {
      assert b[..] == old(s.Remaining())[..h.size];
      ev := Some(Event(a, Message(h, b[..])));
      stop := behind;
    }
  }

  /** respondRetry and respondError: the payload is discarded before the reply is written. */
  method Respond(s: Conn, c: Choice, a: Action, h: Header) returns (ev: Option<Event>, stop: Option<Reason>)
    requires s.Valid()
    modifies s`pos
    ensures s.Valid() && s.pos >= old(s.pos)
    ensures Turn(ev, s.pos - old(s.pos), stop) == TakePayload(a, UnlessWritten(c), h, old(s.Remaining()), s.end)
  {
    ev, stop := ReadPayload(s, a, UnlessWritten(c), h);
  }

  method ReadBufferReq(s: Conn, c: Choice, h: Header) returns (ev: Option<Event>, stop: Option<Reason>)
    requires s.Valid() && h.t == SINGLE_REQ
    modifies s`pos
    ensures s.Valid() && s.pos >= old(s.pos)
    ensures Turn(ev, s.pos - old(s.pos), stop) == Body(c, h, old(s.Remaining()), s.end)
  {
    if !c.admit {
      ev, stop := Respond(s, c, ReplyRetry, h);
    } else if !H.Finds(c.handlers, h.t, h.name) {
      ev, stop := Respond(s, c, ReplyError, h);
    } else {
      ev, stop := ReadPayload(s, Dispatch, None, h);
    }
  }

  method ReadStreamReq(s: Conn, c: Choice, h: Header) returns (ev: Option<Event>, stop: Option<Reason>)
    requires s.Valid() && h.t == STREAM_REQ
    modifies s`pos
    ensures s.Valid() && s.pos >= old(s.pos)
    ensures Turn(ev, s.pos - old(s.pos), stop) == Body(c, h, old(s.Remaining()), s.end)
  {
    if !c.admit {
      if c.enabled {
        ev, stop := Respond(s, c, ReplyRetry, h);
      } else {
        ev, stop := Respond(s, c, ReplyError, h);
      }
    } else if !H.Finds(c.handlers, h.t, h.name) {
      ev, stop := Respond(s, c, ReplyError, h);
    } else {
      var used := h.id in c.streams;
      ev, stop := ReadPayload(s, if used then Collide else Dispatch, if used then Some(IdInUse) else None, h);
    }
  }

  method ReadStreamReqPart(s: Conn, c: Choice, h: Header) returns (ev: Option<Event>, stop: Option<Reason>)
    requires s.Valid() && h.t == STREAM_REQ_PART
    modifies s`pos
    ensures s.Valid() && s.pos >= old(s.pos)
    ensures Turn(ev, s.pos - old(s.pos), stop) == Body(c, h, old(s.Remaining()), s.end)
  {
    if h.id !in c.streams {
      ev, stop := None, Some(IllegalPart);
    } else {
      ev, stop := ReadPayload(s, Feed, None, h);
    }
  }

  method ReadNotification(s: Conn, c: Choice, h: Header) returns (ev: Option<Event>, stop: Option<Reason>)
    requires s.Valid() && h.t == NOTIFICATION
    modifies s`pos
    ensures s.Valid() && s.pos >= old(s.pos)
    ensures Turn(ev, s.pos - old(s.pos), stop) == Body(c, h, old(s.Remaining()), s.end)
  {
    if !H.Finds(c.handlers, h.t, h.name) {
      ev, stop := ReadPayload(s, Ignore, None, h);
    } else {
      ev, stop := ReadPayload(s, Notify, None, h);
    }
  }

  /** The switch of the read loop. */
  method HandleMsg(s: Conn, c: Choice, h: Header) returns (ev: Option<Event>, stop: Option<Reason>)
    requires s.Valid()
    modifies s`pos
    ensures s.Valid() && s.pos >= old(s.pos)
    ensures Turn(ev, s.pos - old(s.pos), stop) == Body(c, h, old(s.Remaining()), s.end)
  {
    if h.t == SINGLE_REQ {
      ev, stop := ReadBufferReq(s, c, h);
    } else if h.t == STREAM_REQ {
      ev, stop := ReadStreamReq(s, c, h);
    } else if h.t == STREAM_REQ_PART {
      ev, stop := ReadStreamReqPart(s, c, h);
    } else if h.t == SINGLE_RES || h.t == STREAM_RES || h.t == ERROR_RES || h.t == RETRY_RES {
      ev, stop := ReadPayload(s, ReadLoop.Respond, None, h);
    } else if h.t == NOTIFICATION {
      ev, stop := ReadNotification(s, c, h);
    } else if h.t == HEARTBEAT {
      ev, stop := Some(Event(Beat, Message(h, []))), None;
    } else if h.t == PROTOCOL_ERROR {
      ev, stop := None, Some(PeerError(h.size));
    } else {
      ev, stop := None, Some(InvalidType);
    }
  }

  /** ReadMsg and the switch: one turn. */
  method ReadOne(s: Conn, readbuf: array<byte>, c: Choice) returns (ev: Option<Event>, stop: Option<Reason>)
    requires s.Valid() && readbuf.Length >= 21
    modifies s`pos, readbuf
    ensures s.Valid() && s.pos >= old(s.pos)
    ensures Turn(ev, s.pos - old(s.pos), stop) == Round(c, old(s.Remaining()), s.end)
  {
    hide ReadHeader, Body;
    ghost var input := s.Remaining();
    var h, err := ReadMsg(s, readbuf);
    if err.Some? {
      ev, stop := None, Some(StreamEnd(err.value));
      return;
    }
    assert s.Remaining() == input[s.pos - old(s.pos)..];
    ev, stop := HandleMsg(s, c, h);
  }

  /** The read loop does what Run says, for every stream of bytes and every behaviour of its environment. */
  method Read(s: Conn, choices: nat -> Choice) returns (events: seq<Event>, reason: Reason)
    requires s.Valid()
    modifies s`pos
    ensures var tr := Run(choices, 0, old(s.Remaining()), s.end);
            events == tr.events && reason == tr.reason
  {
    hide Round, Run;
    var readbuf := new byte[128](i => 0);
    events := [];
    var i := 0;
    ghost var want := Run(choices, 0, s.Remaining(), s.end);
    while true
      invariant s.Valid()
      invariant var tr := Run(choices, i, s.Remaining(), s.end);
                want.events == events + tr.events && want.reason == tr.reason
      decreases |s.data| - s.pos
    {
      ghost var input := s.Remaining();
      RunStep(choices, i, input, s.end);
      RoundProgress(choices(i), input, s.end);
      var ev, stop := ReadOne(s, readbuf, choices(i));
      assert s.Remaining() == input[|input| - |s.Remaining()|..];
      if ev.Some? {
        ghost var sub := Run(choices, i + 1, s.Remaining(), s.end);
        assert events + [ev.value] + sub.events == events + ([ev.value] + sub.events);
        events := events + [ev.value];
      }
      if stop.Some? {
        reason := stop.value;
        return;
      }
      i := i + 1;
    }
  }
}
