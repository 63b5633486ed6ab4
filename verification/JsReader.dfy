/**
 Receiving in the JavaScript peer (js/gotalk/index.js:296-375, 519-527): the handler of WebSocket
 frames, which is replaced as it goes, and the replay of frames that arrived before it was there.
 */
module JsReader {
  import opened Bytes
  import opened Hex
  import opened Protocol
  import opened Wire
  import opened JsProtocol
  import opened Octets
  import Q = JsSendQueue

  /** Which function ws.onmessage is; readMsgPayload has the header it follows. */
  datatype Mode = ReadVersion | ReadMsg | ReadMsgPayload(msg: JsMsg)

  datatype Reason = Abnormal | Unsupported | InvalidMsg | Timeout

  /** A message given to its handler. */
  datatype Delivery = Delivery(msg: JsMsg, payload: Option<frame>)

  datatype State = State(
    mode: Mode,
    ready: bool,             // readyState is OPEN
    reason: Option<Reason>,  // ws[CLOSE_ERROR]
    said: Option<nat>,       // the code of the 'f' message that closeError has sent
    handled: seq<Delivery>)

  function Start(): State {
    State(ReadVersion, true, None, None, [])
  }

  /** The types that msgHandlers has an entry for. */
  predicate HasHandler(t: byte) {
    t in {SINGLE_REQ, SINGLE_RES, STREAM_RES, ERROR_RES, NOTIFICATION, HEARTBEAT}
  }

  function ReasonOf(code: int): Reason {
    if code == 0 then Abnormal else if code == 1 then Unsupported else if code == 3 then Timeout else InvalidMsg
  }

  /** ws.close, which throws unless the status is 1000 or one of 3000-4999. */
  function Close(s: State, status: int): (State, bool) {
    if status == 1000 || 3000 <= status < 5000 then (s.(ready := false), true) else (s, false)
  }

  /** closeError, with the reason its callers note down first. */
  function CloseError(s: State, reason: Reason, code: nat): (State, bool) {
    Close(s.(reason := Some(reason), said := Some(code)), 4000 + code)
  }

  function HandleMsg(s: State, msg: JsMsg, payload: Option<frame>): (State, bool) {
    if HasHandler(msg.t) then (s.(handled := s.handled + [Delivery(msg, payload)]), true)
    else CloseError(s, InvalidMsg, 2)
  }

  function HandleHeader(s: State, msg: JsMsg): (State, bool) {
    if msg.t == PROTOCOL_ERROR then Close(s.(reason := Some(ReasonOf(msg.size))), 4000 + msg.size)
    else if msg.size != 0 && msg.t != HEARTBEAT then (s.(mode := ReadMsgPayload(msg)), true)
    else HandleMsg(s, msg, None)
  }

  /** One call of ws.onmessage; false if it throws. */
  function OnMessage(s: State, data: frame): (State, bool) {
    match s.mode
    case ReadVersion =>
      (match JsParseInt(data)
       case None => (s, false)
       case Some(v) =>
         if v == 1 then (s.(mode := ReadMsg), true) else CloseError(s, Unsupported, 1))
    case ReadMsg =>
      if data == [] then CloseError(s, InvalidMsg, 2) // of no type at all
      else
        (match JsParse(data)
         case None => (s, false)
         case Some(msg) => HandleHeader(s, msg))
    case ReadMsgPayload(msg) => HandleMsg(s.(mode := ReadMsg), msg, Some(data))
  }

  /** A message event: none are delivered once the WebSocket is closing, and an exception is reported and forgotten. */
  function Deliver(s: State, data: frame): State {
    if s.ready then OnMessage(s, data).0 else s
  }

  function Direct(s: State, frames: seq<frame>): State
    decreases |frames|
  {
    if frames == [] then s else Direct(Deliver(s, frames[0]), frames[1..])
  }

  /** The forEach over _bufferedMessages: it looks at no state, and an exception ends it. */
  function Replay(s: State, frames: seq<frame>): State
    decreases |frames|
  {
    if frames == [] then s
    else
      var (s', ok) := OnMessage(s, frames[0]);
      if ok then Replay(s', frames[1..]) else s'
  }

  // ----- The code -----------------------------------------------------------------------------

  class Reader {
    var mode: Mode
    var ready: bool
    var reason: Option<Reason>
    var said: Option<nat>
    var handled: seq<Delivery>

    constructor ()
      ensures View() == Start()
    {
      mode, ready, reason, said, handled := ReadVersion, true, None, None, [];
    }

    ghost function View(): State
      reads this
    {
      State(mode, ready, reason, said, handled)
    }

    method WsClose(status: int) returns (ok: bool)
      modifies `ready
      ensures (View(), ok) == Close(old(View()), status)
    {
      ok := status == 1000 || 3000 <= status < 5000;
      if ok {
        ready := false;
      }
    }

    method WsCloseError(why: Reason, code: nat) returns (ok: bool)
      modifies `ready, `reason, `said
      ensures (View(), ok) == CloseError(old(View()), why, code)
    {
      reason := Some(why);
      said := Some(code);
      ok := WsClose(4000 + code);
    }

    method Handle(msg: JsMsg, payload: Option<frame>) returns (ok: bool)
      modifies `ready, `reason, `said, `handled
      ensures (View(), ok) == HandleMsg(old(View()), msg, payload)
    {
      if !HasHandler(msg.t) {
        ok := WsCloseError(InvalidMsg, 2);
      } else {
        handled := handled + [Delivery(msg, payload)];
        ok := true;
      }
    }

    method OnHeader(data: frame) returns (ok: bool)
      requires mode.ReadMsg?
      modifies this
      ensures (View(), ok) == OnMessage(old(View()), data)
    {
      if data == [] {
        ok := WsCloseError(InvalidMsg, 2);
        return;
      }
      var parsed := JsParse(data);
      if parsed.None? {
        return false;
      }
      var msg := parsed.value;
      if msg.t == PROTOCOL_ERROR {
        reason := Some(ReasonOf(msg.size));
        ok := WsClose(4000 + msg.size);
      } else if msg.size != 0 && msg.t != HEARTBEAT {
        mode := ReadMsgPayload(msg);
        ok := true;
      } else {
        ok := Handle(msg, None);
      }
    }

    method OnPayload(data: frame) returns (ok: bool)
      requires mode.ReadMsgPayload?
      modifies this
      ensures (View(), ok) == OnMessage(old(View()), data)
    {
      var msg := mode.msg;
      mode := ReadMsg;
      ok := Handle(msg, Some(data));
    }

    method OnVersion(data: frame) returns (ok: bool)
      requires mode.ReadVersion?
      modifies this
      ensures (View(), ok) == OnMessage(old(View()), data)
    {
      BytesReturn(data);
      var version := ParseHexInt(AsOctets(data));
      if version.None? {
        ok := false;
      } else if version.value != 1 {
        ok := WsCloseError(Unsupported, 1);
      } else {
        mode := ReadMsg;
        ok := true;
      }
    }

    method Receive(data: frame) returns (ok: bool)
      modifies this
      ensures (View(), ok) == OnMessage(old(View()), data)
    {
      match mode
      case ReadVersion => ok := OnVersion(data);
      case ReadMsg => ok := OnHeader(data);
      case ReadMsgPayload(_) => ok := OnPayload(data);
    }

    method StartReading(buffered: seq<frame>)
      modifies this
      ensures View() == Replay(old(View()).(mode := ReadVersion), buffered)
    {
      mode := ReadVersion;
      ghost var start := View();
      var i, ok := 0, true;
      while i < |buffered| && ok
        invariant 0 <= i <= |buffered|
        invariant Replay(start, buffered) == if ok then Replay(View(), buffered[i..]) else View()
        decreases |buffered| - i, ok
      {
        assert buffered[i..][1..] == buffered[i + 1..];
        ok := Receive(buffered[i]);
        i := i + 1;
      }
    }
  }

  // ----- What the reader makes of messages ----------------------------------------------------

  /** A header as parseMsg returns it. */
  function Parsed(h: Header): JsMsg {
    JsMsg(h.t, h.id, NameOf(h.name), ToInt32(h.wait), ToInt32(h.size))
  }

  /** The frames that carry a message: the header, and the payload unless it is empty. */
  function AsMsg(m: Message): Q.Msg
    requires Sendable(m)
  {
    Q.Msg(HeaderBytes(m), if m.payload == [] then None else Some(m.payload))
  }

  function AsMsgs(ms: seq<Message>): seq<Q.Msg>
    requires forall m :: m in ms ==> Sendable(m)
  {
    if ms == [] then [] else [AsMsg(ms[0])] + AsMsgs(ms[1..])
  }

  /** What the application gets to see of a message. */
  function DeliveryOf(m: Message): Delivery {
    Delivery(Parsed(m.h), if m.payload == [] then None else Some(m.payload))
  }

  /** What becomes of one message, whatever frames it came in. */
  function ServeOne(s: State, m: Message): State {
    if !s.ready then s
    else if m.h.t == PROTOCOL_ERROR then
      var code := ToInt32(m.h.size);
      s.(reason := Some(ReasonOf(code)), ready := !(-1000 <= code < 1000 || code == -3000))
    else if HasHandler(m.h.t) then
      s.(handled := s.handled + [DeliveryOf(m)])
    else
      s.(reason := Some(InvalidMsg), said := Some(2), ready := false)
  }

  function Serve(s: State, ms: seq<Message>): State
    decreases |ms|
  {
    if ms == [] then s else Serve(ServeOne(s, ms[0]), ms[1..])
  }

  lemma SingleFrame(f: frame)
    ensures [f][1..] == []
  {
  }

  lemma HeaderSpells(m: Message)
    requires Sendable(m)
    ensures Spells(HeaderBytes(m), m.h)
  {
    if m.h.t == HEARTBEAT {
      HeartbeatSpells(m.h.wait, m.h.size);
    } else if m.h.t == PROTOCOL_ERROR {
      ProtocolErrorSpells(m.h.size);
    } else {
      EncodeSpells(m.h);
    }
  }

  lemma HeaderIsHandled(s: State, m: Message)
    requires Sendable(m) && s.mode.ReadMsg?
    ensures OnMessage(s, HeaderBytes(m)) == HandleHeader(s, Parsed(m.h))
  {
    hide JsParse, Spells, HeaderBytes, HandleHeader;
    HeaderSpells(m);
    JsReadsSpelled(HeaderBytes(m), m.h);
  }

  lemma SizeIsZero(n: nat)
    requires n < TWO_32
    ensures ToInt32(n) == 0 <==> n == 0
  {
  }

  lemma HeaderServes(s: State, m: Message)
    requires Sendable(m) && s.mode.ReadMsg? && s.ready
    ensures var s' := HandleHeader(s, Parsed(m.h)).0;
            if m.payload == [] then s' == ServeOne(s, m)
            else s'.ready && OnMessage(s', m.payload).0 == ServeOne(s, m)
  {
    SizeIsZero(m.h.size);
  }

  lemma DirectOne(s: State, f: frame)
    ensures Direct(s, [f]) == Deliver(s, f)
  {
    SingleFrame(f);
    assert Direct(Deliver(s, f), []) == Deliver(s, f);
  }

  /** One or two frames of a message have the effect of the message. */
  lemma MessageIsServed(s: State, m: Message)
    requires Sendable(m) && s.mode.ReadMsg?
    ensures Direct(s, Q.FramesOf(AsMsg(m))) == ServeOne(s, m)
  {
    var head := HeaderBytes(m);
    hide HeaderBytes, OnMessage, HandleHeader, HandleMsg, Direct, Sendable;
    DirectOnClosed(s, Q.FramesOf(AsMsg(m)));
    HeaderIsHandled(s, m);
    DirectOne(s, head);
    if s.ready {
      HeaderServes(s, m);
    }
    if m.payload != [] {
      assert [head] + [m.payload] == [head, m.payload];
      DirectAppend(s, [head], [m.payload]);
      DirectOne(Deliver(s, head), m.payload);
    }
  }

  lemma {:induction false} DirectOnClosed(s: State, frames: seq<frame>)
    ensures !s.ready ==> Direct(s, frames) == s
    decreases |frames|
  {
    if frames != [] {
      DirectOnClosed(s, frames[1..]);
    }
  }

  lemma {:induction false} DirectAppend(s: State, a: seq<frame>, b: seq<frame>)
    ensures Direct(s, a + b) == Direct(Direct(s, a), b)
    decreases |a|
  {
    hide Deliver;
    if a == [] {
      assert a + b == b;
    } else {
      assert (a + b)[1..] == a[1..] + b;
      DirectAppend(Deliver(s, a[0]), a[1..], b);
    }
  }

  /**
   Framing is inverted: from the frames of any messages, one or two each, the reader recovers these
   messages in order, up to the first that makes it close the WebSocket.
   */
  lemma {:induction false} FramesAreServed(s: State, ms: seq<Message>)
    requires (forall m :: m in ms ==> Sendable(m)) && s.mode.ReadMsg?
    ensures Direct(s, Q.Frames(AsMsgs(ms))) == Serve(s, ms)
    decreases |ms|
  {
    hide ServeOne, Q.FramesOf, AsMsg;
    if ms != [] {
      var q := AsMsgs(ms);
      assert q[0] == AsMsg(ms[0]) && q[1..] == AsMsgs(ms[1..]);
      DirectAppend(s, Q.FramesOf(q[0]), Q.Frames(q[1..]));
      MessageIsServed(s, ms[0]);
      ServeKeepsMode(s, ms[0]);
      FramesAreServed(ServeOne(s, ms[0]), ms[1..]);
    }
  }

  lemma ServeKeepsMode(s: State, m: Message)
    ensures ServeOne(s, m).mode == s.mode
  {
  }

  /** What the application gets to see of messages that all have a handler. */
  function Deliveries(ms: seq<Message>): seq<Delivery> {
    if ms == [] then []
    else [DeliveryOf(ms[0])] + Deliveries(ms[1..])
  }

  /** The letters of the messages that are for the application. */
  const DELIVERED := "rRSEnh"

  /** What becomes of a message, by its letter. */
  predicate Becomes(s: State, m: Message, r: State) {
    var t, code := m.h.t as char, m.h.size;
    if t in DELIVERED then r == s.(handled := s.handled + [DeliveryOf(m)])
    else if t == 'f' then
      && r == s.(reason := r.reason, ready := r.ready)
      && r.reason == Some(match code case 0 => Abnormal case 1 => Unsupported case 3 => Timeout case _ => InvalidMsg)
      && (!r.ready <==> code < 1000 || code >= TWO_32 - 1000 || code == TWO_32 - 3000)
    else r == s.(reason := Some(InvalidMsg), said := Some(2), ready := false)
  }

  lemma ServedByLetter(s: State, m: Message)
    requires s.ready && m.h.size < TWO_32
    ensures Becomes(s, m, ServeOne(s, m))
  {
    hide DeliveryOf;
  }

  /**
   What becomes of a message that a peer can write, whatever comes with it: requests, results, parts,
   errors, notifications and heartbeats are delivered; an 'f' closes the WebSocket with the reason
   that its code stands for, if the code makes a valid status; everything else, and of what the
   protocol knows that is 's', 'p' and 'e', closes it as an invalid message.
   */
  lemma DeliveredByLetter(s: State, m: Message)
    requires Sendable(m) && s.mode.ReadMsg? && s.ready
    ensures Becomes(s, m, Direct(s, Q.FramesOf(AsMsg(m))))
  {
    MessageIsServed(s, m);
    ServedByLetter(s, m);
    hide Becomes, Direct, Q.FramesOf, AsMsg, ServeOne;
  }

  lemma ServeHandled(s: State, m: Message)
    requires s.ready && m.h.t as char in DELIVERED
    ensures ServeOne(s, m) == s.(handled := s.handled + [DeliveryOf(m)])
  {
  }

  /** Any messages with these letters are all delivered, in order, and leave the reader ready. */
  lemma {:induction false} AllAreServed(s: State, ms: seq<Message>)
    requires s.ready && forall m :: m in ms ==> m.h.t as char in DELIVERED
    ensures Serve(s, ms) == s.(handled := s.handled + Deliveries(ms))
    decreases |ms|
  {
    hide ServeOne, DeliveryOf;
    if ms != [] {
      ServeHandled(s, ms[0]);
      AllAreServed(ServeOne(s, ms[0]), ms[1..]);
      assert ServeOne(s, ms[0]).handled + Deliveries(ms[1..]) == s.handled + Deliveries(ms);
    } else {
      assert s.handled + [] == s.handled;
    }
  }

  /** The same for the frames they come in. */
  lemma AllAreDelivered(s: State, ms: seq<Message>)
    requires s.ready && s.mode.ReadMsg? && forall m :: m in ms ==> Sendable(m) && m.h.t as char in DELIVERED
    ensures Direct(s, Q.Frames(AsMsgs(ms))) == s.(handled := s.handled + Deliveries(ms))
  {
    FramesAreServed(s, ms);
    AllAreServed(s, ms);
    hide Direct, Serve, Q.Frames, AsMsgs;
  }

  const VERSION: frame := [0x30, 0x31]

  lemma VersionAccepted(rest: seq<frame>)
    ensures Direct(Start(), [VERSION] + rest) == Direct(Start().(mode := ReadMsg), rest)
  {
    assert Deliver(Start(), VERSION) == Start().(mode := ReadMsg) by {
      assert HexValue(VERSION) == 1 by {
        assert VERSION[..1] == [0x30] && VERSION[..1][..0] == [];
        assert HexValue(VERSION[..1]) == 0;
      }
      JsReadsHex(VERSION);
    }
    assert ([VERSION] + rest)[1..] == rest;
  }

  /** Of all versions of two hexadecimal digits the first is the only one that is not refused as unsupported. */
  lemma OnlyVersionOne(data: frame)
    requires |data| == 2 && AllHex(data)
    ensures Deliver(Start(), data) ==
            if HexValue(data) == 1 then Start().(mode := ReadMsg)
            else Start().(reason := Some(Unsupported), said := Some(1), ready := false)
  {
    FieldInRange(data);
    Widths();
    JsReadsHex(data);
    hide JsParseInt;
  }

  /**
   From the send queue of one peer to the handlers of the other: what the current WebSocket took is
   handled as the messages handed over to it whole, whether or not it broke in the middle of one.
   */
  lemma SentIsHandled(s: Q.State, ms: seq<Message>, k: Message)
    requires (forall m :: m in ms ==> Sendable(m)) && Sendable(k)
    requires Q.Framed(s) && s.handed[s.base..] == AsMsgs(ms) && (s.cut.Some? ==> s.cut.value == AsMsg(k))
    ensures Direct(Start(), [VERSION] + s.wire).handled == Serve(Start().(mode := ReadMsg), ms).handled
  {
    hide Q.Frames, AsMsgs, HeaderBytes, OnMessage, HandleHeader, ServeOne, Sendable;
    VersionAccepted(s.wire);
    var s0 := Start().(mode := ReadMsg);
    FramesAreServed(s0, ms);
    var s1 := Serve(s0, ms);
    var frames := Q.Frames(AsMsgs(ms));
    if s.cut.Some? {
      var head := HeaderBytes(k);
      DirectAppend(s0, frames, [head]);
      ServeAllKeepsMode(s0, ms);
      HeaderIsHandled(s1, k);
      LoneHeader(s1, k);
      DirectOne(s1, head);
    } else {
      assert s.wire == frames + [] == frames;
    }
  }

  lemma SaidIsReason(s: State, data: frame)
    requires s.said.None? && OnMessage(s, data).0.said.Some?
    ensures var s' := OnMessage(s, data).0;
            !s'.ready && 1 <= s'.said.value <= 2 && s'.reason == Some(ReasonOf(s'.said.value))
  {
    hide JsParse, JsParseInt, HasHandler;
  }

  /** When one peer closes the connection because of what it read, the other learns the same reason. */
  lemma PeersAgreeOnReason(s: State, data: frame, peer: State)
    requires s.said.None? && OnMessage(s, data).0.said.Some?
    requires peer.mode.ReadMsg?
    ensures var s', f := OnMessage(s, data).0, Header(PROTOCOL_ERROR, [], [], 0, OnMessage(s, data).0.said.value);
            && Encodable(f) && !s'.ready
            && var peer' := OnMessage(peer, Encode(f)).0; !peer'.ready && peer'.reason == s'.reason
  {
    SaidIsReason(s, data);
    var m := Message(Header(PROTOCOL_ERROR, [], [], 0, OnMessage(s, data).0.said.value), []);
    hide OnMessage, Encode;
    HeaderIsHandled(peer, m);
  }

  lemma {:induction false} ServeAllKeepsMode(s: State, ms: seq<Message>)
    ensures Serve(s, ms).mode == s.mode
    decreases |ms|
  {
    hide ServeOne;
    if ms != [] {
      ServeKeepsMode(s, ms[0]);
      ServeAllKeepsMode(ServeOne(s, ms[0]), ms[1..]);
    }
  }

  lemma LoneHeader(s: State, m: Message)
    requires Sendable(m) && m.payload != []
    ensures HandleHeader(s, Parsed(m.h)).0.handled == s.handled
  {
    SizeIsZero(m.h.size);
  }

  // ----- Replay -------------------------------------------------------------------------------

  /** None of the frames makes the reader throw or close the WebSocket. */
  predicate Clean(s: State, frames: seq<frame>)
    decreases |frames|
  {
    frames == [] ||
    (OnMessage(s, frames[0]).1 && OnMessage(s, frames[0]).0.ready && Clean(OnMessage(s, frames[0]).0, frames[1..]))
  }

  /** After a clean beginning, replayed and directly delivered frames have the same effect, the next frame included. */
  lemma {:induction false} ReplayAfterClean(s: State, p: seq<frame>, q: seq<frame>)
    requires s.ready && Clean(s, p)
    ensures Direct(s, p).ready
    ensures Replay(s, p + q) == Replay(Direct(s, p), q) && Direct(s, p + q) == Direct(Direct(s, p), q)
    ensures Clean(s, p + q) <==> Clean(Direct(s, p), q)
    ensures |q| == 1 ==> Replay(s, p + q) == Direct(s, p + q)
    decreases |p|
  {
    hide OnMessage;
    if p == [] {
      assert p + q == q;
      if |q| == 1 {
        assert q == [q[0]] && q[1..] == [];
        DirectOne(s, q[0]);
      }
    } else {
      assert (p + q)[1..] == p[1..] + q;
      ReplayAfterClean(OnMessage(s, p[0]).0, p[1..], q);
    }
  }

  /** A frame that changes the state of any reader that is not waiting for a payload. */
  function Probe(s: State): frame {
    if s.mode.ReadVersion? then VERSION else EncodeHeartbeat(0, 0)
  }

  lemma ProbeIsSeen(s: State)
    requires !s.mode.ReadMsgPayload?
    ensures OnMessage(s, Probe(s)).0 != s
  {
    if s.mode.ReadVersion? {
      VersionAccepted([]);
      assert JsParseInt(VERSION) == Some(1);
    } else {
      var m := Message(Header(HEARTBEAT, [], [], 0, 0), []);
      HeaderIsHandled(s, m);
      assert Probe(s) == HeaderBytes(m);
      assert HandleHeader(s, Parsed(m.h)).0.handled != s.handled;
    }
  }

  lemma TroubleModes(s: State, x: frame)
    requires var (s', ok) := OnMessage(s, x); s.ready && !(ok && s'.ready)
    ensures !OnMessage(s, x).0.mode.ReadMsgPayload?
    ensures !OnMessage(s, x).1 ==> OnMessage(s, x).0.ready
  {
    hide JsParse, JsParseInt, HasHandler;
  }

  /**
   Where replay and direct delivery part: as long as nothing throws or closes they agree on every
   continuation by one frame; after the first frame that does, on some frame they differ.
   */
  lemma ReplayDivergesAfterTrouble(s: State, p: seq<frame>, x: frame)
    requires s.ready && Clean(s, p)
    ensures (forall f: frame :: Replay(s, p + [x, f]) == Direct(s, p + [x, f])) <==> Clean(s, p + [x])
  {
    hide OnMessage;
    var t := Direct(s, p);
    ReplayAfterClean(s, p, [x]);
    assert Clean(t, [x]) == Clean(s, p + [x]);
    var (u, ok) := OnMessage(t, x);
    SingleFrame(x);
    assert Clean(t, [x]) == (ok && u.ready);
    if ok && u.ready {
      forall f: frame
        ensures Replay(s, p + [x, f]) == Direct(s, p + [x, f])
      {
        ReplayAfterClean(s, p + [x], [f]);
        assert p + [x] + [f] == p + [x, f];
      }
    } else {
      TroubleModes(t, x);
      var f := Probe(u);
      ProbeIsSeen(u);
      ReplayAfterClean(s, p, [x, f]);
      assert [x, f][1..] == [f];
      SingleFrame(f);
      assert Replay(u, [f]) == OnMessage(u, f).0;
      DirectOne(u, f);
      assert Replay(s, p + [x, f]) != Direct(s, p + [x, f]);
    }
  }
}
