/**
 The read loop of a socket (sock.go:365-600, 689-823) as a function of the bytes that arrive and
 of everything the loop cannot see in them: admission, registered handlers, streams it knows and
 the fate of the replies it writes itself.
 */
module ReadLoop {
  import opened Bytes
  import opened Protocol
  import opened Wire
  import H = Handlers

  /** What the rest of the program answers to one turn of the loop. */
  datatype Choice = Choice(
    admit: bool,              // incBufferReq / incStreamReq succeeded
    enabled: bool,            // streamReqEnabled
    handlers: H.Handlers,     // the handlers registered
    streams: set<seq<byte>>,  // the ids that pendingReq knows
    replyOk: bool)            // the write of respondRetry / respondError succeeded

  /** What the loop did with a message it read completely. */
  datatype Action = Dispatch | Collide | ReplyRetry | ReplyError | Feed | Respond | Notify | Ignore | Beat

  datatype Event = Event(action: Action, m: Message)

  /** Why the loop ended. */
  datatype Reason = StreamEnd(e: ReadError) | PeerError(code: nat) | InvalidType | IllegalPart | ReplyFailed | IdInUse

  /** The two ways in which the loop ends behind a message: its own reply is lost, or allocReqChan panics. */
  predicate IsBehindMessage(reason: Reason) {
    reason == ReplyFailed || reason == IdInUse
  }

  /** The verdict on a header: stop, or do `action` with the message and then stop if there is a reason to. */
  datatype Verdict = Halt(reason: Reason) | Act(action: Action, behind: Option<Reason>)

  function UnlessWritten(c: Choice): Option<Reason> {
    if c.replyOk then None else Some(ReplyFailed)
  }

  function Decide(c: Choice, h: Header): Verdict {
    if h.t == SINGLE_REQ || h.t == STREAM_REQ then
      if !c.admit then Act(if h.t == STREAM_REQ && !c.enabled then ReplyError else ReplyRetry, UnlessWritten(c))
      else if !H.Finds(c.handlers, h.t, h.name) then Act(ReplyError, UnlessWritten(c))
      else if h.t == STREAM_REQ && h.id in c.streams then Act(Collide, Some(IdInUse))
      else Act(Dispatch, None)
    else if h.t == STREAM_REQ_PART then
      if h.id in c.streams then Act(Feed, None) else Halt(IllegalPart)
    else if h.t == SINGLE_RES || h.t == STREAM_RES || h.t == ERROR_RES || h.t == RETRY_RES then
      Act(Respond, None)
    else if h.t == NOTIFICATION then
      Act(if H.Finds(c.handlers, h.t, h.name) then Notify else Ignore, None)
    else if h.t == HEARTBEAT then
      Act(Beat, None)
    else if h.t == PROTOCOL_ERROR then
      Halt(PeerError(h.size))
    else
      Halt(InvalidType)
  }

  /** One turn of the loop, or the part of it behind the header. */
  datatype Turn = Turn(event: Option<Event>, used: nat, stop: Option<Reason>)

  /** Takes the payload off the stream, whatever is done with it. */
  function TakePayload(a: Action, behind: Option<Reason>, h: Header, rest: seq<byte>, end: End): (r: Turn)
    ensures r.used <= |rest|
  {
    if |rest| < h.size then
      Turn(None, |rest|, Some(StreamEnd(Ended(end))))
    else
      Turn(Some(Event(a, Message(h, rest[..h.size]))), h.size, behind)
  }

  function Body(c: Choice, h: Header, rest: seq<byte>, end: End): (r: Turn)
    ensures r.used <= |rest|
  {
    match Decide(c, h)
    case Halt(reason) => Turn(None, 0, Some(reason))
    case Act(Beat, _) => Turn(Some(Event(Beat, Message(h, []))), 0, None)
    case Act(a, behind) => TakePayload(a, behind, h, rest, end)
  }

  function Round(c: Choice, s: seq<byte>, end: End): (r: Turn)
    ensures r.used <= |s| && (r.stop.None? ==> r.event.Some? && r.used > 0)
    ensures r.event.Some? && r.stop.Some? ==> IsBehindMessage(r.stop.value)
  {
    match ReadHeader(s, end)
    case Err(e, used) => Turn(None, used, Some(StreamEnd(e)))
    case Msg(h, used) =>
      var b := Body(c, h, s[used..], end);
      b.(used := used + b.used)
  }

  /** A run of the loop: what it did, the bytes each event took, the bytes left, and why it ended. */
  datatype Trace = Trace(events: seq<Event>, chunks: seq<seq<byte>>, left: seq<byte>, reason: Reason)

  function Run(choices: nat -> Choice, i: nat, s: seq<byte>, end: End): (tr: Trace)
    ensures |tr.events| == |tr.chunks|
    decreases |s|
  {
    var r := Round(choices(i), s, end);
    match r.event
    case None => Trace([], [], s, r.stop.value)
    case Some(ev) =>
      var chunk, rest := s[..r.used], s[r.used..];
      if r.stop.Some? then
        Trace([ev], [chunk], rest, r.stop.value)
      else
        var tr := Run(choices, i + 1, rest, end);
        Trace([ev] + tr.events, [chunk] + tr.chunks, tr.left, tr.reason)
  }

  lemma RunStep(choices: nat -> Choice, i: nat, s: seq<byte>, end: End)
    ensures var r, tr := Round(choices(i), s, end), Run(choices, i, s, end);
            match r.event
            case None => tr == Trace([], [], s, r.stop.value)
            case Some(ev) =>
              if r.stop.Some? then
                tr == Trace([ev], [s[..r.used]], s[r.used..], r.stop.value)
              else
                var sub := Run(choices, i + 1, s[r.used..], end);
                tr == Trace([ev] + sub.events, [s[..r.used]] + sub.chunks, sub.left, sub.reason)
  {
  }

  lemma RoundProgress(c: Choice, s: seq<byte>, end: End)
    ensures var r := Round(c, s, end);
            r.used <= |s| && (r.stop.None? ==> r.event.Some? && r.used > 0)
  {
  }

  // ----- Frame alignment ----------------------------------------------------------------------

  function Concat(chunks: seq<seq<byte>>): seq<byte> {
    if chunks == [] then [] else chunks[0] + Concat(chunks[1..])
  }

  lemma ConcatNone(s: seq<byte>)
    ensures Concat([]) == [] && Concat([]) + s == s
  {
  }

  lemma ConcatCons(chunk: seq<byte>, chunks: seq<seq<byte>>)
    ensures Concat([chunk] + chunks) == chunk + Concat(chunks)
  {
    assert ([chunk] + chunks)[1..] == chunks;
  }

  /** The chunk is the frame of m with one byte too many taken between its header and its payload. */
  predicate IsSlipped(chunk: seq<byte>, m: Message) {
    && IsNameless(m.h)
    && Spells(chunk, m.h)
    && |chunk| == 13 + m.h.size
    && chunk[13..] == m.payload
  }

  /** The chunk is the message's frame, except that a nameless notification slips by one byte. */
  predicate Fits(chunk: seq<byte>, m: Message) {
    && (IsFrame(chunk, m) <==> !IsNameless(m.h))
    && (IsNameless(m.h) ==> IsSlipped(chunk, m))
  }

  /** Cutting off what follows a message leaves its frame, or its slipped frame. */
  lemma ChunkOfMessage(s: seq<byte>, h: Header)
    requires Spells(s, h) && h.t != PROTOCOL_ERROR
    requires TakenFor(h, |s|) + (if HasPayload(h.t) then h.size else 0) <= |s|
    ensures var at := TakenFor(h, |s|);
            var payload := s[at..at + if HasPayload(h.t) then h.size else 0];
            var chunk, m := s[..at + |payload|], Message(h, payload);
            Fits(chunk, m)
  {
    var at := TakenFor(h, |s|);
    var n := if HasPayload(h.t) then h.size else 0;
    var chunk := s[..at + n];
    SpellsRestricts(s, chunk, h);
    assert chunk[at..] == s[at..at + n];
    hide Spells;
  }

  lemma RoundTakesFrame(c: Choice, s: seq<byte>, end: End)
    requires Round(c, s, end).event.Some?
    ensures var r := Round(c, s, end);
            Fits(s[..r.used], r.event.value.m)
  {
    hide ReadHeader, Spells, Fits;
    ReadIsSpelled(s, end);
    var p, r := ReadHeader(s, end), Round(c, s, end);
    var at := p.used;
    var n := if HasPayload(p.h.t) then p.h.size else 0;
    assert r.used == at + n;
    assert r.event.value.m == Message(p.h, s[at..at + n]);
    ChunkOfMessage(s, p.h);
  }

  /**
   Frame alignment for arbitrary bytes: whatever arrives and whatever the environment answers,
   each message the loop handles took exactly one frame of the grammar, in stream order with no
   gap, and the loop ends on the first bytes it refuses. The one exception is a notification
   with an empty name, for which it takes one byte too many.
   */
  lemma {:induction false} Alignment(choices: nat -> Choice, i: nat, s: seq<byte>, end: End)
    ensures var tr := Run(choices, i, s, end);
            && s == Concat(tr.chunks) + tr.left
            && (forall k :: 0 <= k < |tr.events| ==> Fits(tr.chunks[k], tr.events[k].m))
            && (!IsBehindMessage(tr.reason) ==>
                 Round(choices(i + |tr.events|), tr.left, end).stop == Some(tr.reason))
    decreases |s|
  {
    hide Round, Run, Fits, Concat;
    RunStep(choices, i, s, end);
    var r := Round(choices(i), s, end);
    if r.event.None? {
      ConcatNone(s);
    } else {
      RoundTakesFrame(choices(i), s, end);
      var chunk, rest := s[..r.used], s[r.used..];
      assert s == chunk + rest;
      if r.stop.Some? {
        ConcatCons(chunk, []);
        ConcatNone(rest);
        assert [chunk] + [] == [chunk] && chunk + [] == chunk;
      } else {
        Alignment(choices, i + 1, rest, end);
        var sub := Run(choices, i + 1, rest, end);
        ConcatCons(chunk, sub.chunks);
        assert s == chunk + (Concat(sub.chunks) + sub.left);
      }
    }
  }

  // ----- The loop over whole messages ---------------------------------------------------------

  /** The loop at the level of messages: what it does with each, and why it stops before their end. */
  function Serve(choices: nat -> Choice, i: nat, ms: seq<Message>): (seq<Event>, Option<Reason>)
    decreases |ms|
  {
    if ms == [] then ([], None)
    else
      match Decide(choices(i), ms[0].h)
      case Halt(reason) => ([], Some(reason))
      case Act(a, behind) =>
        if behind.Some? then ([Event(a, ms[0])], behind)
        else
          var (events, reason) := Serve(choices, i + 1, ms[1..]);
          ([Event(a, ms[0])] + events, reason)
  }

  /** Serving handles the messages in order, without skipping any, up to where it stops. */
  lemma {:induction false} ServeInOrder(choices: nat -> Choice, i: nat, ms: seq<Message>)
    ensures var (events, reason) := Serve(choices, i, ms);
            && |events| <= |ms|
            && (reason.None? ==> |events| == |ms|)
            && (forall k :: 0 <= k < |events| ==> events[k].m == ms[k])
            && (reason.Some? && !IsBehindMessage(reason.value) ==>
                 |events| < |ms| && Decide(choices(i + |events|), ms[|events|].h) == Halt(reason.value))
    decreases |ms|
  {
    if ms != [] && Decide(choices(i), ms[0].h).Act? && Decide(choices(i), ms[0].h).behind.None? {
      ServeInOrder(choices, i + 1, ms[1..]);
    }
  }

  lemma FrameLayout(m: Message)
    requires Sendable(m)
    ensures var c := FrameBytes(m);
            && Spells(c, m.h) && !IsNameless(m.h)
            && c[HeaderSize(m.h)..] == m.payload
            && |c| == HeaderSize(m.h) + |m.payload|
            && |m.payload| == (if HasPayload(m.h.t) then m.h.size else 0)
  {
    WrittenIsFrame(m);
  }

  lemma DropFront(c: seq<byte>, rest: seq<byte>, n: nat)
    requires n <= |c|
    ensures (c + rest)[n..] == c[n..] + rest
  {
  }

  lemma BodyOnPayload(c: Choice, h: Header, payload: seq<byte>, rest: seq<byte>, end: End)
    requires |payload| == if HasPayload(h.t) then h.size else 0
    ensures var b := Body(c, h, payload + rest, end);
            match Decide(c, h)
            case Halt(reason) => b == Turn(None, 0, Some(reason))
            case Act(a, behind) =>
              b == Turn(Some(Event(a, Message(h, payload))), |payload|, behind)
  {
    assert (payload + rest)[..|payload|] == payload;
  }

  lemma BodyOnError(c: Choice, h: Header, rest: seq<byte>, end: End)
    requires h.t == PROTOCOL_ERROR
    ensures Body(c, h, rest, end) == Turn(None, 0, Some(PeerError(h.size)))
  {
  }

  lemma FrameIsRead(m: Message, rest: seq<byte>, end: End)
    requires Sendable(m)
    ensures var s := FrameBytes(m) + rest;
            if m.h.t == PROTOCOL_ERROR then
              ReadHeader(s, end) == Msg(m.h, TakenFor(m.h, |s|)) || (end.Broken? && ReadHeader(s, end).Err?)
            else ReadHeader(s, end) == Msg(m.h, HeaderSize(m.h)) && HeaderSize(m.h) <= |FrameBytes(m)|
  {
    var s := FrameBytes(m) + rest;
    FrameLayout(m);
    SpellsExtends(FrameBytes(m), s, m.h);
    SpelledIsRead(s, m.h, end);
    hide ReadHeader, FrameBytes;
  }

  lemma RoundReads(c: Choice, s: seq<byte>, end: End, h: Header, used: nat)
    requires used <= |s| && ReadHeader(s, end) == Msg(h, used)
    ensures var b := Body(c, h, s[used..], end); Round(c, s, end) == b.(used := used + b.used)
  {
  }

  lemma RoundOnError(c: Choice, m: Message, rest: seq<byte>, end: End)
    requires Sendable(m) && m.h.t == PROTOCOL_ERROR
    ensures var r := Round(c, FrameBytes(m) + rest, end);
            r.event.None? && (r.stop == Some(PeerError(m.h.size)) || end.Broken?)
  {
    var s := FrameBytes(m) + rest;
    FrameIsRead(m, rest, end);
    hide ReadHeader, FrameBytes, Sendable, Body;
    if ReadHeader(s, end).Msg? {
      BodyOnError(c, m.h, s[ReadHeader(s, end).used..], end);
    }
  }

  /** A written message at the front of the stream is read as itself and takes exactly its own bytes. */
  lemma RoundOnFrame(c: Choice, m: Message, rest: seq<byte>, end: End)
    requires Sendable(m)
    ensures var r, s := Round(c, FrameBytes(m) + rest, end), FrameBytes(m) + rest;
            match Decide(c, m.h)
            case Halt(reason) =>
              r.event.None? && (r.stop == Some(reason) || (end.Broken? && reason.PeerError?))
            case Act(a, behind) =>
              && r.event == Some(Event(a, m)) && r.used == |FrameBytes(m)|
              && r.stop == behind
  {
    if m.h.t == PROTOCOL_ERROR {
      RoundOnError(c, m, rest, end);
    } else {
      var c0, s := FrameBytes(m), FrameBytes(m) + rest;
      FrameLayout(m);
      FrameIsRead(m, rest, end);
      hide ReadHeader, Spells, FrameBytes, Sendable, Body, Round, Decide, HeaderSize;
      DropFront(c0, rest, HeaderSize(m.h));
      RoundReads(c, s, end, m.h, HeaderSize(m.h));
      BodyOnPayload(c, m.h, m.payload, rest, end);
    }
  }

  lemma ServeStep(choices: nat -> Choice, i: nat, ms: seq<Message>)
    ensures var sv := Serve(choices, i, ms);
            if ms == [] then sv == ([], None)
            else
              match Decide(choices(i), ms[0].h)
              case Halt(reason) => sv == ([], Some(reason))
              case Act(a, behind) =>
                if behind.Some? then sv == ([Event(a, ms[0])], behind)
                else
                  var sub := Serve(choices, i + 1, ms[1..]);
                  sv == ([Event(a, ms[0])] + sub.0, sub.1)
  {
  }

  lemma StreamStep(ms: seq<Message>, tail: seq<byte>)
    requires forall m :: m in ms ==> Sendable(m)
    ensures if ms == [] then Stream(ms) + tail == tail
            else Stream(ms) + tail == FrameBytes(ms[0]) + (Stream(ms[1..]) + tail)
  {
  }

  /** The byte loop refines the message loop on any stream of written messages. */
  lemma {:induction false} RunServes(choices: nat -> Choice, i: nat, ms: seq<Message>, tail: seq<byte>, end: End)
    requires forall m :: m in ms ==> Sendable(m)
    ensures var tr, sv := Run(choices, i, Stream(ms) + tail, end), Serve(choices, i, ms);
            match sv.1
            case Some(reason) =>
              && tr.events == sv.0
              && (tr.reason == reason || (end.Broken? && reason.PeerError?))
            case None =>
              var rest := Run(choices, i + |ms|, tail, end);
              tr.events == sv.0 + rest.events && tr.reason == rest.reason && tr.left == rest.left
    decreases |ms|
  {
    hide Round, Run, Serve, Stream, FrameBytes, Sendable, Decide;
    ServeStep(choices, i, ms);
    StreamStep(ms, tail);
    if ms == [] {
    } else {
      var m, more := ms[0], Stream(ms[1..]) + tail;
      var s := FrameBytes(m) + more;
      RoundOnFrame(choices(i), m, more, end);
      RunStep(choices, i, s, end);
      DropFront(FrameBytes(m), more, |FrameBytes(m)|);
      assert [] + more == more;
      var v := Decide(choices(i), m.h);
      if v.Act? && v.behind.None? {
        RunServes(choices, i + 1, ms[1..], tail, end);
      }
    }
  }

  /** A frame cut short at the end of the stream is never handled. */
  lemma CutFrameIsNotServed(choices: nat -> Choice, i: nat, m: Message, part: seq<byte>, end: End)
    requires Sendable(m) && part <= FrameBytes(m) && part != FrameBytes(m)
    ensures Run(choices, i, part, end).events == []
  {
    hide ReadHeader, Spells, FrameBytes, Sendable;
    FrameLayout(m);
    if ReadHeader(part, end).Msg? {
      var h := ReadHeader(part, end).h;
      ReadIsSpelled(part, end);
      SpellsUniquely(part, FrameBytes(m), h, m.h);
    }
  }
}
