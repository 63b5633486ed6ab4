/**
 Single requests and responses as the messages that carry them (sock.go:240-268, 374-390, 555-576,
 response.go:16-28): what one socket writes is what the read loop of the other takes it for.
 */
module OnWire {
  import opened Bytes
  import opened Protocol
  import opened Wire
  import opened ReadLoop
  import opened Verdicts
  import A = Requestor
  import R = ResChans
  import Writers

  /** The message type of a response, and what IsError, IsRetry and IsStreaming make of it. */
  function TypeOf(kind: A.Kind): byte {
    match kind
    case Result => SINGLE_RES
    case Part => STREAM_RES
    case Failure => ERROR_RES
    case Retry => RETRY_RES
  }

  function KindOf(t: byte): A.Kind {
    if t == ERROR_RES then A.Failure
    else if t == RETRY_RES then A.Retry
    else if t == STREAM_RES then A.Part
    else A.Result
  }

  function RequestMessage(q: A.Request): Message
    requires q.id < TWO_32
  {
    Message(Header(SINGLE_REQ, FormatRequestID(q.id), q.op, 0, |q.data|), q.data)
  }

  function ReplyMessage(r: A.Response, wait: nat): Message
    requires r.id < TWO_32
  {
    Message(Header(TypeOf(r.kind), FormatRequestID(r.id), [], if r.kind.Retry? then wait else 0, |r.data|), r.data)
  }

  /** What readResponse makes of a message. */
  function ResponseIn(m: Message): A.Response
    requires |m.h.id| == 4
  {
    A.Response(KindOf(m.h.t), R.NumberOf(m.h.id), m.payload)
  }

  /** The letters of the grammar. */
  function Letter(kind: A.Kind): char {
    match kind
    case Result => 'R'
    case Part => 'S'
    case Failure => 'E'
    case Retry => 'e'
  }

  /** Requests that have an operation, and payloads whose size fits its field. */
  predicate Fits(op: seq<byte>, data: seq<byte>) {
    1 <= |op| < 0x1000 && |data| < TWO_32
  }

  lemma ReplyIsRead(r: A.Response, wait: nat)
    requires r.id < TWO_32 && wait < TWO_32 && |r.data| < TWO_32
    ensures var m := ReplyMessage(r, wait);
            Sendable(m) && m.h.t as char == Letter(r.kind) && |m.h.id| == 4 && ResponseIn(m) == r
  {
    R.OneToOne();
    hide FormatRequestID, R.NumberOf;
  }

  lemma RequestIsRead(q: A.Request)
    requires q.id < TWO_32 && Fits(q.op, q.data)
    ensures var m := RequestMessage(q);
            && Sendable(m) && m.h.t as char == 'r' && m.h.name == q.op && m.payload == q.data
            && |m.h.id| == 4 && R.NumberOf(m.h.id) == q.id
  {
    R.OneToOne();
    hide FormatRequestID, R.NumberOf;
  }

  /** These messages are the responses, in order. */
  predicate AreReplies(ms: seq<Message>, rs: seq<A.Response>, waits: seq<nat>) {
    && |ms| == |rs| == |waits|
    && forall k :: 0 <= k < |rs| ==>
      rs[k].id < TWO_32 && waits[k] < TWO_32 && |rs[k].data| < TWO_32 && ms[k] == ReplyMessage(rs[k], waits[k])
  }

  predicate AreRequests(ms: seq<Message>, qs: seq<A.Request>) {
    && |ms| == |qs|
    && forall k :: 0 <= k < |qs| ==> qs[k].id < TWO_32 && Fits(qs[k].op, qs[k].data) && ms[k] == RequestMessage(qs[k])
  }

  /** A response never ends the loop. */
  lemma ResponseGoesOn(c: Choice, e: Event, h: Header, reason: Reason)
    ensures h.t as char in "RSEe" ==> !Halts(c, h, reason)
    ensures e.m.h.t as char in "RSEe" && Right(c, e) ==> e.action == Respond && !EndsWith(c, e, reason)
  {
  }

  /**
   Responses over the wire: when the messages written on a connection, by however many goroutines,
   are responses, the read loop of the peer takes off exactly these responses in order.
   */
  lemma RepliesArrive(steps: seq<Writers.Step>, rs: seq<A.Response>, waits: seq<nat>, choices: nat -> Choice, end: End)
    requires Writers.After(steps).Some? && AreReplies(Writers.After(steps).value.sent, rs, waits)
    ensures var tr := Run(choices, 0, Writers.After(steps).value.wire, end);
            && |tr.events| == |rs|
            && forall k :: 0 <= k < |rs| ==>
              tr.events[k].action == Respond && |tr.events[k].m.h.id| == 4 && ResponseIn(tr.events[k].m) == rs[k]
  {
    hide Run, Right, Halts, EndsWith, FormatRequestID, ResponseIn, ReplyMessage;
    Writers.EndToEnd(steps, choices, end);
    var s := Writers.After(steps).value;
    var tr, sv := Run(choices, 0, s.wire, end), Serve(choices, 0, s.sent);
    hide Writers.After, Serve, Writers.Completed;
    forall k | 0 <= k < |rs|
      ensures s.sent[k].h.t as char in "RSEe" && |s.sent[k].h.id| == 4 && ResponseIn(s.sent[k]) == rs[k]
    {
      ReplyIsRead(rs[k], waits[k]);
    }
    var n := |tr.events|;
    forall k | 0 <= k < n
      ensures tr.events[k].action == Respond
    {
      assert Right(choices(0 + k), tr.events[k]);
      ResponseGoesOn(choices(k), tr.events[k], tr.events[k].m.h, ReplyFailed);
    }
    if sv.1.Some? {
      if n > 0 {
        assert Right(choices(0 + (n - 1)), tr.events[n - 1]);
        ResponseGoesOn(choices(n - 1), tr.events[n - 1], tr.events[n - 1].m.h, sv.1.value);
      }
      if n < |rs| {
        ResponseGoesOn(choices(n), Event(Respond, s.sent[n]), s.sent[n].h, sv.1.value);
      }
      assert false;
    }
  }

  /**
   Requests over the wire: the peer handles exactly the requests written, in order, with their own
   ids, operations and payloads, and passes each to a handler exactly if it is admitted and there is
   one; it goes on to the last unless it cannot write a refusal.
   */
  lemma RequestsArrive(steps: seq<Writers.Step>, qs: seq<A.Request>, choices: nat -> Choice, end: End)
    requires Writers.After(steps).Some? && AreRequests(Writers.After(steps).value.sent, qs)
    ensures var tr := Run(choices, 0, Writers.After(steps).value.wire, end);
            var n := |tr.events|;
            && n <= |qs|
            && (forall k :: 0 <= k < n ==>
                 var m := tr.events[k].m;
                 && |m.h.id| == 4 && R.NumberOf(m.h.id) == qs[k].id && m.h.name == qs[k].op && m.payload == qs[k].data
                 && m.h.t as char == 'r' && Right(choices(k), tr.events[k]))
            && (n < |qs| ==> n > 0 && tr.events[n - 1].action != Dispatch && !choices(n - 1).replyOk)
  {
    hide Run, Right, FormatRequestID, R.NumberOf, RequestMessage;
    Writers.EndToEnd(steps, choices, end);
    var s := Writers.After(steps).value;
    var tr := Run(choices, 0, s.wire, end);
    hide Writers.After, Serve, Writers.Completed;
    forall k | 0 <= k < |qs|
      ensures && s.sent[k].h.t as char == 'r' && s.sent[k].h.name == qs[k].op && s.sent[k].payload == qs[k].data
              && |s.sent[k].h.id| == 4 && R.NumberOf(s.sent[k].h.id) == qs[k].id
    {
      RequestIsRead(qs[k]);
    }
    forall k | 0 <= k < |tr.events|
      ensures Right(choices(k), tr.events[k])
    {
      assert Right(choices(0 + k), tr.events[k]);
    }
    if 0 < |tr.events| {
      OnlyOwnIds(choices(|tr.events| - 1), tr.events[|tr.events| - 1]);
    }
  }

  lemma OnlyOwnIds(c: Choice, e: Event)
    requires e.m.h.t as char == 'r' && Right(c, e)
    ensures e.action != Collide
  {
  }
}
