/**
 The responding side of a socket (sock.go:374-448, 456-546): the read loop that admits, refuses
 or dispatches requests, the handlers it started, and the slots of the limit they share. One
 step is one atomic operation on a counter, one write, or one move of a goroutine. Single and
 stream requests come in any order on the one loop, and each kind has a counter of its own. The
 handler of a single request writes one reply; that of a stream request writes any number of
 frames, interleaved with everything else on the connection.
 */
module Responder {
  import opened Bytes
  import opened Counter
  import Requestor
  import W = StreamWriter

  type Request = Requestor.Request
  type Response = Requestor.Response
  type Kind = Requestor.Kind

  /** The read loop. The number is that of the request it holds, in the order of arrival. */
  datatype Loop =
    | AtHead
    | BackingOut(k: nat) // counted, over the limit, about to undo its increment
    | Refused(k: nat)    // about to write its refusal
    | Admitted(k: nat)   // counted, not yet dispatched
    | Unknown(k: nat, failed: bool) // no handler: error written, or not; slot still held
    | Ended

  /** A handler goroutine; once it has replied it still holds its slot. */
  datatype Handler =
    | Running(script: seq<W.Op>)                           // what it has done with its writer so far
    | Closing(script: seq<W.Op>, fail: Option<seq<byte>>)  // a stream handler has returned; out.Close() is due
    | Replied

  /** A reply as written; k says which request it answers. */
  datatype Reply = Reply(k: nat, r: Response)

  /** A reply without the id. */
  datatype Content = Content(kind: Kind, data: seq<byte>)

  /** A complete response: one reply, or that of a stream handler with this script and error. */
  datatype Answer = Single(c: Content) | Stream(script: seq<W.Op>, fail: Option<seq<byte>>)

  /** The fate of a reply of the read loop: the payload before it may fail to be read, or its write may fail. */
  datatype Outcome = Written | Lost | Unread

  /** A limitCounter; count is a uint32. */
  datatype Slots = Slots(limit: nat, count: nat)

  datatype State = State(
    singles: Slots,
    streams: Slots,
    loop: Loop,
    handlers: map<nat, Handler>, // by the number of their request
    dead: bool,                 // a write has failed, or the connection has been closed
    received: seq<Request>,     // history: requests accepted off the stream
    isStream: seq<bool>,        // which of them are stream requests
    out: seq<Reply>,            // history: replies written
    answers: map<nat, Answer>,  // history: requests whose response has been completed, or lost with the connection
    healthy: bool,              // history: no read or write on the connection has failed
    extra: bool)                // history: a part read failed and gave back a slot it did not own

  datatype Step =
    | Accept(req: Request, stream: bool)
    | BackOut
    | Refuse(o: Outcome)
    | RejectUnknown(o: Outcome)
    | ReleaseUnknown
    | Dispatch
    | PayloadFails
    | HandlerReplies(k: nat, kind: Kind, data: seq<byte>, ok: bool) // returned, failed or panicked
    | StreamOp(k: nat, op: W.Op, ok: bool)                          // a stream handler uses its writer
    | StreamReturns(k: nat, fail: Option<seq<byte>>, ok: bool)      // and returns; an error is written
    | StreamCloses(k: nat, ok: bool)                                // out.Close()
    | HandlerReleases(k: nat)
    | PartTorn
    | Break
    | EndLoop

  function Initial(singleLimit: nat, streamLimit: nat): State {
    State(Slots(singleLimit, 0), Slots(streamLimit, 0), AtHead, map[], false, [], [], [], map[], true, false)
  }

  predicate IsStream(s: State, k: nat) {
    k < |s.isStream| && s.isStream[k]
  }

  /** The slots of one kind of request. */
  function SlotsFor(s: State, stream: bool): Slots {
    if stream then s.streams else s.singles
  }

  predicate Limited(x: Slots) {
    x.limit != UNLIMITED
  }

  /** incBufferReq or incStreamReq, and decBufferReq or decStreamReq. */
  function Raised(x: Slots): (r: Slots)
    ensures r.limit == x.limit && (x.count < TWO_32 ==> r.count < TWO_32)
  {
    if Limited(x) then x.(count := Up(x.count)) else x
  }

  function Lowered(x: Slots): (r: Slots)
    ensures r.limit == x.limit && (x.count < TWO_32 ==> r.count < TWO_32)
  {
    if Limited(x) then x.(count := Down(x.count)) else x
  }

  function GiveBack(s: State, stream: bool): State {
    s.(singles := if stream then s.singles else Lowered(s.singles),
    streams := if stream then Lowered(s.streams) else s.streams)
  }

  predicate RunsStream(s: State, k: nat) {
    IsStream(s, k) && k in s.handlers && s.handlers[k].Running?
  }

  predicate Enabled(s: State, step: Step) {
    match step
    case Accept(_, _) => s.loop.AtHead?
    case BackOut => s.loop.BackingOut?
    case Refuse(o) => s.loop.Refused? && (o.Written? ==> !s.dead)
    case RejectUnknown(o) => s.loop.Admitted? && (o.Written? ==> !s.dead)
    case ReleaseUnknown => s.loop.Unknown?
    case Dispatch => s.loop.Admitted?
    case PayloadFails => s.loop.Admitted?
    case HandlerReplies(k, kind, _, ok) =>
      && !IsStream(s, k) && k in s.handlers && s.handlers[k].Running?
      && (kind.Result? || kind.Failure?) && (ok ==> !s.dead)
    case StreamOp(k, _, ok) => RunsStream(s, k) && (ok ==> !s.dead)
    case StreamReturns(k, _, ok) => RunsStream(s, k) && (ok ==> !s.dead)
    case StreamCloses(k, ok) => k in s.handlers && s.handlers[k].Closing? && (ok ==> !s.dead)
    case HandlerReleases(k) => k in s.handlers && s.handlers[k].Replied?
    case PartTorn => s.loop.AtHead? && true in s.isStream
    case Break => true
    case EndLoop => s.loop.AtHead?
  }

  /** What a writer's frame is on the connection. */
  function ContentOf(f: W.Frame): Content {
    match f
    case S(b) => Content(Requestor.Part, b)
    case E(msg) => Content(Requestor.Failure, msg)
  }

  function Contents(fs: seq<W.Frame>): (cs: seq<Content>)
    ensures |cs| == |fs|
  {
    seq(|fs|, i requires 0 <= i < |fs| => ContentOf(fs[i]))
  }

  /** The frame an operation of a writer puts on the connection, after those of the script. */
  function OpFrame(script: seq<W.Op>, op: W.Op): Option<W.Frame> {
    match op
    case Write(b) => Some(W.S(b))
    case Close => if W.HasEnd(script) then None else Some(W.S([]))
  }

  /** One write on the connection in reply to request k. */
  datatype Write = Write(k: nat, c: Content, ok: bool)

  function FrameWrite(k: nat, f: Option<W.Frame>, ok: bool): Option<Write> {
    if f.Some? then Some(Write(k, ContentOf(f.value), ok)) else None
  }

  /** The bytes of a text. */
  function Ascii(text: string): seq<byte> {
    seq(|text|, i requires 0 <= i < |text| => text[i] as int % 256)
  }

  /** What the read loop answers to a request over the limit. */
  function Refusal(s: State, k: nat): Content {
    if IsStream(s, k) && s.streams.limit == 0 then
      Content(Requestor.Failure, Ascii("stream requests not supported"))
    else
      Content(Requestor.Retry, Ascii("request rate limit"))
  }

  /** And to one without a handler. */
  function Rejection(s: State, k: nat): Content {
    var op := if k < |s.received| then s.received[k].op else [];
    Content(Requestor.Failure, Ascii("unknown operation \"") + op + Ascii("\""))
  }

  /** The write that a step is, if any. */
  function WriteOf(s: State, step: Step): Option<Write>
    requires Enabled(s, step)
  {
    match step
    case Refuse(o) => if o.Unread? then None else Some(Write(s.loop.k, Refusal(s, s.loop.k), o.Written?))
    case RejectUnknown(o) => if o.Unread? then None else Some(Write(s.loop.k, Rejection(s, s.loop.k), o.Written?))
    case HandlerReplies(k, kind, data, ok) => Some(Write(k, Content(kind, data), ok))
    case StreamOp(k, op, ok) => FrameWrite(k, OpFrame(s.handlers[k].script, op), ok)
    case StreamReturns(k, fail, ok) => if fail.Some? then Some(Write(k, ContentOf(W.E(fail.value)), ok)) else None
    case StreamCloses(k, ok) => FrameWrite(k, OpFrame(s.handlers[k].script, W.Close), ok)
    case _ => None
  }

  /** Its effect on the connection; after one that fails no other succeeds. */
  function Emit(s: State, w: Option<Write>): State
    requires w.Some? ==> w.value.k < |s.received|
  {
    if w.None? then s
    else if w.value.ok then
      var Write(k, c, _) := w.value;
      s.(out := s.out + [Reply(k, Requestor.Response(c.kind, s.received[k].id, c.data))])
    else s.(dead := true, healthy := false)
  }

  function Complete(s: State, k: nat, a: Answer): State {
    s.(answers := s.answers[k := a], handlers := s.handlers[k := Replied])
  }

  function AfterReply(s: State, k: nat, c: Content, o: Outcome, next: Loop): State {
    s.(loop := next,
    answers := if o.Unread? then s.answers else s.answers[k := Single(c)],
    healthy := s.healthy && !o.Unread?)
  }

  /** The rest of its effect. */
  function Move(s: State, step: Step): State
    requires Enabled(s, step)
  {
    match step
    case Accept(req, stream) =>
      var k, x := |s.received|, SlotsFor(s, stream);
      s.(received := s.received + [req], isStream := s.isStream + [stream],
      singles := if stream then s.singles else Raised(s.singles),
      streams := if stream then Raised(s.streams) else s.streams,
      loop := if Limited(x) && Up(x.count) > x.limit then BackingOut(k) else Admitted(k))
    case BackOut => GiveBack(s, IsStream(s, s.loop.k)).(loop := Refused(s.loop.k))
    case Refuse(o) => AfterReply(s, s.loop.k, Refusal(s, s.loop.k), o, if o.Written? then AtHead else Ended)
    case RejectUnknown(o) => AfterReply(s, s.loop.k, Rejection(s, s.loop.k), o, Unknown(s.loop.k, !o.Written?))
    case ReleaseUnknown => GiveBack(s, IsStream(s, s.loop.k)).(loop := if s.loop.failed then Ended else AtHead)
    case Dispatch => s.(handlers := s.handlers[s.loop.k := Running([])], loop := AtHead)
    case PayloadFails => GiveBack(s, IsStream(s, s.loop.k)).(loop := Ended, healthy := false)
    case HandlerReplies(k, kind, data, _) =>
      Complete(s, k, Single(Content(kind, data)))
    case StreamOp(k, op, _) => s.(handlers := s.handlers[k := Running(s.handlers[k].script + [op])])
    case StreamReturns(k, fail, _) => s.(handlers := s.handlers[k := Closing(s.handlers[k].script, fail)])
    case StreamCloses(k, _) =>
      Complete(s, k, Stream(s.handlers[k].script, s.handlers[k].fail))
    case HandlerReleases(k) => GiveBack(s, IsStream(s, k)).(handlers := s.handlers - {k})
    case PartTorn => GiveBack(s, true).(loop := Ended, healthy := false, extra := true)
    case Break => s.(dead := true, healthy := false)
    case EndLoop => s.(loop := Ended)
  }

  function Apply(s: State, step: Step): State
    requires Numbered(s) && Enabled(s, step)
  {
    EmitNumbered(s, step);
    Move(Emit(s, WriteOf(s, step)), step)
  }

  /** Everything that refers to a request refers to one that was received. */
  predicate Numbered(s: State) {
    && s.singles.limit < TWO_32 && s.singles.count < TWO_32
    && s.streams.limit < TWO_32 && s.streams.count < TWO_32
    && |s.isStream| == |s.received|
    && (!s.loop.AtHead? && !s.loop.Ended? ==> s.loop.k < |s.received|)
    && (forall k :: k in s.handlers ==> k < |s.received|)
    && (forall k :: k in s.answers ==> k < |s.received|)
    && (forall j :: 0 <= j < |s.out| ==> s.out[j].k < |s.received|)
  }

  lemma EmitNumbered(s: State, step: Step)
    requires Numbered(s) && Enabled(s, step)
    ensures WriteOf(s, step).Some? ==> WriteOf(s, step).value.k < |s.received|
    ensures var s' := Emit(s, WriteOf(s, step));
            && Numbered(s') && Enabled(s', step)
            && s' == s.(out := s'.out, dead := s'.dead, healthy := s'.healthy)
  {
    hide OpFrame;
  }

  /** The steps of handlers. */
  predicate IsHandling(step: Step) {
    step.HandlerReplies? || step.StreamOp? || step.StreamReturns? || step.StreamCloses? || step.HandlerReleases?
  }

  lemma HandlingNumbered(s: State, step: Step)
    requires Numbered(s) && Enabled(s, step) && IsHandling(step)
    ensures Numbered(Move(s, step))
  {
    hide Down;
  }

  /** The replies of the read loop. */
  predicate IsReplying(step: Step) {
    step.Refuse? || step.RejectUnknown?
  }

  lemma ReplyingNumbered(s: State, step: Step)
    requires Numbered(s) && Enabled(s, step) && IsReplying(step)
    ensures Numbered(Move(s, step))
  {
    hide Down, Refusal, Rejection;
  }

  lemma OtherNumbered(s: State, step: Step)
    requires Numbered(s) && Enabled(s, step) && !IsHandling(step) && !IsReplying(step)
    ensures Numbered(Move(s, step))
  {
    hide Up, Down;
  }

  lemma StepNumbered(s: State, step: Step)
    requires Numbered(s) && Enabled(s, step)
    ensures Numbered(Apply(s, step))
  {
    hide Emit, Move, Numbered, Enabled;
    EmitNumbered(s, step);
    if IsHandling(step) {
      HandlingNumbered(Emit(s, WriteOf(s, step)), step);
    } else if IsReplying(step) {
      ReplyingNumbered(Emit(s, WriteOf(s, step)), step);
    } else {
      OtherNumbered(Emit(s, WriteOf(s, step)), step);
    }
  }

  // ----- Where a request is -------------------------------------------------------------------

  predicate IsRunning(s: State, k: nat) {
    k in s.handlers && !s.handlers[k].Replied?
  }

  /** The read loop has the request and has not yet replied to it or passed it on. */
  predicate Held(s: State, k: nat) {
    (s.loop.BackingOut? || s.loop.Refused? || s.loop.Admitted?) && s.loop.k == k
  }

  /** One of the three, and only one; a lost connection may lose replies, never add one. */
  predicate InOnePlace(s: State, k: nat) {
    && !(k in s.answers && IsRunning(s, k)) && !(k in s.answers && Held(s, k))
    && !(Held(s, k) && k in s.handlers)
    && (k in s.handlers && s.handlers[k].Replied? ==> k in s.answers)
    && (s.loop.Unknown? && s.loop.k == k ==> k !in s.handlers)
    && (s.healthy ==> k in s.answers || IsRunning(s, k) || Held(s, k))
    && (s.healthy ==> !s.dead)
  }

  /** The kinds of response that the two kinds of request get. */
  predicate KindOk(s: State, k: nat) {
    && (k in s.answers && s.answers[k].Stream? ==> IsStream(s, k))
    && (k in s.answers && s.answers[k].Single? ==>
         !s.answers[k].c.kind.Part? && (IsStream(s, k) ==> !s.answers[k].c.kind.Result?))
    && (!IsStream(s, k) && IsRunning(s, k) ==> s.handlers[k] == Running([]))
  }

  // ----- What has been written for a request --------------------------------------------------

  /** The replies to request k, in order. */
  function Of(out: seq<Reply>, k: nat): seq<Content> {
    if out == [] then []
    else
      var n := |out| - 1;
      Of(out[..n], k) + if out[n].k == k then [Content(out[n].r.kind, out[n].r.data)] else []
  }

  function AnswerContents(a: Answer): seq<Content> {
    match a
    case Single(c) => [c]
    case Stream(script, fail) => Contents(W.Trace(script, fail))
  }

  /** What request k has been answered with so far, were it not for the connection. */
  function Due(s: State, k: nat): seq<Content> {
    if k in s.answers then AnswerContents(s.answers[k])
    else if k !in s.handlers then []
    else
      match s.handlers[k]
      case Running(script) => Contents(W.Emitted(script, false))
      case Closing(script, fail) => Contents(W.Emitted(script, false) + W.ErrorFrame(fail))
      case Replied => []
  }

  /** That is on the wire; if the connection died, the beginning of it. */
  predicate OnWire(s: State, k: nat) {
    Of(s.out, k) <= Due(s, k) && (!s.dead ==> Of(s.out, k) == Due(s, k))
  }

  predicate IdsMatch(s: State)
    requires Numbered(s)
  {
    forall j :: 0 <= j < |s.out| ==> s.out[j].r.id == s.received[s.out[j].k].id
  }

  lemma OfSnoc(out: seq<Reply>, r: Reply, k: nat)
    ensures Of(out + [r], k) == Of(out, k) + if r.k == k then [Content(r.r.kind, r.r.data)] else []
  {
    assert (out + [r])[..|out|] == out;
  }

  lemma {:induction false} OfNone(out: seq<Reply>, k: nat)
    requires forall j :: 0 <= j < |out| ==> out[j].k != k
    ensures Of(out, k) == []
  {
    if out != [] {
      OfNone(out[..|out| - 1], k);
    }
  }

  /** What a write adds to the replies to request k. */
  function Added(w: Option<Write>, k: nat): seq<Content> {
    if w.Some? && w.value.k == k then [w.value.c] else []
  }

  lemma EmitOf(s: State, w: Option<Write>, k: nat)
    requires w.Some? ==> w.value.k < |s.received|
    ensures var s' := Emit(s, w);
            && Of(s'.out, k) == Of(s.out, k) + (if w.Some? && w.value.ok then Added(w, k) else [])
            && (s'.dead <==> s.dead || (w.Some? && !w.value.ok))
  {
    assert Of(s.out, k) + [] == Of(s.out, k);
    if w.Some? && w.value.ok {
      var Write(k0, c, _) := w.value;
      OfSnoc(s.out, Reply(k0, Requestor.Response(c.kind, s.received[k0].id, c.data)), k);
    }
  }

  /** What is due grows by what is written, if the write succeeds. */
  lemma Grows(s: State, s': State, w: Option<Write>, k: nat)
    requires OnWire(s, k) && (w.Some? && w.value.ok ==> !s.dead)
    requires Due(s', k) == Due(s, k) + Added(w, k)
    requires Of(s'.out, k) == Of(s.out, k) + (if w.Some? && w.value.ok then Added(w, k) else [])
    requires s'.dead <== s.dead || (w.Some? && !w.value.ok)
    ensures OnWire(s', k)
  {
    hide Due, Of;
    assert Of(s.out, k) + [] == Of(s.out, k);
    assert Due(s, k) <= Due(s', k);
  }

  lemma ContentsAppend(a: seq<W.Frame>, b: seq<W.Frame>)
    ensures Contents(a + b) == Contents(a) + Contents(b)
  {
  }

  // ----- What every step does to one request --------------------------------------------------

  lemma StreamOpDue(s: State, k: nat, op: W.Op, ok: bool)
    requires Enabled(s, StreamOp(k, op, ok)) && k !in s.answers
    ensures Due(Move(s, StreamOp(k, op, ok)), k) ==
            Due(s, k) + Added(FrameWrite(k, OpFrame(s.handlers[k].script, op), ok), k)
  {
    var script := s.handlers[k].script;
    W.EmittedSnoc(script, op, false);
    hide W.Emitted, W.HasEnd;
    ContentsAppend(W.Emitted(script, false), W.Emitted(script + [op], false)[|W.Emitted(script, false)|..]);
  }

  lemma StreamReturnsDue(s: State, k: nat, fail: Option<seq<byte>>, ok: bool)
    requires Enabled(s, StreamReturns(k, fail, ok)) && k !in s.answers
    ensures Due(Move(s, StreamReturns(k, fail, ok)), k) ==
            Due(s, k) + Added(WriteOf(s, StreamReturns(k, fail, ok)), k)
  {
    hide W.Emitted;
    ContentsAppend(W.Emitted(s.handlers[k].script, false), W.ErrorFrame(fail));
  }

  lemma StreamClosesDue(s: State, k: nat, ok: bool)
    requires Enabled(s, StreamCloses(k, ok)) && k !in s.answers
    ensures Due(Move(s, StreamCloses(k, ok)), k) == Due(s, k) + Added(WriteOf(s, StreamCloses(k, ok)), k)
  {
    var h := s.handlers[k];
    hide W.Emitted, W.ErrorFrame, W.HasEnd;
    ContentsAppend(W.Emitted(h.script, false) + W.ErrorFrame(h.fail), if W.HasEnd(h.script) then [] else [W.S([])]);
  }

  lemma OtherDue(s: State, step: Step, k: nat)
    requires Enabled(s, step) && InOnePlace(s, k) && KindOk(s, k) && k < |s.received|
    requires !(IsHandling(step) && step.k == k) || step.HandlerReplies? || step.HandlerReleases?
    ensures Due(Move(s, step), k) == Due(s, k) + Added(WriteOf(s, step), k)
  {
    hide Contents, OpFrame, W.Trace, W.Emitted, W.ErrorFrame, Up, Down;
    assert Due(s, k) + [] == Due(s, k);
    NothingEmitted();
  }

  lemma MoveDue(s: State, step: Step, k: nat)
    requires Enabled(s, step) && InOnePlace(s, k) && KindOk(s, k) && k < |s.received|
    ensures Due(Move(s, step), k) == Due(s, k) + Added(WriteOf(s, step), k)
  {
    hide Due, Move, Added;
    if step.StreamOp? && step.k == k {
      StreamOpDue(s, k, step.op, step.ok);
    } else if step.StreamReturns? && step.k == k {
      StreamReturnsDue(s, k, step.fail, step.ok);
    } else if step.StreamCloses? && step.k == k {
      StreamClosesDue(s, k, step.ok);
    } else {
      OtherDue(s, step, k);
    }
  }

  lemma NothingEmitted()
    ensures Contents(W.Emitted([], false)) == []
  {
  }

  lemma HandlingPlace(s: State, step: Step, k: nat)
    requires Enabled(s, step) && InOnePlace(s, k) && KindOk(s, k) && IsHandling(step)
    ensures InOnePlace(Move(s, step), k) && KindOk(Move(s, step), k)
  {
    hide Down;
  }

  lemma ReplyingPlace(s: State, step: Step, k: nat)
    requires Enabled(s, step) && InOnePlace(s, k) && KindOk(s, k) && IsReplying(step) && k < |s.received|
    ensures InOnePlace(Move(s, step), k) && KindOk(Move(s, step), k)
  {
    hide Numbered;
  }

  lemma OtherPlace(s: State, step: Step, k: nat)
    requires Enabled(s, step) && InOnePlace(s, k) && KindOk(s, k) && k < |s.received|
    requires !IsHandling(step) && !IsReplying(step) && k < |s.isStream|
    ensures InOnePlace(Move(s, step), k) && KindOk(Move(s, step), k)
  {
    hide Up, Down;
  }

  lemma MovePlace(s: State, step: Step, k: nat)
    requires Enabled(s, step) && InOnePlace(s, k) && KindOk(s, k) && k < |s.received| == |s.isStream|
    ensures InOnePlace(Move(s, step), k) && KindOk(Move(s, step), k)
  {
    hide Enabled, Move, InOnePlace, KindOk;
    if IsHandling(step) {
      HandlingPlace(s, step, k);
    } else if IsReplying(step) {
      ReplyingPlace(s, step, k);
    } else {
      OtherPlace(s, step, k);
    }
  }

  lemma AcceptedPlace(s: State, req: Request, stream: bool)
    requires Numbered(s) && Enabled(s, Accept(req, stream)) && (s.healthy ==> !s.dead)
    ensures var k, s' := |s.received|, Move(s, Accept(req, stream));
            InOnePlace(s', k) && KindOk(s', k) && OnWire(s', k)
  {
    OfNone(s.out, |s.received|);
  }

  // ----- Slots --------------------------------------------------------------------------------

  /** The slot held by the read loop itself, if it is one of this kind. */
  function LoopSlots(s: State, stream: bool): nat {
    if (s.loop.BackingOut? || s.loop.Admitted? || s.loop.Unknown?) && IsStream(s, s.loop.k) == stream then 1 else 0
  }

  /** Those of the requests that are of this kind. */
  function OfKind(ks: set<nat>, isStream: seq<bool>, stream: bool): set<nat> {
    set k | k in ks && (k < |isStream| && isStream[k]) == stream
  }

  function HandlersOf(s: State, stream: bool): set<nat> {
    OfKind(s.handlers.Keys, s.isStream, stream)
  }

  /** The count is right for this many handlers and loop slots. */
  predicate CountOk(x: Slots, handlers: nat, loop: nat, extra: bool) {
    Limited(x) ==>
      && handlers <= x.limit
      && x.count == (handlers + loop + if extra then UNLIMITED else 0) % TWO_32
  }

  predicate SlotsAgree(s: State, stream: bool) {
    && (s.extra ==> s.loop.Ended?)
    && CountOk(SlotsFor(s, stream), |HandlersOf(s, stream)|, LoopSlots(s, stream), s.extra && stream)
    && (Limited(SlotsFor(s, stream)) && (s.loop.Admitted? || s.loop.Unknown?) && IsStream(s, s.loop.k) == stream ==>
         |HandlersOf(s, stream)| < SlotsFor(s, stream).limit)
  }

  // What the operations of the counter do to a right count.

  lemma RaisedOk(x: Slots, handlers: nat)
    requires CountOk(x, handlers, 0, false) && x.limit < TWO_32
    ensures CountOk(Raised(x), handlers, 1, false)
    ensures Limited(x) ==> (Up(x.count) <= x.limit <==> handlers < x.limit)
  {
  }

  lemma LoweredOk(x: Slots, handlers: nat, loop: nat, extra: bool)
    requires CountOk(x, handlers, loop + 1, extra)
    ensures CountOk(Lowered(x), handlers, loop, extra)
  {
    DownOf(handlers + loop + 1 + if extra then UNLIMITED else 0);
    hide Down;
  }

  lemma LeftOk(x: Slots, handlers: nat, loop: nat, extra: bool)
    requires CountOk(x, handlers + 1, loop, extra)
    ensures CountOk(Lowered(x), handlers, loop, extra)
  {
    DownOf(handlers + 1 + loop + if extra then UNLIMITED else 0);
    hide Down;
  }

  lemma DispatchedOk(x: Slots, handlers: nat)
    requires CountOk(x, handlers, 1, false) && (Limited(x) ==> handlers < x.limit)
    ensures CountOk(x, handlers + 1, 0, false)
  {
  }

  /** A decrement too many makes an extra. */
  lemma ExtraOk(x: Slots, handlers: nat)
    requires CountOk(x, handlers, 0, false)
    ensures CountOk(Lowered(x), handlers, 0, true)
  {
  }

  /** The handlers of a kind depend on which handlers there are only. */
  lemma SameHandlers(s: State, s': State, stream: bool)
    requires s'.handlers.Keys == s.handlers.Keys && s.isStream <= s'.isStream
    requires forall k :: k in s.handlers ==> k < |s.isStream|
    ensures HandlersOf(s', stream) == HandlersOf(s, stream)
  {
    forall k | k in s.handlers.Keys
      ensures (k < |s'.isStream| && s'.isStream[k]) == s.isStream[k]
    {
    }
  }

  lemma OneMoreOfKind(ks: set<nat>, isStream: seq<bool>, stream: bool, k: nat)
    requires k !in ks
    ensures |OfKind(ks + {k}, isStream, stream)| ==
            |OfKind(ks, isStream, stream)| + if (k < |isStream| && isStream[k]) == stream then 1 else 0
  {
    if (k < |isStream| && isStream[k]) == stream {
      assert OfKind(ks + {k}, isStream, stream) == OfKind(ks, isStream, stream) + {k};
    } else {
      assert OfKind(ks + {k}, isStream, stream) == OfKind(ks, isStream, stream);
    }
  }

  lemma AcceptSlots(s: State, req: Request, stream: bool, st: bool)
    requires Numbered(s) && SlotsAgree(s, st) && Enabled(s, Accept(req, stream))
    ensures SlotsAgree(Move(s, Accept(req, stream)), st)
  {
    SameHandlers(s, Move(s, Accept(req, stream)), st);
    if stream == st {
      RaisedOk(SlotsFor(s, st), |HandlersOf(s, st)|);
    }
    hide HandlersOf, CountOk, Raised, Up;
  }

  /** The steps by which the read loop gives back its slot. */
  predicate IsReleasing(step: Step) {
    step.BackOut? || step.ReleaseUnknown? || step.PayloadFails?
  }

  lemma ReleasingKeeps(s: State, step: Step)
    requires Enabled(s, step) && IsReleasing(step)
    ensures var s' := Move(s, step);
            && s'.handlers == s.handlers && s'.isStream == s.isStream && s'.extra == s.extra
            && s'.singles == GiveBack(s, IsStream(s, s.loop.k)).singles
            && s'.streams == GiveBack(s, IsStream(s, s.loop.k)).streams
            && (s.loop.BackingOut? || s.loop.Admitted? || s.loop.Unknown?)
            && (s'.loop.Refused? || s'.loop.AtHead? || s'.loop.Ended?)
  {
    hide Lowered;
  }

  lemma ReleasingSlots(s: State, step: Step, st: bool)
    requires Numbered(s) && SlotsAgree(s, st) && Enabled(s, step) && IsReleasing(step)
    ensures SlotsAgree(Move(s, step), st)
  {
    ReleasingKeeps(s, step);
    SameHandlers(s, Move(s, step), st);
    hide Move, Enabled, HandlersOf, CountOk, Lowered;
    if IsStream(s, s.loop.k) == st {
      LoweredOk(SlotsFor(s, st), |HandlersOf(s, st)|, 0, s.extra && st);
    }
  }

  lemma TornSlots(s: State, st: bool)
    requires Numbered(s) && SlotsAgree(s, st) && Enabled(s, PartTorn)
    ensures SlotsAgree(Move(s, PartTorn), st)
  {
    SameHandlers(s, Move(s, PartTorn), st);
    hide HandlersOf, CountOk, Lowered;
    if st {
      ExtraOk(SlotsFor(s, st), |HandlersOf(s, st)|);
    }
  }

  lemma ReleaseSlots(s: State, k: nat, st: bool)
    requires Numbered(s) && SlotsAgree(s, st) && Enabled(s, HandlerReleases(k))
    ensures SlotsAgree(Move(s, HandlerReleases(k)), st)
  {
    var s' := Move(s, HandlerReleases(k));
    ReleasedHandlers(s, k, st);
    hide HandlersOf, CountOk, Lowered;
    if IsStream(s, k) == st {
      LeftOk(SlotsFor(s, st), |HandlersOf(s', st)|, LoopSlots(s, st), s.extra && st);
    }
  }

  lemma ReleasedHandlers(s: State, k: nat, st: bool)
    requires Enabled(s, HandlerReleases(k))
    ensures var s' := Move(s, HandlerReleases(k));
            |HandlersOf(s, st)| == |HandlersOf(s', st)| + if IsStream(s, k) == st then 1 else 0
  {
    var s' := Move(s, HandlerReleases(k));
    hide OfKind, Lowered;
    OneMoreOfKind(s'.handlers.Keys, s.isStream, st, k);
    assert s.handlers.Keys == s'.handlers.Keys + {k};
  }

  lemma DispatchSlots(s: State, st: bool)
    requires Numbered(s) && SlotsAgree(s, st) && Enabled(s, Dispatch) && s.loop.k !in s.handlers
    ensures SlotsAgree(Move(s, Dispatch), st)
  {
    DispatchedHandlers(s, st);
    hide HandlersOf, CountOk;
    if IsStream(s, s.loop.k) == st {
      DispatchedOk(SlotsFor(s, st), |HandlersOf(s, st)|);
    }
  }

  lemma DispatchedHandlers(s: State, st: bool)
    requires Enabled(s, Dispatch) && s.loop.k !in s.handlers
    ensures var s' := Move(s, Dispatch);
            |HandlersOf(s', st)| == |HandlersOf(s, st)| + if IsStream(s, s.loop.k) == st then 1 else 0
  {
    var s' := Move(s, Dispatch);
    hide OfKind;
    OneMoreOfKind(s.handlers.Keys, s.isStream, st, s.loop.k);
    assert s'.handlers.Keys == s.handlers.Keys + {s.loop.k};
  }

  /** The steps that touch neither a counter nor the set of handlers. */
  predicate IsSlotless(step: Step) {
    || step.HandlerReplies? || step.StreamOp? || step.StreamReturns? || step.StreamCloses?
    || step.Refuse? || step.RejectUnknown? || step.Break? || step.EndLoop?
  }

  lemma SlotlessKeeps(s: State, step: Step)
    requires Enabled(s, step) && IsSlotless(step)
    ensures var s' := Move(s, step);
            && s'.handlers.Keys == s.handlers.Keys && s'.isStream == s.isStream && s'.extra == s.extra
            && s'.singles == s.singles && s'.streams == s.streams
            && (s'.loop == s.loop || (s.loop.Refused? && (s'.loop.AtHead? || s'.loop.Ended?))
                || (s.loop.AtHead? && s'.loop.Ended?)
                || (s.loop.Admitted? && s'.loop.Unknown? && s'.loop.k == s.loop.k))
  {
    hide Refusal, Rejection;
  }

  lemma SlotlessSlots(s: State, step: Step, st: bool)
    requires Numbered(s) && SlotsAgree(s, st) && Enabled(s, step) && IsSlotless(step)
    ensures SlotsAgree(Move(s, step), st)
  {
    SlotlessKeeps(s, step);
    SameHandlers(s, Move(s, step), st);
    hide Move, Enabled, HandlersOf, CountOk;
  }

  lemma MoveSlots(s: State, step: Step, st: bool)
    requires Numbered(s) && SlotsAgree(s, st) && Enabled(s, step)
    requires step.Dispatch? ==> s.loop.k !in s.handlers
    ensures SlotsAgree(Move(s, step), st)
  {
    hide SlotsAgree, Move, Enabled, Numbered;
    match step
    case Accept(req, stream) => AcceptSlots(s, req, stream, st);
    case HandlerReleases(k) => ReleaseSlots(s, k, st);
    case Dispatch => DispatchSlots(s, st);
    case PartTorn => TornSlots(s, st);
    case _ =>
      if IsReleasing(step) {
        ReleasingSlots(s, step, st);
      } else {
        SlotlessSlots(s, step, st);
      }
  }

  // ----- The invariant ------------------------------------------------------------------------

  predicate RequestOk(s: State, k: nat) {
    InOnePlace(s, k) && KindOk(s, k) && OnWire(s, k)
  }

  predicate Inv(s: State) {
    && Numbered(s) && IdsMatch(s) && SlotsAgree(s, true) && SlotsAgree(s, false)
    && (s.healthy ==> !s.dead)
    && forall k :: 0 <= k < |s.received| ==> RequestOk(s, k)
  }

  lemma EmitKeeps(s: State, step: Step, k: nat)
    requires Numbered(s) && Enabled(s, step)
    requires WriteOf(s, step).Some? ==> WriteOf(s, step).value.k < |s.received|
    requires var s' := Emit(s, WriteOf(s, step)); Numbered(s') && Enabled(s', step)
    ensures var s' := Emit(s, WriteOf(s, step));
            && WriteOf(s', step) == WriteOf(s, step) && Due(s', k) == Due(s, k)
            && (InOnePlace(s, k) ==> InOnePlace(s', k)) && (KindOk(s, k) ==> KindOk(s', k))
            && ((s.healthy ==> !s.dead) ==> (s'.healthy ==> !s'.dead))
            && (SlotsAgree(s, true) ==> SlotsAgree(s', true)) && (SlotsAgree(s, false) ==> SlotsAgree(s', false))
            && (IdsMatch(s) ==> IdsMatch(s'))
            && s'.received == s.received
  {
    EmitNumbered(s, step);
    hide AnswerContents, Contents, W.Emitted, W.HasEnd, Refusal, Rejection, CountOk, OfKind;
  }

  /** What Move leaves alone. */
  predicate Kept(s: State, s': State, step: Step) {
    && s'.out == s.out && s.received <= s'.received
    && |s'.received| == |s.received| + (if step.Accept? then 1 else 0)
    && (!step.Accept? ==> s'.isStream == s.isStream)
    && (s.dead ==> s'.dead) && (s'.dead ==> s.dead || !s'.healthy) && (s'.healthy ==> s.healthy)
    && s'.singles.limit == s.singles.limit && s'.streams.limit == s.streams.limit
  }

  lemma HandlingKeeps(s: State, step: Step)
    requires Enabled(s, step) && IsHandling(step)
    ensures Kept(s, Move(s, step), step)
  {
  }

  lemma ReplyingKeeps(s: State, step: Step)
    requires Enabled(s, step) && IsReplying(step)
    ensures Kept(s, Move(s, step), step)
  {
    hide Refusal, Rejection;
  }

  lemma OtherKeeps(s: State, step: Step)
    requires Enabled(s, step) && !IsHandling(step) && !IsReplying(step)
    ensures Kept(s, Move(s, step), step)
  {
    hide Up, Down;
  }

  lemma MoveKeeps(s: State, step: Step)
    requires Enabled(s, step)
    ensures Kept(s, Move(s, step), step)
    ensures Numbered(s) && IdsMatch(s) && Numbered(Move(s, step)) ==> IdsMatch(Move(s, step))
  {
    hide Enabled, Move;
    if IsHandling(step) {
      HandlingKeeps(s, step);
    } else if IsReplying(step) {
      ReplyingKeeps(s, step);
    } else {
      OtherKeeps(s, step);
    }
  }

  lemma StepRequestOk(s: State, step: Step, k: nat)
    requires Inv(s) && Enabled(s, step) && k < |s.received|
    ensures RequestOk(Apply(s, step), k)
  {
    EmitNumbered(s, step);
    assert k < |s.received| == |s.isStream|;
    hide Emit, Move, Enabled, Numbered, SlotsAgree, IdsMatch, InOnePlace, KindOk, OnWire, Due, Of, WriteOf;
    assert RequestOk(s, k);
    var w := WriteOf(s, step);
    var s1 := Emit(s, w);
    EmitKeeps(s, step, k);
    EmitOf(s, w, k);
    MoveKeeps(s1, step);
    MoveDue(s1, step, k);
    MovePlace(s1, step, k);
    OkNeedsLife(s, step);
    Grows(s, Apply(s, step), w, k);
  }

  lemma OkNeedsLife(s: State, step: Step)
    requires Enabled(s, step)
    ensures WriteOf(s, step).Some? && WriteOf(s, step).value.ok ==> !s.dead
  {
    hide OpFrame;
  }

  lemma StepInv(s: State, step: Step)
    requires Inv(s) && Enabled(s, step)
    ensures Inv(Apply(s, step))
  {
    hide Emit, Move, Numbered, SlotsAgree, IdsMatch, RequestOk, WriteOf;
    EmitNumbered(s, step);
    var s', s1 := Apply(s, step), Emit(s, WriteOf(s, step));
    StepNumbered(s, step);
    EmitKeeps(s, step, 0);
    MoveKeeps(s1, step);
    if step.Dispatch? {
      HeldIsNew(s);
    }
    MoveSlots(s1, step, true);
    MoveSlots(s1, step, false);
    forall k | 0 <= k < |s'.received|
      ensures RequestOk(s', k)
    {
      if k < |s.received| {
        StepRequestOk(s, step, k);
      } else {
        AcceptedOk(s1, step.req, step.stream);
      }
    }
  }

  lemma AcceptedOk(s: State, req: Request, stream: bool)
    requires Numbered(s) && Enabled(s, Accept(req, stream)) && (s.healthy ==> !s.dead)
    ensures RequestOk(Move(s, Accept(req, stream)), |s.received|)
  {
    AcceptedPlace(s, req, stream);
  }

  lemma HeldIsNew(s: State)
    requires Inv(s) && Enabled(s, Dispatch)
    ensures s.loop.k !in s.handlers
  {
    assert RequestOk(s, s.loop.k);
  }

  lemma StepKeepsLimit(s: State, step: Step)
    requires Numbered(s) && Enabled(s, step)
    ensures Apply(s, step).singles.limit == s.singles.limit && Apply(s, step).streams.limit == s.streams.limit
    ensures s.out <= Apply(s, step).out
    ensures Apply(s, step).received == (if step.Accept? then s.received + [step.req] else s.received)
    ensures Apply(s, step).isStream == (if step.Accept? then s.isStream + [step.stream] else s.isStream)
  {
    EmitNumbered(s, step);
    hide Move, Enabled, Numbered;
    MoveKeeps(Emit(s, WriteOf(s, step)), step);
    if step.Accept? {
      AcceptAppends(Emit(s, WriteOf(s, step)), step);
    }
  }

  lemma AcceptAppends(s: State, step: Step)
    requires Enabled(s, step) && step.Accept?
    ensures Move(s, step).received == s.received + [step.req]
    ensures Move(s, step).isStream == s.isStream + [step.stream]
  {
  }

  function Exec(s: State, steps: seq<Step>): (r: Option<State>)
    requires Numbered(s)
    ensures r.Some? ==> Numbered(r.value)
    decreases |steps|
  {
    if steps == [] then Some(s)
    else if Enabled(s, steps[0]) then
      StepNumbered(s, steps[0]);
      Exec(Apply(s, steps[0]), steps[1..])
    else None
  }

  /** A run of the responder from the start of Read. */
  function After(singleLimit: nat, streamLimit: nat, steps: seq<Step>): (r: Option<State>)
    requires singleLimit < TWO_32 && streamLimit < TWO_32
    ensures r.Some? ==> Numbered(r.value)
  {
    Exec(Initial(singleLimit, streamLimit), steps)
  }

  lemma {:induction false} ExecInv(s: State, steps: seq<Step>)
    requires Inv(s) && Exec(s, steps).Some?
    ensures Inv(Exec(s, steps).value)
    ensures Exec(s, steps).value.singles.limit == s.singles.limit
    ensures Exec(s, steps).value.streams.limit == s.streams.limit
    decreases |steps|
  {
    hide Enabled, Apply, RequestOk, IdsMatch, SlotsAgree;
    if steps != [] {
      StepKeepsLimit(s, steps[0]);
      StepInv(s, steps[0]);
      ExecInv(Apply(s, steps[0]), steps[1..]);
    }
  }

  // ----- Every request is answered exactly once -----------------------------------------------

  /** The replies to request k are exactly these; if the connection died, the beginning of them. */
  predicate Wrote(s: State, k: nat, cs: seq<Content>) {
    if s.dead then Of(s.out, k) <= cs else Of(s.out, k) == cs
  }

  /**
   Every request gets exactly one response. On a connection that works, each request received is
   in exactly one of three places: the read loop has not decided on it yet and nothing has been
   written for it; its handler runs and what the handler has emitted so far has been written; or
   its response is complete and has been written, whether it is one reply (refused, unknown,
   served, failed, panicked) or the trace of a stream handler's script and error. When the
   connection breaks, the end of a response can be lost but nothing is duplicated or reordered.
   */
  lemma AnsweredOnce(singleLimit: nat, streamLimit: nat, steps: seq<Step>, k: nat)
    requires singleLimit < TWO_32 && streamLimit < TWO_32 && After(singleLimit, streamLimit, steps).Some?
    requires k < |After(singleLimit, streamLimit, steps).value.received|
    ensures var s := After(singleLimit, streamLimit, steps).value;
            && (s.healthy ==>
                 && !s.dead
                 && (if Held(s, k) then 1 else 0) + (if IsRunning(s, k) then 1 else 0)
                    + (if k in s.answers then 1 else 0) == 1)
            && (Held(s, k) ==> Of(s.out, k) == [])
            && (IsRunning(s, k) ==> Wrote(s, k, Due(s, k)))
            && (k in s.answers ==> Wrote(s, k, AnswerContents(s.answers[k])))
            && (!IsStream(s, k) ==> |Of(s.out, k)| <= 1)
            && (forall j :: 0 <= j < |s.out| && s.out[j].k == k ==> s.out[j].r.id == s.received[k].id)
  {
    StartInv(singleLimit, streamLimit);
    ExecInv(Initial(singleLimit, streamLimit), steps);
    var s := After(singleLimit, streamLimit, steps).value;
    assert RequestOk(s, k);
    hide Of, AnswerContents;
    if !IsStream(s, k) {
      SingleDue(s, k);
    }
  }

  lemma StartInv(singleLimit: nat, streamLimit: nat)
    requires singleLimit < TWO_32 && streamLimit < TWO_32
    ensures Inv(Initial(singleLimit, streamLimit))
  {
  }

  lemma SingleDue(s: State, k: nat)
    requires KindOk(s, k) && InOnePlace(s, k) && !IsStream(s, k)
    ensures |Due(s, k)| <= 1 && (forall c :: c in Due(s, k) ==> !c.kind.Part?)
    ensures k !in s.answers ==> Due(s, k) == []
  {
    NothingEmitted();
    hide Contents, W.Emitted;
  }

  /**
   While the read loop runs, each counter is exactly the number of handlers of its kind that have
   not given back their slot plus the one the loop may hold, without wrap-around; live handlers
   never exceed the limit; and an increment is refused exactly when the limit has been reached. At
   any time the count of single requests is right, and that of stream requests if and only if no
   part of a stream has failed to be read.
   */
  lemma SlotsCounted(singleLimit: nat, streamLimit: nat, steps: seq<Step>, req: Request, stream: bool)
    requires singleLimit < TWO_32 && streamLimit < TWO_32 && After(singleLimit, streamLimit, steps).Some?
    requires (if stream then streamLimit else singleLimit) < UNLIMITED
    ensures var s := After(singleLimit, streamLimit, steps).value;
            var x, h := SlotsFor(s, stream), |HandlersOf(s, stream)|;
            && h <= x.limit == (if stream then streamLimit else singleLimit)
            && (x.count == h + LoopSlots(s, stream) <==> !(s.extra && stream))
            && (!s.loop.Ended? ==> x.count == h + LoopSlots(s, stream))
            && (s.loop.AtHead? ==> (Apply(s, Accept(req, stream)).loop.BackingOut? <==> h == x.limit))
  {
    hide RequestOk, IdsMatch, SlotsAgree, Numbered, Exec, Apply, LoopSlots, HandlersOf;
    StartInv(singleLimit, streamLimit);
    ExecInv(Initial(singleLimit, streamLimit), steps);
    CountIsExact(After(singleLimit, streamLimit, steps).value, req, stream);
  }

  lemma CountIsExact(s: State, req: Request, stream: bool)
    requires Numbered(s) && SlotsAgree(s, stream) && SlotsFor(s, stream).limit < UNLIMITED
    ensures var x, h := SlotsFor(s, stream), |HandlersOf(s, stream)|;
            && h <= x.limit
            && (x.count == h + LoopSlots(s, stream) <==> !(s.extra && stream))
            && (!s.loop.Ended? ==> x.count == h + LoopSlots(s, stream))
            && (s.loop.AtHead? ==> (Apply(s, Accept(req, stream)).loop.BackingOut? <==> h == x.limit))
  {
    hide HandlersOf;
  }

  /** Without a limit nothing is counted and nothing is refused. */
  lemma UnlimitedAdmits(singleLimit: nat, streamLimit: nat, steps: seq<Step>, req: Request, stream: bool)
    requires singleLimit < TWO_32 && streamLimit < TWO_32 && After(singleLimit, streamLimit, steps).Some?
    requires (if stream then streamLimit else singleLimit) == UNLIMITED
    ensures var s := After(singleLimit, streamLimit, steps).value;
            s.loop.AtHead? ==> Apply(s, Accept(req, stream)).loop.Admitted?
  {
    StartInv(singleLimit, streamLimit);
    ExecInv(Initial(singleLimit, streamLimit), steps);
    hide RequestOk, IdsMatch, SlotsAgree;
  }

  // ----- Single requests ----------------------------------------------------------------------

  lemma {:induction false} OfHolds(out: seq<Reply>, k: nat, j: nat)
    requires j < |out| && out[j].k == k
    ensures Content(out[j].r.kind, out[j].r.data) in Of(out, k)
  {
    if j < |out| - 1 {
      OfHolds(out[..|out| - 1], k, j);
    }
  }

  lemma {:induction false} OfTwo(out: seq<Reply>, k: nat, i: nat, j: nat)
    requires i < j < |out| && out[i].k == k && out[j].k == k
    ensures |Of(out, k)| >= 2
  {
    if j < |out| - 1 {
      OfTwo(out[..|out| - 1], k, i, j);
    } else {
      OfHolds(out[..j], k, i);
    }
  }

  /** Replies i and j are to the same single request. */
  predicate IsSameSingle(s: State, i: nat, j: nat)
    requires i < |s.out| && j < |s.out|
  {
    s.out[i].k == s.out[j].k && !IsStream(s, s.out[i].k)
  }

  /** Single requests have one reply each at most, none of them a part, and only those answered have one. */
  lemma SingleReplies(s: State)
    requires Inv(s)
    ensures forall i, j :: 0 <= i < |s.out| && 0 <= j < |s.out| && IsSameSingle(s, i, j) ==> i == j
    ensures forall j :: 0 <= j < |s.out| && !IsStream(s, s.out[j].k) ==>
              && !s.out[j].r.kind.Part? && s.out[j].k in s.answers
              && s.answers[s.out[j].k] == Single(Content(s.out[j].r.kind, s.out[j].r.data))
  {
    hide Of, Due;
    forall j | 0 <= j < |s.out| && !IsStream(s, s.out[j].k)
      ensures |Of(s.out, s.out[j].k)| <= 1 && !s.out[j].r.kind.Part? && s.out[j].k in s.answers
      ensures s.answers[s.out[j].k] == Single(Content(s.out[j].r.kind, s.out[j].r.data))
    {
      var k := s.out[j].k;
      assert RequestOk(s, k);
      SingleDue(s, k);
      OfHolds(s.out, k, j);
      SingleAnswer(s, k);
    }
    forall i, j | 0 <= i < |s.out| && 0 <= j < |s.out| && IsSameSingle(s, i, j)
      ensures i == j
    {
      if i < j {
        OfTwo(s.out, s.out[i].k, i, j);
      } else if j < i {
        OfTwo(s.out, s.out[i].k, j, i);
      }
    }
  }

  /** The same for a socket that has received single requests only. */
  lemma OnlySingleReplies(s: State)
    requires Inv(s) && true !in s.isStream
    ensures forall i, j :: 0 <= i < |s.out| && 0 <= j < |s.out| && s.out[i].k == s.out[j].k ==> i == j
    ensures forall j :: 0 <= j < |s.out| ==>
              && !s.out[j].r.kind.Part? && s.out[j].k in s.answers
              && s.answers[s.out[j].k] == Single(Content(s.out[j].r.kind, s.out[j].r.data))
  {
    SingleReplies(s);
    forall k: nat | k < |s.isStream|
      ensures !s.isStream[k]
    {
      assert s.isStream[k] in s.isStream;
    }
    forall i, j | 0 <= i < |s.out| && 0 <= j < |s.out| && s.out[i].k == s.out[j].k
      ensures i == j
    {
      assert IsSameSingle(s, i, j);
    }
    hide RequestOk, SlotsAgree;
  }

  lemma SingleAnswer(s: State, k: nat)
    requires KindOk(s, k) && !IsStream(s, k) && k in s.answers
    ensures s.answers[k].Single? && Due(s, k) == [s.answers[k].c]
  {
  }

  // ----- Responses per request id -------------------------------------------------------------

  function ReceivedWith(s: State, id: nat): set<nat> {
    set k | 0 <= k < |s.received| && s.received[k].id == id
  }

  /** Replies to single requests. */
  function RepliesWith(s: State, id: nat): set<nat> {
    set j | 0 <= j < |s.out| && s.out[j].r.id == id && !IsStream(s, s.out[j].k)
  }

  function RunningWith(s: State, id: nat): set<nat>
    requires Numbered(s)
  {
    set k | k in s.handlers && IsRunning(s, k) && s.received[k].id == id
  }

  function HeldWith(s: State, id: nat): set<nat> {
    set k | 0 <= k < |s.received| && Held(s, k) && s.received[k].id == id
  }

  /** Requests whose response is complete. */
  function CompletedWith(s: State, id: nat): set<nat> {
    set k | 0 <= k < |s.received| && k in s.answers && s.received[k].id == id
  }

  /** Those of them that are single requests. */
  function CompletedSinglesWith(s: State, id: nat): set<nat> {
    set k | k in CompletedWith(s, id) && !IsStream(s, k)
  }

  lemma {:induction false} ImageSize(a: set<nat>, b: set<nat>, f: nat -> nat)
    requires forall i, j :: i in a && j in a && f(i) == f(j) ==> i == j
    requires forall i :: i in a ==> f(i) in b
    requires forall k :: k in b ==> exists i :: i in a && f(i) == k
    ensures |a| == |b|
  {
    if a == {} {
      assert b == {};
    } else {
      var i :| i in a;
      ImageSize(a - {i}, b - {f(i)}, f);
    }
  }

  lemma OfSome(s: State, k: nat)
    requires Inv(s) && !s.dead && k < |s.received| && k in s.answers && !IsStream(s, k)
    ensures exists j :: 0 <= j < |s.out| && s.out[j].k == k
  {
    assert RequestOk(s, k);
    if forall j :: 0 <= j < |s.out| ==> s.out[j].k != k {
      OfNone(s.out, k);
    }
  }

  /** Completed responses to single requests are as many as the replies. */
  lemma CompletedAreReplies(s: State, id: nat)
    requires Inv(s) && !s.dead
    ensures |RepliesWith(s, id)| == |CompletedSinglesWith(s, id)|
  {
    var f := (j: nat) => if j < |s.out| then s.out[j].k else 0;
    SingleReplies(s);
    forall k | k in CompletedSinglesWith(s, id)
      ensures exists j :: j in RepliesWith(s, id) && f(j) == k
    {
      OfSome(s, k);
      var j :| 0 <= j < |s.out| && s.out[j].k == k;
      assert j in RepliesWith(s, id) && f(j) == k;
    }
    hide RequestOk, SlotsAgree;
    forall i, j | i in RepliesWith(s, id) && j in RepliesWith(s, id) && f(i) == f(j)
      ensures i == j
    {
      assert IsSameSingle(s, i, j);
    }
    ImageSize(RepliesWith(s, id), CompletedSinglesWith(s, id), f);
  }

  lemma Partition(s: State, id: nat)
    requires Inv(s) && s.healthy
    ensures ReceivedWith(s, id) == CompletedWith(s, id) + RunningWith(s, id) + HeldWith(s, id)
    ensures CompletedWith(s, id) !! RunningWith(s, id)
    ensures (CompletedWith(s, id) + RunningWith(s, id)) !! HeldWith(s, id)
  {
    hide Held, SlotsAgree, OnWire, KindOk, IdsMatch;
    forall k | k in ReceivedWith(s, id)
      ensures k in CompletedWith(s, id) + RunningWith(s, id) + HeldWith(s, id)
      ensures !(k in CompletedWith(s, id) && k in RunningWith(s, id))
      ensures !(k in CompletedWith(s, id) + RunningWith(s, id) && k in HeldWith(s, id))
    {
      assert RequestOk(s, k);
    }
  }

  lemma ThreeParts(a: set<nat>, b: set<nat>, c: set<nat>)
    requires a !! b && (a + b) !! c
    ensures |a + b + c| == |a| + |b| + |c|
  {
    assert |a + b| == |a| + |b|;
  }

  lemma HoldsOne(s: State, id: nat)
    ensures |HeldWith(s, id)| <= 1
  {
    if HeldWith(s, id) != {} {
      assert HeldWith(s, id) == {s.loop.k};
    }
  }

  /**
   Conservation: on a connection that works, for every id the requests received with it are as
   many as the completed responses to them plus its running handlers, plus one if the read loop is
   about to decide on such a request. The completed responses to single requests are as many as
   the replies to them written with the id.
   */
  lemma ResponsesConserved(singleLimit: nat, streamLimit: nat, steps: seq<Step>, id: nat)
    requires singleLimit < TWO_32 && streamLimit < TWO_32 && After(singleLimit, streamLimit, steps).Some?
    requires After(singleLimit, streamLimit, steps).value.healthy
    ensures var s := After(singleLimit, streamLimit, steps).value;
            && |ReceivedWith(s, id)| == |CompletedWith(s, id)| + |RunningWith(s, id)| + |HeldWith(s, id)|
            && |HeldWith(s, id)| <= 1
            && |RepliesWith(s, id)| == |CompletedSinglesWith(s, id)|
  {
    StartInv(singleLimit, streamLimit);
    ExecInv(Initial(singleLimit, streamLimit), steps);
    var s := After(singleLimit, streamLimit, steps).value;
    hide ReceivedWith, RepliesWith, CompletedWith, CompletedSinglesWith, RunningWith, HeldWith;
    hide RequestOk, SlotsAgree, IdsMatch;
    Partition(s, id);
    ThreeParts(CompletedWith(s, id), RunningWith(s, id), HeldWith(s, id));
    HoldsOne(s, id);
    CompletedAreReplies(s, id);
  }

  // ----- The extra decrement ------------------------------------------------------------------

  lemma StepEnded(s: State, step: Step)
    requires Numbered(s) && s.loop.Ended? && Enabled(s, step)
    ensures var s' := Apply(s, step); s'.loop.Ended? && s'.received == s.received
  {
    EmitNumbered(s, step);
  }

  /** Once the loop has ended no request is received any more, so the counter is never consulted again. */
  lemma {:induction false} EndedForever(s: State, steps: seq<Step>)
    requires Numbered(s) && s.loop.Ended? && Exec(s, steps).Some?
    ensures var r := Exec(s, steps).value; r.loop.Ended? && r.received == s.received
    decreases |steps|
  {
    hide Apply, Enabled, Numbered;
    if steps != [] {
      StepNumbered(s, steps[0]);
      StepEnded(s, steps[0]);
      EndedForever(Apply(s, steps[0]), steps[1..]);
    }
  }

  /** The extra decrement happens only on a path that ends the loop. */
  lemma ExtraOnlyAtTheEnd(singleLimit: nat, streamLimit: nat, steps: seq<Step>)
    requires singleLimit < TWO_32 && streamLimit < TWO_32 && After(singleLimit, streamLimit, steps).Some?
    ensures
      var s := After(singleLimit, streamLimit, steps).value;
      s.extra ==> s.loop.Ended?
  {
    StartInv(singleLimit, streamLimit);
    ExecInv(Initial(singleLimit, streamLimit), steps);
  }

  lemma {:induction false} ExecAppend(s: State, steps: seq<Step>, step: Step)
    requires Numbered(s) && Exec(s, steps).Some? && Enabled(Exec(s, steps).value, step)
    ensures Exec(s, steps + [step]) == Some(Apply(Exec(s, steps).value, step))
    decreases |steps|
  {
    hide Enabled, Apply, Numbered;
    if steps == [] {
      StepNumbered(s, step);
      assert Exec(Apply(s, step), []) == Some(Apply(s, step));
      assert (steps + [step])[1..] == [];
    } else {
      assert (steps + [step])[1..] == steps[1..] + [step];
      StepNumbered(s, steps[0]);
      ExecAppend(Apply(s, steps[0]), steps[1..], step);
    }
  }

  /** Takes one more step of a run. */
  lemma Then(singleLimit: nat, streamLimit: nat, steps: seq<Step>, s: State, step: Step)
    returns (steps': seq<Step>, s': State)
    requires singleLimit < TWO_32 && streamLimit < TWO_32
    requires After(singleLimit, streamLimit, steps) == Some(s) && Enabled(s, step)
    ensures After(singleLimit, streamLimit, steps') == Some(s') && s' == Apply(s, step)
  {
    StartInv(singleLimit, streamLimit);
    ExecAppend(Initial(singleLimit, streamLimit), steps, step);
    steps', s' := steps + [step], Apply(s, step);
  }

  /** A stream request is dispatched, and the loop ends on a part of it that cannot be read. */
  lemma TornPart(req: Request) returns (steps: seq<Step>, s: State)
    ensures After(1, 1, steps) == Some(s)
    ensures s == State(Slots(1, 0), Slots(1, 0), Ended, map[0 := Running([])], false,
                       [req], [true], [], map[], false, true)
  {
    hide Exec;
    NoSteps(1, 1);
    steps, s := [], Initial(1, 1);
    steps, s := Then(1, 1, steps, s, Accept(req, true));
    steps, s := Then(1, 1, steps, s, Dispatch);
    steps, s := Then(1, 1, steps, s, PartTorn);
  }

  lemma NoSteps(singleLimit: nat, streamLimit: nat)
    requires singleLimit < TWO_32 && streamLimit < TWO_32
    ensures After(singleLimit, streamLimit, []) == Some(Initial(singleLimit, streamLimit))
  {
  }

  /** A part that cannot be read gives back a slot its handler gives back again: the counter wraps around. */
  lemma TornPartWraps(req: Request) returns (steps: seq<Step>, s: State)
    ensures After(1, 1, steps) == Some(s)
    ensures s.streams.count == TWO_32 - 1 && s.handlers == map[] && s.loop.Ended?
  {
    hide Exec;
    steps, s := TornPart(req);
    steps, s := Then(1, 1, steps, s, StreamReturns(0, None, true));
    steps, s := Then(1, 1, steps, s, StreamCloses(0, true));
    steps, s := Then(1, 1, steps, s, HandlerReleases(0));
  }
}
